/**
  SubjectAccessPolicy (backend/mastery/access_policies/subject.py): which
  subjects a user may list (scope_queryset) and retrieve or change (the
  statements and their conditions). The target of a request is the id in
  the request path, absent when the path has none.
 */
module SubjectPolicy {
  import opened Text
  import opened Mastery
  import opened AccessBase

  /** The schools where the user holds a UserSchool row with the "admin" role. */
  function AdminSchools(db: Db, u: Id): set<Id> {
    set s | s in db.userSchools && s.user == u && s.role.name == "admin" :: s.school
  }

  /** subject.groups: the groups that use the subject. */
  function SubjectGroups(db: Db, s: Id): set<Id> {
    set g | g in db.groups && db.groups[g].subject == Some(s)
  }

  /** The goal exists and is attached to the subject (subject.goals). */
  predicate GoalOn(db: Db, o: Id, s: Id) {
    o in db.goals && db.goals[o].subject == Some(s)
  }

  /** The goal's student is in a basis group the user teaches. */
  predicate StudentInTaughtBasisGroup(db: Db, u: Id, row: GoalRow) {
    row.student.Some? && exists g :: g in BasisTeacherGroups(db, u) && InGroup(db, row.student.value, g)
  }

  // ---------------------------------------------------------------- scope

  /** The seven clauses of the scope filter, OR-ed. */
  predicate Reaches(db: Db, u: Id, s: Id, row: SubjectRow) {
    (exists g :: g in GroupsOf(db, u) && g in SubjectGroups(db, s))
    || row.createdBy == Some(u)
    || (exists o :: o in db.goals && GoalOn(db, o, s) && db.goals[o].createdBy == Some(u))
    || (exists o :: o in db.goals && GoalOn(db, o, s) && db.goals[o].student == Some(u))
    || (exists o :: o in db.goals && GoalOn(db, o, s) && StudentInTaughtBasisGroup(db, u, db.goals[o]))
    || (exists g :: g in SubjectGroups(db, s) && db.groups[g].school in AdminSchools(db, u))
    || (row.ownedBySchool.Some? && row.ownedBySchool.value in AdminSchools(db, u))
  }

  function Scope(db: Db, u: Id, qs: set<Id>): (r: set<Id>)
    ensures r <= qs
  {
    if IsSuperadmin(db, u) then qs
    else set s | s in qs && s in db.subjects && Reaches(db, u, s, db.subjects[s])
  }

  // ---------------------------------------------------------------- conditions

  /**
    SubjectViewSet.get_queryset as get_object uses it outside a listing
    (backend/mastery/api/views.py:479-481): the scope, then the deleted
    filter. Every condition but the school admin one calls get_object and
    reads the target through it.
   */
  function ObjectQueryset(db: Db, u: Id, rq: Request): set<Id> {
    set s | s in Scope(db, u, db.subjects.Keys) && s in db.subjects && PassesDeletedFilter(rq, db.subjects[s].deletedAt)
  }

  predicate IsAdminAtSchoolWhichOwnsSubject(db: Db, u: Id, t: Option<Id>) {
    t.Some? && t.value in db.subjects && t.value in Scope(db, u, db.subjects.Keys)
    && db.subjects[t.value].ownedBySchool.Some? && db.subjects[t.value].ownedBySchool.value in AdminSchools(db, u)
  }

  /** belongs_to_group: the user's groups and the subject's groups intersect. */
  predicate BelongsToGroup(db: Db, u: Id, rq: Request, t: Option<Id>) {
    t.Some? && t.value in ObjectQueryset(db, u, rq) && GroupsOf(db, u) * SubjectGroups(db, t.value) != {}
  }

  predicate IsUserCreator(db: Db, u: Id, rq: Request, t: Option<Id>) {
    t.Some? && t.value in ObjectQueryset(db, u, rq) && db.subjects[t.value].createdBy == Some(u)
  }

  predicate IsUserOwner(db: Db, u: Id, rq: Request, t: Option<Id>) {
    t.Some? && t.value in ObjectQueryset(db, u, rq) && exists o :: o in db.goals && GoalOn(db, o, t.value) && db.goals[o].student == Some(u)
  }

  predicate IsUserCreatorOfGoal(db: Db, u: Id, rq: Request, t: Option<Id>) {
    t.Some? && t.value in ObjectQueryset(db, u, rq) && exists o :: o in db.goals && GoalOn(db, o, t.value) && db.goals[o].createdBy == Some(u)
  }

  predicate IsGoalStudentInBasisGroupTaughtByUser(db: Db, u: Id, rq: Request, t: Option<Id>) {
    t.Some? && t.value in ObjectQueryset(db, u, rq) && exists o :: o in db.goals && GoalOn(db, o, t.value) && StudentInTaughtBasisGroup(db, u, db.goals[o])
  }

  datatype Condition =
    | AdminAtOwningSchool
    | MemberOfSubjectGroup
    | UserCreator
    | UserOwner
    | UserCreatorOfGoal
    | GoalStudentInTaughtBasisGroup

  predicate ConditionHolds(db: Db, u: Id, rq: Request, t: Option<Id>, c: Condition) {
    match c
    case AdminAtOwningSchool => IsAdminAtSchoolWhichOwnsSubject(db, u, t)
    case MemberOfSubjectGroup => BelongsToGroup(db, u, rq, t)
    case UserCreator => IsUserCreator(db, u, rq, t)
    case UserOwner => IsUserOwner(db, u, rq, t)
    case UserCreatorOfGoal => IsUserCreatorOfGoal(db, u, rq, t)
    case GoalStudentInTaughtBasisGroup => IsGoalStudentInBasisGroupTaughtByUser(db, u, rq, t)
  }

  const Statements: seq<Statement<Condition>> := [
    Statement(AnyAction, {RolePrincipal("superadmin")}, Allow, None),
    Statement(AnyAction, {RolePrincipal("admin")}, Allow, Some(AdminAtOwningSchool)),
    Statement(Only({ListAction}), {Authenticated}, Allow, None),
    Statement(Only({RetrieveAction}), {RolePrincipal("student"), RolePrincipal("teacher")}, Allow, Some(MemberOfSubjectGroup)),
    Statement(Only({RetrieveAction}), {Everyone}, Allow, Some(UserCreator)),
    Statement(Only({RetrieveAction}), {RolePrincipal("student")}, Allow, Some(UserOwner)),
    Statement(Only({RetrieveAction}), {RolePrincipal("teacher")}, Allow, Some(UserCreatorOfGoal)),
    Statement(Only({RetrieveAction}), {RolePrincipal("teacher")}, Allow, Some(GoalStudentInTaughtBasisGroup))
  ]

  /** The request as the policy decides it: principals from the user's group roles only. */
  predicate MayAccessAsWritten(db: Db, u: Id, rq: Request, t: Option<Id>, action: Action) {
    Allowed(Statements, UserGroupValues(db, u), action, c => ConditionHolds(db, u, rq, t, c))
  }

  /**
    The principal values with the user's school roles added, so that the
    "role:admin" statement reaches the school admins its condition reads.
   */
  function PrincipalValues(db: Db, u: Id): set<string> {
    UserGroupValues(db, u) + (set s | s in db.userSchools && s.user == u :: s.role.name)
  }

  predicate MayAccess(db: Db, u: Id, rq: Request, t: Option<Id>, action: Action) {
    Allowed(Statements, PrincipalValues(db, u), action, c => ConditionHolds(db, u, rq, t, c))
  }

  // ---------------------------------------------------------------- properties

  /**
    is_admin_at_school_which_owns_subject holds exactly for a subject owned
    by a school where the user is admin: such a subject is always in scope.
    A Feide-synchronized subject, owned by no school, never passes it.
   */
  lemma AdminAtOwningSchoolIff(db: Db, u: Id, t: Option<Id>)
    ensures IsAdminAtSchoolWhichOwnsSubject(db, u, t) <==>
      t.Some? && t.value in db.subjects && db.subjects[t.value].ownedBySchool.Some?
      && db.subjects[t.value].ownedBySchool.value in AdminSchools(db, u)
    ensures t.Some? && t.value in db.subjects && IsFeideSynchronized(db.subjects[t.value]) ==> !IsAdminAtSchoolWhichOwnsSubject(db, u, t)
  {
  }

  /**
    belongs_to_group holds exactly for a subject the deleted filter keeps
    and some group of the user uses: membership alone puts it in scope.
   */
  lemma {:induction false} BelongsToGroupIff(db: Db, u: Id, rq: Request, t: Option<Id>)
    ensures BelongsToGroup(db, u, rq, t) <==>
      t.Some? && t.value in db.subjects && PassesDeletedFilter(rq, db.subjects[t.value].deletedAt)
      && exists g :: InGroup(db, u, g) && g in SubjectGroups(db, t.value)
  {
    if t.Some? && t.value in db.subjects {
      if BelongsToGroup(db, u, rq, t) {
        var g :| g in GroupsOf(db, u) * SubjectGroups(db, t.value);
        GroupsOfIff(db, u, g);
      }
      if exists g :: InGroup(db, u, g) && g in SubjectGroups(db, t.value) {
        var g :| InGroup(db, u, g) && g in SubjectGroups(db, t.value);
        GroupsOfIff(db, u, g);
        assert g in GroupsOf(db, u) * SubjectGroups(db, t.value);
      }
    }
  }

  /** Whatever a user may retrieve or change they may also list. */
  lemma {:induction false} AccessibleIsListed(db: Db, u: Id, rq: Request, t: Id, action: Action)
    requires NoSuperadminRole(db) && forall s :: s in db.userSchools ==> s.role.name != "superadmin"
    requires action != ListAction
    requires t in db.subjects && MayAccess(db, u, rq, Some(t), action)
    ensures t in Scope(db, u, db.subjects.Keys)
  {
    var values := PrincipalValues(db, u);
    var holds := c => ConditionHolds(db, u, rq, Some(t), c);
    var i :| 0 <= i < |Statements| && Statements[i].effect == Allow && Applies(Statements[i], values, action, holds);
    if i == 0 {
      var v :| v in values && RolePrincipal(v) in Statements[0].principals;
      UserGroupValuesIff(db, u, v);
    } else {
      assert i in {1, 3, 4, 5, 6, 7};
    }
  }

  /** A school admin may retrieve and change every subject their school owns. */
  lemma SchoolAdminMayAccessOwnedSubject(db: Db, u: Id, rq: Request, t: Id, action: Action)
    requires t in db.subjects && db.subjects[t].ownedBySchool.Some?
    requires db.subjects[t].ownedBySchool.value in AdminSchools(db, u)
    ensures MayAccess(db, u, rq, Some(t), action)
  {
    var values := PrincipalValues(db, u);
    var holds := c => ConditionHolds(db, u, rq, Some(t), c);
    var s :| s in db.userSchools && s.user == u && s.role.name == "admin" && s.school == db.subjects[t].ownedBySchool.value;
    assert s.role.name in values;
    AdminAtOwningSchoolIff(db, u, Some(t));
    assert Applies(Statements[1], values, action, holds);
  }

  /**
    As written, a school admin holding no group role lists a subject their
    school owns (SchoolAdminListsOwnedSubject) but may neither retrieve nor
    change it: "role:admin" is matched against group roles only.
   */
  lemma SchoolAdminShutOutAsWritten(db: Db, rq: Request)
    requires db == Db(map[1 := UserRow(false, None)], map[], {}, {UserSchool(1, 5, Role(3, "admin"))}, map[], map[],
                      map[20 := SubjectRow(Some(5), None, None)])
    ensures !MayAccessAsWritten(db, 1, rq, Some(20), RetrieveAction)
    ensures !MayAccessAsWritten(db, 1, rq, Some(20), OtherAction("update"))
  {
    assert UserGroupValues(db, 1) == {};
  }

  lemma SchoolAdminListsOwnedSubject(db: Db)
    requires db == Db(map[1 := UserRow(false, None)], map[], {}, {UserSchool(1, 5, Role(3, "admin"))}, map[], map[],
                      map[20 := SubjectRow(Some(5), None, None)])
    ensures 20 in Scope(db, 1, db.subjects.Keys)
  {
    var admin := UserSchool(1, 5, Role(3, "admin"));
    assert admin.school in AdminSchools(db, 1);
  }
}
