/**
  UserAccessPolicy (backend/mastery/access_policies/user.py): which users a
  user may list (scope_queryset) and retrieve.
 */
module UserPolicy {
  import opened Text
  import opened Mastery
  import opened AccessBase

  /** The user has a membership of one of the groups. */
  predicate MemberOfAny(db: Db, x: Id, groups: set<Id>) {
    exists m :: m in db.userGroups && m.user == x && m.group in groups
  }

  /** The user holds a teacher membership of a group at one of the schools. */
  predicate TeacherAt(db: Db, x: Id, schools: set<Id>) {
    exists m :: m in db.userGroups && m.user == x && m.role.name == "teacher" && m.group in db.groups && db.groups[m.group].school in schools
  }

  /** teacher_ids: the teachers of groups at the user's schools. */
  function TeacherIds(db: Db, u: Id): set<Id> {
    set m | m in db.userGroups && m.role.name == "teacher" && m.group in db.groups && db.groups[m.group].school in SchoolsOf(db, u) :: m.user
  }

  /**
    scope_queryset: everything for a superadmin; otherwise the user, the
    members of the groups where the user teaches or studies, and the
    teachers at the user's schools.
   */
  function Scope(db: Db, u: Id, qs: set<Id>): (r: set<Id>)
    ensures r <= qs
  {
    if IsSuperadmin(db, u) then qs
    else set x | x in qs && x in db.users && Reaches(db, u, x)
  }

  /** The filter disjunction of scope_queryset. */
  predicate Reaches(db: Db, u: Id, x: Id) {
    x == u || MemberOfAny(db, x, TeacherGroups(db, u)) || MemberOfAny(db, x, StudentGroups(db, u)) || x in TeacherIds(db, u)
  }

  // ---------------------------------------------------------------- conditions

  /**
    UserViewSet.get_queryset as get_object uses it
    (backend/mastery/api/views.py:137-140): the scope, then the deleted
    filter. Every condition below reads the target through it.
   */
  function ObjectQueryset(db: Db, u: Id, rq: Request): set<Id> {
    set x | x in Scope(db, u, db.users.Keys) && x in db.users && PassesDeletedFilter(rq, db.users[x].deletedAt)
  }

  predicate IsUserSelf(db: Db, u: Id, rq: Request, t: Id) {
    t in ObjectQueryset(db, u, rq) && u == t
  }

  predicate IsInSameGroup(db: Db, u: Id, rq: Request, t: Id) {
    t in ObjectQueryset(db, u, rq) && MemberOfAny(db, t, GroupsOf(db, u))
  }

  predicate IsTargetTeacherAtMySchool(db: Db, u: Id, rq: Request, t: Id) {
    t in ObjectQueryset(db, u, rq) && SchoolsOf(db, u) != {} && TeacherAt(db, t, SchoolsOf(db, u))
  }

  datatype Condition = UserSelf | SameGroupOrTeacherAtMySchool

  predicate ConditionHolds(db: Db, u: Id, rq: Request, t: Id, c: Condition) {
    match c
    case UserSelf => IsUserSelf(db, u, rq, t)
    case SameGroupOrTeacherAtMySchool => IsInSameGroup(db, u, rq, t) || IsTargetTeacherAtMySchool(db, u, rq, t)
  }

  const Statements: seq<Statement<Condition>> := [
    Statement(AnyAction, {RolePrincipal("superadmin")}, Allow, None),
    Statement(Only({ListAction}), {Authenticated}, Allow, None),
    Statement(Only({RetrieveAction}), {Authenticated}, Allow, Some(UserSelf)),
    Statement(Only({RetrieveAction}), {RolePrincipal("student"), RolePrincipal("teacher")}, Allow, Some(SameGroupOrTeacherAtMySchool))
  ]

  predicate MayRetrieve(db: Db, u: Id, rq: Request, t: Id) {
    Allowed(Statements, UserGroupValues(db, u), RetrieveAction, c => ConditionHolds(db, u, rq, t, c))
  }

  // ---------------------------------------------------------------- properties

  /**
    A teacher at one of the user's schools is in the user's scope, and
    is_target_teacher_at_my_school holds exactly for such a teacher that
    get_object finds: its early return for a user without schools changes
    nothing, since nobody teaches at a school of an empty set.
   */
  lemma {:induction false} TeacherAtMySchoolListed(db: Db, u: Id, rq: Request, t: Id)
    ensures IsTargetTeacherAtMySchool(db, u, rq, t) <==> t in ObjectQueryset(db, u, rq) && TeacherAt(db, t, SchoolsOf(db, u))
    ensures t in db.users && TeacherAt(db, t, SchoolsOf(db, u)) ==> t in Scope(db, u, db.users.Keys)
  {
    if t in db.users && TeacherAt(db, t, SchoolsOf(db, u)) {
      var m :| m in db.userGroups && m.user == t && m.role.name == "teacher" && m.group in db.groups
        && db.groups[m.group].school in SchoolsOf(db, u);
      assert m.user in TeacherIds(db, u);
    }
  }

  /** The user always lists themselves, and lists the members of groups where they teach or study. */
  lemma {:induction false} SelfAndClassmatesListed(db: Db, u: Id, t: Id, g: Id)
    requires t in db.users
    ensures u == t ==> t in Scope(db, u, db.users.Keys)
    ensures (g in TeacherGroups(db, u) || g in StudentGroups(db, u)) && InGroup(db, t, g) ==> t in Scope(db, u, db.users.Keys)
  {
    if InGroup(db, t, g) {
      var m :| m in db.userGroups && m.user == t && m.group == g;
      assert m.group == g;
    }
  }

  /** Every user may retrieve their own row, unless the deleted filter hides it. */
  lemma SelfRetrievable(db: Db, u: Id, rq: Request)
    requires u in db.users
    ensures MayRetrieve(db, u, rq, u) <==> PassesDeletedFilter(rq, db.users[u].deletedAt) || "superadmin" in UserGroupValues(db, u)
  {
    var values := UserGroupValues(db, u);
    var holds := c => ConditionHolds(db, u, rq, u, c);
    SelfAndClassmatesListed(db, u, u, u);
    if PassesDeletedFilter(rq, db.users[u].deletedAt) {
      assert u in ObjectQueryset(db, u, rq);
      assert Applies(Statements[2], values, RetrieveAction, holds);
    }
    if "superadmin" in values {
      assert Applies(Statements[0], values, RetrieveAction, holds);
    }
  }

  /**
    Whatever user a user may retrieve they may also list; a user who is
    not a superadmin may retrieve only users get_object finds.
   */
  lemma {:induction false} RetrievableIsListed(db: Db, u: Id, rq: Request, t: Id)
    requires NoSuperadminRole(db) && t in db.users
    ensures MayRetrieve(db, u, rq, t) ==> t in Scope(db, u, db.users.Keys)
    ensures !IsSuperadmin(db, u) && MayRetrieve(db, u, rq, t) ==> t in ObjectQueryset(db, u, rq)
  {
    var values := UserGroupValues(db, u);
    var holds := c => ConditionHolds(db, u, rq, t, c);
    if MayRetrieve(db, u, rq, t) {
      var i :| 0 <= i < |Statements| && Statements[i].effect == Allow && Applies(Statements[i], values, RetrieveAction, holds);
      if i == 0 {
        var v :| v in values && RolePrincipal(v) in Statements[0].principals;
        UserGroupValuesIff(db, u, v);
      }
    }
  }

  /**
    A teacher who shares only a staff group with another user neither
    lists nor may retrieve that user: get_object does not find them.
   */
  lemma StaffPeerNotRetrievable(db: Db, rq: Request)
    requires db == Db(map[1 := UserRow(false, None), 2 := UserRow(false, None)],
                      map[10 := GroupRow("basis", 5, None, None, None, None), 11 := GroupRow("basis", 5, None, None, None, None)],
                      {UserGroup(1, 10, Mastery.Role(1, "teacher")), UserGroup(1, 11, Mastery.Role(2, "staff")), UserGroup(2, 11, Mastery.Role(2, "staff"))},
                      {}, map[], map[], map[])
    ensures !MayRetrieve(db, 1, rq, 2) && 2 !in Scope(db, 1, db.users.Keys)
  {
    assert TeacherGroups(db, 1) == {10};
    assert StudentGroups(db, 1) == {};
    assert 2 !in TeacherIds(db, 1);
    RetrievableIsListed(db, 1, rq, 2);
  }
}
