/**
  GoalAccessPolicy (backend/mastery/access_policies/goal.py): which goals a
  user may list (scope_queryset) and retrieve (the statements and their
  conditions). The target of a retrieval is the id in the request path,
  absent when the path has none.
 */
module GoalPolicy {
  import opened Text
  import opened Mastery
  import opened AccessBase

  // ---------------------------------------------------------------- scope

  /** One Q object of the scope filter. */
  datatype Clause =
    | CreatedBy(user: Id)
    | GroupIn(groups: set<Id>)
    | StudentInGroups(groups: set<Id>)
    | StudentIs(user: Id)

  predicate Holds(db: Db, row: GoalRow, c: Clause) {
    match c
    case CreatedBy(u) => row.createdBy == Some(u)
    case GroupIn(gs) => row.group.Some? && row.group.value in gs
    case StudentInGroups(gs) => row.student.Some? && exists g :: g in gs && InGroup(db, row.student.value, g)
    case StudentIs(u) => row.student == Some(u)
  }

  predicate Matches(db: Db, row: GoalRow, filters: set<Clause>) {
    exists c :: c in filters && Holds(db, row, c)
  }

  /** The clauses scope_queryset collects: the teacher ones only for a teacher, the student ones only for a student. */
  function Filters(db: Db, u: Id): set<Clause> {
    var teacher := TeacherGroups(db, u);
    var student := StudentGroups(db, u);
    var base := {CreatedBy(u)};
    var withTeacher := if teacher != {} then base + {GroupIn(teacher), StudentInGroups(teacher)} else base;
    if student != {} then withTeacher + {StudentIs(u), GroupIn(student)} else withTeacher
  }

  function Scope(db: Db, u: Id, qs: set<Id>): (r: set<Id>)
    ensures r <= qs
  {
    if IsSuperadmin(db, u) then qs
    else set o | o in qs && o in db.goals && Matches(db, db.goals[o], Filters(db, u))
  }

  /** scope_queryset, collecting the filter clause by clause. */
  method ScopeQueryset(db: Db, u: Id, qs: set<Id>) returns (r: set<Id>)
    ensures r == Scope(db, u, qs)
  {
    if IsSuperadmin(db, u) {
      return qs;
    }
    var teacherGroupIds := TeacherGroups(db, u);
    var studentGroupIds := StudentGroups(db, u);
    var filters := {CreatedBy(u)};
    if teacherGroupIds != {} {
      filters := filters + {GroupIn(teacherGroupIds)};
      filters := filters + {StudentInGroups(teacherGroupIds)};
    }
    if studentGroupIds != {} {
      filters := filters + {StudentIs(u)};
      filters := filters + {GroupIn(studentGroupIds)};
    }
    r := set o | o in qs && o in db.goals && Matches(db, db.goals[o], filters);
  }

  // ---------------------------------------------------------------- conditions

  /**
    GoalViewSet.get_queryset as get_object uses it for a retrieval
    (backend/mastery/api/views.py:563-565): the scope, then the deleted
    filter. The conditions that call get_object read the target through
    it; is_user_creator and is_user_owner query the scope alone.
   */
  function ObjectQueryset(db: Db, u: Id, rq: Request): set<Id> {
    set o | o in Scope(db, u, db.goals.Keys) && o in db.goals && PassesDeletedFilter(rq, db.goals[o].deletedAt)
  }

  predicate IsUserCreator(db: Db, u: Id, t: Option<Id>) {
    t.Some? && t.value in db.goals && t.value in Scope(db, u, db.goals.Keys) && db.goals[t.value].createdBy == Some(u)
  }

  predicate IsGoalInGroupWhereUserIsTeacher(db: Db, u: Id, rq: Request, t: Option<Id>) {
    t.Some? && t.value in ObjectQueryset(db, u, rq) && db.goals[t.value].group.Some? && db.goals[t.value].group.value in TeacherGroups(db, u)
  }

  /** Reading the goal's student raises when that row is missing, which makes the condition false. */
  predicate IsGoalStudentInGroupTaughtByUser(db: Db, u: Id, rq: Request, t: Option<Id>) {
    t.Some? && t.value in ObjectQueryset(db, u, rq) && db.goals[t.value].student.Some? && db.goals[t.value].student.value in db.users
    && exists g :: g in TeacherGroups(db, u) && InGroup(db, db.goals[t.value].student.value, g)
  }

  predicate IsUserOwner(db: Db, u: Id, t: Option<Id>) {
    t.Some? && t.value in db.goals && t.value in Scope(db, u, db.goals.Keys) && db.goals[t.value].student == Some(u)
  }

  predicate IsGoalInGroupWhereUserIsStudent(db: Db, u: Id, rq: Request, t: Option<Id>) {
    t.Some? && t.value in ObjectQueryset(db, u, rq) && db.goals[t.value].group.Some? && db.goals[t.value].group.value in StudentGroups(db, u)
  }

  datatype Condition =
    | UserCreator
    | InGroupWhereUserIsTeacher
    | StudentInGroupTaughtByUser
    | UserOwner
    | InGroupWhereUserIsStudent

  predicate ConditionHolds(db: Db, u: Id, rq: Request, t: Option<Id>, c: Condition) {
    match c
    case UserCreator => IsUserCreator(db, u, t)
    case InGroupWhereUserIsTeacher => IsGoalInGroupWhereUserIsTeacher(db, u, rq, t)
    case StudentInGroupTaughtByUser => IsGoalStudentInGroupTaughtByUser(db, u, rq, t)
    case UserOwner => IsUserOwner(db, u, t)
    case InGroupWhereUserIsStudent => IsGoalInGroupWhereUserIsStudent(db, u, rq, t)
  }

  const Statements: seq<Statement<Condition>> := [
    Statement(AnyAction, {RolePrincipal("superadmin")}, Allow, None),
    Statement(Only({ListAction}), {Authenticated}, Allow, None),
    Statement(Only({RetrieveAction}), {Authenticated}, Allow, Some(UserCreator)),
    Statement(Only({RetrieveAction}), {RolePrincipal("teacher")}, Allow, Some(InGroupWhereUserIsTeacher)),
    Statement(Only({RetrieveAction}), {RolePrincipal("teacher")}, Allow, Some(StudentInGroupTaughtByUser)),
    Statement(Only({RetrieveAction}), {RolePrincipal("student")}, Allow, Some(UserOwner)),
    Statement(Only({RetrieveAction}), {RolePrincipal("student")}, Allow, Some(InGroupWhereUserIsStudent))
  ]

  predicate MayRetrieve(db: Db, u: Id, rq: Request, t: Option<Id>) {
    Allowed(Statements, UserGroupValues(db, u), RetrieveAction, c => ConditionHolds(db, u, rq, t, c))
  }

  // ---------------------------------------------------------------- properties

  /**
    Reference definition of the goals a user who is not a superadmin may
    list: their own creations; as a teacher, group goals of groups they
    teach and goals of students in those groups; as a member of some group
    in the student role, their own personal goals and the goals of their
    student groups.
   */
  predicate Sees(db: Db, u: Id, row: GoalRow) {
    row.createdBy == Some(u)
    || (row.group.Some? && row.group.value in TeacherGroups(db, u))
    || (row.student.Some? && exists g :: g in TeacherGroups(db, u) && InGroup(db, row.student.value, g))
    || (StudentGroups(db, u) != {} && row.student == Some(u))
    || (row.group.Some? && row.group.value in StudentGroups(db, u))
  }

  lemma {:induction false} FiltersMatch(db: Db, u: Id, row: GoalRow)
    ensures Matches(db, row, Filters(db, u)) <==> Sees(db, u, row)
  {
    var filters := Filters(db, u);
    var teacher := TeacherGroups(db, u);
    var student := StudentGroups(db, u);
    if Matches(db, row, filters) {
      var c :| c in filters && Holds(db, row, c);
      if c.GroupIn? {
        assert c.groups == teacher || c.groups == student;
      } else if c.StudentInGroups? {
        assert c.groups == teacher;
      } else if c.StudentIs? {
        assert student != {};
      }
    }
    if row.createdBy == Some(u) {
      assert Holds(db, row, CreatedBy(u));
    } else if row.group.Some? && row.group.value in teacher {
      assert Holds(db, row, GroupIn(teacher));
    } else if row.student.Some? && exists g :: g in teacher && InGroup(db, row.student.value, g) {
      var g :| g in teacher && InGroup(db, row.student.value, g);
      assert Holds(db, row, StudentInGroups(teacher));
    } else if student != {} && row.student == Some(u) {
      assert Holds(db, row, StudentIs(u));
    } else if row.group.Some? && row.group.value in student {
      assert Holds(db, row, GroupIn(student));
    }
  }

  /**
    The scope is the whole input for a superadmin, and otherwise exactly
    the input's goals the reference definition lets the user see; the
    result has no duplicates, being a set.
   */
  lemma ScopeIff(db: Db, u: Id, qs: set<Id>, o: Id)
    ensures o in Scope(db, u, qs) <==> o in qs && (IsSuperadmin(db, u) || (o in db.goals && Sees(db, u, db.goals[o])))
  {
    if o in db.goals {
      FiltersMatch(db, u, db.goals[o]);
    }
  }

  /** is_user_creator holds exactly for the creator: a creator always has the goal in scope. */
  lemma CreatorIff(db: Db, u: Id, t: Option<Id>)
    ensures IsUserCreator(db, u, t) <==> t.Some? && t.value in db.goals && db.goals[t.value].createdBy == Some(u)
  {
    if t.Some? && t.value in db.goals {
      ScopeIff(db, u, db.goals.Keys, t.value);
    }
  }

  /** For a user in some student group, is_user_owner holds exactly for their personal goals. */
  lemma OwnerIff(db: Db, u: Id, t: Option<Id>)
    requires StudentGroups(db, u) != {}
    ensures IsUserOwner(db, u, t) <==> t.Some? && t.value in db.goals && db.goals[t.value].student == Some(u)
  {
    if t.Some? && t.value in db.goals {
      ScopeIff(db, u, db.goals.Keys, t.value);
    }
  }

  /**
    A user in no group does not see a personal goal of theirs that someone
    else created, and is not its owner: the student clauses apply only to
    users holding a student membership.
   */
  lemma OwnGoalHiddenWithoutStudentGroup()
    ensures var db := Db(map[1 := UserRow(false, None), 2 := UserRow(false, None)], map[], {}, {},
                         map[7 := GoalRow(None, Some(1), None, Some(2), None)], map[], map[]);
      7 !in Scope(db, 1, db.goals.Keys) && !IsUserOwner(db, 1, Some(7))
  {
    var db := Db(map[1 := UserRow(false, None), 2 := UserRow(false, None)], map[], {}, {},
                 map[7 := GoalRow(None, Some(1), None, Some(2), None)], map[], map[]);
    assert TeacherGroups(db, 1) == {} && StudentGroups(db, 1) == {};
    ScopeIff(db, 1, db.goals.Keys, 7);
  }

  /** Whatever a user may retrieve is also in what they may list. */
  lemma {:induction false} RetrievableIsListed(db: Db, u: Id, rq: Request, t: Id)
    requires NoSuperadminRole(db)
    requires t in db.goals && MayRetrieve(db, u, rq, Some(t))
    ensures t in Scope(db, u, db.goals.Keys)
  {
    var values := UserGroupValues(db, u);
    var holds := c => ConditionHolds(db, u, rq, Some(t), c);
    var i :| 0 <= i < |Statements| && Statements[i].effect == Allow && Applies(Statements[i], values, RetrieveAction, holds);
    if i == 0 {
      var v :| v in values && RolePrincipal(v) in Statements[0].principals;
      UserGroupValuesIff(db, u, v);
      ScopeIff(db, u, db.goals.Keys, t);
    } else {
      assert i in {2, 3, 4, 5, 6};
    }
  }
}
