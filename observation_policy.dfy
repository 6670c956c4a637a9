/**
  ObservationAccessPolicy (backend/mastery/access_policies/observation.py):
  which observations a user may list (scope_queryset) and retrieve (the
  statements and their conditions).
 */
module ObservationPolicy {
  import opened Text
  import opened Mastery
  import opened AccessBase

  datatype Condition = CreatorOrObserver | UserTarget | NotVisibleToStudent | TeacherOfStudent

  const Statements: seq<Statement<Condition>> := [
    Statement(AnyAction, {RolePrincipal("superadmin")}, Allow, None),
    Statement(Only({ListAction}), {Authenticated}, Allow, None),
    Statement(Only({RetrieveAction}), {Authenticated}, Allow, Some(CreatorOrObserver)),
    Statement(Only({RetrieveAction}), {RolePrincipal("student")}, Allow, Some(UserTarget)),
    Statement(Only({RetrieveAction}), {RolePrincipal("student")}, Deny, Some(NotVisibleToStudent)),
    Statement(Only({RetrieveAction}), {RolePrincipal("teacher")}, Allow, Some(TeacherOfStudent))
  ]

  // ---------------------------------------------------------------- conditions

  /**
    ObservationViewSet.get_queryset as get_object uses it
    (backend/mastery/api/views.py:691-693): the scope, then the deleted
    filter. Every condition reads the target through it.
   */
  function ObjectQueryset(db: Db, u: Id, rq: Request): set<Id> {
    set o | o in Scope(db, u, db.observations.Keys) && o in db.observations
      && PassesDeletedFilter(rq, db.observations[o].deletedAt)
  }

  predicate IsUserCreatorOrObserver(db: Db, u: Id, rq: Request, o: Id) {
    o in ObjectQueryset(db, u, rq) && (db.observations[o].createdBy == Some(u) || db.observations[o].observer == Some(u))
  }

  predicate IsUserTarget(db: Db, u: Id, rq: Request, o: Id) {
    o in ObjectQueryset(db, u, rq) && db.observations[o].student == u
  }

  predicate IsObservationNotVisibleToStudent(db: Db, u: Id, rq: Request, o: Id) {
    o in ObjectQueryset(db, u, rq) && !db.observations[o].isVisibleToStudent
  }

  /** The observation's goal is a group goal of a group the user teaches. */
  predicate GoalOfTaughtGroup(db: Db, u: Id, row: ObservationRow) {
    row.goal in db.goals && db.goals[row.goal].group.Some? && db.goals[row.goal].group.value in TeacherGroups(db, u)
  }

  /** The observed student is in a basis group the user teaches. */
  predicate StudentOfTaughtBasisGroup(db: Db, u: Id, row: ObservationRow) {
    exists g :: g in BasisTeacherGroups(db, u) && InGroup(db, row.student, g)
  }

  /**
    is_user_teacher_of_student: reading the goal raises when its row is
    missing, and so does reading the student when the goal test fails;
    either makes the condition false.
   */
  predicate IsUserTeacherOfStudent(db: Db, u: Id, rq: Request, o: Id) {
    o in ObjectQueryset(db, u, rq) && db.observations[o].goal in db.goals
    && (GoalOfTaughtGroup(db, u, db.observations[o])
        || (db.observations[o].student in db.users && StudentOfTaughtBasisGroup(db, u, db.observations[o])))
  }

  predicate ConditionHolds(db: Db, u: Id, rq: Request, o: Id, c: Condition) {
    match c
    case CreatorOrObserver => IsUserCreatorOrObserver(db, u, rq, o)
    case UserTarget => IsUserTarget(db, u, rq, o)
    case NotVisibleToStudent => IsObservationNotVisibleToStudent(db, u, rq, o)
    case TeacherOfStudent => IsUserTeacherOfStudent(db, u, rq, o)
  }

  predicate MayRetrieve(db: Db, u: Id, rq: Request, o: Id) {
    Allowed(Statements, UserGroupValues(db, u), RetrieveAction, c => ConditionHolds(db, u, rq, o, c))
  }

  // ---------------------------------------------------------------- scope

  /** One Q object of the scope filter. */
  datatype Clause =
    | CreatedBy(user: Id)
    | ObservedBy(user: Id)
    | OwnVisible(user: Id)
    | GoalGroupIn(groups: set<Id>)
    | StudentInGroups(groups: set<Id>)

  predicate Holds(db: Db, row: ObservationRow, c: Clause) {
    match c
    case CreatedBy(u) => row.createdBy == Some(u)
    case ObservedBy(u) => row.observer == Some(u)
    case OwnVisible(u) => row.student == u && row.isVisibleToStudent
    case GoalGroupIn(gs) => row.goal in db.goals && db.goals[row.goal].group.Some? && db.goals[row.goal].group.value in gs
    case StudentInGroups(gs) => exists g :: g in gs && InGroup(db, row.student, g)
  }

  /** The filters OR-ed together: some clause holds. */
  predicate Matches(db: Db, row: ObservationRow, filters: set<Clause>) {
    exists c :: c in filters && Holds(db, row, c)
  }

  /** The clauses scope_queryset collects, the teacher ones only when the user teaches some (basis) group. */
  function Filters(db: Db, u: Id): set<Clause> {
    var base := {CreatedBy(u), ObservedBy(u), OwnVisible(u)};
    var withGroups := if TeacherGroups(db, u) != {} then base + {GoalGroupIn(TeacherGroups(db, u))} else base;
    if BasisTeacherGroups(db, u) != {} then withGroups + {StudentInGroups(BasisTeacherGroups(db, u))} else withGroups
  }

  function Scope(db: Db, u: Id, qs: set<Id>): (r: set<Id>)
    ensures r <= qs
  {
    if IsSuperadmin(db, u) then qs
    else set o | o in qs && o in db.observations && Matches(db, db.observations[o], Filters(db, u))
  }

  /** scope_queryset, collecting the filter clause by clause. */
  method ScopeQueryset(db: Db, u: Id, qs: set<Id>) returns (r: set<Id>)
    ensures r == Scope(db, u, qs)
  {
    if IsSuperadmin(db, u) {
      return qs;
    }
    var teacherGroupIds := TeacherGroups(db, u);
    var teacherBasisGroupIds := BasisTeacherGroups(db, u);
    var filters := {CreatedBy(u), ObservedBy(u), OwnVisible(u)};
    if teacherGroupIds != {} {
      filters := filters + {GoalGroupIn(teacherGroupIds)};
    }
    if teacherBasisGroupIds != {} {
      filters := filters + {StudentInGroups(teacherBasisGroupIds)};
    }
    r := set o | o in qs && o in db.observations && Matches(db, db.observations[o], filters);
  }

  // ---------------------------------------------------------------- properties

  /**
    Reference definition of what a user who is not a superadmin may list:
    what they created or observed, their own visible observations, and,
    as a teacher, observations on goals of groups they teach and on
    students of basis groups they teach.
   */
  predicate Sees(db: Db, u: Id, row: ObservationRow) {
    row.createdBy == Some(u) || row.observer == Some(u) || (row.student == u && row.isVisibleToStudent)
    || GoalOfTaughtGroup(db, u, row) || StudentOfTaughtBasisGroup(db, u, row)
  }

  lemma {:induction false} FiltersMatch(db: Db, u: Id, row: ObservationRow)
    ensures Matches(db, row, Filters(db, u)) <==> Sees(db, u, row)
  {
    var filters := Filters(db, u);
    if Matches(db, row, filters) {
      var c :| c in filters && Holds(db, row, c);
      if c.StudentInGroups? {
        assert c.groups == BasisTeacherGroups(db, u);
      }
    }
    if GoalOfTaughtGroup(db, u, row) {
      assert Holds(db, row, GoalGroupIn(TeacherGroups(db, u)));
    } else if StudentOfTaughtBasisGroup(db, u, row) {
      var g :| g in BasisTeacherGroups(db, u) && InGroup(db, row.student, g);
      assert Holds(db, row, StudentInGroups(BasisTeacherGroups(db, u)));
    } else if row.createdBy == Some(u) {
      assert Holds(db, row, CreatedBy(u));
    } else if row.observer == Some(u) {
      assert Holds(db, row, ObservedBy(u));
    } else if row.student == u && row.isVisibleToStudent {
      assert Holds(db, row, OwnVisible(u));
    }
  }

  /**
    The scope is the whole input for a superadmin, and otherwise exactly
    the input's observations the reference definition lets the user see:
    the emptiness checks before the teacher clauses change nothing.
   */
  lemma ScopeIff(db: Db, u: Id, qs: set<Id>, o: Id)
    ensures o in Scope(db, u, qs) <==>
      o in qs && (IsSuperadmin(db, u) || (o in db.observations && Sees(db, u, db.observations[o])))
  {
    if o in db.observations {
      FiltersMatch(db, u, db.observations[o]);
    }
  }

  /**
    An observation get_object does not find (out of scope, or hidden by
    the deleted filter) is refused to everyone but a superadmin: every
    condition is then false.
   */
  lemma UnfoundRefused(db: Db, u: Id, rq: Request, o: Id)
    requires o !in ObjectQueryset(db, u, rq) && "superadmin" !in UserGroupValues(db, u)
    ensures !MayRetrieve(db, u, rq, o)
  {
    var values := UserGroupValues(db, u);
    var holds := c => ConditionHolds(db, u, rq, o, c);
    forall i | 0 <= i < |Statements| && Statements[i].effect == Allow
      ensures !Applies(Statements[i], values, RetrieveAction, holds)
    {
    }
  }

  /**
    A student cannot retrieve an observation hidden from students, not
    even as its creator or observer: the deny statement applies whenever
    get_object finds it, and otherwise nothing allows it (short of a
    superadmin).
   */
  lemma InvisibleDeniedToStudent(db: Db, u: Id, rq: Request, o: Id)
    requires HasRole(db, u, "student")
    requires o in db.observations && !db.observations[o].isVisibleToStudent
    ensures o in ObjectQueryset(db, u, rq) || "superadmin" !in UserGroupValues(db, u) ==> !MayRetrieve(db, u, rq, o)
  {
    UserGroupValuesIff(db, u, "student");
    if o in ObjectQueryset(db, u, rq) {
      assert Applies(Statements[4], UserGroupValues(db, u), RetrieveAction, c => ConditionHolds(db, u, rq, o, c));
    } else if "superadmin" !in UserGroupValues(db, u) {
      UnfoundRefused(db, u, rq, o);
    }
  }

  /**
    The creator or observer may retrieve the observation, unless they are
    a student and it is hidden, exactly when the deleted filter keeps it
    (short of a superadmin, whom the filter does not stop).
   */
  lemma CreatorOrObserverMayRetrieve(db: Db, u: Id, rq: Request, o: Id)
    requires o in db.observations && (db.observations[o].createdBy == Some(u) || db.observations[o].observer == Some(u))
    requires !HasRole(db, u, "student") || db.observations[o].isVisibleToStudent
    ensures PassesDeletedFilter(rq, db.observations[o].deletedAt) ==> MayRetrieve(db, u, rq, o)
    ensures !PassesDeletedFilter(rq, db.observations[o].deletedAt) && "superadmin" !in UserGroupValues(db, u)
      ==> !MayRetrieve(db, u, rq, o)
  {
    if PassesDeletedFilter(rq, db.observations[o].deletedAt) {
      ScopeIff(db, u, db.observations.Keys, o);
      assert o in ObjectQueryset(db, u, rq);
      FoundCreatorOrObserverAllowed(db, u, rq, o);
    } else if "superadmin" !in UserGroupValues(db, u) {
      UnfoundRefused(db, u, rq, o);
    }
  }

  /** Statement 2 allows a found observation to its creator or observer, and the student deny does not apply. */
  lemma FoundCreatorOrObserverAllowed(db: Db, u: Id, rq: Request, o: Id)
    requires o in ObjectQueryset(db, u, rq)
    requires db.observations[o].createdBy == Some(u) || db.observations[o].observer == Some(u)
    requires !HasRole(db, u, "student") || db.observations[o].isVisibleToStudent
    ensures MayRetrieve(db, u, rq, o)
  {
    var values := UserGroupValues(db, u);
    var holds := c => ConditionHolds(db, u, rq, o, c);
    UserGroupValuesIff(db, u, "student");
    assert Applies(Statements[2], values, RetrieveAction, holds);
    forall i | 0 <= i < |Statements| && Statements[i].effect == Deny
      ensures !Applies(Statements[i], values, RetrieveAction, holds)
    {
      assert i == 4;
      if PrincipalMatches(Statements[4].principals, values) {
        var v :| v in values && RolePrincipal(v) in Statements[4].principals;
        assert v == "student";
      }
    }
  }

  /** Whatever a user may retrieve is also in what they may list. */
  lemma {:induction false} RetrievableIsListed(db: Db, u: Id, rq: Request, o: Id)
    requires NoSuperadminRole(db)
    requires o in db.observations && MayRetrieve(db, u, rq, o)
    ensures o in Scope(db, u, db.observations.Keys)
  {
    UserGroupValuesIff(db, u, "superadmin");
    if "superadmin" !in UserGroupValues(db, u) && o !in ObjectQueryset(db, u, rq) {
      UnfoundRefused(db, u, rq, o);
    }
  }
}
