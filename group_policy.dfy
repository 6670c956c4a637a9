/**
  GroupAccessPolicy (backend/mastery/access_policies/group.py): which
  groups a user may list (scope_queryset) and retrieve.
 */
module GroupPolicy {
  import opened Text
  import opened Mastery
  import opened AccessBase
  import opened RequestParams
  import opened Validity

  /** scope_queryset: everything for a superadmin, else the groups where the user teaches or studies. */
  function Scope(db: Db, u: Id, qs: set<Id>): (r: set<Id>)
    ensures r <= qs
  {
    if IsSuperadmin(db, u) then qs
    else set g | g in qs && g in db.groups && (g in TeacherGroups(db, u) || g in StudentGroups(db, u))
  }

  /** apply_valid_group_filter (backend/mastery/api/views.py:48-56) on one row, at the request's clock. */
  predicate PassesValidityFilter(rq: Request, row: GroupRow) {
    match ValiditySelectionOf(rq.query)
    case WithinWindow => Within(row.validFrom, row.validTo, rq.now)
    case OutsideWindow => Outside(row.validFrom, row.validTo, rq.now)
  }

  /**
    GroupViewSet.get_queryset as get_object uses it (views.py:384-387):
    the scope, then the deleted filter and the validity filter.
   */
  function ObjectQueryset(db: Db, u: Id, rq: Request): set<Id> {
    set g | g in Scope(db, u, db.groups.Keys) && g in db.groups
      && PassesDeletedFilter(rq, db.groups[g].deletedAt) && PassesValidityFilter(rq, db.groups[g])
  }

  /** is_member_of_group: get_object finds the target group, and the user belongs to it in any role. */
  predicate IsMemberOfGroup(db: Db, u: Id, rq: Request, g: Id) {
    g in ObjectQueryset(db, u, rq) && g in GroupsOf(db, u)
  }

  datatype Condition = MemberOfGroup

  const Statements: seq<Statement<Condition>> := [
    Statement(AnyAction, {RolePrincipal("superadmin")}, Allow, None),
    Statement(Only({ListAction}), {Authenticated}, Allow, None),
    Statement(Only({RetrieveAction}), {RolePrincipal("student"), RolePrincipal("teacher")}, Allow, Some(MemberOfGroup))
  ]

  predicate MayRetrieve(db: Db, u: Id, rq: Request, g: Id) {
    Allowed(Statements, UserGroupValues(db, u), RetrieveAction, c => IsMemberOfGroup(db, u, rq, g))
  }

  /** The user's membership of the group carries one of the two roles the scope reads. */
  predicate TeachesOrStudiesIn(db: Db, u: Id, g: Id) {
    exists m :: m in db.userGroups && m.user == u && m.group == g && (m.role.name == "teacher" || m.role.name == "student")
  }

  /**
    The scope is the whole input for a superadmin, and otherwise exactly
    the input's groups where the user holds a teacher or student
    membership; the user is a member of every group so listed.
   */
  lemma {:induction false} ScopeIff(db: Db, u: Id, qs: set<Id>, g: Id)
    ensures g in Scope(db, u, qs) <==> g in qs && (IsSuperadmin(db, u) || (g in db.groups && TeachesOrStudiesIn(db, u, g)))
    ensures !IsSuperadmin(db, u) && g in Scope(db, u, qs) ==> InGroup(db, u, g)
  {
    if TeachesOrStudiesIn(db, u, g) {
      var m :| m in db.userGroups && m.user == u && m.group == g && (m.role.name == "teacher" || m.role.name == "student");
      assert g in TeacherGroups(db, u) || g in StudentGroups(db, u);
    }
    GroupsOfIff(db, u, g);
  }

  /**
    is_member_of_group holds exactly when the group exists, passes the
    view's deleted and validity filters, is in the user's scope and has
    the user as a member; for a user who is not a superadmin that is
    exactly the groups get_object finds. A staff membership alone does
    not make a group visible.
   */
  lemma {:induction false} MemberOfGroupIff(db: Db, u: Id, rq: Request, g: Id)
    ensures IsMemberOfGroup(db, u, rq, g) <==>
      g in db.groups && InGroup(db, u, g) && (IsSuperadmin(db, u) || TeachesOrStudiesIn(db, u, g))
      && PassesDeletedFilter(rq, db.groups[g].deletedAt) && PassesValidityFilter(rq, db.groups[g])
    ensures !IsSuperadmin(db, u) ==> (IsMemberOfGroup(db, u, rq, g) <==> g in ObjectQueryset(db, u, rq))
  {
    ScopeIff(db, u, db.groups.Keys, g);
    GroupsOfIff(db, u, g);
  }

  /**
    Whatever group a user may retrieve they may also list; a user who is
    not a superadmin may retrieve exactly the groups get_object finds.
   */
  lemma {:induction false} RetrievableIsListed(db: Db, u: Id, rq: Request, g: Id)
    requires NoSuperadminRole(db) && g in db.groups
    ensures MayRetrieve(db, u, rq, g) ==> g in Scope(db, u, db.groups.Keys)
    ensures !IsSuperadmin(db, u) ==> (MayRetrieve(db, u, rq, g) <==> g in ObjectQueryset(db, u, rq))
  {
    var values := UserGroupValues(db, u);
    var holds := c => IsMemberOfGroup(db, u, rq, g);
    ScopeIff(db, u, db.groups.Keys, g);
    MemberOfGroupIff(db, u, rq, g);
    if MayRetrieve(db, u, rq, g) {
      var i :| 0 <= i < |Statements| && Statements[i].effect == Allow && Applies(Statements[i], values, RetrieveAction, holds);
      if i == 0 {
        var v :| v in values && RolePrincipal(v) in Statements[0].principals;
        UserGroupValuesIff(db, u, v);
      }
    }
    if !IsSuperadmin(db, u) && g in ObjectQueryset(db, u, rq) {
      var m :| m in db.userGroups && m.user == u && m.group == g && (m.role.name == "teacher" || m.role.name == "student");
      assert m.role.name in values;
      assert Applies(Statements[2], values, RetrieveAction, holds);
    }
  }

  /**
    A teacher who also holds a staff membership of another group neither
    lists that group nor may retrieve it: get_object does not find it.
   */
  lemma StaffGroupNotRetrievable(db: Db, rq: Request)
    requires db == Db(map[1 := UserRow(false, None)], map[11 := GroupRow("basis", 5, None, None, None, None)],
                      {UserGroup(1, 10, Mastery.Role(1, "teacher")), UserGroup(1, 11, Mastery.Role(2, "staff"))}, {}, map[], map[], map[])
    ensures !MayRetrieve(db, 1, rq, 11) && 11 !in Scope(db, 1, db.groups.Keys)
  {
    ScopeIff(db, 1, db.groups.Keys, 11);
    RetrievableIsListed(db, 1, rq, 11);
  }
}
