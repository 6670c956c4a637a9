/**
  The statement lists the access policies under
  backend/mastery/access_policies/ declare, and how a request is decided
  against them: a statement applies when its action, one of its principals
  and its condition match; any applying "deny" statement refuses, and
  otherwise an applying "allow" statement grants.

  The principals a user matches come from BaseAccessPolicy
  (access_policies/base.py): "superadmin" for a superadmin plus the name
  of every role the user holds in some group. Every requester here is an
  authenticated User.

  A condition that reads view.get_object() sees the target only when the
  viewset's get_queryset returns it: the policy's scope, then the
  viewset's own filters. Otherwise get_object raises Http404, which the
  condition's except turns into False.
 */
module AccessBase {
  import opened Text
  import opened Mastery
  import opened RequestParams

  /**
    What get_queryset reads besides the scope when get_object looks a
    target up: the query parameters ("deleted", and for groups
    "is_valid") and the clock the validity filter compares against.
   */
  datatype Request = Request(query: map<string, string>, now: int)

  /** apply_deleted_filter (backend/mastery/api/views.py:36-45) on one row. */
  predicate PassesDeletedFilter(rq: Request, deletedAt: Option<int>) {
    DeletedKeeps(DeletedSelectionOf(rq.query), deletedAt)
  }

  datatype Action = ListAction | RetrieveAction | OtherAction(name: string)

  datatype Actions = AnyAction | Only(actions: set<Action>)

  /** "*", "authenticated", or "role:<value>". */
  datatype Principal = Everyone | Authenticated | RolePrincipal(value: string)

  datatype Effect = Allow | Deny

  datatype Statement<C> = Statement(actions: Actions, principals: set<Principal>, effect: Effect, condition: Option<C>)

  /** get_user_group_values. */
  function UserGroupValues(db: Db, u: Id): set<string> {
    (if IsSuperadmin(db, u) then {"superadmin"} else {})
    + (set m | m in db.userGroups && m.user == u :: m.role.name)
  }

  /** The user holds a role of that name in some group. */
  predicate HasRole(db: Db, u: Id, name: string) {
    exists m :: m in db.userGroups && m.user == u && m.role.name == name
  }

  /** No membership uses a role called "superadmin", so that principal means the flag. */
  predicate NoSuperadminRole(db: Db) {
    forall m :: m in db.userGroups ==> m.role.name != "superadmin"
  }

  predicate ActionMatches(a: Actions, action: Action) {
    a.AnyAction? || action in a.actions
  }

  predicate PrincipalMatches(ps: set<Principal>, values: set<string>) {
    Everyone in ps || Authenticated in ps || exists v :: v in values && RolePrincipal(v) in ps
  }

  predicate Applies<C>(s: Statement<C>, values: set<string>, action: Action, holds: C -> bool) {
    ActionMatches(s.actions, action) && PrincipalMatches(s.principals, values)
    && (s.condition.None? || holds(s.condition.value))
  }

  predicate Allowed<C>(statements: seq<Statement<C>>, values: set<string>, action: Action, holds: C -> bool) {
    (exists i :: 0 <= i < |statements| && statements[i].effect == Allow && Applies(statements[i], values, action, holds))
    && !(exists i :: 0 <= i < |statements| && statements[i].effect == Deny && Applies(statements[i], values, action, holds))
  }

  /**
    The values a user matches: "superadmin" exactly for the flag (when no
    role carries that name), and each role name the user holds.
   */
  lemma {:induction false} UserGroupValuesIff(db: Db, u: Id, name: string)
    ensures name != "superadmin" ==> (name in UserGroupValues(db, u) <==> HasRole(db, u, name))
    ensures NoSuperadminRole(db) ==> ("superadmin" in UserGroupValues(db, u) <==> IsSuperadmin(db, u))
  {
    if HasRole(db, u, name) {
      var m :| m in db.userGroups && m.user == u && m.role.name == name;
      assert m.role.name in (set m | m in db.userGroups && m.user == u :: m.role.name);
    }
  }
}
