/**
  The relational snapshot of backend/mastery/models.py that the access
  policies read, and the few rules the models themselves state: the goal
  kinds and their check constraint, School.ensure_short_name,
  Group.get_members and Subject.is_feide_synchronized.

  Tables keyed by id are maps; the membership tables UserGroup and
  UserSchool are sets of rows, which gives their unique_together
  constraint on (user, group, role) and (user, school, role) for free.
  Each row of the other tables carries the soft-delete timestamp
  deleted_at that apply_deleted_filter (backend/mastery/api/views.py) and
  the cleaner bot read; None is a live row.
 */
module Mastery {
  import opened Text

  type Id = nat

  /** A Role row: "student", "teacher", "staff" or "admin" in practice. */
  datatype Role = Role(id: Id, name: string)

  datatype UserRow = UserRow(isSuperadmin: bool, deletedAt: Option<int>)

  /**
    A Group row: its type ("basis", "teaching", ...), its school, its
    optional subject and its validity window.
   */
  datatype GroupRow = GroupRow(kind: string, school: Id, subject: Option<Id>,
                               validFrom: Option<int>, validTo: Option<int>, deletedAt: Option<int>)

  datatype UserGroup = UserGroup(user: Id, group: Id, role: Role)

  datatype UserSchool = UserSchool(user: Id, school: Id, role: Role)

  datatype GoalRow = GoalRow(group: Option<Id>, student: Option<Id>, subject: Option<Id>, createdBy: Option<Id>,
                             deletedAt: Option<int>)

  datatype ObservationRow = ObservationRow(goal: Id, student: Id, observer: Option<Id>, createdBy: Option<Id>,
                                           isVisibleToStudent: bool, deletedAt: Option<int>)

  datatype SubjectRow = SubjectRow(ownedBySchool: Option<Id>, createdBy: Option<Id>, deletedAt: Option<int>)

  datatype Db = Db(
    users: map<Id, UserRow>,
    groups: map<Id, GroupRow>,
    userGroups: set<UserGroup>,
    userSchools: set<UserSchool>,
    goals: map<Id, GoalRow>,
    observations: map<Id, ObservationRow>,
    subjects: map<Id, SubjectRow>)

  // ---------------------------------------------------------------- users

  predicate IsSuperadmin(db: Db, u: Id) {
    u in db.users && db.users[u].isSuperadmin
  }

  /** The user is a member of the group, in some role. */
  predicate InGroup(db: Db, u: Id, g: Id) {
    exists m :: m in db.userGroups && m.user == u && m.group == g
  }

  /** user.groups: the groups the user is a member of, in any role. */
  function GroupsOf(db: Db, u: Id): set<Id> {
    set m | m in db.userGroups && m.user == u :: m.group
  }

  /**
    _get_groups_with_role: the groups where the user's own membership has
    a role of that name.
   */
  function GroupsWithRole(db: Db, u: Id, roleName: string): set<Id> {
    set m | m in db.userGroups && m.user == u && m.role.name == roleName :: m.group
  }

  function TeacherGroups(db: Db, u: Id): set<Id> {
    GroupsWithRole(db, u, "teacher")
  }

  function StudentGroups(db: Db, u: Id): set<Id> {
    GroupsWithRole(db, u, "student")
  }

  predicate IsBasis(db: Db, g: Id) {
    g in db.groups && db.groups[g].kind == "basis"
  }

  /** teacher_groups.filter(type="basis"). */
  function BasisTeacherGroups(db: Db, u: Id): set<Id> {
    set g | g in TeacherGroups(db, u) && IsBasis(db, g)
  }

  /** get_schools: the schools of the user's groups and of the user's UserSchool rows. */
  function SchoolsOf(db: Db, u: Id): set<Id> {
    (set m | m in db.userGroups && m.user == u && m.group in db.groups :: db.groups[m.group].school)
    + (set s | s in db.userSchools && s.user == u :: s.school)
  }

  lemma {:induction false} GroupsOfIff(db: Db, u: Id, g: Id)
    ensures g in GroupsOf(db, u) <==> InGroup(db, u, g)
    ensures g in TeacherGroups(db, u) || g in StudentGroups(db, u) ==> g in GroupsOf(db, u)
  {
    if InGroup(db, u, g) {
      var m :| m in db.userGroups && m.user == u && m.group == g;
      assert m.group in GroupsOf(db, u);
    }
  }

  // ---------------------------------------------------------------- goals

  /** The goal_group_or_student check constraint. */
  predicate GroupOrStudent(g: GoalRow) {
    g.group.Some? || g.student.Some?
  }

  predicate IsPersonal(g: GoalRow) {
    g.group.None? && g.student.Some?
  }

  predicate IsGroup(g: GoalRow) {
    g.student.None? && g.group.Some?
  }

  /**
    A goal is never both personal and group; either kind satisfies the
    check constraint, and a goal the constraint admits is of one kind or
    has both a group and a student (the constraint does not exclude that).
   */
  lemma GoalKinds(g: GoalRow)
    ensures !(IsPersonal(g) && IsGroup(g))
    ensures IsPersonal(g) || IsGroup(g) ==> GroupOrStudent(g)
    ensures GroupOrStudent(g) <==> IsPersonal(g) || IsGroup(g) || (g.group.Some? && g.student.Some?)
  {
  }

  // ---------------------------------------------------------------- schools

  class School {
    var shortName: Option<string>
    /** How many times the row was written back with save(). */
    var saves: nat

    constructor(shortName: Option<string>)
      ensures this.shortName == shortName && saves == 0
    {
      this.shortName := shortName;
      saves := 0;
    }

    /** ensure_short_name: afterwards the short name is the given one; it is saved only when it changed. */
    method EnsureShortName(s: Option<string>)
      modifies this
      ensures shortName == s
      ensures saves == old(saves) + (if old(shortName) == s then 0 else 1)
    {
      if shortName != s {
        shortName := s;
        saves := saves + 1;
      }
    }
  }

  // ---------------------------------------------------------------- group members

  /** The role argument of get_members: None, a role name, or a Role object (compared by id). */
  datatype RoleFilter = AnyRole | ByName(name: string) | ByRole(role: Role)

  predicate Fits(m: UserGroup, role: RoleFilter) {
    match role
    case AnyRole => true
    case ByName(name) => m.role.name == name
    case ByRole(r) => m.role.id == r.id
  }

  /** Group.get_members: the users with a membership of this group that fits the role argument. */
  function GetMembers(db: Db, group: Id, role: RoleFilter): (r: set<Id>)
    ensures forall u :: u in r ==> InGroup(db, u, group)
    ensures forall u :: u in r <==> exists m :: m in db.userGroups && m.group == group && m.user == u && Fits(m, role)
  {
    set m | m in db.userGroups && m.group == group && Fits(m, role) :: m.user
  }

  /** Every Role carrying the id of `r` in the membership table is `r` itself. */
  predicate RoleStored(db: Db, r: Role) {
    forall m :: m in db.userGroups && m.role.id == r.id ==> m.role == r
  }

  /**
    get_members(None) gives every member; filtering by a Role object keeps
    a subset of filtering by its name, and the two agree when no other
    stored role has that name.
   */
  lemma {:induction false} GetMembersFilters(db: Db, group: Id, r: Role)
    requires RoleStored(db, r)
    ensures forall u :: u in GetMembers(db, group, AnyRole) <==> InGroup(db, u, group)
    ensures GetMembers(db, group, ByRole(r)) <= GetMembers(db, group, ByName(r.name)) <= GetMembers(db, group, AnyRole)
    ensures (forall m :: m in db.userGroups && m.role.name == r.name ==> m.role.id == r.id) ==>
      GetMembers(db, group, ByRole(r)) == GetMembers(db, group, ByName(r.name))
  {
    forall u | InGroup(db, u, group)
      ensures u in GetMembers(db, group, AnyRole)
    {
      var m :| m in db.userGroups && m.user == u && m.group == group;
      assert Fits(m, AnyRole);
    }
    forall u | u in GetMembers(db, group, ByRole(r))
      ensures u in GetMembers(db, group, ByName(r.name))
    {
      var m :| m in db.userGroups && m.group == group && Fits(m, ByRole(r)) && m.user == u;
      assert Fits(m, ByName(r.name));
    }
    forall u | u in GetMembers(db, group, ByName(r.name))
      ensures u in GetMembers(db, group, AnyRole)
    {
      var m :| m in db.userGroups && m.group == group && Fits(m, ByName(r.name)) && m.user == u;
      assert Fits(m, AnyRole);
    }
    if forall m :: m in db.userGroups && m.role.name == r.name ==> m.role.id == r.id {
      forall u | u in GetMembers(db, group, ByName(r.name))
        ensures u in GetMembers(db, group, ByRole(r))
      {
        var m :| m in db.userGroups && m.group == group && Fits(m, ByName(r.name)) && m.user == u;
        assert Fits(m, ByRole(r));
      }
    }
  }

  // ---------------------------------------------------------------- subjects

  /** Subject.is_feide_synchronized: a subject no school owns comes from Feide. */
  predicate IsFeideSynchronized(s: SubjectRow) {
    s.ownedBySchool.None?
  }
}
