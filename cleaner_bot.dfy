/**
  The data integrity pass (backend/mastery/data_import/cleaner_bot.py),
  run after a Feide import: rows the import did not maintain are
  soft-deleted by setting deleted_at, rows soft-deleted long enough ago
  are deleted for good, with Django's on_delete rules for the rows that
  refer to them.

  The database is five tables keyed by row id. Times are seconds on one
  clock; a NULL timestamp is None and compares false in SQL.
 */
module CleanerBot {
  import opened Text
  import opened Validity

  type Id = nat

  datatype GroupRow = GroupRow(validFrom: Option<int>, validTo: Option<int>, maintainedAt: Option<int>, deletedAt: Option<int>)
  datatype UserRow = UserRow(isSuperadmin: bool, maintainedAt: Option<int>, deletedAt: Option<int>)
  datatype MembershipRow = MembershipRow(user: Id, group: Id, maintainedAt: Option<int>, deletedAt: Option<int>)
  datatype GoalRow = GoalRow(group: Option<Id>, student: Option<Id>, previousGoal: Option<Id>, deletedAt: Option<int>)
  datatype ObservationRow = ObservationRow(goal: Id, student: Id, observer: Option<Id>, deletedAt: Option<int>)

  datatype Tables = Tables(
    groups: map<Id, GroupRow>,
    users: map<Id, UserRow>,
    memberships: map<Id, MembershipRow>,
    goals: map<Id, GoalRow>,
    observations: map<Id, ObservationRow>)

  /** Every foreign key names an existing row. */
  predicate Consistent(t: Tables) {
    (forall m :: m in t.memberships ==> t.memberships[m].user in t.users && t.memberships[m].group in t.groups) &&
    (forall g :: g in t.goals ==>
      (t.goals[g].group.Some? ==> t.goals[g].group.value in t.groups) &&
      (t.goals[g].student.Some? ==> t.goals[g].student.value in t.users) &&
      (t.goals[g].previousGoal.Some? ==> t.goals[g].previousGoal.value in t.goals)) &&
    (forall o :: o in t.observations ==>
      t.observations[o].goal in t.goals && t.observations[o].student in t.users &&
      (t.observations[o].observer.Some? ==> t.observations[o].observer.value in t.users))
  }

  /** SQL `column < limit`: false for NULL. */
  predicate Before(at: Option<int>, limit: int) {
    at.Some? && at.value < limit
  }

  // ---------------------------------------------------------------- soft deletes

  /** soft_delete_groups: not deleted, not maintained since the threshold, and within validity now. */
  predicate GroupExpires(g: GroupRow, now: int, threshold: int) {
    g.deletedAt.None? && Before(g.maintainedAt, threshold) && Within(g.validFrom, g.validTo, now)
  }

  /** The memberships of a user that are not soft-deleted. */
  function ActiveMemberships(memberships: map<Id, MembershipRow>, user: Id): set<Id> {
    set m | m in memberships && memberships[m].user == user && memberships[m].deletedAt.None?
  }

  /** soft_delete_users: not deleted, not a superadmin, not maintained, and without active memberships. */
  predicate UserExpires(t: Tables, u: Id, threshold: int)
    requires u in t.users
  {
    var row := t.users[u];
    row.deletedAt.None? && !row.isSuperadmin && Before(row.maintainedAt, threshold) &&
    ActiveMemberships(t.memberships, u) == {}
  }

  predicate UserDeleted(t: Tables, u: Id) {
    u in t.users && t.users[u].deletedAt.Some?
  }

  predicate GroupDeleted(t: Tables, g: Id) {
    g in t.groups && t.groups[g].deletedAt.Some?
  }

  /** soft_delete_observations: not deleted, and the student is soft-deleted. */
  predicate ObservationExpires(t: Tables, o: Id)
    requires o in t.observations
  {
    t.observations[o].deletedAt.None? && UserDeleted(t, t.observations[o].student)
  }

  /** soft_delete_goals: not deleted, and a personal goal of a deleted student or a group goal of a deleted group. */
  predicate GoalExpires(t: Tables, g: Id)
    requires g in t.goals
  {
    var row := t.goals[g];
    row.deletedAt.None? &&
    ((row.student.Some? && UserDeleted(t, row.student.value)) || (row.group.Some? && GroupDeleted(t, row.group.value)))
  }

  /**
    soft_delete_user_groups: not deleted, and either unmaintained in a
    group that is within validity, or in a soft-deleted group.
   */
  predicate MembershipExpires(t: Tables, m: Id, now: int, threshold: int)
    requires m in t.memberships
  {
    var row := t.memberships[m];
    row.deletedAt.None? &&
    ((row.group in t.groups && Within(t.groups[row.group].validFrom, t.groups[row.group].validTo, now) &&
      Before(row.maintainedAt, threshold)) ||
     GroupDeleted(t, row.group))
  }

  function SoftDeleteGroups(t: Tables, now: int, threshold: int): Tables {
    t.(groups := map g | g in t.groups ::
      if GroupExpires(t.groups[g], now, threshold) then t.groups[g].(deletedAt := Some(now)) else t.groups[g])
  }

  function ExpiringGroups(t: Tables, now: int, threshold: int): set<Id> {
    set g | g in t.groups && GroupExpires(t.groups[g], now, threshold)
  }

  function SoftDeleteUsers(t: Tables, now: int, threshold: int): Tables {
    t.(users := map u | u in t.users ::
      if UserExpires(t, u, threshold) then t.users[u].(deletedAt := Some(now)) else t.users[u])
  }

  function ExpiringUsers(t: Tables, threshold: int): set<Id> {
    set u | u in t.users && UserExpires(t, u, threshold)
  }

  function SoftDeleteObservations(t: Tables, now: int): Tables {
    t.(observations := map o | o in t.observations ::
      if ObservationExpires(t, o) then t.observations[o].(deletedAt := Some(now)) else t.observations[o])
  }

  function ExpiringObservations(t: Tables): set<Id> {
    set o | o in t.observations && ObservationExpires(t, o)
  }

  function SoftDeleteGoals(t: Tables, now: int): Tables {
    t.(goals := map g | g in t.goals ::
      if GoalExpires(t, g) then t.goals[g].(deletedAt := Some(now)) else t.goals[g])
  }

  function ExpiringGoals(t: Tables): set<Id> {
    set g | g in t.goals && GoalExpires(t, g)
  }

  function SoftDeleteMemberships(t: Tables, now: int, threshold: int): Tables {
    t.(memberships := map m | m in t.memberships ::
      if MembershipExpires(t, m, now, threshold) then t.memberships[m].(deletedAt := Some(now)) else t.memberships[m])
  }

  function ExpiringMemberships(t: Tables, now: int, threshold: int): set<Id> {
    set m | m in t.memberships && MembershipExpires(t, m, now, threshold)
  }

  /** How many rows each soft-delete step updated. */
  datatype SoftCounts = SoftCounts(groups: nat, users: nat, observations: nat, goals: nat, memberships: nat)

  /** The five soft-delete steps, in the order update_data_integrity runs them, each seeing the one before. */
  function SoftPass(t: Tables, now: int, threshold: int): (Tables, SoftCounts) {
    var t1 := SoftDeleteGroups(t, now, threshold);
    var t2 := SoftDeleteUsers(t1, now, threshold);
    var t3 := SoftDeleteObservations(t2, now);
    var t4 := SoftDeleteGoals(t3, now);
    (SoftDeleteMemberships(t4, now, threshold),
     SoftCounts(|ExpiringGroups(t, now, threshold)|, |ExpiringUsers(t1, threshold)|, |ExpiringObservations(t2)|,
                |ExpiringGoals(t3)|, |ExpiringMemberships(t4, now, threshold)|))
  }

  // ---------------------------------------------------------------- hard deletes

  /** The retention periods: days for groups, users, observations and goals, hours for memberships. */
  datatype Retention = Retention(groupDays: nat, userDays: nat, observationDays: nat, goalDays: nat, membershipHours: nat)

  const Day: int := 86400
  const Hour: int := 3600

  /** The deleted_at limits of the five hard deletes. */
  datatype Cutoffs = Cutoffs(groups: int, users: int, observations: int, goals: int, memberships: int)

  /** Each hard delete takes rows soft-deleted more than its retention period before `now`. */
  function CutoffsAt(now: int, retention: Retention): Cutoffs {
    Cutoffs(now - retention.groupDays * Day, now - retention.userDays * Day, now - retention.observationDays * Day,
            now - retention.goalDays * Day, now - retention.membershipHours * Hour)
  }

  /** How a hard delete ends: the number of rows the filter selected, or RestrictedError. */
  datatype Deletion = Deleted(count: nat) | Restricted

  /** Rows soft-deleted before the cutoff. */
  function GroupsOverdue(t: Tables, cutoff: int): set<Id> {
    set g | g in t.groups && Before(t.groups[g].deletedAt, cutoff)
  }

  function UsersOverdue(t: Tables, cutoff: int): set<Id> {
    set u | u in t.users && Before(t.users[u].deletedAt, cutoff)
  }

  function ObservationsOverdue(t: Tables, cutoff: int): set<Id> {
    set o | o in t.observations && Before(t.observations[o].deletedAt, cutoff)
  }

  function GoalsOverdue(t: Tables, cutoff: int): set<Id> {
    set g | g in t.goals && Before(t.goals[g].deletedAt, cutoff)
  }

  function MembershipsOverdue(t: Tables, cutoff: int): set<Id> {
    set m | m in t.memberships && Before(t.memberships[m].deletedAt, cutoff)
  }

  /**
    hard_delete_groups: Goal.group is RESTRICT, so a goal on a selected
    group stops the delete; memberships cascade.
   */
  function HardDeleteGroups(t: Tables, cutoff: int): (Tables, Deletion) {
    var gone := GroupsOverdue(t, cutoff);
    var blockers := set g | g in t.goals && t.goals[g].group.Some? && t.goals[g].group.value in gone;
    if blockers != {} then (t, Restricted)
    else
      (t.(groups := map g | g in t.groups && g !in gone :: t.groups[g],
          memberships := map m | m in t.memberships && t.memberships[m].group !in gone :: t.memberships[m]),
       Deleted(|gone|))
  }

  /**
    hard_delete_users: Goal.student is RESTRICT, so a goal of a selected
    student stops the delete; memberships and the student's observations
    cascade; an observation whose observer goes keeps a NULL observer.
   */
  function HardDeleteUsers(t: Tables, cutoff: int): (Tables, Deletion) {
    var gone := UsersOverdue(t, cutoff);
    var blockers := set g | g in t.goals && t.goals[g].student.Some? && t.goals[g].student.value in gone;
    if blockers != {} then (t, Restricted)
    else
      (t.(users := map u | u in t.users && u !in gone :: t.users[u],
          memberships := map m | m in t.memberships && t.memberships[m].user !in gone :: t.memberships[m],
          observations := map o | o in t.observations && t.observations[o].student !in gone ::
            var row := t.observations[o];
            if row.observer.Some? && row.observer.value in gone then row.(observer := None) else row),
       Deleted(|gone|))
  }

  function HardDeleteObservations(t: Tables, cutoff: int): (Tables, Deletion) {
    var gone := ObservationsOverdue(t, cutoff);
    (t.(observations := map o | o in t.observations && o !in gone :: t.observations[o]), Deleted(|gone|))
  }

  /**
    hard_delete_goals: Observation.goal and Goal.previous_goal are
    RESTRICT, so an observation on a selected goal, or a goal outside the
    selection that follows one, stops the delete.
   */
  function HardDeleteGoals(t: Tables, cutoff: int): (Tables, Deletion) {
    var gone := GoalsOverdue(t, cutoff);
    var observed := set o | o in t.observations && t.observations[o].goal in gone;
    var followed := set g | g in t.goals && g !in gone && t.goals[g].previousGoal.Some? && t.goals[g].previousGoal.value in gone;
    if observed != {} || followed != {} then (t, Restricted)
    else (t.(goals := map g | g in t.goals && g !in gone :: t.goals[g]), Deleted(|gone|))
  }

  function HardDeleteMemberships(t: Tables, cutoff: int): (Tables, Deletion) {
    var gone := MembershipsOverdue(t, cutoff);
    (t.(memberships := map m | m in t.memberships && m !in gone :: t.memberships[m]), Deleted(|gone|))
  }

  // ---------------------------------------------------------------- the pass

  datatype Counts = Counts(softDeleted: nat, hardDeleted: nat)

  /** The "changes" of the result: soft and hard deletions per table. */
  datatype Changes = Changes(group: Counts, user: Counts, observation: Counts, goal: Counts, userGroup: Counts)

  /** update_data_integrity either reports its changes, or raises RestrictedError from a hard delete. */
  datatype Outcome = Reported(changes: Changes) | RaisedRestricted

  class Store {
    var groups: map<Id, GroupRow>
    var users: map<Id, UserRow>
    var memberships: map<Id, MembershipRow>
    var goals: map<Id, GoalRow>
    var observations: map<Id, ObservationRow>

    constructor(t: Tables)
      ensures Snapshot() == t
    {
      groups, users, memberships, goals, observations := t.groups, t.users, t.memberships, t.goals, t.observations;
    }

    function Snapshot(): Tables
      reads this
    {
      Tables(groups, users, memberships, goals, observations)
    }

    /** One bulk update: the tables become `t`. */
    method Load(t: Tables)
      modifies this
      ensures Snapshot() == t
    {
      groups, users, memberships, goals, observations := t.groups, t.users, t.memberships, t.goals, t.observations;
    }

    /** hard_delete_groups: applied when it succeeds, nothing changed when it raises. */
    method DeleteGroups(cutoff: int) returns (d: Deletion)
      modifies this
      ensures (Snapshot(), d) == HardDeleteGroups(old(Snapshot()), cutoff)
    {
      var step := HardDeleteGroups(Snapshot(), cutoff);
      d := step.1;
      if d.Deleted? {
        Load(step.0);
      }
    }

    /** hard_delete_users: applied when it succeeds, nothing changed when it raises. */
    method DeleteUsers(cutoff: int) returns (d: Deletion)
      modifies this
      ensures (Snapshot(), d) == HardDeleteUsers(old(Snapshot()), cutoff)
    {
      var step := HardDeleteUsers(Snapshot(), cutoff);
      d := step.1;
      if d.Deleted? {
        Load(step.0);
      }
    }

    /** hard_delete_observations. */
    method DeleteObservations(cutoff: int) returns (d: Deletion)
      modifies this
      ensures (Snapshot(), d) == HardDeleteObservations(old(Snapshot()), cutoff)
    {
      var step := HardDeleteObservations(Snapshot(), cutoff);
      d := step.1;
      Load(step.0);
    }

    /** hard_delete_goals: applied when it succeeds, nothing changed when it raises. */
    method DeleteGoals(cutoff: int) returns (d: Deletion)
      modifies this
      ensures (Snapshot(), d) == HardDeleteGoals(old(Snapshot()), cutoff)
    {
      var step := HardDeleteGoals(Snapshot(), cutoff);
      d := step.1;
      if d.Deleted? {
        Load(step.0);
      }
    }

    /** hard_delete_user_groups. */
    method DeleteMemberships(cutoff: int) returns (d: Deletion)
      modifies this
      ensures (Snapshot(), d) == HardDeleteMemberships(old(Snapshot()), cutoff)
    {
      var step := HardDeleteMemberships(Snapshot(), cutoff);
      d := step.1;
      Load(step.0);
    }

    /** The soft-delete half of update_data_integrity, one bulk update per table. */
    method SoftDelete(now: int, threshold: int) returns (soft: SoftCounts)
      modifies this
      ensures (Snapshot(), soft) == SoftPass(old(Snapshot()), now, threshold)
    {
      var t0 := Snapshot();
      var groupCount := |ExpiringGroups(t0, now, threshold)|;
      Load(SoftDeleteGroups(t0, now, threshold));
      var t1 := Snapshot();
      var userCount := |ExpiringUsers(t1, threshold)|;
      Load(SoftDeleteUsers(t1, now, threshold));
      var t2 := Snapshot();
      var observationCount := |ExpiringObservations(t2)|;
      Load(SoftDeleteObservations(t2, now));
      var t3 := Snapshot();
      var goalCount := |ExpiringGoals(t3)|;
      Load(SoftDeleteGoals(t3, now));
      var t4 := Snapshot();
      var membershipCount := |ExpiringMemberships(t4, now, threshold)|;
      Load(SoftDeleteMemberships(t4, now, threshold));
      soft := SoftCounts(groupCount, userCount, observationCount, goalCount, membershipCount);
    }

    /** The hard-delete half: stops at the first RestrictedError, keeping what earlier steps did. */
    method HardDelete(soft: SoftCounts, cutoffs: Cutoffs) returns (outcome: Outcome)
      modifies this
      ensures (Snapshot(), outcome) == HardPass(old(Snapshot()), soft, cutoffs)
    {
      var groups := DeleteGroups(cutoffs.groups);
      if groups.Restricted? {
        return RaisedRestricted;
      }
      var users := DeleteUsers(cutoffs.users);
      if users.Restricted? {
        return RaisedRestricted;
      }
      var observations := DeleteObservations(cutoffs.observations);
      var goals := DeleteGoals(cutoffs.goals);
      if goals.Restricted? {
        return RaisedRestricted;
      }
      var memberships := DeleteMemberships(cutoffs.memberships);
      outcome := Reported(Changes(
        Counts(soft.groups, groups.count), Counts(soft.users, users.count),
        Counts(soft.observations, observations.count), Counts(soft.goals, goals.count),
        Counts(soft.memberships, memberships.count)));
    }

    /** update_data_integrity(maintained_earlier_than), with `now` the clock reading it takes. */
    method UpdateDataIntegrity(threshold: int, now: int, retention: Retention) returns (outcome: Outcome)
      modifies this
      ensures (Snapshot(), outcome) == IntegrityOutcome(old(Snapshot()), now, threshold, retention)
    {
      var soft := SoftDelete(now, threshold);
      outcome := HardDelete(soft, CutoffsAt(now, retention));
    }
  }

  /** The hard deletes in source order, after soft deletes that updated `soft` rows. */
  function HardPass(t: Tables, soft: SoftCounts, cutoffs: Cutoffs): (Tables, Outcome) {
    var g := HardDeleteGroups(t, cutoffs.groups);
    if g.1.Restricted? then (t, RaisedRestricted)
    else
      var u := HardDeleteUsers(g.0, cutoffs.users);
      if u.1.Restricted? then (g.0, RaisedRestricted)
      else
        var o := HardDeleteObservations(u.0, cutoffs.observations);
        var l := HardDeleteGoals(o.0, cutoffs.goals);
        if l.1.Restricted? then (o.0, RaisedRestricted)
        else
          var m := HardDeleteMemberships(l.0, cutoffs.memberships);
          (m.0, Reported(Changes(
            Counts(soft.groups, g.1.count), Counts(soft.users, u.1.count), Counts(soft.observations, o.1.count),
            Counts(soft.goals, l.1.count), Counts(soft.memberships, m.1.count))))
  }

  /** The tables and the outcome after update_data_integrity. */
  function IntegrityOutcome(t: Tables, now: int, threshold: int, retention: Retention): (Tables, Outcome) {
    var (t1, soft) := SoftPass(t, now, threshold);
    HardPass(t1, soft, CutoffsAt(now, retention))
  }

  // ---------------------------------------------------------------- properties

  /** The groups step updates exactly the rows it counts, stamping them with `now`, and keeps every row. */
  lemma SoftDeleteGroupsCountsItsUpdates(t: Tables, now: int, threshold: int)
    ensures var r := SoftDeleteGroups(t, now, threshold);
      r.groups.Keys == t.groups.Keys &&
      r.(groups := t.groups) == t &&
      ExpiringGroups(t, now, threshold) == set g | g in t.groups && r.groups[g] != t.groups[g] &&
      forall g :: g in ExpiringGroups(t, now, threshold) ==> r.groups[g] == t.groups[g].(deletedAt := Some(now))
  {
  }

  /** The users step updates exactly the rows it counts, stamping them with `now`, and keeps every row. */
  lemma SoftDeleteUsersCountsItsUpdates(t: Tables, now: int, threshold: int)
    ensures var r := SoftDeleteUsers(t, now, threshold);
      r.users.Keys == t.users.Keys &&
      r.(users := t.users) == t &&
      ExpiringUsers(t, threshold) == set u | u in t.users && r.users[u] != t.users[u] &&
      forall u :: u in ExpiringUsers(t, threshold) ==> r.users[u] == t.users[u].(deletedAt := Some(now))
  {
  }

  /** The observations step updates exactly the rows it counts, stamping them with `now`, and keeps every row. */
  lemma SoftDeleteObservationsCountsItsUpdates(t: Tables, now: int)
    ensures var r := SoftDeleteObservations(t, now);
      r.observations.Keys == t.observations.Keys &&
      r.(observations := t.observations) == t &&
      ExpiringObservations(t) == set o | o in t.observations && r.observations[o] != t.observations[o] &&
      forall o :: o in ExpiringObservations(t) ==> r.observations[o] == t.observations[o].(deletedAt := Some(now))
  {
  }

  /** The goals step updates exactly the rows it counts, stamping them with `now`, and keeps every row. */
  lemma SoftDeleteGoalsCountsItsUpdates(t: Tables, now: int)
    ensures var r := SoftDeleteGoals(t, now);
      r.goals.Keys == t.goals.Keys &&
      r.(goals := t.goals) == t &&
      ExpiringGoals(t) == set g | g in t.goals && r.goals[g] != t.goals[g] &&
      forall g :: g in ExpiringGoals(t) ==> r.goals[g] == t.goals[g].(deletedAt := Some(now))
  {
  }

  /** The memberships step updates exactly the rows it counts, stamping them with `now`, and keeps every row. */
  lemma SoftDeleteMembershipsCountsItsUpdates(t: Tables, now: int, threshold: int)
    ensures var r := SoftDeleteMemberships(t, now, threshold);
      r.memberships.Keys == t.memberships.Keys &&
      r.(memberships := t.memberships) == t &&
      ExpiringMemberships(t, now, threshold) == set m | m in t.memberships && r.memberships[m] != t.memberships[m] &&
      forall m :: m in ExpiringMemberships(t, now, threshold) ==> r.memberships[m] == t.memberships[m].(deletedAt := Some(now))
  {
  }

  /** A group outside its validity window is never soft-deleted, however long it went unmaintained. */
  lemma InvalidGroupKept(t: Tables, g: Id, now: int, threshold: int)
    requires g in t.groups && !Within(t.groups[g].validFrom, t.groups[g].validTo, now)
    ensures SoftDeleteGroups(t, now, threshold).groups[g] == t.groups[g]
  {
  }

  /** A second groups step at the same time finds nothing to do and keeps the first step's deleted_at. */
  lemma SoftDeleteGroupsIdempotent(t: Tables, now: int, threshold: int)
    ensures var r := SoftDeleteGroups(t, now, threshold);
      ExpiringGroups(r, now, threshold) == {} && SoftDeleteGroups(r, now, threshold) == r
  {
  }

  /** Soft-deleted rows keep their deleted_at through a whole soft pass, and no row is added or removed. */
  lemma SoftPassKeepsDeleted(t: Tables, now: int, threshold: int)
    ensures var r := SoftPass(t, now, threshold).0;
      r.groups.Keys == t.groups.Keys && r.users.Keys == t.users.Keys && r.memberships.Keys == t.memberships.Keys &&
      r.goals.Keys == t.goals.Keys && r.observations.Keys == t.observations.Keys &&
      (forall g :: g in t.groups && t.groups[g].deletedAt.Some? ==> r.groups[g] == t.groups[g]) &&
      (forall u :: u in t.users && t.users[u].deletedAt.Some? ==> r.users[u] == t.users[u]) &&
      (forall m :: m in t.memberships && t.memberships[m].deletedAt.Some? ==> r.memberships[m] == t.memberships[m]) &&
      (forall g :: g in t.goals && t.goals[g].deletedAt.Some? ==> r.goals[g] == t.goals[g]) &&
      (forall o :: o in t.observations && t.observations[o].deletedAt.Some? ==> r.observations[o] == t.observations[o])
  {
  }

  /**
    Within one pass a deletion reaches what depends on it: after the soft
    pass every observation and personal goal of a soft-deleted student,
    and every goal and membership of a soft-deleted group, is soft-deleted.
   */
  lemma SoftPassPropagates(t: Tables, now: int, threshold: int)
    ensures var r := SoftPass(t, now, threshold).0;
      (forall o :: o in r.observations && UserDeleted(r, r.observations[o].student) ==> r.observations[o].deletedAt.Some?) &&
      (forall g :: g in r.goals && r.goals[g].student.Some? && UserDeleted(r, r.goals[g].student.value) ==> r.goals[g].deletedAt.Some?) &&
      (forall g :: g in r.goals && r.goals[g].group.Some? && GroupDeleted(r, r.goals[g].group.value) ==> r.goals[g].deletedAt.Some?) &&
      (forall m :: m in r.memberships && GroupDeleted(r, r.memberships[m].group) ==> r.memberships[m].deletedAt.Some?)
  {
  }

  /** `r` has the rows of `t`, with the same foreign keys. */
  predicate SameLinks(t: Tables, r: Tables) {
    r.groups.Keys == t.groups.Keys && r.users.Keys == t.users.Keys && r.memberships.Keys == t.memberships.Keys &&
    r.goals.Keys == t.goals.Keys && r.observations.Keys == t.observations.Keys &&
    (forall m :: m in t.memberships ==> r.memberships[m].user == t.memberships[m].user && r.memberships[m].group == t.memberships[m].group) &&
    (forall g :: g in t.goals ==>
      r.goals[g].group == t.goals[g].group && r.goals[g].student == t.goals[g].student && r.goals[g].previousGoal == t.goals[g].previousGoal) &&
    (forall o :: o in t.observations ==>
      r.observations[o].goal == t.observations[o].goal && r.observations[o].student == t.observations[o].student &&
      r.observations[o].observer == t.observations[o].observer)
  }

  lemma SameLinksKeepConsistency(t: Tables, r: Tables)
    requires Consistent(t) && SameLinks(t, r)
    ensures Consistent(r)
  {
  }

  /** A soft-delete step only sets deleted_at. */
  lemma SoftDeleteGroupsKeepsLinks(t: Tables, now: int, threshold: int)
    ensures SameLinks(t, SoftDeleteGroups(t, now, threshold))
  {
  }

  lemma SoftDeleteUsersKeepsLinks(t: Tables, now: int, threshold: int)
    ensures SameLinks(t, SoftDeleteUsers(t, now, threshold))
  {
  }

  lemma SoftDeleteObservationsKeepsLinks(t: Tables, now: int)
    ensures SameLinks(t, SoftDeleteObservations(t, now))
  {
  }

  lemma SoftDeleteGoalsKeepsLinks(t: Tables, now: int)
    ensures SameLinks(t, SoftDeleteGoals(t, now))
  {
  }

  lemma SoftDeleteMembershipsKeepsLinks(t: Tables, now: int, threshold: int)
    ensures SameLinks(t, SoftDeleteMemberships(t, now, threshold))
  {
  }

  /** The soft pass changes no foreign key, so it keeps the tables consistent. */
  lemma SoftPassKeepsConsistency(t: Tables, now: int, threshold: int)
    requires Consistent(t)
    ensures Consistent(SoftPass(t, now, threshold).0)
  {
    var t1 := SoftDeleteGroups(t, now, threshold);
    var t2 := SoftDeleteUsers(t1, now, threshold);
    var t3 := SoftDeleteObservations(t2, now);
    var t4 := SoftDeleteGoals(t3, now);
    SoftDeleteGroupsKeepsLinks(t, now, threshold);
    SameLinksKeepConsistency(t, t1);
    SoftDeleteUsersKeepsLinks(t1, now, threshold);
    SameLinksKeepConsistency(t1, t2);
    SoftDeleteObservationsKeepsLinks(t2, now);
    SameLinksKeepConsistency(t2, t3);
    SoftDeleteGoalsKeepsLinks(t3, now);
    SameLinksKeepConsistency(t3, t4);
    SoftDeleteMembershipsKeepsLinks(t4, now, threshold);
    SameLinksKeepConsistency(t4, SoftDeleteMemberships(t4, now, threshold));
  }

  /** Deleting groups cascades to their memberships and is stopped by a goal of theirs, so nothing dangles. */
  lemma HardDeleteGroupsKeepsConsistency(t: Tables, cutoff: int)
    requires Consistent(t)
    ensures HardDeleteGroups(t, cutoff).1.Deleted? ==> Consistent(HardDeleteGroups(t, cutoff).0)
  {
    var gone := GroupsOverdue(t, cutoff);
    var r := HardDeleteGroups(t, cutoff);
    if r.1.Deleted? {
      var blockers := set g | g in t.goals && t.goals[g].group.Some? && t.goals[g].group.value in gone;
      assert blockers == {};
      forall g | g in r.0.goals && r.0.goals[g].group.Some?
        ensures r.0.goals[g].group.value in r.0.groups
      {
        assert g !in blockers;
      }
    }
  }

  /** Deleting users cascades to memberships and observations, clears observers, and is stopped by a goal. */
  lemma HardDeleteUsersKeepsConsistency(t: Tables, cutoff: int)
    requires Consistent(t)
    ensures HardDeleteUsers(t, cutoff).1.Deleted? ==> Consistent(HardDeleteUsers(t, cutoff).0)
  {
    var gone := UsersOverdue(t, cutoff);
    var r := HardDeleteUsers(t, cutoff);
    if r.1.Deleted? {
      var blockers := set g | g in t.goals && t.goals[g].student.Some? && t.goals[g].student.value in gone;
      assert blockers == {};
      forall g | g in r.0.goals && r.0.goals[g].student.Some?
        ensures r.0.goals[g].student.value in r.0.users
      {
        assert g !in blockers;
      }
    }
  }

  /** Nothing refers to observations or memberships, so deleting them keeps the tables consistent. */
  lemma HardDeleteLeavesKeepConsistency(t: Tables, cutoff: int)
    requires Consistent(t)
    ensures Consistent(HardDeleteObservations(t, cutoff).0)
    ensures Consistent(HardDeleteMemberships(t, cutoff).0)
  {
  }

  /** Deleting goals is stopped by an observation on them or by a kept goal that follows one of them. */
  lemma HardDeleteGoalsKeepsConsistency(t: Tables, cutoff: int)
    requires Consistent(t)
    ensures HardDeleteGoals(t, cutoff).1.Deleted? ==> Consistent(HardDeleteGoals(t, cutoff).0)
  {
    var gone := GoalsOverdue(t, cutoff);
    var r := HardDeleteGoals(t, cutoff);
    if r.1.Deleted? {
      var observed := set o | o in t.observations && t.observations[o].goal in gone;
      var followed := set g | g in t.goals && g !in gone && t.goals[g].previousGoal.Some? && t.goals[g].previousGoal.value in gone;
      assert observed == {} && followed == {};
      forall g | g in r.0.goals && r.0.goals[g].previousGoal.Some?
        ensures r.0.goals[g].previousGoal.value in r.0.goals
      {
        assert g !in followed;
      }
      forall o | o in r.0.observations
        ensures r.0.observations[o].goal in r.0.goals
      {
        assert o !in observed;
      }
    }
  }

  /** update_data_integrity leaves a consistent database consistent, whether it reports or raises. */
  lemma IntegrityKeepsConsistency(t: Tables, now: int, threshold: int, retention: Retention)
    requires Consistent(t)
    ensures Consistent(IntegrityOutcome(t, now, threshold, retention).0)
  {
    var (t1, soft) := SoftPass(t, now, threshold);
    SoftPassKeepsConsistency(t, now, threshold);
    HardPassKeepsConsistency(t1, soft, CutoffsAt(now, retention));
  }

  /** Each hard delete keeps the references whole, so the tables a hard pass leaves, stopped or not, do too. */
  lemma HardPassKeepsConsistency(t: Tables, soft: SoftCounts, c: Cutoffs)
    requires Consistent(t)
    ensures Consistent(HardPass(t, soft, c).0)
  {
    var g := HardDeleteGroups(t, c.groups);
    HardDeleteGroupsKeepsConsistency(t, c.groups);
    if g.1.Deleted? {
      var u := HardDeleteUsers(g.0, c.users);
      HardDeleteUsersKeepsConsistency(g.0, c.users);
      if u.1.Deleted? {
        var o := HardDeleteObservations(u.0, c.observations);
        HardDeleteLeavesKeepConsistency(u.0, c.observations);
        var l := HardDeleteGoals(o.0, c.goals);
        HardDeleteGoalsKeepsConsistency(o.0, c.goals);
        if l.1.Deleted? {
          HardDeleteLeavesKeepConsistency(l.0, c.memberships);
        }
      }
    }
  }

  /** When the pass reports, no row soft-deleted before its table's cutoff is left. */
  lemma ReportedLeavesNothingOverdue(t: Tables, now: int, threshold: int, retention: Retention)
    requires IntegrityOutcome(t, now, threshold, retention).1.Reported?
    ensures var r := IntegrityOutcome(t, now, threshold, retention).0;
      var c := CutoffsAt(now, retention);
      GroupsOverdue(r, c.groups) == {} && UsersOverdue(r, c.users) == {} &&
      ObservationsOverdue(r, c.observations) == {} && GoalsOverdue(r, c.goals) == {} &&
      MembershipsOverdue(r, c.memberships) == {}
  {
  }

  /**
    Users are soft-deleted before memberships, so a user whose last
    active membership goes in this pass is soft-deleted only by the next
    pass: here membership 0 expires in the first pass and user 0 in the
    second.
   */
  lemma UserLagsOnePass()
    ensures var t := Tables(map[0 := GroupRow(None, None, Some(100), None)],
                            map[0 := UserRow(false, Some(0), None)],
                            map[0 := MembershipRow(0, 0, Some(0), None)],
                            map[], map[]);
      var first := SoftPass(t, 200, 50).0;
      !UserDeleted(first, 0) && first.memberships[0].deletedAt == Some(200) &&
      UserDeleted(SoftPass(first, 300, 50).0, 0)
  {
    var t := Tables(map[0 := GroupRow(None, None, Some(100), None)],
                    map[0 := UserRow(false, Some(0), None)],
                    map[0 := MembershipRow(0, 0, Some(0), None)],
                    map[], map[]);
    assert ActiveMemberships(t.memberships, 0) == {0};
    var first := SoftPass(t, 200, 50).0;
    assert ActiveMemberships(first.memberships, 0) == {};
  }
}
