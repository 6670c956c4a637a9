/**
  The membership import of backend/mastery/data_import/import_users.py:
  for each group of a school's memberships file, every teacher and student
  is made a user (created, or maintained when one with the same Feide id
  exists) and given a membership of the group with that role (created, or
  maintained with the role overwritten), with counters, an error list and a
  progress report every ten processed members.

  The database is the users keyed by Feide id, the Feide ids of the known
  groups and the memberships keyed by (user, group); the clock is a
  parameter `now`.
 */
module ImportUsers {
  import opened Text

  datatype RoleName = Teacher | Student

  datatype UserRecord = UserRecord(name: string, email: string, maintainedAt: Option<int>)

  datatype MembershipRecord = MembershipRecord(role: RoleName, maintainedAt: Option<int>)

  /** The rows the import reads and writes. */
  datatype Db = Db(
    users: map<string, UserRecord>, groups: set<string>, memberships: map<(string, string), MembershipRecord>)

  /** One member of the file: its "feide_id", "name" and "email", each None when the key is absent. */
  datatype MemberData = MemberData(feideId: Option<string>, name: Option<string>, email: Option<string>)

  /** One entry of the file: a group's Feide id and its "teachers" and "students" lists (empty when absent). */
  datatype GroupEntry = GroupEntry(groupId: string, teachers: seq<MemberData>, students: seq<MemberData>)

  /** What ensure_user_exists returns: the user's Feide id and whether it was created, or the error message. */
  datatype UserOutcome = UserReady(feideId: string, created: bool) | UserFailed(message: string)

  /** The message when a member has no "feide_id": the KeyError of the lookup, with "??" for the id. */
  const MissingFeideIdMessage := "Ensure user failed ??: 'feide_id'"

  /**
    ensure_user_exists: a user with the member's Feide id gets the member's
    name and email where given (keeping its own otherwise) and is
    maintained; without one a user is created with "" for a missing name or
    email. Nothing else changes.
   */
  function EnsureUser(db: Db, data: MemberData, now: int): (r: (Db, UserOutcome))
    ensures data.feideId.None? <==> r.1.UserFailed?
    ensures r.1.UserFailed? ==> r.0 == db
    ensures r.1.UserReady? ==> (
      var id := r.1.feideId;
      data.feideId == Some(id) && id in r.0.users &&
      r.1.created == (id !in db.users) &&
      r.0.users.Keys == db.users.Keys + {id} &&
      r.0.users[id].maintainedAt == Some(now) &&
      r.0.users[id].name == data.name.GetOr(if id in db.users then db.users[id].name else "") &&
      r.0.users[id].email == data.email.GetOr(if id in db.users then db.users[id].email else "") &&
      (forall other :: other in db.users && other != id ==> r.0.users[other] == db.users[other]) &&
      r.0.groups == db.groups && r.0.memberships == db.memberships)
  {
    match data.feideId
    case None => (db, UserFailed(MissingFeideIdMessage))
    case Some(id) =>
      if id in db.users then
        var existing := db.users[id];
        var user := UserRecord(data.name.GetOr(existing.name), data.email.GetOr(existing.email), Some(now));
        (db.(users := db.users[id := user]), UserReady(id, false))
      else
        var user := UserRecord(data.name.GetOr(""), data.email.GetOr(""), Some(now));
        (db.(users := db.users[id := user]), UserReady(id, true))
  }

  /**
    ensure_membership_exists: the membership of `user` in `group` — at most
    one per pair — gets `role` and is maintained, and is created when it did
    not exist. Nothing else changes.
   */
  function EnsureMembership(db: Db, user: string, group: string, role: RoleName, now: int): (r: (Db, bool))
    ensures r.1 <==> (user, group) !in db.memberships
    ensures r.0.memberships.Keys == db.memberships.Keys + {(user, group)}
    ensures r.0.memberships[(user, group)] == MembershipRecord(role, Some(now))
    ensures forall key :: key in db.memberships && key != (user, group) ==> r.0.memberships[key] == db.memberships[key]
    ensures r.0.users == db.users && r.0.groups == db.groups
  {
    var created := (user, group) !in db.memberships;
    (db.(memberships := db.memberships[(user, group) := MembershipRecord(role, Some(now))]), created)
  }

  // ---------------------------------------------------------------- the import loop

  datatype ImportError =
    | MissingGroup(groupId: string, message: string)
    | EnsureUserFailed(feideId: Option<string>, groupId: string, message: string)

  /** The "changes" counters of a report. */
  datatype Changes = Changes(
    usersCreated: nat, usersMaintained: nat, usersFailed: nat, membershipsCreated: nat, membershipsMaintained: nat)

  datatype Report = Report(changes: Changes, errors: seq<ImportError>, isDone: bool)

  /** The loop's own variables: counters, errors, the Feide ids already counted, the processed count and the reports given. */
  datatype Tally = Tally(
    changes: Changes, errors: seq<ImportError>, processedUsers: set<string>, processed: nat, reports: seq<Report>)

  const NoTally := Tally(Changes(0, 0, 0, 0, 0), [], {}, 0, [])

  /** The database and the loop's variables together. */
  datatype Import = Import(db: Db, tally: Tally)

  /** The user counters after a user is ensured: only a Feide id not counted before counts, as created or maintained. */
  function CountUser(t: Tally, id: string, created: bool): Tally {
    if id in t.processedUsers then t
    else if created then t.(processedUsers := t.processedUsers + {id}, changes := t.changes.(usersCreated := t.changes.usersCreated + 1))
    else t.(processedUsers := t.processedUsers + {id}, changes := t.changes.(usersMaintained := t.changes.usersMaintained + 1))
  }

  /** The end of a processed member: one more processed, and every tenth gives a report. */
  function CountProcessed(t: Tally): Tally {
    var processed := t.processed + 1;
    var reports := if processed % 10 == 0 then t.reports + [Report(t.changes, t.errors, false)] else t.reports;
    t.(processed := processed, reports := reports)
  }

  /** The membership counters after a membership is ensured: created or maintained. */
  function CountMembership(t: Tally, created: bool): Tally {
    if created then t.(changes := t.changes.(membershipsCreated := t.changes.membershipsCreated + 1))
    else t.(changes := t.changes.(membershipsMaintained := t.changes.membershipsMaintained + 1))
  }

  /** A user that could not be ensured: one more error and one more failed user. */
  function CountFailure(t: Tally, feideId: Option<string>, group: string, message: string): Tally {
    t.(errors := t.errors + [EnsureUserFailed(feideId, group, message)],
       changes := t.changes.(usersFailed := t.changes.usersFailed + 1))
  }

  /** One member of group `group` with role `role`. */
  function ImportMember(s: Import, group: string, role: RoleName, data: MemberData, now: int): Import {
    var (db, outcome) := EnsureUser(s.db, data, now);
    match outcome
    case UserFailed(message) => Import(db, CountFailure(s.tally, data.feideId, group, message))
    case UserReady(id, userCreated) =>
      var (db', membershipCreated) := EnsureMembership(db, id, group, role, now);
      Import(db', CountProcessed(CountMembership(CountUser(s.tally, id, userCreated), membershipCreated)))
  }

  /** The members of one role list, in order. */
  function ImportMembers(s: Import, group: string, role: RoleName, members: seq<MemberData>, now: int): Import
    decreases |members|
  {
    if members == [] then s
    else ImportMembers(ImportMember(s, group, role, members[0], now), group, role, members[1..], now)
  }

  /** One group: unknown to the database it is one missing-group error; else its teachers, then its students. */
  function ImportGroup(s: Import, entry: GroupEntry, now: int): Import {
    if entry.groupId !in s.db.groups then
      var t := s.tally;
      Import(s.db, t.(errors := t.errors + [MissingGroup(entry.groupId, "Expected group not found: " + entry.groupId)]))
    else
      var s1 := ImportMembers(s, entry.groupId, Teacher, entry.teachers, now);
      ImportMembers(s1, entry.groupId, Student, entry.students, now)
  }

  function ImportGroups(s: Import, entries: seq<GroupEntry>, now: int): Import
    decreases |entries|
  {
    if entries == [] then s else ImportGroups(ImportGroup(s, entries[0], now), entries[1..], now)
  }

  /** How the generator ends: a missing file raises, else the reports given and the final one with is_done. */
  datatype ImportRun = MissingFile | Imported(reports: seq<Report>)

  function ImportMemberships(db: Db, file: Option<seq<GroupEntry>>, now: int): (Db, ImportRun) {
    match file
    case None => (db, MissingFile)
    case Some(entries) => Finished(ImportGroups(Import(db, NoTally), entries, now))
  }

  /** After the loop: the database and the reports, with the final one. */
  function Finished(s: Import): (Db, ImportRun) {
    (s.db, Imported(s.tally.reports + [Report(s.tally.changes, s.tally.errors, true)]))
  }

  // ---------------------------------------------------------------- properties

  /**
    The counters agree: users created plus maintained is the number of
    distinct Feide ids counted, memberships created plus maintained is the
    number of processed members, and there is one report, not final, per
    ten processed members.
   */
  predicate Counted(t: Tally) {
    t.changes.usersCreated + t.changes.usersMaintained == |t.processedUsers| &&
    t.changes.membershipsCreated + t.changes.membershipsMaintained == t.processed &&
    |t.reports| == t.processed / 10 &&
    forall i :: 0 <= i < |t.reports| ==> !t.reports[i].isDone
  }

  /** The Feide ids of the members that have one. */
  function MemberIds(members: seq<MemberData>): set<string> {
    set m | m in members && m.feideId.Some? :: m.feideId.value
  }

  /** The Feide ids of the members of the entries whose group is known. */
  function EntryIds(entries: seq<GroupEntry>, groups: set<string>): set<string> {
    if entries == [] then {}
    else
      (if entries[0].groupId in groups then MemberIds(entries[0].teachers) + MemberIds(entries[0].students) else {})
        + EntryIds(entries[1..], groups)
  }

  /** The Feide id a member adds to the counted ones, if any. */
  function IdOf(data: MemberData): set<string> {
    if data.feideId.Some? then {data.feideId.value} else {}
  }

  lemma MemberIdsCons(members: seq<MemberData>)
    requires members != []
    ensures MemberIds(members) == IdOf(members[0]) + MemberIds(members[1..])
  {
    assert forall m :: m in members <==> m == members[0] || m in members[1..];
  }

  lemma TenthStep(n: nat)
    ensures (n + 1) / 10 == n / 10 + (if (n + 1) % 10 == 0 then 1 else 0)
  {
  }

  /** Counting one processed member keeps the reports at one per ten, none final. */
  lemma CountProcessedCounted(t: Tally)
    requires |t.reports| == t.processed / 10 && forall i :: 0 <= i < |t.reports| ==> !t.reports[i].isDone
    ensures var t' := CountProcessed(t);
      |t'.reports| == t'.processed / 10 && (forall i :: 0 <= i < |t'.reports| ==> !t'.reports[i].isDone) &&
      t'.processed == t.processed + 1 && t'.changes == t.changes && t'.processedUsers == t.processedUsers
  {
    TenthStep(t.processed);
  }

  lemma CountUserCounted(t: Tally, id: string, created: bool)
    requires t.changes.usersCreated + t.changes.usersMaintained == |t.processedUsers|
    ensures var t' := CountUser(t, id, created);
      t'.changes.usersCreated + t'.changes.usersMaintained == |t'.processedUsers| &&
      t'.processedUsers == t.processedUsers + {id} &&
      t'.changes.membershipsCreated == t.changes.membershipsCreated &&
      t'.changes.membershipsMaintained == t.changes.membershipsMaintained &&
      t'.processed == t.processed && t'.reports == t.reports
  {
  }

  lemma ImportMemberCounts(s: Import, group: string, role: RoleName, data: MemberData, now: int)
    requires Counted(s.tally)
    ensures Counted(ImportMember(s, group, role, data, now).tally)
  {
    if data.feideId.Some? {
      var id := data.feideId.value;
      CountUserCounted(s.tally, id, id !in s.db.users);
      var t := CountUser(s.tally, id, id !in s.db.users);
      var membershipCreated := EnsureMembership(EnsureUser(s.db, data, now).0, id, group, role, now).1;
      CountProcessedCounted(CountMembership(t, membershipCreated));
    }
  }

  lemma ImportMemberIds(s: Import, group: string, role: RoleName, data: MemberData, now: int)
    ensures var s' := ImportMember(s, group, role, data, now);
      s'.db.groups == s.db.groups && s'.tally.processedUsers == s.tally.processedUsers + IdOf(data)
  {
  }

  lemma {:induction false} ImportMembersCounts(s: Import, group: string, role: RoleName, members: seq<MemberData>, now: int)
    requires Counted(s.tally)
    ensures var s' := ImportMembers(s, group, role, members, now);
      Counted(s'.tally) && s'.db.groups == s.db.groups &&
      s'.tally.processedUsers == s.tally.processedUsers + MemberIds(members)
    decreases |members|
  {
    if members != [] {
      ImportMemberCounts(s, group, role, members[0], now);
      ImportMemberIds(s, group, role, members[0], now);
      ImportMembersCounts(ImportMember(s, group, role, members[0], now), group, role, members[1..], now);
      MemberIdsCons(members);
    }
  }

  lemma {:induction false} ImportGroupsCounts(s: Import, entries: seq<GroupEntry>, now: int)
    requires Counted(s.tally)
    ensures var s' := ImportGroups(s, entries, now);
      Counted(s'.tally) && s'.db.groups == s.db.groups &&
      s'.tally.processedUsers == s.tally.processedUsers + EntryIds(entries, s.db.groups)
    decreases |entries|
  {
    if entries != [] {
      var e := entries[0];
      if e.groupId in s.db.groups {
        ImportMembersCounts(s, e.groupId, Teacher, e.teachers, now);
        ImportMembersCounts(ImportMembers(s, e.groupId, Teacher, e.teachers, now), e.groupId, Student, e.students, now);
      }
      ImportGroupsCounts(ImportGroup(s, e, now), entries[1..], now);
    }
  }

  /**
    The reports of a finished import: one per ten processed members with
    is_done false, then the final one with is_done true, whose users
    created plus maintained is `users`.
   */
  predicate FinalReports(reports: seq<Report>, users: nat) {
    reports != [] &&
    var final := reports[|reports| - 1];
    final.isDone && final.changes.usersCreated + final.changes.usersMaintained == users &&
    (forall i :: 0 <= i < |reports| - 1 ==> !reports[i].isDone) &&
    |reports| == (final.changes.membershipsCreated + final.changes.membershipsMaintained) / 10 + 1
  }

  /**
    Each distinct Feide id of a member of a known group is counted exactly
    once, as created or as maintained; memberships created plus maintained
    is the number of processed members, and there is one intermediate
    report per ten of them.
   */
  lemma ImportCountsEachUserOnce(db: Db, entries: seq<GroupEntry>, now: int)
    ensures ImportMemberships(db, Some(entries), now).1.Imported?
    ensures FinalReports(ImportMemberships(db, Some(entries), now).1.reports, |EntryIds(entries, db.groups)|)
  {
    ImportCountsFromStart(db, NoTally, entries, now);
    ImportRunsGroups(db, entries, now);
  }

  lemma ImportRunsGroups(db: Db, entries: seq<GroupEntry>, now: int)
    ensures ImportMemberships(db, Some(entries), now) == Finished(ImportGroups(Import(db, NoTally), entries, now))
  {
  }

  /** The counting from the start of an import. */
  lemma ImportCountsFromStart(db: Db, t0: Tally, entries: seq<GroupEntry>, now: int)
    requires t0 == NoTally
    ensures FinalReports(Finished(ImportGroups(Import(db, t0), entries, now)).1.reports, |EntryIds(entries, db.groups)|)
  {
    ImportCountsFrom(Import(db, t0), entries, now);
  }

  lemma ImportCountsFrom(s: Import, entries: seq<GroupEntry>, now: int)
    requires Counted(s.tally) && s.tally.processedUsers == {}
    ensures FinalReports(Finished(ImportGroups(s, entries, now)).1.reports, |EntryIds(entries, s.db.groups)|)
  {
    ImportGroupsCounts(s, entries, now);
  }

  /**
    The user counters against the users before the import (`before`): the
    database holds exactly those plus the counted Feide ids; a counted id
    new to the database was created, one already there maintained.
   */
  predicate UsersSplit(s: Import, before: set<string>) {
    s.db.users.Keys == before + s.tally.processedUsers &&
    s.tally.changes.usersCreated == |s.tally.processedUsers - before| &&
    s.tally.changes.usersMaintained == |s.tally.processedUsers * before|
  }

  /** Counting a user keeps the created/maintained split, `created` being whether the id is new to the database. */
  lemma CountUserSplits(t: Tally, id: string, created: bool, before: set<string>)
    requires id !in t.processedUsers ==> created == (id !in before)
    requires t.changes.usersCreated == |t.processedUsers - before| && t.changes.usersMaintained == |t.processedUsers * before|
    ensures var t' := CountUser(t, id, created);
      t'.processedUsers == t.processedUsers + {id} &&
      t'.changes.usersCreated == |t'.processedUsers - before| && t'.changes.usersMaintained == |t'.processedUsers * before|
  {
    var p := t.processedUsers;
    if id !in p {
      if id in before {
        OldIdSplits(p, id, before);
      } else {
        NewIdSplits(p, id, before);
      }
    } else {
      assert p + {id} == p;
    }
  }

  lemma OldIdSplits(p: set<string>, id: string, before: set<string>)
    requires id !in p && id in before
    ensures |(p + {id}) * before| == |p * before| + 1 && |(p + {id}) - before| == |p - before|
  {
    assert (p + {id}) * before == p * before + {id};
    assert (p + {id}) - before == p - before;
  }

  lemma NewIdSplits(p: set<string>, id: string, before: set<string>)
    requires id !in p && id !in before
    ensures |(p + {id}) - before| == |p - before| + 1 && |(p + {id}) * before| == |p * before|
  {
    assert (p + {id}) - before == (p - before) + {id};
    assert (p + {id}) * before == p * before;
  }

  lemma ImportMemberSplits(s: Import, group: string, role: RoleName, data: MemberData, now: int, before: set<string>)
    requires UsersSplit(s, before)
    ensures UsersSplit(ImportMember(s, group, role, data, now), before)
  {
    var (db, outcome) := EnsureUser(s.db, data, now);
    if outcome.UserReady? {
      var id := outcome.feideId;
      CountUserSplits(s.tally, id, outcome.created, before);
      var t := CountUser(s.tally, id, outcome.created);
      var (db', membershipCreated) := EnsureMembership(db, id, group, role, now);
      var t' := CountProcessed(CountMembership(t, membershipCreated));
      assert t'.processedUsers == t.processedUsers && t'.changes.usersCreated == t.changes.usersCreated
        && t'.changes.usersMaintained == t.changes.usersMaintained;
      assert ImportMember(s, group, role, data, now) == Import(db', t');
    }
  }

  lemma {:induction false} ImportMembersSplits(s: Import, group: string, role: RoleName, members: seq<MemberData>, now: int, before: set<string>)
    requires UsersSplit(s, before)
    ensures UsersSplit(ImportMembers(s, group, role, members, now), before)
    decreases |members|
  {
    if members != [] {
      ImportMemberSplits(s, group, role, members[0], now, before);
      ImportMembersSplits(ImportMember(s, group, role, members[0], now), group, role, members[1..], now, before);
    }
  }

  lemma {:induction false} ImportGroupsSplits(s: Import, entries: seq<GroupEntry>, now: int, before: set<string>)
    requires UsersSplit(s, before)
    ensures UsersSplit(ImportGroups(s, entries, now), before)
    decreases |entries|
  {
    if entries != [] {
      var e := entries[0];
      if e.groupId in s.db.groups {
        ImportMembersSplits(s, e.groupId, Teacher, e.teachers, now, before);
        ImportMembersSplits(ImportMembers(s, e.groupId, Teacher, e.teachers, now), e.groupId, Student, e.students, now, before);
      }
      ImportGroupsSplits(ImportGroup(s, e, now), entries[1..], now, before);
    }
  }

  /**
    Into a database with no users, the import maintains no user and
    creates one per distinct Feide id of a member of a known group.
   */
  lemma FreshImportCreatesEveryUser(db: Db, entries: seq<GroupEntry>, now: int)
    requires db.users == map[]
    ensures var run := ImportMemberships(db, Some(entries), now).1;
      run.Imported? && run.reports != [] &&
      run.reports[|run.reports| - 1].changes.usersMaintained == 0 &&
      run.reports[|run.reports| - 1].changes.usersCreated == |EntryIds(entries, db.groups)|
  {
    ImportRunsGroups(db, entries, now);
    FreshGroupsFromStart(db, NoTally, entries, now);
  }

  lemma FreshGroupsFromStart(db: Db, t0: Tally, entries: seq<GroupEntry>, now: int)
    requires db.users == map[] && t0 == NoTally
    ensures var e := ImportGroups(Import(db, t0), entries, now);
      e.tally.changes.usersMaintained == 0 && e.tally.changes.usersCreated == |EntryIds(entries, db.groups)|
  {
    FreshGroupsCreateEveryUser(Import(db, t0), entries, now);
  }

  lemma FreshGroupsCreateEveryUser(s: Import, entries: seq<GroupEntry>, now: int)
    requires UsersSplit(s, {}) && Counted(s.tally) && s.tally.processedUsers == {}
    ensures var e := ImportGroups(s, entries, now);
      e.tally.changes.usersMaintained == 0 && e.tally.changes.usersCreated == |EntryIds(entries, s.db.groups)|
  {
    ImportGroupsSplits(s, entries, now, {});
    NothingBeforeAllCreated(ImportGroups(s, entries, now));
    ImportGroupsCounts(s, entries, now);
  }

  lemma NothingBeforeAllCreated(e: Import)
    requires UsersSplit(e, {})
    ensures e.tally.changes.usersMaintained == 0 && e.tally.changes.usersCreated == |e.tally.processedUsers|
  {
    var p := e.tally.processedUsers;
    assert p - {} == p && p * {} == {};
  }

  /** A group unknown to the database adds one missing-group error, and its members are skipped. */
  lemma MissingGroupSkipped(s: Import, entry: GroupEntry, now: int)
    requires entry.groupId !in s.db.groups
    ensures var s' := ImportGroup(s, entry, now);
      s'.db == s.db && s'.tally.changes == s.tally.changes && s'.tally.processed == s.tally.processed &&
      |s'.tally.errors| == |s.tally.errors| + 1 && s'.tally.errors[..|s.tally.errors|] == s.tally.errors &&
      s'.tally.errors[|s.tally.errors|].MissingGroup? && s'.tally.errors[|s.tally.errors|].groupId == entry.groupId
  {
  }

  /** A member whose user cannot be ensured adds one error and one failed user, and gets no membership. */
  lemma UserFailureSkipsMembership(s: Import, group: string, role: RoleName, data: MemberData, now: int)
    requires data.feideId.None?
    ensures var s' := ImportMember(s, group, role, data, now);
      s'.db == s.db && s'.tally.processed == s.tally.processed &&
      s'.tally.changes.usersFailed == s.tally.changes.usersFailed + 1 &&
      s'.tally.changes.membershipsCreated == s.tally.changes.membershipsCreated &&
      s'.tally.changes.membershipsMaintained == s.tally.changes.membershipsMaintained &&
      s'.tally.errors == s.tally.errors + [EnsureUserFailed(None, group, MissingFeideIdMessage)]
  {
  }

  /** The import only adds users and memberships: none is removed. */
  predicate Grows(db: Db, db': Db) {
    db.users.Keys <= db'.users.Keys && db.memberships.Keys <= db'.memberships.Keys && db'.groups == db.groups
  }

  lemma {:induction false} ImportMembersGrows(s: Import, group: string, role: RoleName, members: seq<MemberData>, now: int)
    ensures var s' := ImportMembers(s, group, role, members, now);
      Grows(s.db, s'.db) &&
      forall m :: m in members && m.feideId.Some? ==>
        m.feideId.value in s'.db.users && (m.feideId.value, group) in s'.db.memberships
    decreases |members|
  {
    if members != [] {
      var s1 := ImportMember(s, group, role, members[0], now);
      ImportMembersGrows(s1, group, role, members[1..], now);
      assert forall m :: m in members ==> m == members[0] || m in members[1..];
    }
  }

  lemma {:induction false} ImportGroupsGrows(s: Import, entries: seq<GroupEntry>, now: int)
    ensures var s' := ImportGroups(s, entries, now);
      Grows(s.db, s'.db) &&
      forall i, m :: (0 <= i < |entries| && entries[i].groupId in s.db.groups &&
        (m in entries[i].teachers || m in entries[i].students) && m.feideId.Some?) ==>
        m.feideId.value in s'.db.users && (m.feideId.value, entries[i].groupId) in s'.db.memberships
    decreases |entries|
  {
    if entries != [] {
      var e := entries[0];
      var s1 := ImportGroup(s, e, now);
      if e.groupId in s.db.groups {
        var s0 := ImportMembers(s, e.groupId, Teacher, e.teachers, now);
        ImportMembersGrows(s, e.groupId, Teacher, e.teachers, now);
        ImportMembersGrows(s0, e.groupId, Student, e.students, now);
      }
      ImportGroupsGrows(s1, entries[1..], now);
      assert forall i :: 1 <= i < |entries| ==> entries[i] == entries[1..][i - 1];
    }
  }

  /**
    After the import every member with a Feide id of a known group is a
    user and has a membership of that group; no user or membership was
    removed, and the groups are untouched.
   */
  lemma ImportedMembersBelong(db: Db, entries: seq<GroupEntry>, now: int)
    ensures var db' := ImportMemberships(db, Some(entries), now).0;
      Grows(db, db') &&
      forall i, m :: (0 <= i < |entries| && entries[i].groupId in db.groups &&
        (m in entries[i].teachers || m in entries[i].students) && m.feideId.Some?) ==>
        m.feideId.value in db'.users && (m.feideId.value, entries[i].groupId) in db'.memberships
  {
    ImportGroupsGrows(Import(db, NoTally), entries, now);
  }

  // ---------------------------------------------------------------- the database, updated in place

  class Directory {
    var users: map<string, UserRecord>
    var groups: set<string>
    var memberships: map<(string, string), MembershipRecord>

    constructor(db: Db)
      ensures Snapshot() == db
    {
      users, groups, memberships := db.users, db.groups, db.memberships;
    }

    function Snapshot(): Db
      reads this
    {
      Db(users, groups, memberships)
    }

    method EnsureUserExists(data: MemberData, now: int) returns (outcome: UserOutcome)
      modifies this
      ensures (Snapshot(), outcome) == EnsureUser(old(Snapshot()), data, now)
    {
      if data.feideId.None? {
        return UserFailed(MissingFeideIdMessage);
      }
      var id := data.feideId.value;
      if id in users {
        var user := users[id];
        users := users[id := UserRecord(data.name.GetOr(user.name), data.email.GetOr(user.email), Some(now))];
        return UserReady(id, false);
      }
      users := users[id := UserRecord(data.name.GetOr(""), data.email.GetOr(""), Some(now))];
      outcome := UserReady(id, true);
    }

    method EnsureMembershipExists(user: string, group: string, role: RoleName, now: int) returns (created: bool)
      modifies this
      ensures (Snapshot(), created) == EnsureMembership(old(Snapshot()), user, group, role, now)
    {
      created := (user, group) !in memberships;
      memberships := memberships[(user, group) := MembershipRecord(role, Some(now))];
    }

    /** One member of a role list: ensure the user, then, when that succeeded, the membership. */
    method ImportOneMember(t0: Tally, group: string, role: RoleName, data: MemberData, now: int) returns (t: Tally)
      modifies this
      ensures Import(Snapshot(), t) == ImportMember(Import(old(Snapshot()), t0), group, role, data, now)
    {
      t := t0;
      var outcome := EnsureUserExists(data, now);
      match outcome {
        case UserFailed(message) =>
          t := CountFailure(t, data.feideId, group, message);
        case UserReady(id, userCreated) =>
          t := CountUser(t, id, userCreated);
          var membershipCreated := EnsureMembershipExists(id, group, role, now);
          t := CountMembership(t, membershipCreated);
          t := CountProcessed(t);
      }
    }

    /** The loop over one role list of a group. */
    method ImportRoleMembers(t0: Tally, group: string, role: RoleName, members: seq<MemberData>, now: int)
      returns (t: Tally)
      modifies this
      ensures Import(Snapshot(), t) == ImportMembers(Import(old(Snapshot()), t0), group, role, members, now)
    {
      t := t0;
      var k := 0;
      while k < |members|
        invariant 0 <= k <= |members|
        invariant ImportMembers(Import(Snapshot(), t), group, role, members[k..], now) ==
          ImportMembers(Import(old(Snapshot()), t0), group, role, members, now)
      {
        assert members[k..][1..] == members[k + 1..];
        t := ImportOneMember(t, group, role, members[k], now);
        k := k + 1;
      }
    }

    /** import_memberships_from_file, given the file's entries (None when it does not exist). */
    method ImportMembershipsFromFile(file: Option<seq<GroupEntry>>, now: int) returns (run: ImportRun)
      modifies this
      ensures (Snapshot(), run) == ImportMemberships(old(Snapshot()), file, now)
    {
      if file.None? {
        return MissingFile;
      }
      var entries := file.value;
      var t := NoTally;
      for i := 0 to |entries|
        invariant ImportGroups(Import(Snapshot(), t), entries[i..], now) ==
          ImportGroups(Import(old(Snapshot()), NoTally), entries, now)
      {
        assert entries[i..][1..] == entries[i + 1..];
        var entry := entries[i];
        if entry.groupId !in groups {
          t := t.(errors := t.errors + [MissingGroup(entry.groupId, "Expected group not found: " + entry.groupId)]);
        } else {
          t := ImportRoleMembers(t, entry.groupId, Teacher, entry.teachers, now);
          t := ImportRoleMembers(t, entry.groupId, Student, entry.students, now);
        }
      }
      run := Imported(t.reports + [Report(t.changes, t.errors, true)]);
    }
  }
}
