/**
  fetch_memberships_from_feide (backend/mastery/data_import/feide_api.py):
  for each basis and teaching group of a school's groups file, the members
  the Feide API returns, sorted by affiliation into teachers, students and
  others, with running counters, a unique-user set and a progress report
  every ten groups.

  The groups file is the result lists the group fetch wrote (None when the
  file does not exist); the members API is a function from a group id to
  its response.
 */
module FeideMemberships {
  import opened Text
  import opened ImportHelpers
  import FeideGroups

  /** The body of an answer as `.json()` reads it: a member list (None for null), or a body that is not JSON. */
  datatype MembersBody = Json(members: Option<seq<FeideMember>>) | NotJson

  /** The members API for one group: `requests.get` raised, or an answer with its status code and body. */
  datatype MembersResponse = Raised | Answered(status: int, body: MembersBody)

  datatype Role = StudentRole | FacultyRole | OtherRole

  /** The lists written for one group. */
  datatype GroupMembers = GroupMembers(teachers: seq<UserItem>, students: seq<UserItem>, other: seq<UserItem>)

  const NoMembers := GroupMembers([], [], [])

  datatype ErrorKind = DataError | FetchError

  /** One entry of the "errors" list: its "error" kind and its "message". */
  datatype ImportError = ImportError(kind: ErrorKind, message: string)

  /** A progress report: the errors so far, the four counters, and whether it is the final one. */
  datatype Report = Report(
    errors: seq<ImportError>, teacherMemberships: nat, studentMemberships: nat, uniqueUsers: nat,
    totalMemberships: nat, isDone: bool)

  /**
    The variables of the loop: the memberships written so far by group id,
    the errors, the teacher, student and total counters, the set of Feide
    ids seen, the reports given, and whether the loop has raised (in
    `requests.get`, in `.json()` or in create_user_item).
   */
  datatype Tally = Tally(
    memberships: map<string, GroupMembers>, errors: seq<ImportError>, teachers: nat, students: nat,
    unique: set<string>, total: nat, reports: seq<Report>, crashed: bool)

  const NoTally := Tally(map[], [], 0, 0, {}, 0, [], false)

  /** The role of a member: its affiliation, or "" when it has none, lower-cased. */
  function RoleOf(item: UserItem): (r: Role)
    ensures r == StudentRole <==> Lower(item.affiliation.GetOr("")) == "student"
    ensures r == FacultyRole <==> Lower(item.affiliation.GetOr("")) == "faculty"
  {
    var affiliation := Lower(item.affiliation.GetOr(""));
    if affiliation == "student" then StudentRole
    else if affiliation == "faculty" then FacultyRole
    else OtherRole
  }

  function ReportOf(t: Tally, isDone: bool): Report {
    Report(t.errors, t.teachers, t.students, |t.unique|, t.total, isDone)
  }

  /** The lists of group `id` with one more member in the list of its role. */
  function Placed(g: GroupMembers, item: UserItem): GroupMembers {
    match RoleOf(item)
    case StudentRole => g.(students := g.students + [item])
    case FacultyRole => g.(teachers := g.teachers + [item])
    case OtherRole => g.(other := g.other + [item])
  }

  /** One member of group `id`: placed by role; every member adds one to the total. */
  function Place(t: Tally, id: string, item: UserItem): Tally {
    var g := if id in t.memberships then t.memberships[id] else NoMembers;
    var role := RoleOf(item);
    t.(memberships := t.memberships[id := Placed(g, item)],
       teachers := if role == FacultyRole then t.teachers + 1 else t.teachers,
       students := if role == StudentRole then t.students + 1 else t.students,
       unique := t.unique + {item.feideId},
       total := t.total + 1)
  }

  /** The inner loop over the members of group `id`; a member create_user_item rejects raises. */
  function Tallied(t: Tally, id: string, members: seq<FeideMember>): Tally
    decreases |members|
  {
    if members == [] then t
    else
      match CreateUserItem(members[0])
      case Err(_) => t.(crashed := true)
      case Ok(item) => Tallied(Place(t, id, item), id, members[1..])
  }

  /** Whether a group has an id: `group.get('id')` is truthy. */
  predicate HasId(g: FeideGroups.FeideGroup) {
    g.id.Some? && g.id.value != ""
  }

  /** The error of a group without an id. */
  function NoIdError(g: FeideGroups.FeideGroup): ImportError {
    ImportError(DataError, "Group without id " + g.displayName.GetOr("unknown"))
  }

  function FailedFetchError(id: string): ImportError {
    ImportError(FetchError, "Failed to fetch members for group " + id)
  }

  /** The members of an answer whose body is JSON: its list, or none for a null body (`or []`). */
  function MembersOf(r: MembersResponse): seq<FeideMember> {
    if r.Answered? && r.body.Json? then r.body.members.GetOr([]) else []
  }

  /** One iteration of the loop over the groups, at position `index`. */
  function GroupStep(t: Tally, index: nat, g: FeideGroups.FeideGroup, api: string -> MembersResponse): Tally {
    if !HasId(g) then t.(errors := t.errors + [NoIdError(g)])
    else
      var id := g.id.value;
      var response := api(id);
      if response.Raised? then t.(crashed := true)
      else if response.status != 200 then t.(errors := t.errors + [FailedFetchError(id)])
      else if response.body.NotJson? then t.(memberships := t.memberships[id := NoMembers], crashed := true)
      else
        var t1 := Tallied(t.(memberships := t.memberships[id := NoMembers]), id, MembersOf(response));
        if t1.crashed || (index + 1) % 10 != 0 then t1
        else t1.(reports := t1.reports + [ReportOf(t1, false)])
  }

  /** The loop over the groups from position `index` on, until one raises. */
  function Run(groups: seq<FeideGroups.FeideGroup>, index: nat, t: Tally, api: string -> MembersResponse): Tally
    decreases |groups|
  {
    if t.crashed || groups == [] then t
    else Run(groups[1..], index + 1, GroupStep(t, index, groups[0], api), api)
  }

  /**
    How the generator ends: a missing groups file raises; a request, a body
    `.json()` cannot read or a member create_user_item rejects raises; or
    the final report.
   */
  datatype MembershipFetch =
    | MissingGroupsFile
    | Crashed(reports: seq<Report>)
    | Fetched(reports: seq<Report>, memberships: map<string, GroupMembers>)

  /** The groups whose members are fetched: the basis groups, then the teaching groups. */
  function GroupsToFetch(file: FeideGroups.Buckets): seq<FeideGroups.FeideGroup> {
    file.basis + file.teaching
  }

  function FetchMemberships(groupsFile: Option<FeideGroups.Buckets>, api: string -> MembersResponse): MembershipFetch {
    match groupsFile
    case None => MissingGroupsFile
    case Some(file) =>
      var t := Run(GroupsToFetch(file), 0, NoTally, api);
      if t.crashed then Crashed(t.reports) else Fetched(t.reports + [ReportOf(t, true)], t.memberships)
  }

  /** fetch_memberships_from_feide, as its loops. */
  method FetchMembershipsFromFeide(groupsFile: Option<FeideGroups.Buckets>, api: string -> MembersResponse)
    returns (run: MembershipFetch)
    ensures run == FetchMemberships(groupsFile, api)
  {
    if groupsFile.None? {
      return MissingGroupsFile;
    }
    var groups := GroupsToFetch(groupsFile.value);
    var t := NoTally;
    var index := 0;
    while index < |groups| && !t.crashed
      invariant 0 <= index <= |groups|
      invariant Run(groups[index..], index, t, api) == Run(groups, 0, NoTally, api)
    {
      assert groups[index..][1..] == groups[index + 1..];
      var g := groups[index];
      if !HasId(g) {
        t := t.(errors := t.errors + [NoIdError(g)]);
      } else {
        var response := api(g.id.value);
        if response.Raised? {
          t := t.(crashed := true);
        } else if response.status != 200 {
          t := t.(errors := t.errors + [FailedFetchError(g.id.value)]);
        } else if response.body.NotJson? {
          t := t.(memberships := t.memberships[g.id.value := NoMembers], crashed := true);
        } else {
          t := TallyMembers(t.(memberships := t.memberships[g.id.value := NoMembers]), g.id.value, MembersOf(response));
          if !t.crashed && (index + 1) % 10 == 0 {
            t := t.(reports := t.reports + [ReportOf(t, false)]);
          }
        }
      }
      index := index + 1;
    }
    if t.crashed {
      return Crashed(t.reports);
    }
    run := Fetched(t.reports + [ReportOf(t, true)], t.memberships);
  }

  /** The loop over the members of one group. */
  method TallyMembers(t0: Tally, id: string, members: seq<FeideMember>) returns (t: Tally)
    ensures t == Tallied(t0, id, members)
  {
    t := t0;
    var k := 0;
    while k < |members|
      invariant 0 <= k <= |members|
      invariant Tallied(t, id, members[k..]) == Tallied(t0, id, members)
    {
      assert members[k..][1..] == members[k + 1..];
      var item := CreateUserItem(members[k]);
      if item.Err? {
        return t.(crashed := true);
      }
      t := Place(t, id, item.value);
      k := k + 1;
    }
  }

  // ---------------------------------------------------------------- properties

  /** The counters agree: teacher and student memberships, and distinct users, never outnumber all memberships. */
  predicate CountsBounded(t: Tally) {
    t.teachers + t.students <= t.total && |t.unique| <= t.total
  }

  lemma {:induction false} TalliedKeepsCountsBounded(t: Tally, id: string, members: seq<FeideMember>)
    requires CountsBounded(t)
    ensures CountsBounded(Tallied(t, id, members))
    decreases |members|
  {
    if members != [] && CreateUserItem(members[0]).Ok? {
      var item := CreateUserItem(members[0]).value;
      assert |t.unique + {item.feideId}| <= |t.unique| + 1;
      TalliedKeepsCountsBounded(Place(t, id, item), id, members[1..]);
    }
  }

  predicate ReportBounded(r: Report) {
    r.teacherMemberships + r.studentMemberships <= r.totalMemberships && r.uniqueUsers <= r.totalMemberships
  }

  predicate AllReportsBounded(reports: seq<Report>) {
    forall i :: 0 <= i < |reports| ==> ReportBounded(reports[i])
  }

  /** The counters agree now and in every report given so far. */
  predicate Bounded(t: Tally) {
    CountsBounded(t) && AllReportsBounded(t.reports)
  }

  lemma {:induction false} TalliedKeepsReports(t: Tally, id: string, members: seq<FeideMember>)
    ensures Tallied(t, id, members).reports == t.reports && Tallied(t, id, members).errors == t.errors
    decreases |members|
  {
    if members != [] && CreateUserItem(members[0]).Ok? {
      TalliedKeepsReports(Place(t, id, CreateUserItem(members[0]).value), id, members[1..]);
    }
  }

  lemma GroupStepKeepsBounded(t: Tally, index: nat, g: FeideGroups.FeideGroup, api: string -> MembersResponse)
    requires Bounded(t)
    ensures Bounded(GroupStep(t, index, g, api))
  {
    if Fetches(g, api) {
      var t0 := t.(memberships := t.memberships[g.id.value := NoMembers]);
      TalliedKeepsCountsBounded(t0, g.id.value, MembersOf(api(g.id.value)));
      TalliedKeepsReports(t0, g.id.value, MembersOf(api(g.id.value)));
      var t1 := Tallied(t0, g.id.value, MembersOf(api(g.id.value)));
      assert ReportBounded(ReportOf(t1, false));
    }
  }

  lemma {:induction false} RunKeepsBounded(groups: seq<FeideGroups.FeideGroup>, index: nat, t: Tally, api: string -> MembersResponse)
    requires Bounded(t)
    ensures Bounded(Run(groups, index, t, api))
    decreases |groups|
  {
    if !t.crashed && groups != [] {
      GroupStepKeepsBounded(t, index, groups[0], api);
      RunKeepsBounded(groups[1..], index + 1, GroupStep(t, index, groups[0], api), api);
    }
  }

  /** Every report, the final one included, counts no more teacher and student memberships, and no more unique users, than memberships. */
  lemma ReportsBounded(groupsFile: Option<FeideGroups.Buckets>, api: string -> MembersResponse)
    ensures FetchMemberships(groupsFile, api).Fetched? ==> AllReportsBounded(FetchMemberships(groupsFile, api).reports)
  {
    if groupsFile.Some? {
      RunKeepsBounded(GroupsToFetch(groupsFile.value), 0, NoTally, api);
      var t := Run(GroupsToFetch(groupsFile.value), 0, NoTally, api);
      assert ReportBounded(ReportOf(t, true));
    }
  }

  /** Whether the members of `g` are fetched: it has an id and its request answers 200 with a JSON body. */
  predicate Fetches(g: FeideGroups.FeideGroup, api: string -> MembersResponse) {
    HasId(g) && api(g.id.value).Answered? && api(g.id.value).status == 200 && api(g.id.value).body.Json?
  }

  /** Whether the request for `g` answers with a status other than 200. */
  predicate FailsFetch(g: FeideGroups.FeideGroup, api: string -> MembersResponse) {
    HasId(g) && api(g.id.value).Answered? && api(g.id.value).status != 200
  }

  /** The error a group adds: a data error without an id, a fetch error for a status other than 200. */
  function ErrorsOf(groups: seq<FeideGroups.FeideGroup>, api: string -> MembersResponse): seq<ImportError> {
    if groups == [] then []
    else
      var g := groups[0];
      (if !HasId(g) then [NoIdError(g)] else if FailsFetch(g, api) then [FailedFetchError(g.id.value)] else [])
        + ErrorsOf(groups[1..], api)
  }

  /** The ids of the groups whose members are fetched. */
  function FetchedIds(groups: seq<FeideGroups.FeideGroup>, api: string -> MembersResponse): set<string> {
    if groups == [] then {}
    else (if Fetches(groups[0], api) then {groups[0].id.value} else {}) + FetchedIds(groups[1..], api)
  }

  /** The number of members the fetched groups return. */
  function MemberTotal(groups: seq<FeideGroups.FeideGroup>, api: string -> MembersResponse): nat {
    if groups == [] then 0
    else (if Fetches(groups[0], api) then |MembersOf(api(groups[0].id.value))| else 0) + MemberTotal(groups[1..], api)
  }

  /** A member create_user_item rejects. */
  predicate Unreadable(m: FeideMember) {
    CreateUserItem(m).Err?
  }

  /**
    A group at which the loop raises: its request raises, its 200 answer is
    not JSON, or it is fetched with a member create_user_item rejects.
   */
  predicate GroupRaises(g: FeideGroups.FeideGroup, api: string -> MembersResponse) {
    HasId(g) &&
    (api(g.id.value).Raised? ||
     (api(g.id.value).status == 200 && api(g.id.value).body.NotJson?) ||
     (Fetches(g, api) && exists m :: m in MembersOf(api(g.id.value)) && Unreadable(m)))
  }

  lemma {:induction false} TalliedOutcome(t: Tally, id: string, members: seq<FeideMember>)
    requires !t.crashed && id in t.memberships
    ensures var t' := Tallied(t, id, members);
      (t'.crashed <==> exists m :: m in members && Unreadable(m)) &&
      (!t'.crashed ==> t'.total == t.total + |members| && t'.memberships.Keys == t.memberships.Keys)
    decreases |members|
  {
    if members != [] {
      if CreateUserItem(members[0]).Ok? {
        TalliedOutcome(Place(t, id, CreateUserItem(members[0]).value), id, members[1..]);
        assert forall m :: m in members ==> m == members[0] || m in members[1..];
      } else {
        assert members[0] in members && Unreadable(members[0]);
      }
    }
  }

  /** Whether one group makes the loop raise, and what a fetched group adds when the run goes on past it. */
  lemma FetchedGroupOutcome(t: Tally, index: nat, g: FeideGroups.FeideGroup, api: string -> MembersResponse)
    requires !t.crashed
    ensures GroupStep(t, index, g, api).crashed <==> GroupRaises(g, api)
    ensures Fetches(g, api) ==> var t' := GroupStep(t, index, g, api);
      (!t'.crashed ==> (t'.errors == t.errors && t'.total == t.total + |MembersOf(api(g.id.value))| &&
        t'.memberships.Keys == t.memberships.Keys + {g.id.value}))
  {
    if Fetches(g, api) {
      var t0 := t.(memberships := t.memberships[g.id.value := NoMembers]);
      TalliedOutcome(t0, g.id.value, MembersOf(api(g.id.value)));
      TalliedKeepsReports(t0, g.id.value, MembersOf(api(g.id.value)));
    }
  }

  /** The loop raises exactly when it reaches a group whose request, body or some member raises. */
  lemma {:induction false} RunCrashes(groups: seq<FeideGroups.FeideGroup>, index: nat, t: Tally, api: string -> MembersResponse)
    requires !t.crashed
    ensures Run(groups, index, t, api).crashed <==> exists k :: 0 <= k < |groups| && GroupRaises(groups[k], api)
    decreases |groups|
  {
    if groups != [] {
      var t1 := GroupStep(t, index, groups[0], api);
      FetchedGroupOutcome(t, index, groups[0], api);
      if t1.crashed {
        assert GroupRaises(groups[0], api);
      } else {
        RunCrashes(groups[1..], index + 1, t1, api);
        assert forall k :: 1 <= k < |groups| ==> groups[k] == groups[1..][k - 1];
        assert !GroupRaises(groups[0], api);
      }
    }
  }

  /** A group that is not fetched and does not raise adds its error and nothing else. */
  lemma SkippedGroupOutcome(t: Tally, index: nat, g: FeideGroups.FeideGroup, api: string -> MembersResponse)
    requires !t.crashed && !Fetches(g, api) && !GroupStep(t, index, g, api).crashed
    ensures var t' := GroupStep(t, index, g, api);
      t'.memberships == t.memberships && t'.total == t.total && t'.errors == t.errors + ErrorsOf([g], api)
  {
  }

  /** A loop that does not raise records the errors of the groups without an id or with a failed request, in order. */
  lemma {:induction false} RunErrors(groups: seq<FeideGroups.FeideGroup>, index: nat, t: Tally, api: string -> MembersResponse)
    requires !t.crashed && !Run(groups, index, t, api).crashed
    ensures Run(groups, index, t, api).errors == t.errors + ErrorsOf(groups, api)
    decreases |groups|
  {
    if groups != [] {
      var t1 := GroupStep(t, index, groups[0], api);
      assert !t1.crashed;
      if Fetches(groups[0], api) {
        FetchedGroupOutcome(t, index, groups[0], api);
      } else {
        SkippedGroupOutcome(t, index, groups[0], api);
      }
      RunErrors(groups[1..], index + 1, t1, api);
    }
  }

  /** A loop that does not raise writes the lists of exactly the fetched groups. */
  lemma {:induction false} RunKeys(groups: seq<FeideGroups.FeideGroup>, index: nat, t: Tally, api: string -> MembersResponse)
    requires !t.crashed && !Run(groups, index, t, api).crashed
    ensures Run(groups, index, t, api).memberships.Keys == t.memberships.Keys + FetchedIds(groups, api)
    decreases |groups|
  {
    if groups != [] {
      var t1 := GroupStep(t, index, groups[0], api);
      assert !t1.crashed;
      if Fetches(groups[0], api) {
        FetchedGroupOutcome(t, index, groups[0], api);
      } else {
        SkippedGroupOutcome(t, index, groups[0], api);
      }
      RunKeys(groups[1..], index + 1, t1, api);
    }
  }

  /** A loop that does not raise counts every member the fetched groups return. */
  lemma {:induction false} RunTotal(groups: seq<FeideGroups.FeideGroup>, index: nat, t: Tally, api: string -> MembersResponse)
    requires !t.crashed && !Run(groups, index, t, api).crashed
    ensures Run(groups, index, t, api).total == t.total + MemberTotal(groups, api)
    decreases |groups|
  {
    if groups != [] {
      var t1 := GroupStep(t, index, groups[0], api);
      assert !t1.crashed;
      if Fetches(groups[0], api) {
        FetchedGroupOutcome(t, index, groups[0], api);
      } else {
        SkippedGroupOutcome(t, index, groups[0], api);
      }
      RunTotal(groups[1..], index + 1, t1, api);
    }
  }

  /** The reports so far: at most one per ten groups, none of them final. */
  predicate ReportsInStep(t: Tally, index: nat) {
    |t.reports| <= index / 10 && forall i :: 0 <= i < |t.reports| ==> !t.reports[i].isDone
  }

  lemma {:induction false} RunReportsInStep(groups: seq<FeideGroups.FeideGroup>, index: nat, t: Tally, api: string -> MembersResponse)
    requires ReportsInStep(t, index)
    ensures ReportsInStep(Run(groups, index, t, api), index + |groups|)
    decreases |groups|
  {
    if !t.crashed && groups != [] {
      var g := groups[0];
      if Fetches(g, api) {
        TalliedKeepsReports(t.(memberships := t.memberships[g.id.value := NoMembers]), g.id.value, MembersOf(api(g.id.value)));
      }
      assert (index + 1) % 10 == 0 ==> (index + 1) / 10 == index / 10 + 1;
      RunReportsInStep(groups[1..], index + 1, GroupStep(t, index, g, api), api);
    }
  }

  /**
    fetch_memberships_from_feide as a whole: it fails without a groups
    file, and when a request, a 200 body or a member raises; otherwise it reports at most once per
    ten groups with is_done false, then once with is_done true, and its
    errors, memberships and total follow the groups.
   */
  lemma FetchMembershipsOutcome(groupsFile: Option<FeideGroups.Buckets>, api: string -> MembersResponse)
    ensures groupsFile.None? <==> FetchMemberships(groupsFile, api).MissingGroupsFile?
    ensures groupsFile.Some? ==>
      var groups := GroupsToFetch(groupsFile.value);
      var run := FetchMemberships(groupsFile, api);
      (run.Crashed? <==> exists k :: 0 <= k < |groups| && GroupRaises(groups[k], api)) &&
      (run.Fetched? ==>
        |run.reports| <= |groups| / 10 + 1 && run.reports[|run.reports| - 1].isDone &&
        (forall i :: 0 <= i < |run.reports| - 1 ==> !run.reports[i].isDone) &&
        run.reports[|run.reports| - 1].errors == ErrorsOf(groups, api) &&
        run.reports[|run.reports| - 1].totalMemberships == MemberTotal(groups, api) &&
        run.memberships.Keys == FetchedIds(groups, api))
  {
    if groupsFile.Some? {
      var groups := GroupsToFetch(groupsFile.value);
      RunCrashes(groups, 0, NoTally, api);
      if !Run(groups, 0, NoTally, api).crashed {
        RunErrors(groups, 0, NoTally, api);
        RunKeys(groups, 0, NoTally, api);
        RunTotal(groups, 0, NoTally, api);
      }
      RunReportsInStep(groups, 0, NoTally, api);
    }
  }
}
