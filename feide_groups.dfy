/**
  Fetching the groups of one school from the Feide groups API
  (backend/mastery/data_import/feide_api.py, `_fetch_groups` and
  `fetch_groups_from_feide`): each page of groups is sorted into school
  owners, schools, teaching groups, basis groups and the subjects the
  teaching groups name; pages are followed through the `rel="next"` link;
  the subjects are de-duplicated by code at the end.

  The network is replaced by the sequence of responses the API gives, one
  per request, in order. A Python exception is an `Err` with its text.
 */
module FeideGroups {
  import opened Text
  import opened ImportHelpers

  /** A JSON object of string values; None is JSON null. */
  type JsonObject = map<string, Option<string>>

  /**
    One Feide group: its "type", "go_type", whether it has a "parent", its
    "grep" object (None when absent or null), "id" and "displayName".
   */
  datatype FeideGroup = FeideGroup(
    kind: string, goType: Option<string>, hasParent: bool, grep: Option<JsonObject>,
    id: Option<string>, displayName: Option<string>)

  datatype Subject = Subject(code: string, displayName: Option<string>)

  /** The five result lists: "owners", "schools", "teaching", "basis" and "subjects". */
  datatype Buckets = Buckets(
    owners: seq<FeideGroup>, schools: seq<FeideGroup>, teaching: seq<FeideGroup>, basis: seq<FeideGroup>,
    subjects: seq<Subject>)

  const NoGroups := Buckets([], [], [], [], [])

  datatype Bucket = Owners | Schools | Teaching | Basis | Dropped

  /** Where a group goes: fc:org with a parent is a school, without one an owner; go groups "u" and "b". */
  function BucketOf(g: FeideGroup): Bucket {
    if g.kind == "fc:org" then (if g.hasParent then Schools else Owners)
    else if g.kind == "fc:gogroup" && g.goType == Some("u") then Teaching
    else if g.kind == "fc:gogroup" && g.goType == Some("b") then Basis
    else Dropped
  }

  /**
    The subject entry of a teaching group: a non-empty grep object must
    have "code" and "displayName" (else KeyError); a truthy code gives one
    entry.
   */
  function SubjectOf(grep: Option<JsonObject>): (r: Result<Option<Subject>, string>)
    ensures r.Ok? && r.value.Some? ==> grep.Some? && "code" in grep.value && grep.value["code"] == Some(r.value.value.code) && r.value.value.code != ""
    ensures r.Err? <==> grep.Some? && grep.value != map[] && ("code" !in grep.value || "displayName" !in grep.value)
  {
    match grep
    case None => Ok(None)
    case Some(m) =>
      if m == map[] then Ok(None)
      else if "code" !in m then Err(KeyError("code"))
      else if "displayName" !in m then Err(KeyError("displayName"))
      else
        match m["code"]
        case Some(code) => if code != "" then Ok(Some(Subject(code, m["displayName"]))) else Ok(None)
        case None => Ok(None)
  }

  /** Adding one group of a page to the result lists. */
  function Add(b: Buckets, g: FeideGroup): Result<Buckets, string> {
    match BucketOf(g)
    case Owners => Ok(b.(owners := b.owners + [g]))
    case Schools => Ok(b.(schools := b.schools + [g]))
    case Basis => Ok(b.(basis := b.basis + [g]))
    case Dropped => Ok(b)
    case Teaching =>
      match SubjectOf(g.grep)
      case Err(e) => Err(e)
      case Ok(None) => Ok(b.(teaching := b.teaching + [g]))
      case Ok(Some(s)) => Ok(b.(teaching := b.teaching + [g], subjects := b.subjects + [s]))
  }

  /** The result lists of a page, or the KeyError its classification raises. */
  function Classified(groups: seq<FeideGroup>): Result<Buckets, string>
    decreases |groups|
  {
    if groups == [] then Ok(NoGroups)
    else
      match Classified(groups[..|groups| - 1])
      case Err(e) => Err(e)
      case Ok(b) => Add(b, groups[|groups| - 1])
  }

  /** The groups of `groups` that go to bucket `k`, in order. */
  function Select(groups: seq<FeideGroup>, k: Bucket): (r: seq<FeideGroup>)
    ensures |r| <= |groups|
    ensures forall g :: g in r ==> g in groups && BucketOf(g) == k
    decreases |groups|
  {
    if groups == [] then []
    else
      var rest := Select(groups[..|groups| - 1], k);
      if BucketOf(groups[|groups| - 1]) == k then rest + [groups[|groups| - 1]] else rest
  }

  /** The loop of `_fetch_groups` over one page. */
  method ClassifyPage(groups: seq<FeideGroup>) returns (r: Result<Buckets, string>)
    ensures r == Classified(groups)
  {
    var b := NoGroups;
    for i := 0 to |groups|
      invariant Classified(groups[..i]) == Ok(b)
    {
      assert groups[..i + 1][..i] == groups[..i];
      var added := Add(b, groups[i]);
      if added.Err? {
        assert Classified(groups[..i + 1]) == added;
        ClassifiedErrSticks(groups, i + 1);
        return added;
      }
      b := added.value;
    }
    assert groups[..|groups|] == groups;
    r := Ok(b);
  }

  /** A page whose prefix fails fails as a whole, with the same error. */
  lemma {:induction false} ClassifiedErrSticks(groups: seq<FeideGroup>, n: nat)
    requires n <= |groups| && Classified(groups[..n]).Err?
    ensures Classified(groups) == Classified(groups[..n])
    decreases |groups| - n
  {
    if n < |groups| {
      assert groups[..n + 1][..n] == groups[..n];
      ClassifiedErrSticks(groups, n + 1);
    } else {
      assert groups[..n] == groups;
    }
  }

  /**
    A classified page keeps every group of the four kinds, in page order,
    each in its own list, and names at most one subject per teaching group.
   */
  lemma {:induction false} ClassifiedSelects(groups: seq<FeideGroup>)
    requires Classified(groups).Ok?
    ensures var b := Classified(groups).value;
      b.owners == Select(groups, Owners) && b.schools == Select(groups, Schools) &&
      b.teaching == Select(groups, Teaching) && b.basis == Select(groups, Basis) &&
      |b.subjects| <= |b.teaching|
    decreases |groups|
  {
    if groups != [] {
      ClassifiedSelects(groups[..|groups| - 1]);
    }
  }

  /** Every group lands in exactly one of the five buckets, the dropped ones included. */
  lemma {:induction false} SelectPartitions(groups: seq<FeideGroup>)
    ensures |Select(groups, Owners)| + |Select(groups, Schools)| + |Select(groups, Teaching)| +
      |Select(groups, Basis)| + |Select(groups, Dropped)| == |groups|
    decreases |groups|
  {
    if groups != [] {
      SelectPartitions(groups[..|groups| - 1]);
    }
  }

  /** A page fails only through the grep object of a teaching group. */
  lemma {:induction false} ClassifiedFailsOnGrep(groups: seq<FeideGroup>)
    requires Classified(groups).Err?
    ensures exists g :: g in groups && BucketOf(g) == Teaching && SubjectOf(g.grep).Err?
    decreases |groups|
  {
    var last := groups[|groups| - 1];
    if Classified(groups[..|groups| - 1]).Err? {
      ClassifiedFailsOnGrep(groups[..|groups| - 1]);
      var g :| g in groups[..|groups| - 1] && BucketOf(g) == Teaching && SubjectOf(g.grep).Err?;
      assert g in groups;
    } else {
      assert last in groups;
    }
  }

  // ---------------------------------------------------------------- the next link

  /** One link of the parsed "Link" header: its "url" and its "rel", if any. */
  datatype Link = Link(url: string, rel: Option<string>)

  /** The url of the first link with rel "next". */
  function NextUrl(links: seq<Link>): Option<string>
  {
    if links == [] then None
    else if links[0].rel == Some("next") then Some(links[0].url)
    else NextUrl(links[1..])
  }

  /** NextUrl finds the first `rel="next"` link, and finds none only when there is none. */
  lemma {:induction false} NextUrlIsFirstNext(links: seq<Link>)
    ensures NextUrl(links).Some? ==> exists i :: (0 <= i < |links| && links[i].rel == Some("next") &&
      NextUrl(links) == Some(links[i].url) && forall j :: 0 <= j < i ==> links[j].rel != Some("next"))
    ensures NextUrl(links).None? ==> forall i :: 0 <= i < |links| ==> links[i].rel != Some("next")
  {
    if links != [] && links[0].rel != Some("next") {
      NextUrlIsFirstNext(links[1..]);
      if NextUrl(links).Some? {
        var i :| 0 <= i < |links[1..]| && links[1..][i].rel == Some("next") &&
          NextUrl(links[1..]) == Some(links[1..][i].url) && forall j :: 0 <= j < i ==> links[1..][j].rel != Some("next");
        assert links[i + 1].rel == Some("next");
        forall j | 0 <= j < i + 1
          ensures links[j].rel != Some("next")
        {
          if j > 0 {
            assert links[j] == links[1..][j - 1];
          }
        }
      } else {
        forall i | 0 <= i < |links|
          ensures links[i].rel != Some("next")
        {
          if i > 0 {
            assert links[i] == links[1..][i - 1];
          }
        }
      }
    }
  }

  /** The pagination check of `_fetch_groups`: no "Link" header, no next page. */
  method NextPage(header: Option<seq<Link>>) returns (next: Option<string>)
    ensures header.None? ==> next.None?
    ensures header.Some? ==> next == NextUrl(header.value)
  {
    next := None;
    if header.Some? {
      var links := header.value;
      var i := 0;
      while i < |links|
        invariant 0 <= i <= |links|
        invariant NextUrl(links) == NextUrl(links[i..])
      {
        assert links[i..][1..] == links[i + 1..];
        if links[i].rel == Some("next") {
          next := Some(links[i].url);
          return;
        }
        i := i + 1;
      }
    }
  }

  // ---------------------------------------------------------------- subjects

  predicate HasCode(subjects: seq<Subject>, code: string) {
    exists s :: s in subjects && s.code == code
  }

  /** The subjects kept by de-duplication: the first entry for each truthy code, in order. */
  function Dedup(subjects: seq<Subject>): (r: seq<Subject>)
    ensures forall s :: s in r ==> s in subjects && s.code != ""
    decreases |subjects|
  {
    if subjects == [] then []
    else
      var kept := Dedup(subjects[..|subjects| - 1]);
      var last := subjects[|subjects| - 1];
      if last.code != "" && !HasCode(kept, last.code) then kept + [last] else kept
  }

  /** The de-duplication loop of `fetch_groups_from_feide`, with its `seen` set of codes. */
  method DedupSubjects(subjects: seq<Subject>) returns (unique: seq<Subject>)
    ensures unique == Dedup(subjects)
  {
    var seen: set<string> := {};
    unique := [];
    for i := 0 to |subjects|
      invariant unique == Dedup(subjects[..i])
      invariant forall c :: c in seen <==> HasCode(unique, c)
    {
      assert subjects[..i + 1][..i] == subjects[..i];
      var code := subjects[i].code;
      if code != "" && code !in seen {
        unique := unique + [subjects[i]];
        seen := seen + {code};
      }
    }
    assert subjects[..|subjects|] == subjects;
  }

  predicate CodesUnique(subjects: seq<Subject>) {
    forall i, j :: 0 <= i < j < |subjects| ==> subjects[i].code != subjects[j].code
  }

  /** No two kept subjects share a code. */
  lemma {:induction false} DedupUnique(subjects: seq<Subject>)
    ensures CodesUnique(Dedup(subjects))
    decreases |subjects|
  {
    if subjects != [] {
      DedupUnique(subjects[..|subjects| - 1]);
      var kept := Dedup(subjects[..|subjects| - 1]);
      var last := subjects[|subjects| - 1];
      if last.code != "" && !HasCode(kept, last.code) {
        var r := kept + [last];
        assert r == Dedup(subjects);
        forall i, j | 0 <= i < j < |r|
          ensures r[i].code != r[j].code
        {
          assert r[i] == kept[i] && r[i] in kept;
          if j < |kept| {
            assert r[j] == kept[j];
          } else {
            assert r[j] == last;
            assert !(r[i] in kept && r[i].code == last.code);
          }
        }
      } else {
        assert Dedup(subjects) == kept;
      }
    }
  }

  /** Every truthy code of the input is kept, so de-duplication loses no subject. */
  lemma {:induction false} DedupComplete(subjects: seq<Subject>)
    ensures forall s :: s in subjects && s.code != "" ==> HasCode(Dedup(subjects), s.code)
    decreases |subjects|
  {
    if subjects != [] {
      var init := subjects[..|subjects| - 1];
      DedupComplete(init);
      forall s | s in subjects && s.code != ""
        ensures HasCode(Dedup(subjects), s.code)
      {
        if s in init {
          var t :| t in Dedup(init) && t.code == s.code;
          assert t in Dedup(subjects);
        } else {
          assert s == subjects[|subjects| - 1];
          if !HasCode(Dedup(init), s.code) {
            assert s in Dedup(subjects);
          } else {
            var t :| t in Dedup(init) && t.code == s.code;
            assert t in Dedup(subjects);
          }
        }
      }
    }
  }

  /** s stands in the list with no earlier entry sharing its code. */
  predicate FirstWithCode(subjects: seq<Subject>, s: Subject) {
    exists i :: 0 <= i < |subjects| && subjects[i] == s && forall j :: 0 <= j < i ==> subjects[j].code != s.code
  }

  /** A kept subject is the first entry with its code. */
  lemma {:induction false} DedupKeepsFirst(subjects: seq<Subject>)
    ensures forall s :: s in Dedup(subjects) ==> FirstWithCode(subjects, s)
    decreases |subjects|
  {
    if subjects != [] {
      var init := subjects[..|subjects| - 1];
      DedupKeepsFirst(init);
      DedupComplete(init);
      forall s | s in Dedup(subjects)
        ensures FirstWithCode(subjects, s)
      {
        KeptIsFirst(subjects, init, s);
      }
    }
  }

  /** The step of DedupKeepsFirst for one kept subject, given what holds for all but the last entry. */
  lemma KeptIsFirst(subjects: seq<Subject>, init: seq<Subject>, s: Subject)
    requires subjects != [] && init == subjects[..|subjects| - 1] && s in Dedup(subjects)
    requires forall t :: t in Dedup(init) ==> FirstWithCode(init, t)
    requires forall t :: t in init && t.code != "" ==> HasCode(Dedup(init), t.code)
    ensures FirstWithCode(subjects, s)
  {
    if s in Dedup(init) {
      assert FirstWithCode(init, s);
      var i :| 0 <= i < |init| && init[i] == s && forall j :: 0 <= j < i ==> init[j].code != s.code;
      assert subjects[i] == s;
      assert forall j :: 0 <= j < i ==> subjects[j] == init[j];
    } else {
      var n := |subjects| - 1;
      assert s == subjects[n] && !HasCode(Dedup(init), s.code);
      forall j | 0 <= j < n
        ensures subjects[j].code != s.code
      {
        assert subjects[j] == init[j];
        assert init[j] in init;
      }
      assert subjects[n] == s;
    }
  }

  // ---------------------------------------------------------------- paging

  /** What the API gives for one request: a page of groups with its parsed "Link" header, or a failure. */
  datatype Response = Page(groups: seq<FeideGroup>, links: Option<seq<Link>>) | Unreachable(reason: string)

  /** `_fetch_groups`: the lists of one page and its next url, or the text of the exception it raises. */
  function FetchPage(r: Response): Result<(Buckets, Option<string>), string> {
    match r
    case Unreachable(reason) => Err(reason)
    case Page(groups, links) =>
      match Classified(groups)
      case Err(e) => Err(e)
      case Ok(b) => Ok((b, if links.Some? then NextUrl(links.value) else None))
  }

  method FetchGroupsPage(r: Response) returns (page: Result<(Buckets, Option<string>), string>)
    ensures page == FetchPage(r)
  {
    match r
    case Unreachable(reason) =>
      page := Err(reason);
    case Page(groups, links) =>
      var b := ClassifyPage(groups);
      if b.Err? {
        return Err(b.error);
      }
      var next := NextPage(links);
      page := Ok((b.value, next));
  }

  /** The accumulated lists extended by one page's lists. */
  function Extend(all: Buckets, b: Buckets): Buckets {
    Buckets(all.owners + b.owners, all.schools + b.schools, all.teaching + b.teaching, all.basis + b.basis,
            all.subjects + b.subjects)
  }

  /** A progress report: the errors so far and the basis, teaching and subject counts. */
  datatype Progress = Progress(errors: seq<string>, basis: nat, teaching: nat, subjects: nat, isDone: bool)

  /**
    The variables of the paging loop: the next url, the page result held
    in `result` (None before the first successful page), the accumulated
    lists, the error messages, the page index, the progress reports given
    so far, and whether the loop has raised.
   */
  datatype Paging = Paging(
    next: Option<string>, last: Option<Buckets>, all: Buckets, errors: seq<string>, pages: nat,
    chunks: seq<Progress>, crashed: bool)

  function ReportOf(all: Buckets, errors: seq<string>, isDone: bool): Progress {
    Progress(errors, |all.basis|, |all.teaching|, |all.subjects|, isDone)
  }

  /** `while next_url:` — a url that is present and not empty. */
  predicate Continues(s: Paging) {
    !s.crashed && s.next.Some? && s.next.value != ""
  }

  /** The end of an iteration: the page index goes up, and every tenth page gives a progress report. */
  function Counted(s: Paging): Paging {
    var pages := s.pages + 1;
    var chunks := if pages % 10 == 0 then s.chunks + [ReportOf(s.all, s.errors, false)] else s.chunks;
    s.(pages := pages, chunks := chunks)
  }

  /**
    One iteration as written: a failed request records its error but
    leaves `result` as it was, so the previous page's lists are added once
    more (and before any successful page `result` is unbound, which raises).
   */
  function StepAsWritten(s: Paging, r: Response): Paging {
    var s1 := match FetchPage(r)
      case Ok(page) => s.(last := Some(page.0), next := page.1)
      case Err(e) => s.(errors := s.errors + [Take(e, 1000)]);
    if s1.last.None? then s1.(crashed := true)
    else Counted(s1.(all := Extend(s1.all, s1.last.value)))
  }

  /** One iteration as evidently intended: a failed request records its error and adds no groups. */
  function Step(s: Paging, r: Response): Paging {
    match FetchPage(r)
    case Ok(page) => Counted(s.(next := page.1, all := Extend(s.all, page.0)))
    case Err(e) => Counted(s.(errors := s.errors + [Take(e, 1000)]))
  }

  /** The loop over the responses, one per request, until there is no next url or no response left. */
  function Pages(responses: seq<Response>, s: Paging, step: (Paging, Response) -> Paging): Paging
    decreases |responses|
  {
    if !Continues(s) || responses == [] then s
    else Pages(responses[1..], step(s, responses[0]), step)
  }

  /** The first request: the groups endpoint filtered on the school's organisation number. */
  function Start(orgNumber: string): (s: Paging)
    ensures Continues(s)
  {
    Paging(Some("?orgunit=" + orgNumber), None, NoGroups, [], 0, [], false)
  }

  /** How the generator ends: with its final report, by raising, or (in the model) with the responses used up. */
  datatype GroupFetch = Fetched(chunks: seq<Progress>, groups: Buckets) | Crashed(chunks: seq<Progress>) | OutOfResponses(chunks: seq<Progress>)

  /** After the loop: subjects de-duplicated and a final report with is_done. */
  function Finish(s: Paging): GroupFetch {
    if s.crashed then Crashed(s.chunks)
    else if Continues(s) then OutOfResponses(s.chunks)
    else
      var all := s.all.(subjects := Dedup(s.all.subjects));
      Fetched(s.chunks + [ReportOf(all, s.errors, true)], all)
  }

  /** fetch_groups_from_feide as written. */
  function FetchGroupsAsWritten(orgNumber: string, responses: seq<Response>): GroupFetch {
    Finish(Pages(responses, Start(orgNumber), StepAsWritten))
  }

  /** fetch_groups_from_feide with a failed request adding no groups. */
  method FetchGroupsFromFeide(orgNumber: string, responses: seq<Response>) returns (run: GroupFetch)
    ensures run == Finish(Pages(responses, Start(orgNumber), Step))
  {
    var next: Option<string> := Start(orgNumber).next;
    var all := NoGroups;
    var errors: seq<string> := [];
    var index := 0;
    var chunks: seq<Progress> := [];
    var k := 0;
    while k < |responses| && next.Some? && next.value != ""
      invariant 0 <= k <= |responses|
      invariant Pages(responses[k..], Paging(next, None, all, errors, index, chunks, false), Step) ==
        Pages(responses, Start(orgNumber), Step)
    {
      ghost var before := Paging(next, None, all, errors, index, chunks, false);
      PagesUnfold(responses, k, before);
      var page := FetchGroupsPage(responses[k]);
      match page {
        case Ok(p) =>
          all := Extend(all, p.0);
          next := p.1;
        case Err(e) =>
          errors := errors + [Take(e, 1000)];
      }
      index := index + 1;
      if index % 10 == 0 {
        chunks := chunks + [ReportOf(all, errors, false)];
      }
      assert Paging(next, None, all, errors, index, chunks, false) == Step(before, responses[k]);
      k := k + 1;
    }
    var final := Paging(next, None, all, errors, index, chunks, false);
    assert Pages(responses[k..], final, Step) == final;
    if next.Some? && next.value != "" {
      return OutOfResponses(chunks);
    }
    var subjects := DedupSubjects(all.subjects);
    all := all.(subjects := subjects);
    run := Fetched(chunks + [ReportOf(all, errors, true)], all);
  }

  /** One turn of the loop: a running state takes the next response and the rest follow. */
  lemma PagesUnfold(responses: seq<Response>, k: nat, s: Paging)
    requires k < |responses| && Continues(s)
    ensures Pages(responses[k..], s, Step) == Pages(responses[k + 1..], Step(s, responses[k]), Step)
  {
    assert responses[k..][1..] == responses[k + 1..];
  }

  // ---------------------------------------------------------------- properties of the paging loop

  /** The lists one response contributes: its page's lists, or none for a failure. */
  function PageGroups(r: Response): Buckets {
    match FetchPage(r)
    case Ok(page) => page.0
    case Err(_) => NoGroups
  }

  /** The lists of the successful responses among `rs`, in order. */
  function Gathered(rs: seq<Response>): Buckets {
    if rs == [] then NoGroups else Extend(PageGroups(rs[0]), Gathered(rs[1..]))
  }

  lemma ExtendAssociative(a: Buckets, b: Buckets, c: Buckets)
    ensures Extend(Extend(a, b), c) == Extend(a, Extend(b, c))
  {
  }

  lemma ExtendNoGroups(a: Buckets)
    ensures Extend(a, NoGroups) == a
  {
  }

  /** One corrected iteration adds exactly the lists of its response and counts one page. */
  lemma StepExtends(s: Paging, r: Response)
    ensures Step(s, r).all == Extend(s.all, PageGroups(r)) && Step(s, r).pages == s.pages + 1
  {
    if FetchPage(r).Err? {
      ExtendNoGroups(s.all);
    }
  }

  /**
    Without the stale result, the fetched lists are exactly the lists of
    the successful pages among the responses used, each once and in
    order; a failed request contributes nothing.
   */
  lemma {:induction false} PagesGatherSuccessfulPages(rs: seq<Response>, s: Paging)
    ensures var t := Pages(rs, s, Step);
      s.pages <= t.pages <= s.pages + |rs| &&
      t.all == Extend(s.all, Gathered(rs[..t.pages - s.pages]))
    decreases |rs|
  {
    var t := Pages(rs, s, Step);
    if !Continues(s) || rs == [] {
      assert rs[..0] == [];
      ExtendNoGroups(s.all);
    } else {
      var s1 := Step(s, rs[0]);
      StepExtends(s, rs[0]);
      assert t == Pages(rs[1..], s1, Step);
      PagesGatherSuccessfulPages(rs[1..], s1);
      var n := t.pages - s.pages;
      assert rs[..n][1..] == rs[1..][..n - 1];
      assert Gathered(rs[..n]) == Extend(PageGroups(rs[0]), Gathered(rs[1..][..n - 1]));
      ExtendAssociative(s.all, PageGroups(rs[0]), Gathered(rs[1..][..n - 1]));
    }
  }

  /** groups.json as fetch_groups_from_feide dumps it, read back as the length of each list. */
  function GroupsFile(b: Buckets): map<string, nat> {
    map["owners" := |b.owners|, "schools" := |b.schools|, "teaching" := |b.teaching|, "basis" := |b.basis|,
        "subjects" := |b.subjects|]
  }

  /**
    The file a finished fetch writes always has its five keys, so
    count_fetched_groups never finds it empty: it counts the basis and
    teaching groups of the successful pages.
   */
  lemma FetchedFileCounted(orgNumber: string, responses: seq<Response>)
    ensures var t := Pages(responses, Start(orgNumber), Step);
      var run := Finish(t);
      run.Fetched? ==> (t.pages <= |responses| &&
        CountFetchedGroups(Some(GroupsFile(run.groups)))
          == Some(|Gathered(responses[..t.pages]).basis| + |Gathered(responses[..t.pages]).teaching|))
  {
    PagesGatherSuccessfulPages(responses, Start(orgNumber));
  }

  /** The reports given so far: one per ten pages, none of them final. */
  predicate ReportsInStep(s: Paging) {
    |s.chunks| == s.pages / 10 && forall i :: 0 <= i < |s.chunks| ==> !s.chunks[i].isDone
  }

  lemma {:induction false} PagesKeepReportsInStep(rs: seq<Response>, s: Paging)
    requires ReportsInStep(s)
    ensures ReportsInStep(Pages(rs, s, Step))
    decreases |rs|
  {
    if Continues(s) && rs != [] {
      PagesKeepReportsInStep(rs[1..], Step(s, rs[0]));
    }
  }

  /**
    A finished fetch gives one report per ten pages with is_done false
    and then exactly one final report with is_done true, whose subjects
    have distinct codes; the fetch never raises.
   */
  lemma FetchReports(orgNumber: string, responses: seq<Response>)
    ensures var t := Pages(responses, Start(orgNumber), Step);
      var run := Finish(t);
      !run.Crashed? &&
      (run.Fetched? ==>
        |run.chunks| == t.pages / 10 + 1 && run.chunks[|run.chunks| - 1].isDone &&
        (forall i :: 0 <= i < |run.chunks| - 1 ==> !run.chunks[i].isDone) &&
        CodesUnique(run.groups.subjects))
  {
    PagesKeepReportsInStep(responses, Start(orgNumber));
    PagesNeverCrash(responses, Start(orgNumber));
    DedupUnique(Pages(responses, Start(orgNumber), Step).all.subjects);
  }

  lemma {:induction false} PagesNeverCrash(rs: seq<Response>, s: Paging)
    requires !s.crashed
    ensures !Pages(rs, s, Step).crashed
    decreases |rs|
  {
    if Continues(s) && rs != [] {
      PagesNeverCrash(rs[1..], Step(s, rs[0]));
    }
  }

  /** A teaching group without a grep object, used in the examples below. */
  const SomeTeachingGroup := FeideGroup("fc:gogroup", Some("u"), false, None, Some("g1"), None)

  /** A first page holding that group and a link to a second page, a failed request, and an empty last page. */
  const FlakyResponses := [Page([SomeTeachingGroup], Some([Link("page-2", Some("next"))])), Unreachable("timeout"), Page([], None)]

  lemma FlakyPages()
    ensures FetchPage(FlakyResponses[0]) == Ok((NoGroups.(teaching := [SomeTeachingGroup]), Some("page-2")))
    ensures FetchPage(FlakyResponses[1]) == Err("timeout")
    ensures FetchPage(FlakyResponses[2]) == Ok((NoGroups, None))
  {
    assert BucketOf(SomeTeachingGroup) == Teaching;
    assert [SomeTeachingGroup][..0] == [];
    assert SubjectOf(SomeTeachingGroup.grep) == Ok(None);
    assert NoGroups.teaching + [SomeTeachingGroup] == [SomeTeachingGroup];
    assert Add(NoGroups, SomeTeachingGroup) == Ok(NoGroups.(teaching := [SomeTeachingGroup]));
    assert Classified([SomeTeachingGroup]) == Ok(NoGroups.(teaching := [SomeTeachingGroup]));
  }

  /** The corrected loop over the flaky responses: the group of page one, once. */
  lemma FlakyRunCorrected(orgNumber: string)
    ensures Finish(Pages(FlakyResponses, Start(orgNumber), Step)).Fetched?
    ensures Finish(Pages(FlakyResponses, Start(orgNumber), Step)).groups.teaching == [SomeTeachingGroup]
  {
    FlakyPages();
    var rs := FlakyResponses;
    var c1 := Step(Start(orgNumber), rs[0]);
    var c2 := Step(c1, rs[1]);
    var c3 := Step(c2, rs[2]);
    assert c1.next == Some("page-2") && c1.all.teaching == [SomeTeachingGroup] && !c1.crashed;
    assert c2.next == Some("page-2") && c2.all.teaching == [SomeTeachingGroup] && !c2.crashed;
    assert c3.next == None && c3.all.teaching == [SomeTeachingGroup] && !c3.crashed;
    assert rs[1..][1..] == rs[2..] && rs[2..][1..] == [];
    assert Pages(rs, Start(orgNumber), Step) == Pages(rs[1..], c1, Step);
    assert Pages(rs[1..], c1, Step) == Pages(rs[2..], c2, Step);
    assert Pages(rs[2..], c2, Step) == Pages([], c3, Step) == c3;
  }

  /**
    As written, a request that fails between two pages re-adds the previous
    page's groups: the one teaching group of page one is fetched twice,
    where the corrected loop fetches it once.
   */
  lemma StaleResultRepeatsPage(orgNumber: string)
    ensures FetchGroupsAsWritten(orgNumber, FlakyResponses).Fetched?
    ensures FetchGroupsAsWritten(orgNumber, FlakyResponses).groups.teaching == [SomeTeachingGroup, SomeTeachingGroup]
    ensures Finish(Pages(FlakyResponses, Start(orgNumber), Step)).Fetched?
    ensures Finish(Pages(FlakyResponses, Start(orgNumber), Step)).groups.teaching == [SomeTeachingGroup]
  {
    FlakyPages();
    var rs := FlakyResponses;
    var a1 := StepAsWritten(Start(orgNumber), rs[0]);
    var a2 := StepAsWritten(a1, rs[1]);
    var a3 := StepAsWritten(a2, rs[2]);
    assert a1.next == Some("page-2") && a1.all.teaching == [SomeTeachingGroup] && !a1.crashed;
    assert a2.next == Some("page-2") && a2.all.teaching == [SomeTeachingGroup, SomeTeachingGroup] && !a2.crashed;
    assert a3.next == None && a3.all.teaching == [SomeTeachingGroup, SomeTeachingGroup] && !a3.crashed;
    assert rs[1..][1..] == rs[2..] && rs[2..][1..] == [];
    assert Pages(rs, Start(orgNumber), StepAsWritten) == Pages(rs[1..], a1, StepAsWritten);
    assert Pages(rs[1..], a1, StepAsWritten) == Pages(rs[2..], a2, StepAsWritten);
    assert Pages(rs[2..], a2, StepAsWritten) == Pages([], a3, StepAsWritten) == a3;
    FlakyRunCorrected(orgNumber);
  }

  /** As written, a failure on the very first request raises, as `result` is not yet bound. */
  lemma FirstFailureRaises(orgNumber: string, reason: string, rest: seq<Response>)
    ensures FetchGroupsAsWritten(orgNumber, [Unreachable(reason)] + rest).Crashed?
  {
    var rs := [Unreachable(reason)] + rest;
    var s1 := StepAsWritten(Start(orgNumber), rs[0]);
    assert s1.crashed;
    assert rs[1..] == rest;
    assert Pages(rs, Start(orgNumber), StepAsWritten) == Pages(rest, s1, StepAsWritten) == s1;
  }
}
