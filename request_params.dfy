/**
  Query-parameter parsing of the REST API (backend/mastery/api/views.py):
  the tri-state reader get_request_param and the selections derived from
  it for the deleted, is_valid and enabled parameters and for
  comma-separated id lists.

  A Django QueryDict is a map from key to the last value given for it.
 */
module RequestParams {
  import opened Text

  /** The Python value get_request_param returns: None, a bool, or a non-empty stripped string. */
  datatype Param = Missing | Flag(b: bool) | Word(s: string)

  /** Python truthiness of a parsed parameter. */
  predicate Truthy(p: Param) {
    match p
    case Missing => false
    case Flag(b) => b
    case Word(s) => s != ""
  }

  /** value.lower() == 'false', letter by letter. */
  predicate SpellsFalse(v: string) {
    |v| == 5 && LowerChar(v[0]) == 'f' && LowerChar(v[1]) == 'a' && LowerChar(v[2]) == 'l'
    && LowerChar(v[3]) == 's' && LowerChar(v[4]) == 'e'
  }

  /** value.lower() == 'true', letter by letter. */
  predicate SpellsTrue(v: string) {
    |v| == 4 && LowerChar(v[0]) == 't' && LowerChar(v[1]) == 'r' && LowerChar(v[2]) == 'u' && LowerChar(v[3]) == 'e'
  }

  lemma SpellsLower(v: string)
    ensures SpellsFalse(v) <==> Lower(v) == "false"
    ensures SpellsTrue(v) <==> Lower(v) == "true"
  {
    var l := Lower(v);
    if |v| == 5 {
      assert SpellsFalse(v) <==> l == "false" by {
        assert l == "false" <==> l[0] == 'f' && l[1] == 'a' && l[2] == 'l' && l[3] == 's' && l[4] == 'e';
      }
    }
    if |v| == 4 {
      assert SpellsTrue(v) <==> l == "true" by {
        assert l == "true" <==> l[0] == 't' && l[1] == 'r' && l[2] == 'u' && l[3] == 'e';
      }
    }
  }

  /**
    The parsed value and whether the key is present. Missing, empty and
    blank values read as None; "true" and "false" in any letter case read
    as booleans; anything else is returned stripped.
   */
  function GetRequestParam(q: map<string, string>, name: string): (r: (Param, bool))
    ensures r.1 <==> name in q
    ensures Truthy(r.0) <==> r.0 != Missing && r.0 != Flag(false)
  {
    if name !in q then (Missing, false)
    else
      var v := Strip(q[name]);
      if v == "" then (Missing, true)
      else if SpellsFalse(v) then (Flag(false), true)
      else if SpellsTrue(v) then (Flag(true), true)
      else (Word(v), true)
  }

  function Get(q: map<string, string>, name: string): Param {
    GetRequestParam(q, name).0
  }

  /** How get_request_param reads the raw value of a key. */
  lemma GetRequestParamSpec(q: map<string, string>, name: string)
    ensures Get(q, name) == Missing <==> name !in q || AllSpace(q[name])
    ensures Get(q, name) == Flag(false) <==> name in q && Lower(Strip(q[name])) == "false"
    ensures Get(q, name) == Flag(true) <==> name in q && Lower(Strip(q[name])) == "true"
    ensures Get(q, name).Word? ==> name in q && Get(q, name).s == Strip(q[name]) && Get(q, name).s != ""
  {
    if name in q {
      SpellsLower(Strip(q[name]));
    }
  }

  /** Padding a value with blanks does not change how it parses. */
  lemma {:induction false} ParseIgnoresPadding(q: map<string, string>, name: string, v: string)
    requires name in q && Strip(q[name]) == Strip(v)
    ensures GetRequestParam(q, name) == GetRequestParam(q[name := v], name)
  {
    GetRequestParamSpec(q, name);
    GetRequestParamSpec(q[name := v], name);
    var q2 := q[name := v];
    assert q2[name] == v;
    var a := GetRequestParam(q, name);
    var b := GetRequestParam(q2, name);
    assert a.1 && b.1;
    if Strip(v) == "" {
      assert a.0 == Missing && b.0 == Missing;
    }
  }

  /** A returned string parses back to itself. */
  lemma {:induction false} WordRoundTrip(q: map<string, string>, name: string, other: string)
    requires Get(q, name).Word?
    ensures Get(map[other := Get(q, name).s], other) == Get(q, name)
  {
    var s := Get(q, name).s;
    var q2 := map[other := s];
    GetRequestParamSpec(q, name);
    GetRequestParamSpec(q2, other);
    StripIdempotent(q[name]);
    assert Strip(q2[other]) == s;
  }

  /** A value that is neither blank nor a boolean spelling parses as itself, stripped. */
  lemma WordIff(q: map<string, string>, name: string, w: string)
    requires w != "" && !SpellsFalse(w) && !SpellsTrue(w)
    ensures Get(q, name) == Word(w) <==> name in q && Strip(q[name]) == w
  {
  }

  /** Which rows the deleted parameter lets through. */
  datatype DeletedSelection = OnlyDeleted | AllRows | NonDeleted

  /** apply_deleted_filter: the selection is chosen by exact, case-sensitive comparison of the parsed value. */
  function DeletedSelectionOf(q: map<string, string>): DeletedSelection {
    var p := Get(q, "deleted");
    if p == Word("only") then OnlyDeleted
    else if p == Word("include") then AllRows
    else NonDeleted
  }

  /** "only" selects the deleted rows and "include" all rows, after stripping and in lower case only. */
  lemma DeletedSelectionSpec(q: map<string, string>)
    ensures DeletedSelectionOf(q) == OnlyDeleted <==> "deleted" in q && Strip(q["deleted"]) == "only"
    ensures DeletedSelectionOf(q) == AllRows <==> "deleted" in q && Strip(q["deleted"]) == "include"
  {
    WordIff(q, "deleted", "only");
    WordIff(q, "deleted", "include");
  }

  /** apply_deleted_filter on one row, given its deleted_at timestamp. */
  predicate DeletedKeeps(sel: DeletedSelection, deletedAt: Option<int>) {
    match sel
    case OnlyDeleted => deletedAt.Some?
    case AllRows => true
    case NonDeleted => deletedAt.None?
  }

  /** Without a deleted parameter, or with an unknown value such as "exclude", only live rows pass. */
  lemma {:induction false} DeletedDefault(q: map<string, string>, deletedAt: Option<int>)
    requires "deleted" !in q || (Strip(q["deleted"]) != "only" && Strip(q["deleted"]) != "include")
    ensures DeletedKeeps(DeletedSelectionOf(q), deletedAt) <==> deletedAt.None?
  {
    DeletedSelectionSpec(q);
  }

  /** The validity window a group listing keeps. */
  datatype ValiditySelection = WithinWindow | OutsideWindow

  /** apply_valid_group_filter: only a present is_valid that parses as false or None selects the invalid groups. */
  function ValiditySelectionOf(q: map<string, string>): ValiditySelection {
    var (p, present) := GetRequestParam(q, "is_valid");
    if present && !Truthy(p) then OutsideWindow else WithinWindow
  }

  lemma ValiditySelectionSpec(q: map<string, string>)
    ensures ValiditySelectionOf(q) == OutsideWindow <==>
      "is_valid" in q && (AllSpace(q["is_valid"]) || Lower(Strip(q["is_valid"])) == "false")
  {
    GetRequestParamSpec(q, "is_valid");
  }

  /** The enabled filter of the group listing. */
  datatype EnabledSelection = EnabledOnly | DisabledOnly | EitherState(warned: bool)

  function EnabledSelectionOf(q: map<string, string>): EnabledSelection {
    var p := Get(q, "enabled");
    if Truthy(p) then
      if p == Word("exclude") then DisabledOnly
      else if p == Word("only") then EnabledOnly
      else if p == Word("include") then EitherState(false)
      else EitherState(true)
    else EnabledOnly
  }

  /**
    Absent, blank or false means enabled groups only; "exclude" the disabled
    ones; "include" both; any other value both, with a logged warning.
   */
  lemma EnabledSelectionSpec(q: map<string, string>)
    ensures EnabledSelectionOf(q) == DisabledOnly <==> "enabled" in q && Strip(q["enabled"]) == "exclude"
    ensures EnabledSelectionOf(q) == EnabledOnly <==>
      "enabled" !in q || AllSpace(q["enabled"]) || Lower(Strip(q["enabled"])) == "false"
      || Strip(q["enabled"]) == "only"
    ensures EnabledSelectionOf(q) == EitherState(false) <==> "enabled" in q && Strip(q["enabled"]) == "include"
  {
    GetRequestParamSpec(q, "enabled");
    WordIff(q, "enabled", "only");
    WordIff(q, "enabled", "include");
    WordIff(q, "enabled", "exclude");
  }

  /** The query parameters the list endpoints read. */
  datatype Name =
    | Goal | Group | Groups | Ids | IsOwnedBySchool | Kind | Observer | Role | Roles
    | School | Student | Students | Subject | TaskStatus | User

  /** The key each parameter has in the query string. */
  function Spelling(n: Name): string {
    match n
    case Goal => "goal"
    case Group => "group"
    case Groups => "groups"
    case Ids => "ids"
    case IsOwnedBySchool => "is_owned_by_school"
    case Kind => "type"
    case Observer => "observer"
    case Role => "role"
    case Roles => "roles"
    case School => "school"
    case Student => "student"
    case Students => "students"
    case Subject => "subject"
    case TaskStatus => "status"
    case User => "user"
  }

  /**
    A request's query as a view set reads it: each parameter that is
    present, parsed by get_request_param, the entries of each one read as
    a comma list, and the deleted, is_valid and enabled selections.
   */
  datatype ReadQuery = ReadQuery(
    values: map<Name, Param>,
    lists: map<Name, seq<string>>,
    deleted: DeletedSelection,
    validity: ValiditySelection,
    enabled: EnabledSelection)

  function Read(q: map<string, string>): ReadQuery {
    ReadQuery(
      map n: Name | Spelling(n) in q :: Get(q, Spelling(n)),
      map n: Name | Spelling(n) in q :: ListOf(Get(q, Spelling(n))),
      DeletedSelectionOf(q), ValiditySelectionOf(q), EnabledSelectionOf(q))
  }

  /** The parsed value of a parameter; Missing when the key is absent. */
  function Arg(rq: ReadQuery, n: Name): Param {
    if n in rq.values then rq.values[n] else Missing
  }

  predicate Present(rq: ReadQuery, n: Name) {
    n in rq.values
  }

  /** The entries of a list parameter; none when the key is absent. */
  function Items(rq: ReadQuery, n: Name): seq<string> {
    if n in rq.lists then rq.lists[n] else []
  }

  /** Reading the query once gives, for every parameter, what get_request_param gives. */
  lemma ReadAgrees(q: map<string, string>, n: Name)
    ensures Arg(Read(q), n) == GetRequestParam(q, Spelling(n)).0
    ensures Present(Read(q), n) == GetRequestParam(q, Spelling(n)).1
    ensures Items(Read(q), n) == ListOf(GetRequestParam(q, Spelling(n)).0)
  {
  }

  /** Python's [x.strip() for x in parts if x]: blank entries survive as "", empty ones are dropped. */
  function StripNonEmpty(parts: seq<string>): (r: seq<string>)
    ensures |r| <= |parts|
  {
    if parts == [] then []
    else
      var rest := StripNonEmpty(parts[1..]);
      if parts[0] == "" then rest else [Strip(parts[0])] + rest
  }

  /** Stripping adds no comma, and no non-empty entry is dropped. */
  lemma {:induction false} StripNonEmptyKeeps(parts: seq<string>)
    ensures (forall k :: 0 <= k < |parts| ==> ',' !in parts[k]) ==>
      forall k :: 0 <= k < |StripNonEmpty(parts)| ==> ',' !in StripNonEmpty(parts)[k]
    ensures (forall k :: 0 <= k < |parts| ==> parts[k] != "") ==> |StripNonEmpty(parts)| == |parts|
  {
    if parts != [] {
      StripNonEmptyKeeps(parts[1..]);
      StripInfix(parts[0], ',');
    }
  }

  /** The comma-separated lists of the roles, groups, ids and students parameters. */
  function CommaList(s: string): (r: seq<string>)
    ensures |r| <= |Split(s, ',')|
  {
    StripNonEmpty(Split(s, ','))
  }

  /** No entry of a comma list holds a comma. */
  lemma CommaListEntries(s: string)
    ensures forall k :: 0 <= k < |CommaList(s)| ==> ',' !in CommaList(s)[k]
  {
    StripNonEmptyKeeps(Split(s, ','));
  }

  /** The entries of a list parameter that holds a string; none otherwise. */
  function ListOf(p: Param): seq<string> {
    if p.Word? then CommaList(p.s) else []
  }

  function StripAll(parts: seq<string>): (r: seq<string>)
    ensures |r| == |parts|
    ensures forall k :: 0 <= k < |parts| ==> r[k] == Strip(parts[k])
  {
    if parts == [] then [] else [Strip(parts[0])] + StripAll(parts[1..])
  }

  lemma {:induction false} StripNonEmptyAll(parts: seq<string>)
    requires forall k :: 0 <= k < |parts| ==> parts[k] != ""
    ensures StripNonEmpty(parts) == StripAll(parts)
  {
    if parts != [] {
      StripNonEmptyAll(parts[1..]);
    }
  }

  /**
    Reading back comma-free entries joined with "," drops the empty entries
    and strips the others; when no entry is empty, every entry comes back
    stripped, in order.
   */
  lemma {:induction false} CommaListJoin(ids: seq<string>)
    requires |ids| >= 1
    requires forall k :: 0 <= k < |ids| ==> ',' !in ids[k]
    ensures CommaList(Join(ids, [','])) == StripNonEmpty(ids)
    ensures (forall k :: 0 <= k < |ids| ==> ids[k] != "") ==> CommaList(Join(ids, [','])) == StripAll(ids)
  {
    SplitJoin(ids, ',');
    if forall k :: 0 <= k < |ids| ==> ids[k] != "" {
      StripNonEmptyAll(ids);
    }
  }

  /** An entry that is only blanks is kept, as an empty id. */
  lemma {:induction false} BlankEntryKept(parts: seq<string>, k: nat)
    requires k < |parts| && parts[k] != "" && AllSpace(parts[k])
    ensures "" in StripNonEmpty(parts)
  {
    if k > 0 {
      BlankEntryKept(parts[1..], k - 1);
    }
  }
}
