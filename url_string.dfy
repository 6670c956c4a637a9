/**
  urlStringFrom (frontend/src/utils/functions.ts): a path and query
  parameters rendered as "path?k1=v1&k2=v2". The parameters are given as
  their entries in key order (the order Object.keys returns); nothing is
  escaped.
 */
module UrlString {
  import opened Text

  /** "path?" when the path is a non-empty string, otherwise "?". */
  function Prefix(path: Option<string>): (r: string)
    ensures |r| >= 1 && r[|r| - 1] == '?'
    ensures path.Some? && path.value != "" ==> r[..|r| - 1] == path.value
    ensures path.None? || path.value == "" ==> r == "?"
  {
    if path.Some? && path.value != "" then path.value + "?" else "?"
  }

  /** Each entry as "key=value", in order. */
  function Pairs(params: seq<(string, string)>): (r: seq<string>)
    ensures |r| == |params|
  {
    if params == [] then [] else [params[0].0 + "=" + params[0].1] + Pairs(params[1..])
  }

  function UrlStringFrom(params: seq<(string, string)>, path: Option<string>): (r: string)
    ensures StartsWith(r, Prefix(path))
    ensures params == [] ==> r == Prefix(path)
  {
    Prefix(path) + Join(Pairs(params), "&")
  }

  // ---------------------------------------------------------------- properties

  /** The characters of the keys and values, with one "=" per entry. */
  function EntriesLength(params: seq<(string, string)>): nat {
    if params == [] then 0 else |params[0].0| + 1 + |params[0].1| + EntriesLength(params[1..])
  }

  lemma {:induction false} JoinLength(params: seq<(string, string)>)
    requires params != []
    ensures |Join(Pairs(params), "&")| == EntriesLength(params) + |params| - 1
    decreases |params|
  {
    if |params| > 1 {
      JoinLength(params[1..]);
      assert Pairs(params)[1..] == Pairs(params[1..]);
    }
  }

  /** Nothing is escaped or dropped: the length is the prefix, every key and value, each "=" and each "&". */
  lemma UrlLength(params: seq<(string, string)>, path: Option<string>)
    ensures |UrlStringFrom(params, path)| == |Prefix(path)| + EntriesLength(params) + (if params == [] then 0 else |params| - 1)
  {
    if params != [] {
      JoinLength(params);
    }
  }

  predicate Plain(s: string) {
    '&' !in s && '=' !in s
  }

  /**
    When no key or value holds "&" or "=", the query after the prefix
    splits at "&" into the entries, and each entry at "=" into its key
    and value, in order.
   */
  lemma {:induction false} UrlRoundTrip(params: seq<(string, string)>, path: Option<string>)
    requires params != []
    requires forall i :: 0 <= i < |params| ==> Plain(params[i].0) && Plain(params[i].1)
    ensures var r := UrlStringFrom(params, path);
      var parts := Split(r[|Prefix(path)|..], '&');
      |parts| == |params|
      && forall i :: 0 <= i < |params| ==> Split(parts[i], '=') == [params[i].0, params[i].1]
  {
    var pairs := Pairs(params);
    PairsShape(params);
    SplitJoin(pairs, '&');
    var r := UrlStringFrom(params, path);
    assert r[|Prefix(path)|..] == Join(pairs, "&");
    forall i | 0 <= i < |params|
      ensures Split(pairs[i], '=') == [params[i].0, params[i].1]
    {
      var kv := [params[i].0, params[i].1];
      assert Join(kv, "=") == pairs[i];
      SplitJoin(kv, '=');
    }
  }

  lemma {:induction false} PairsShape(params: seq<(string, string)>)
    ensures forall i :: 0 <= i < |params| ==> Pairs(params)[i] == params[i].0 + "=" + params[i].1
    ensures (forall i :: 0 <= i < |params| ==> Plain(params[i].0) && Plain(params[i].1)) ==>
      forall i :: 0 <= i < |params| ==> '&' !in Pairs(params)[i]
    decreases |params|
  {
    if params != [] {
      PairsShape(params[1..]);
      assert forall i :: 1 <= i < |params| ==> params[1..][i - 1] == params[i];
    }
  }
}
