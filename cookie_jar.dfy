/**
  The cookie jar (frontend/src/stores/cookieJar.ts): cookies the
  application sets carry the prefix "mestring_" in their name. The
  document.cookie string is a parameter; setCookie is the string it
  assigns, with the clock reading and Date.toUTCString as parameters.
 */
module CookieJar {
  import opened Text

  const CookiePrefix: string := "mestring"

  /** The expiry setCookie adds to the current time: 90 days in milliseconds. */
  const NinetyDays: int := 90 * 24 * 60 * 60 * 1000

  /**
    What getCookie returns: the value, or undefined when the matching entry
    has no "=" (the destructuring finds no second part), or null when no
    entry matches.
   */
  datatype Lookup = Found(value: string) | FoundWithoutValue | NotFound

  function PrefixedName(cookieName: string): string {
    CookiePrefix + "_" + cookieName
  }

  /**
    One entry of document.cookie, trimmed and split with split('=', 2):
    its name and, when an "=" follows the name, the text up to the next
    "=" or the end.
   */
  function Entry(raw: string): (string, Option<string>) {
    var parts := Split(Strip(raw), '=');
    (parts[0], if |parts| > 1 then Some(parts[1]) else None)
  }

  /** Each entry of document.cookie, parsed, in order. */
  function Entries(raws: seq<string>): (r: seq<(string, Option<string>)>)
    ensures |r| == |raws|
  {
    if raws == [] then [] else [Entry(raws[0])] + Entries(raws[1..])
  }

  function AnswerOf(value: Option<string>): Lookup {
    if value.Some? then Found(value.value) else FoundWithoutValue
  }

  /** The answer of the first parsed entry named name. */
  function FirstMatch(entries: seq<(string, Option<string>)>, name: string): Lookup {
    if entries == [] then NotFound
    else if entries[0].0 == name then AnswerOf(entries[0].1)
    else FirstMatch(entries[1..], name)
  }

  /** getCookie as a function of document.cookie. */
  function CookieLookup(cookieName: string, documentCookie: string): Lookup {
    FirstMatch(Entries(Split(documentCookie, ';')), PrefixedName(cookieName))
  }

  /** getCookie: the entries of document.cookie, scanned in order until one carries the prefixed name. */
  method GetCookie(cookieName: string, documentCookie: string) returns (r: Lookup)
    ensures r == CookieLookup(cookieName, documentCookie)
  {
    var cookiePairs := Split(documentCookie, ';');
    var full := CookiePrefix + "_" + cookieName;
    ghost var parsed := Entries(cookiePairs);
    var i := 0;
    while i < |cookiePairs|
      invariant 0 <= i <= |cookiePairs|
      invariant FirstMatch(parsed[i..], full) == FirstMatch(parsed, full)
    {
      var parts := Split(Strip(cookiePairs[i]), '=');
      EntriesAt(cookiePairs, i);
      assert parsed[i..][0] == parsed[i] == Entry(cookiePairs[i]);
      if full == parts[0] {
        if |parts| > 1 {
          return Found(parts[1]);
        }
        return FoundWithoutValue;
      }
      assert parsed[i..][1..] == parsed[i + 1..];
      i := i + 1;
    }
    return NotFound;
  }

  /** setCookie: the string assigned to document.cookie. */
  function SetCookieString(name: string, value: string, now: int, toUtcString: int -> string): (r: string)
    ensures StartsWith(r, PrefixedName(name) + "=" + value + ";expires=")
  {
    PrefixedName(name) + "=" + value + ";expires=" + toUtcString(now + NinetyDays) + ";path=/"
  }

  // ---------------------------------------------------------------- properties

  /** Parsing keeps the entries' positions. */
  lemma {:induction false} EntriesAt(raws: seq<string>, i: int)
    requires 0 <= i < |raws|
    ensures Entries(raws)[i] == Entry(raws[i])
    decreases i
  {
    if i > 0 {
      EntriesAt(raws[1..], i - 1);
      assert raws[1..][i - 1] == raws[i];
    }
  }

  /** getCookie returns null exactly when no entry carries the name. */
  lemma {:induction false} NotFoundIff(entries: seq<(string, Option<string>)>, name: string)
    ensures FirstMatch(entries, name) == NotFound <==> forall i :: 0 <= i < |entries| ==> entries[i].0 != name
    decreases |entries|
  {
    if entries != [] {
      var rest := entries[1..];
      NotFoundIff(rest, name);
      assert forall i :: 0 <= i < |rest| ==> rest[i] == entries[i + 1];
    }
  }

  /** The first entry with the name decides, whatever follows it. */
  lemma {:induction false} FirstMatchIsFirst(entries: seq<(string, Option<string>)>, name: string, i: int)
    requires 0 <= i < |entries| && entries[i].0 == name
    requires forall k :: 0 <= k < i ==> entries[k].0 != name
    ensures FirstMatch(entries, name) == AnswerOf(entries[i].1)
    decreases i
  {
    if i > 0 {
      assert entries[1..][i - 1] == entries[i];
      assert forall k :: 0 <= k < i - 1 ==> entries[1..][k] == entries[k + 1];
      FirstMatchIsFirst(entries[1..], name, i - 1);
    }
  }

  /** The prefixed name starts with "m" and holds "=" or ";" only when the name does. */
  lemma PrefixedNameShape(cookieName: string)
    ensures |PrefixedName(cookieName)| > 0 && PrefixedName(cookieName)[0] == 'm'
    ensures '=' in PrefixedName(cookieName) <==> '=' in cookieName
    ensures ';' in PrefixedName(cookieName) <==> ';' in cookieName
  {
    assert PrefixedName(cookieName) == "mestring_" + cookieName;
    assert '=' !in "mestring_" && ';' !in "mestring_";
  }

  /** An entry "name=value", with any spaces in front, reads back the value up to its first "=". */
  lemma EntryOfPair(lead: string, name: string, value: string)
    requires AllSpace(lead) && name != [] && !IsSpace(name[0]) && '=' !in name
    requires value == [] || !IsSpace(value[|value| - 1])
    ensures Entry(lead + name + "=" + value) == (name, Some(Split(value, '=')[0]))
  {
    StripPair(lead, name, value);
    SplitPair(name, value);
  }

  lemma StripPair(lead: string, name: string, value: string)
    requires AllSpace(lead) && name != [] && !IsSpace(name[0])
    requires value == [] || !IsSpace(value[|value| - 1])
    ensures Strip(lead + name + "=" + value) == name + "=" + value
  {
    var s := name + "=" + value;
    assert lead + name + "=" + value == lead + s;
    assert s[0] == name[0];
    assert s[|s| - 1] == if value == [] then '=' else value[|value| - 1];
    StripPastSpace(lead, s);
  }

  lemma SplitPair(name: string, value: string)
    requires '=' !in name
    ensures Split(name + "=" + value, '=') == [name] + Split(value, '=')
  {
    var vs := Split(value, '=');
    JoinSplit(value, '=');
    assert ([name] + vs)[1..] == vs;
    assert Join([name] + vs, "=") == name + "=" + value;
    SplitJoin([name] + vs, '=');
  }

  /**
    A cookie set under a name reads back as its value up to the first "=",
    wherever its entry stands in document.cookie and with any spaces in
    front of it, provided no earlier entry carries the same name.
   */
  lemma ReadBack(documentCookie: string, before: seq<string>, lead: string, cookieName: string, value: string, after: seq<string>)
    requires Split(documentCookie, ';') == before + [lead + PrefixedName(cookieName) + "=" + value] + after
    requires AllSpace(lead) && '=' !in cookieName
    requires value == [] || !IsSpace(value[|value| - 1])
    requires forall k :: 0 <= k < |before| ==> Entry(before[k]).0 != PrefixedName(cookieName)
    ensures CookieLookup(cookieName, documentCookie) == Found(Split(value, '=')[0])
  {
    var p := PrefixedName(cookieName);
    PrefixedNameShape(cookieName);
    EntryOfPair(lead, p, value);
    MatchAfter(before, lead + p + "=" + value, after, p);
  }

  /** A value without "=" reads back whole. */
  lemma ReadBackWhole(documentCookie: string, before: seq<string>, lead: string, cookieName: string, value: string, after: seq<string>)
    requires Split(documentCookie, ';') == before + [lead + PrefixedName(cookieName) + "=" + value] + after
    requires AllSpace(lead) && '=' !in cookieName && '=' !in value
    requires value == [] || !IsSpace(value[|value| - 1])
    requires forall k :: 0 <= k < |before| ==> Entry(before[k]).0 != PrefixedName(cookieName)
    ensures CookieLookup(cookieName, documentCookie) == Found(value)
  {
    ReadBack(documentCookie, before, lead, cookieName, value, after);
    SplitNoSep(value, '=');
  }

  /** An entry preceded by none with its name decides the lookup. */
  lemma MatchAfter(before: seq<string>, w: string, after: seq<string>, name: string)
    requires Entry(w).0 == name
    requires forall k :: 0 <= k < |before| ==> Entry(before[k]).0 != name
    ensures FirstMatch(Entries(before + [w] + after), name) == AnswerOf(Entry(w).1)
  {
    var raws := before + [w] + after;
    var parsed := Entries(raws);
    EntriesAt(raws, |before|);
    assert raws[|before|] == w;
    forall k | 0 <= k < |before|
      ensures parsed[k].0 != name
    {
      EntriesAt(raws, k);
      assert raws[k] == before[k];
    }
    FirstMatchIsFirst(parsed, name, |before|);
  }

  /** A cookie stored with a value "a=b" reads back as "a". */
  lemma ValueTruncatedAtSecondEquals(documentCookie: string)
    requires documentCookie == "mestring_token=a=b"
    ensures CookieLookup("token", documentCookie) == Found("a")
  {
    assert documentCookie == PrefixedName("token") + "=" + "a=b";
    assert ';' !in documentCookie;
    SplitNoSep(documentCookie, ';');
    assert "" + PrefixedName("token") == PrefixedName("token");
    assert [documentCookie] == [] + ["" + PrefixedName("token") + "=" + "a=b"] + [];
    ReadBack(documentCookie, [], "", "token", "a=b", []);
    FirstOfAEqualsB();
  }

  lemma FirstOfAEqualsB()
    ensures Split("a=b", '=')[0] == "a"
  {
    assert Join(["a", "b"], "=") == "a=b";
    SplitJoin(["a", "b"], '=');
  }

  /** An entry holding only the prefixed name matches, and getCookie returns undefined rather than null. */
  lemma NameWithoutValue(cookieName: string)
    requires '=' !in cookieName && ';' !in cookieName
    requires cookieName == [] || !IsSpace(cookieName[|cookieName| - 1])
    ensures CookieLookup(cookieName, PrefixedName(cookieName)) == FoundWithoutValue
  {
    var p := PrefixedName(cookieName);
    PrefixedNameShape(cookieName);
    assert p == "mestring_" + cookieName;
    assert p[|p| - 1] == if cookieName == [] then '_' else cookieName[|cookieName| - 1];
    SplitNoSep(p, ';');
    StripPastSpace("", p);
    assert "" + p == p;
    SplitNoSep(p, '=');
    assert Entry(p) == (p, None);
    assert Entries([p]) == [Entry(p)];
  }

  /**
    The string setCookie assigns holds three ";"-separated fields: the
    prefixed name with the value, the expiry 90 days after now, and the
    path "/".
   */
  lemma SetCookieFields(name: string, value: string, now: int, toUtcString: int -> string)
    requires ';' !in name && ';' !in value && ';' !in toUtcString(now + NinetyDays)
    ensures Split(SetCookieString(name, value, now, toUtcString), ';')
      == [PrefixedName(name) + "=" + value, "expires=" + toUtcString(now + NinetyDays), "path=/"]
  {
    var p := PrefixedName(name);
    var fields := [p + "=" + value, "expires=" + toUtcString(now + NinetyDays), "path=/"];
    assert ';' !in p by {
      assert forall k :: 0 <= k < |p| ==> p[k] == (if k < 9 then "mestring_"[k] else name[k - 9]);
    }
    assert ';' !in fields[0] && ';' !in fields[1] && ';' !in fields[2];
    assert Join(fields, ";") == SetCookieString(name, value, now, toUtcString) by {
      assert fields[1..][1..] == ["path=/"];
      assert Join(fields[1..], ";") == fields[1] + ";" + "path=/";
      assert ";" + "path=/" == ";path=/";
      assert ";" + "expires=" == ";expires=";
    }
    SplitJoin(fields, ';');
  }
}
