/**
  The request middleware that copies every camelCase query key to its
  snake_case spelling (backend/mastery/middleware.py). A query is a map
  from key to its last value; `keys` is the order in which the middleware
  visits the original keys.
 */
module CamelCase {
  import opened Text

  /** re.sub('([A-Z])', r'_\1', key): an underscore before every capital. */
  function Underscored(key: string): (r: string)
    ensures |r| == |key| + CountUpper(key)
  {
    if key == [] then []
    else if IsUpper(key[0]) then ['_', key[0]] + Underscored(key[1..])
    else [key[0]] + Underscored(key[1..])
  }

  function CountUpper(key: string): nat {
    if key == [] then 0 else (if IsUpper(key[0]) then 1 else 0) + CountUpper(key[1..])
  }

  /** The snake_case spelling of a key: underscores, then lower case. */
  function Snake(key: string): (r: string)
  {
    Lower(Underscored(key))
  }

  /** Each capital becomes "_" followed by its lower-case form; every other character is kept. */
  lemma SnakeHead(c: char, rest: string)
    ensures IsUpper(c) ==> Snake([c] + rest) == ['_', LowerChar(c)] + Snake(rest)
    ensures !IsUpper(c) ==> Snake([c] + rest) == [c] + Snake(rest)
  {
    if IsUpper(c) {
      SnakeHeadUpper(c, rest);
    } else {
      SnakeHeadOther(c, rest);
    }
  }

  lemma SnakeHeadUpper(c: char, rest: string)
    requires IsUpper(c)
    ensures Snake([c] + rest) == ['_', LowerChar(c)] + Snake(rest)
  {
    var key := [c] + rest;
    assert key[0] == c && key[1..] == rest;
    assert Underscored(key) == ['_', c] + Underscored(rest);
    LowerAppend(['_', c], Underscored(rest));
    assert Lower(['_', c]) == ['_', LowerChar(c)];
  }

  lemma SnakeHeadOther(c: char, rest: string)
    requires !IsUpper(c)
    ensures Snake([c] + rest) == [c] + Snake(rest)
  {
    var key := [c] + rest;
    assert key[0] == c && key[1..] == rest;
    assert Underscored(key) == [c] + Underscored(rest);
    LowerAppend([c], Underscored(rest));
    assert Lower([c]) == [c];
  }

  lemma LowerAppend(a: string, b: string)
    ensures Lower(a + b) == Lower(a) + Lower(b)
  {
    var l := Lower(a + b);
    assert forall i :: 0 <= i < |a| ==> (a + b)[i] == a[i];
    assert forall i :: |a| <= i < |a| + |b| ==> (a + b)[i] == b[i - |a|];
    assert l == Lower(a) + Lower(b);
  }

  /** A converted key has no capitals left. */
  lemma SnakeHasNoUpper(key: string)
    ensures HasNoUpper(Snake(key))
  {
  }

  lemma {:induction false} CountUpperZero(key: string)
    ensures CountUpper(key) == 0 <==> HasNoUpper(key)
  {
    if key != [] {
      CountUpperZero(key[1..]);
      assert forall i :: 1 <= i < |key| ==> key[i] == key[1..][i - 1];
    }
  }

  lemma {:induction false} UnderscoredNoUpper(key: string)
    requires HasNoUpper(key)
    ensures Underscored(key) == key
  {
    if key != [] {
      assert HasNoUpper(key[1..]) by {
        assert forall i :: 0 <= i < |key[1..]| ==> key[1..][i] == key[i + 1];
      }
      UnderscoredNoUpper(key[1..]);
      assert !IsUpper(key[0]);
      assert [key[0]] + key[1..] == key;
    }
  }

  /** A key changes exactly when it has a capital; so a converted key converts to itself. */
  lemma {:induction false} SnakeFixed(key: string)
    ensures Snake(key) == key <==> HasNoUpper(key)
  {
    CountUpperZero(key);
    if HasNoUpper(key) {
      UnderscoredNoUpper(key);
      var l := Lower(key);
      assert forall i :: 0 <= i < |key| ==> l[i] == key[i];
    }
  }

  lemma SnakeIdempotent(key: string)
    ensures Snake(Snake(key)) == Snake(key)
  {
    SnakeHasNoUpper(key);
    SnakeFixed(Snake(key));
  }

  /** The query after visiting `keys` in order: each changed key adds its snake spelling with its own value. */
  function AddSnakeKeys(get: map<string, string>, keys: seq<string>): (r: map<string, string>)
    requires forall k :: k in keys ==> k in get
    decreases |keys|
  {
    if keys == [] then get
    else
      var m := AddSnakeKeys(get, keys[..|keys| - 1]);
      var k := keys[|keys| - 1];
      if Snake(k) != k then m[Snake(k) := get[k]] else m
  }

  /** CamelCaseQueryParamMiddleware.process_request, on the query alone. */
  method ProcessRequest(get: map<string, string>, keys: seq<string>) returns (newParams: map<string, string>)
    requires forall k :: k in keys ==> k in get
    ensures newParams == AddSnakeKeys(get, keys)
  {
    // The source skips an empty query; it has no keys, so the loop below does nothing for it.
    newParams := get;
    var i := 0;
    while i < |keys|
      invariant 0 <= i <= |keys|
      invariant newParams == AddSnakeKeys(get, keys[..i])
    {
      var key := keys[i];
      var snakeKey := Lower(Underscored(key));
      assert keys[..i + 1][..i] == keys[..i];
      if snakeKey != key {
        newParams := newParams[snakeKey := get[key]];
      }
      i := i + 1;
    }
    assert keys[..|keys|] == keys;
  }

  /**
    The keys afterwards are the original keys plus the snake spelling of
    every key that changed.
   */
  lemma {:induction false} KeysAfter(get: map<string, string>, keys: seq<string>, x: string)
    requires forall k :: k in keys ==> k in get
    ensures x in AddSnakeKeys(get, keys) <==>
      x in get || exists j :: 0 <= j < |keys| && Snake(keys[j]) != keys[j] && Snake(keys[j]) == x
    decreases |keys|
  {
    if keys != [] {
      var init := keys[..|keys| - 1];
      KeysAfter(get, init, x);
      assert forall j :: 0 <= j < |init| ==> init[j] == keys[j];
    }
  }

  /** A key that no visited key converts to keeps its original value. */
  lemma {:induction false} ValueKept(get: map<string, string>, keys: seq<string>, x: string)
    requires forall k :: k in keys ==> k in get
    requires x in get
    requires forall j :: 0 <= j < |keys| ==> Snake(keys[j]) == keys[j] || Snake(keys[j]) != x
    ensures x in AddSnakeKeys(get, keys) && AddSnakeKeys(get, keys)[x] == get[x]
    decreases |keys|
  {
    if keys != [] {
      ValueKept(get, keys[..|keys| - 1], x);
    }
  }

  /**
    The snake spelling of a changed key carries that key's value, unless a
    later key converts to the same spelling; an existing snake_case key is
    overwritten.
   */
  lemma {:induction false} SnakeValue(get: map<string, string>, keys: seq<string>, i: nat)
    requires forall k :: k in keys ==> k in get
    requires i < |keys| && Snake(keys[i]) != keys[i]
    requires forall j :: i < j < |keys| ==> Snake(keys[j]) == keys[j] || Snake(keys[j]) != Snake(keys[i])
    ensures Snake(keys[i]) in AddSnakeKeys(get, keys)
    ensures AddSnakeKeys(get, keys)[Snake(keys[i])] == get[keys[i]]
    decreases |keys|
  {
    if i < |keys| - 1 {
      var init := keys[..|keys| - 1];
      SnakeValue(get, init, i);
    }
  }

  /** A query whose keys are all snake_case already passes through unchanged. */
  lemma {:induction false} LowerCaseUnchanged(get: map<string, string>, keys: seq<string>)
    requires forall k :: k in keys ==> k in get
    requires forall j :: 0 <= j < |keys| ==> HasNoUpper(keys[j])
    ensures AddSnakeKeys(get, keys) == get
    decreases |keys|
  {
    if keys != [] {
      LowerCaseUnchanged(get, keys[..|keys| - 1]);
      SnakeFixed(keys[|keys| - 1]);
    }
  }
}
