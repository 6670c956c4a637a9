/**
  The alert store (frontend/src/stores/alerts.ts): a list of alerts, each
  with an id drawn from a counter that only grows, removed by id or flushed
  once older than their time to live unless persistent. The clock reading
  (Date.now()) is a parameter, and the flush timer that fires every
  AlertFlushInterval milliseconds is the Flush method called with the time.
 */
module Alerts {
  import opened Text

  const AlertTTL: int := 5 * 1000
  const AlertFlushInterval: int := 3 * 1000

  datatype Alert = Alert(id: nat, timestamp: int, kind: string, message: string, isPersistent: bool)

  /** What a caller hands to addAlert; an isPersistent left out is None. */
  datatype NewAlert = NewAlert(kind: string, message: string, isPersistent: Option<bool>)

  /** Ids strictly increase along the list. */
  predicate Increasing(xs: seq<Alert>) {
    forall i, j :: 0 <= i < j < |xs| ==> xs[i].id < xs[j].id
  }

  /** The filter of removeAlert: every alert whose id differs, in order. */
  function WithoutId(xs: seq<Alert>, id: nat): (r: seq<Alert>)
    ensures forall a :: a in r <==> a in xs && a.id != id
    ensures |r| <= |xs|
  {
    if xs == [] then []
    else (if xs[0].id != id then [xs[0]] else []) + WithoutId(xs[1..], id)
  }

  /** The flush rule: an alert stays while persistent or younger than AlertTTL. */
  predicate Kept(a: Alert, now: int) {
    a.isPersistent || now - a.timestamp < AlertTTL
  }

  /** The filter of the flush timer, in order. */
  function Flushed(xs: seq<Alert>, now: int): (r: seq<Alert>)
    ensures forall a :: a in r <==> a in xs && Kept(a, now)
    ensures |r| <= |xs|
  {
    if xs == [] then []
    else (if Kept(xs[0], now) then [xs[0]] else []) + Flushed(xs[1..], now)
  }

  class AlertStore {
    var alerts: seq<Alert>
    var nextAlertId: nat

    /** Ids are increasing, hence unique, and none is above the last one handed out. */
    ghost predicate Valid()
      reads this
    {
      Increasing(alerts) && forall i :: 0 <= i < |alerts| ==> 1 <= alerts[i].id <= nextAlertId
    }

    constructor()
      ensures Valid()
      ensures alerts == [] && nextAlertId == 0
    {
      alerts := [];
      nextAlertId := 0;
    }

    /** addAlert: the next id, the current time and isPersistent defaulting to false; appended at the end. */
    method AddAlert(a: NewAlert, now: int)
      requires Valid()
      modifies this
      ensures Valid()
      ensures nextAlertId == old(nextAlertId) + 1
      ensures alerts == old(alerts) + [Alert(nextAlertId, now, a.kind, a.message, a.isPersistent == Some(true))]
    {
      nextAlertId := nextAlertId + 1;
      var persistent := if a.isPersistent.Some? then a.isPersistent.value else false;
      alerts := alerts + [Alert(nextAlertId, now, a.kind, a.message, persistent)];
    }

    /** removeAlert: nothing for a missing id, otherwise every alert with that id goes. */
    method RemoveAlert(id: Option<nat>)
      requires Valid()
      modifies this
      ensures Valid()
      ensures nextAlertId == old(nextAlertId)
      ensures id.None? ==> alerts == old(alerts)
      ensures id.Some? ==> alerts == WithoutId(old(alerts), id.value)
    {
      if id.None? {
        return;
      }
      WithoutIdKeepsOrder(alerts, id.value);
      alerts := WithoutId(alerts, id.value);
    }

    /** One tick of the flush timer at time now. */
    method Flush(now: int)
      requires Valid()
      modifies this
      ensures Valid()
      ensures nextAlertId == old(nextAlertId)
      ensures alerts == Flushed(old(alerts), now)
    {
      FlushedKeepsOrder(alerts, now);
      var kept := Flushed(alerts, now);
      forall i | 0 <= i < |kept|
        ensures 1 <= kept[i].id <= nextAlertId
      {
        assert kept[i] in kept;
        var k :| 0 <= k < |alerts| && alerts[k] == kept[i];
      }
      alerts := kept;
    }
  }

  // ---------------------------------------------------------------- properties

  /** Increasing ids are unique ids. */
  lemma IncreasingUnique(xs: seq<Alert>)
    requires Increasing(xs)
    ensures forall i, j :: 0 <= i < |xs| && 0 <= j < |xs| && xs[i].id == xs[j].id ==> i == j
  {
  }

  /** Putting an alert in front of increasing alerts with larger ids keeps them increasing. */
  lemma ConsIncreasing(x: Alert, r: seq<Alert>)
    requires Increasing(r) && forall b :: b in r ==> x.id < b.id
    ensures Increasing([x] + r)
  {
    var s := [x] + r;
    forall i, j | 0 <= i < j < |s|
      ensures s[i].id < s[j].id
    {
      assert s[j] == r[j - 1];
      if i > 0 {
        assert s[i] == r[i - 1];
      }
    }
  }

  /** removeAlert's filter keeps the remaining alerts in their order: increasing ids stay increasing. */
  lemma {:induction false} WithoutIdKeepsOrder(xs: seq<Alert>, id: nat)
    requires Increasing(xs)
    ensures Increasing(WithoutId(xs, id))
    decreases |xs|
  {
    if xs != [] {
      var rest := xs[1..];
      assert Increasing(rest) by {
        forall i, j | 0 <= i < j < |rest|
          ensures rest[i].id < rest[j].id
        {
          assert rest[i] == xs[i + 1] && rest[j] == xs[j + 1];
        }
      }
      WithoutIdKeepsOrder(rest, id);
      forall b | b in WithoutId(rest, id)
        ensures xs[0].id < b.id
      {
        var k :| 0 <= k < |rest| && rest[k] == b;
        assert xs[k + 1] == b;
      }
      if xs[0].id != id {
        ConsIncreasing(xs[0], WithoutId(rest, id));
      } else {
        assert [] + WithoutId(rest, id) == WithoutId(rest, id);
      }
    }
  }

  /** The flush keeps the surviving alerts in their order: increasing ids stay increasing. */
  lemma {:induction false} FlushedKeepsOrder(xs: seq<Alert>, now: int)
    requires Increasing(xs)
    ensures Increasing(Flushed(xs, now))
    decreases |xs|
  {
    if xs != [] {
      var rest := xs[1..];
      assert Increasing(rest) by {
        forall i, j | 0 <= i < j < |rest|
          ensures rest[i].id < rest[j].id
        {
          assert rest[i] == xs[i + 1] && rest[j] == xs[j + 1];
        }
      }
      FlushedKeepsOrder(rest, now);
      forall b | b in Flushed(rest, now)
        ensures xs[0].id < b.id
      {
        var k :| 0 <= k < |rest| && rest[k] == b;
        assert xs[k + 1] == b;
      }
      if Kept(xs[0], now) {
        ConsIncreasing(xs[0], Flushed(rest, now));
      } else {
        assert [] + Flushed(rest, now) == Flushed(rest, now);
      }
    }
  }

  /** Flushing twice at the same time removes nothing more. */
  lemma {:induction false} FlushIdempotent(xs: seq<Alert>, now: int)
    ensures Flushed(Flushed(xs, now), now) == Flushed(xs, now)
    decreases |xs|
  {
    if xs != [] {
      FlushIdempotent(xs[1..], now);
      var rest := Flushed(xs[1..], now);
      if Kept(xs[0], now) {
        var r := [xs[0]] + rest;
        assert Flushed(xs, now) == r;
        assert r[0] == xs[0] && r[1..] == rest;
        assert Flushed(r, now) == [xs[0]] + Flushed(rest, now);
      } else {
        assert Flushed(xs, now) == [] + rest == rest;
      }
    }
  }

  /** Removing by an id no alert has changes nothing. */
  lemma {:induction false} RemoveAbsentId(xs: seq<Alert>, id: nat)
    requires forall i :: 0 <= i < |xs| ==> xs[i].id != id
    ensures WithoutId(xs, id) == xs
    decreases |xs|
  {
    if xs != [] {
      RemoveAbsentId(xs[1..], id);
      assert [xs[0]] + xs[1..] == xs;
    }
  }

  /**
    A non-persistent alert with timestamp t survives a flush at
    t + AlertTTL - 1 and is removed by the flush at t + AlertTTL.
   */
  lemma ExpiresAtTTL(a: Alert)
    requires !a.isPersistent
    ensures Flushed([a], a.timestamp + AlertTTL - 1) == [a]
    ensures Flushed([a], a.timestamp + AlertTTL) == []
  {
    assert [a][1..] == [];
  }
}
