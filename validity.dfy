/**
  The validity window of a group (backend/mastery/querysets.py). A bound
  that is NULL in the database is absent and leaves that side open; time
  is a number on one clock.
 */
module Validity {
  import opened Text

  /** within_validity_period: the window has started and not yet ended, both ends inclusive. */
  predicate Within(validFrom: Option<int>, validTo: Option<int>, now: int) {
    (validFrom.None? || validFrom.value <= now) && (validTo.None? || validTo.value >= now)
  }

  /**
    outside_validity_period: the window starts later or ended earlier. A
    comparison against NULL is false in SQL, so an absent bound never
    makes a group invalid.
   */
  predicate Outside(validFrom: Option<int>, validTo: Option<int>, now: int) {
    (validFrom.Some? && validFrom.value > now) || (validTo.Some? && validTo.value < now)
  }

  /** The two listings split every set of groups in two: each group is in exactly one. */
  lemma Complement(validFrom: Option<int>, validTo: Option<int>, now: int)
    ensures Within(validFrom, validTo, now) != Outside(validFrom, validTo, now)
  {
  }

  /** A group without bounds is valid at every moment. */
  lemma UnboundedAlwaysValid(now: int)
    ensures Within(None, None, now) && !Outside(None, None, now)
  {
  }

  /** Both ends belong to the window. */
  lemma BoundsInclusive(validFrom: int, validTo: int)
    requires validFrom <= validTo
    ensures Within(Some(validFrom), Some(validTo), validFrom)
    ensures Within(Some(validFrom), Some(validTo), validTo)
    ensures !Within(Some(validFrom), Some(validTo), validFrom - 1)
    ensures !Within(Some(validFrom), Some(validTo), validTo + 1)
  {
  }

  /** The window is convex: valid at two moments means valid at every moment in between. */
  lemma WindowConvex(validFrom: Option<int>, validTo: Option<int>, t0: int, t: int, t1: int)
    requires t0 <= t <= t1
    requires Within(validFrom, validTo, t0) && Within(validFrom, validTo, t1)
    ensures Within(validFrom, validTo, t)
  {
  }
}
