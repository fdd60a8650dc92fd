/**
 The expiry-window filter: keep the option rows whose day count lies within a
 tolerance of a target day count.
 */
module ExpiryWindow {
  import opened Seqs
  import opened Quotes

  /** The default target, in calendar days to expiry (about three months). */
  const TargetExpiryDays: int := 90

  /** The default half-width of the window, in days. */
  const DefaultTolerance: int := 15

  predicate InWindow(q: Quote, targetDays: int, tolerance: int)
  {
    targetDays - tolerance <= q.daysToExpiry <= targetDays + tolerance
  }

  function WindowKeep(targetDays: int, tolerance: int): Quote -> bool
  {
    q => InWindow(q, targetDays, tolerance)
  }

  /** The rows whose days to expiry lie in the closed interval
      [targetDays - tolerance, targetDays + tolerance], in their original order;
      an empty table is returned as it is. */
  function FilterTargetExpiry(rows: seq<Quote>, targetDays: int := TargetExpiryDays,
                              tolerance: int := DefaultTolerance): (r: seq<Quote>)
    ensures rows == [] ==> r == rows
    ensures forall q :: q in r ==>
      q in rows && targetDays - tolerance <= q.daysToExpiry <= targetDays + tolerance
    ensures forall q :: q in rows && targetDays - tolerance <= q.daysToExpiry <= targetDays + tolerance ==> q in r
    ensures IsSubsequence(r, rows)
  {
    if rows == [] then rows
    else
      FilterMembers(rows, WindowKeep(targetDays, tolerance));
      FilterIsSubsequence(rows, WindowKeep(targetDays, tolerance));
      Filter(rows, WindowKeep(targetDays, tolerance))
  }

  /** Each row in the window is kept as often as it occurs; no other row is kept. */
  lemma FilterTargetExpiryMultiplicity(rows: seq<Quote>, targetDays: int, tolerance: int, q: Quote)
    ensures multiset(FilterTargetExpiry(rows, targetDays, tolerance))[q]
         == if InWindow(q, targetDays, tolerance) then multiset(rows)[q] else 0
  {
    FilterMultiplicity(rows, WindowKeep(targetDays, tolerance), q);
  }

  /** Applying the expiry-window filter twice gives the result of applying it once. */
  lemma FilterTargetExpiryIdempotent(rows: seq<Quote>, targetDays: int, tolerance: int)
    ensures FilterTargetExpiry(FilterTargetExpiry(rows, targetDays, tolerance), targetDays, tolerance)
         == FilterTargetExpiry(rows, targetDays, tolerance)
  {
    FilterIdempotent(rows, WindowKeep(targetDays, tolerance));
  }

  /** With the defaults the window is [75, 105]. */
  lemma DefaultWindow(rows: seq<Quote>)
    ensures forall q :: q in FilterTargetExpiry(rows) <==> q in rows && 75 <= q.daysToExpiry <= 105
  {
  }
}
