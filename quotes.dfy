/**
 Option contract rows: the row the provider returns for one contract, the row
 tagged with its expiration's derived fields, and the liquidity predicate
 applied to every leg of the chain.
 */
module Quotes {
  import opened Wrappers
  import opened Seqs

  /** One contract row of a provider chain. A missing (NaN) volume or open
      interest is None. */
  datatype Contract = Contract(
    contractSymbol: string,
    strike: real,
    bid: real,
    ask: real,
    volume: Option<int>,
    openInterest: Option<int>,
    impliedVolatility: real)

  /** A contract row with the columns added for its expiration. */
  datatype Quote = Quote(
    contract: Contract,
    expiration: string,
    daysToExpiry: int,
    timeToExpiry: real,
    midPrice: real)

  /** The divisor that turns a day count into a year fraction. */
  const DaysPerYear: real := 365.25

  const MicrosPerDay: nat := 86_400_000_000

  /** Microseconds since midnight. */
  type TimeOfDay = m: nat | m < MicrosPerDay

  /** A wall-clock reading: a calendar day number and the time into that day. */
  datatype Instant = Instant(day: int, micros: TimeOfDay)

  /** The exact day difference from now to midnight of the given day. */
  function DayDifference(expirationDay: int, now: Instant): real
  {
    (expirationDay - now.day) as real - now.micros as real / MicrosPerDay as real
  }

  /** Whole days from now to midnight of the expiration day, rounded down (the
      `days` of a time difference): an expiration dated today, seen after
      midnight, is -1 days away. */
  function DaysUntil(expirationDay: int, now: Instant): (d: int)
    ensures d as real <= DayDifference(expirationDay, now) < d as real + 1.0
    ensures expirationDay == now.day && now.micros > 0 ==> d == -1
  {
    if now.micros == 0 then expirationDay - now.day else expirationDay - now.day - 1
  }

  /** The row c with its expiration, day count, year fraction and mid price. */
  function Tag(c: Contract, expiration: string, days: int): (q: Quote)
    ensures q.contract == c && q.expiration == expiration && q.daysToExpiry == days
    ensures q.timeToExpiry * DaysPerYear == days as real
    ensures q.midPrice * 2.0 == c.bid + c.ask
  {
    Quote(c, expiration, days, days as real / DaysPerYear, (c.bid + c.ask) / 2.0)
  }

  /** Every row of one chain leg tagged with the same expiration fields. */
  function TagAll(rows: seq<Contract>, expiration: string, days: int): (r: seq<Quote>)
    ensures |r| == |rows|
    ensures forall i :: 0 <= i < |rows| ==> r[i] == Tag(rows[i], expiration, days)
  {
    if rows == [] then [] else [Tag(rows[0], expiration, days)] + TagAll(rows[1..], expiration, days)
  }

  /** The contract rows a tagged leg was made from. */
  function Contracts(qs: seq<Quote>): (r: seq<Contract>)
    ensures |r| == |qs|
    ensures forall i :: 0 <= i < |qs| ==> r[i] == qs[i].contract
  {
    if qs == [] then [] else [qs[0].contract] + Contracts(qs[1..])
  }

  /** Tagging adds columns and loses none of the provider's rows or values. */
  lemma TagAllKeepsRows(rows: seq<Contract>, expiration: string, days: int)
    ensures Contracts(TagAll(rows, expiration, days)) == rows
  {
  }

  /** The liquidity predicate: volume, open interest, bid and ask all strictly
      positive; a missing volume or open interest fails. */
  predicate IsLiquid(c: Contract)
  {
    && c.volume.Some? && c.volume.value > 0
    && c.openInterest.Some? && c.openInterest.value > 0
    && c.bid > 0.0
    && c.ask > 0.0
  }

  predicate IsLiquidQuote(q: Quote)
  {
    IsLiquid(q.contract)
  }

  /** The liquid rows of a tagged leg, in their original order. */
  function LiquidRows(rows: seq<Quote>): (r: seq<Quote>)
    ensures |r| <= |rows|
  {
    Filter(rows, IsLiquidQuote)
  }

  /** Every row the liquidity filter returns has positive volume, open
      interest, bid and ask; every such input row is returned; the rows keep
      their order. */
  lemma LiquidRowsSoundAndComplete(rows: seq<Quote>)
    ensures forall q :: q in LiquidRows(rows) ==>
      q in rows && q.contract.volume.Some? && q.contract.volume.value > 0
      && q.contract.openInterest.Some? && q.contract.openInterest.value > 0
      && q.contract.bid > 0.0 && q.contract.ask > 0.0
    ensures forall q :: (q in rows && q.contract.volume.Some? && q.contract.volume.value > 0
                         && q.contract.openInterest.Some? && q.contract.openInterest.value > 0
                         && q.contract.bid > 0.0 && q.contract.ask > 0.0) ==> q in LiquidRows(rows)
    ensures IsSubsequence(LiquidRows(rows), rows)
  {
    FilterMembers(rows, IsLiquidQuote);
    FilterIsSubsequence(rows, IsLiquidQuote);
  }

  /** The liquidity filter keeps every liquid row as often as it occurs and
      drops every other row entirely. */
  lemma LiquidRowsMultiplicity(rows: seq<Quote>, q: Quote)
    ensures multiset(LiquidRows(rows))[q] == if IsLiquid(q.contract) then multiset(rows)[q] else 0
  {
    FilterMultiplicity(rows, IsLiquidQuote, q);
  }

  /** Applying the liquidity filter a second time changes nothing. */
  lemma LiquidRowsIdempotent(rows: seq<Quote>)
    ensures LiquidRows(LiquidRows(rows)) == LiquidRows(rows)
  {
    FilterIdempotent(rows, IsLiquidQuote);
  }
}
