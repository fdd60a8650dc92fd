/**
 Assembly of the options chain across the provider's first expirations. The
 provider is input data: its expiration listing (or None when asking for it
 raised) and, for each expiration, its calls and puts (or a failure).
 */
module OptionsChain {
  import opened Wrappers
  import opened Seqs
  import opened Quotes

  /** The provider's answer for one expiration. */
  datatype ChainAnswer = Chain(calls: seq<Contract>, puts: seq<Contract>) | ChainError

  /** One listed expiration: its date string, the calendar day number that
      string denotes, and what the provider answers when asked for its chain. */
  datatype Expiration = Expiration(date: string, day: int, answer: ChainAnswer)

  /** The two legs of a chain. */
  datatype Legs = Legs(calls: seq<Quote>, puts: seq<Quote>)

  const NoLegs := Legs([], [])

  const DefaultMaxExpirations: int := 5

  /** The length of the Python slice xs[:k] of a list of length n: the first k
      elements when k >= 0, all but the last -k when k < 0. */
  function SliceEnd(n: nat, k: int): (m: nat)
    ensures m <= n
    ensures 0 <= k ==> m == if k <= n then k else n
    ensures k < 0 ==> m == if -k < n then n + k else 0
  {
    if k >= 0 then (if k < n then k else n)
    else if n + k > 0 then n + k else 0
  }

  /** The expirations `exps[:maxExpirations]` that are fetched, in provider order. */
  function Selected(exps: seq<Expiration>, maxExpirations: int): seq<Expiration>
  {
    exps[..SliceEnd(|exps|, maxExpirations)]
  }

  /** The liquid, tagged rows of one leg of one expiration. */
  function Frame(rows: seq<Contract>, e: Expiration, now: Instant): seq<Quote>
  {
    LiquidRows(TagAll(rows, e.date, DaysUntil(e.day, now)))
  }

  /** The calls frame of an expiration whose chain was delivered; a failed
      expiration makes the whole chain empty, so its frame is never used. */
  function CallsFrame(e: Expiration, now: Instant): seq<Quote>
  {
    match e.answer
    case Chain(calls, _) => Frame(calls, e, now)
    case ChainError => []
  }

  function PutsFrame(e: Expiration, now: Instant): seq<Quote>
  {
    match e.answer
    case Chain(_, puts) => Frame(puts, e, now)
    case ChainError => []
  }

  /** The list of calls frames, one per expiration, in expiration order. */
  function CallsFrames(sel: seq<Expiration>, now: Instant): (fs: seq<seq<Quote>>)
    ensures |fs| == |sel| && forall k :: 0 <= k < |sel| ==> fs[k] == CallsFrame(sel[k], now)
  {
    seq(|sel|, k requires 0 <= k < |sel| => CallsFrame(sel[k], now))
  }

  function PutsFrames(sel: seq<Expiration>, now: Instant): (fs: seq<seq<Quote>>)
    ensures |fs| == |sel| && forall k :: 0 <= k < |sel| ==> fs[k] == PutsFrame(sel[k], now)
  {
    seq(|sel|, k requires 0 <= k < |sel| => PutsFrame(sel[k], now))
  }

  predicate AnyFails(sel: seq<Expiration>)
  {
    exists k :: 0 <= k < |sel| && sel[k].answer.ChainError?
  }

  /** The chain the source assembles: empty when the listing is unavailable or
      empty, or when any fetched expiration fails; otherwise the per-expiration
      frames of each leg glued together in expiration order. */
  function OptionsChainOf(listing: Option<seq<Expiration>>, now: Instant,
                          maxExpirations: int := DefaultMaxExpirations): Legs
  {
    match listing
    case None => NoLegs
    case Some(exps) =>
      var sel := Selected(exps, maxExpirations);
      if exps == [] || AnyFails(sel) then NoLegs
      else Legs(Concat(CallsFrames(sel, now)), Concat(PutsFrames(sel, now)))
  }

  /** Fetches the chain expiration by expiration, appending each leg's liquid
      frame to a running list and concatenating the lists at the end. */
  method GetOptionsChain(listing: Option<seq<Expiration>>, now: Instant,
                         maxExpirations: int := DefaultMaxExpirations)
    returns (calls: seq<Quote>, puts: seq<Quote>)
    ensures Legs(calls, puts) == OptionsChainOf(listing, now, maxExpirations)
    ensures listing.None? || listing == Some([]) ==> calls == [] && puts == []
    ensures listing.Some? && AnyFails(Selected(listing.value, maxExpirations)) ==> calls == [] && puts == []
  {
    if listing.None? {
      return [], [];
    }
    var exps := listing.value;
    if |exps| == 0 {
      return [], [];
    }
    var allCalls: seq<seq<Quote>> := [];
    var allPuts: seq<seq<Quote>> := [];
    var sel := Selected(exps, maxExpirations);
    for i := 0 to |sel|
      invariant |allCalls| == i && forall k :: 0 <= k < i ==> allCalls[k] == CallsFrame(sel[k], now)
      invariant |allPuts| == i && forall k :: 0 <= k < i ==> allPuts[k] == PutsFrame(sel[k], now)
      invariant forall k :: 0 <= k < i ==> sel[k].answer.Chain?
    {
      var e := sel[i];
      match e.answer {
        case ChainError =>
          assert AnyFails(sel) by { assert sel[i].answer.ChainError?; }
          return [], [];
        case Chain(c, p) =>
          var days := DaysUntil(e.day, now);
          var callRows := LiquidRows(TagAll(c, e.date, days));
          var putRows := LiquidRows(TagAll(p, e.date, days));
          assert callRows == CallsFrame(sel[i], now) && putRows == PutsFrame(sel[i], now);
          allCalls := allCalls + [callRows];
          allPuts := allPuts + [putRows];
      }
    }
    assert !AnyFails(sel);
    assert allCalls == CallsFrames(sel, now) && allPuts == PutsFrames(sel, now);
    calls := Concat(allCalls);
    puts := Concat(allPuts);
  }

  /** A row is in an expiration's frame iff it is one of that leg's liquid
      contracts tagged with the expiration's date and day count. */
  lemma FrameMembers(rows: seq<Contract>, e: Expiration, now: Instant, q: Quote)
    ensures q in Frame(rows, e, now) <==>
      exists c :: c in rows && IsLiquid(c) && q == Tag(c, e.date, DaysUntil(e.day, now))
  {
    var tagged := TagAll(rows, e.date, DaysUntil(e.day, now));
    LiquidRowsSoundAndComplete(tagged);
    if q in Frame(rows, e, now) {
      var i :| 0 <= i < |tagged| && tagged[i] == q;
      assert rows[i] in rows && IsLiquid(rows[i]);
    }
    if c :| c in rows && IsLiquid(c) && q == Tag(c, e.date, DaysUntil(e.day, now)) {
      var i :| 0 <= i < |rows| && rows[i] == c;
      assert tagged[i] == q;
    }
  }

  /** The calls of the chain are exactly the liquid call contracts of the
      fetched expirations, each tagged with its own expiration, and only when no
      fetched expiration failed and the listing was non-empty. */
  lemma ChainCallsMembers(listing: Option<seq<Expiration>>, now: Instant, maxExpirations: int, q: Quote)
    ensures q in OptionsChainOf(listing, now, maxExpirations).calls <==>
      && listing.Some? && listing.value != []
      && !AnyFails(Selected(listing.value, maxExpirations))
      && exists k :: 0 <= k < |Selected(listing.value, maxExpirations)| &&
           var e := Selected(listing.value, maxExpirations)[k];
           && e.answer.Chain?
           && exists c :: c in e.answer.calls && IsLiquid(c) && q == Tag(c, e.date, DaysUntil(e.day, now))
  {
    if listing.Some? && listing.value != [] && !AnyFails(Selected(listing.value, maxExpirations)) {
      var sel := Selected(listing.value, maxExpirations);
      var frames := CallsFrames(sel, now);
      ConcatMembers(frames, q);
      forall k | 0 <= k < |sel|
        ensures q in frames[k] <==>
          exists c :: c in sel[k].answer.calls && IsLiquid(c) && q == Tag(c, sel[k].date, DaysUntil(sel[k].day, now))
      {
        assert sel[k].answer.Chain?;
        FrameMembers(sel[k].answer.calls, sel[k], now, q);
      }
    }
  }

  /** The same statement for the puts. */
  lemma ChainPutsMembers(listing: Option<seq<Expiration>>, now: Instant, maxExpirations: int, q: Quote)
    ensures q in OptionsChainOf(listing, now, maxExpirations).puts <==>
      && listing.Some? && listing.value != []
      && !AnyFails(Selected(listing.value, maxExpirations))
      && exists k :: 0 <= k < |Selected(listing.value, maxExpirations)| &&
           var e := Selected(listing.value, maxExpirations)[k];
           && e.answer.Chain?
           && exists c :: c in e.answer.puts && IsLiquid(c) && q == Tag(c, e.date, DaysUntil(e.day, now))
  {
    if listing.Some? && listing.value != [] && !AnyFails(Selected(listing.value, maxExpirations)) {
      var sel := Selected(listing.value, maxExpirations);
      var frames := PutsFrames(sel, now);
      ConcatMembers(frames, q);
      forall k | 0 <= k < |sel|
        ensures q in frames[k] <==>
          exists c :: c in sel[k].answer.puts && IsLiquid(c) && q == Tag(c, sel[k].date, DaysUntil(sel[k].day, now))
      {
        assert sel[k].answer.Chain?;
        FrameMembers(sel[k].answer.puts, sel[k], now, q);
      }
    }
  }

  /** Every one of the first maxExpirations expirations is fetched: when none
      of them fails, each liquid contract of expiration j < maxExpirations is in
      the chain, tagged with that expiration's date and day count. */
  lemma ChainFetchesFirstExpirations(exps: seq<Expiration>, now: Instant, maxExpirations: int, j: nat)
    requires j < |exps| && j < maxExpirations
    requires forall i :: 0 <= i < |exps| && i < maxExpirations ==> exps[i].answer.Chain?
    ensures forall c :: c in exps[j].answer.calls && IsLiquid(c) ==>
      Tag(c, exps[j].date, DaysUntil(exps[j].day, now)) in OptionsChainOf(Some(exps), now, maxExpirations).calls
    ensures forall c :: c in exps[j].answer.puts && IsLiquid(c) ==>
      Tag(c, exps[j].date, DaysUntil(exps[j].day, now)) in OptionsChainOf(Some(exps), now, maxExpirations).puts
  {
    var sel := Selected(exps, maxExpirations);
    assert j < |sel| && sel[j] == exps[j];
    assert !AnyFails(sel);
    forall c | c in exps[j].answer.calls && IsLiquid(c)
      ensures Tag(c, exps[j].date, DaysUntil(exps[j].day, now)) in OptionsChainOf(Some(exps), now, maxExpirations).calls
    {
      ChainCallsMembers(Some(exps), now, maxExpirations, Tag(c, exps[j].date, DaysUntil(exps[j].day, now)));
    }
    forall c | c in exps[j].answer.puts && IsLiquid(c)
      ensures Tag(c, exps[j].date, DaysUntil(exps[j].day, now)) in OptionsChainOf(Some(exps), now, maxExpirations).puts
    {
      ChainPutsMembers(Some(exps), now, maxExpirations, Tag(c, exps[j].date, DaysUntil(exps[j].day, now)));
    }
  }

  /** The chain keeps expiration order: when it does not collapse, the k-th
      fetched expiration's calls frame forms one contiguous block of the calls,
      placed right after the frames of the expirations before it. */
  lemma ChainCallsInExpirationOrder(exps: seq<Expiration>, now: Instant, maxExpirations: int, k: nat)
    requires exps != [] && !AnyFails(Selected(exps, maxExpirations))
    requires k < |Selected(exps, maxExpirations)|
    ensures
      var frames := CallsFrames(Selected(exps, maxExpirations), now);
      var at := TotalLength(frames[..k]);
      var calls := OptionsChainOf(Some(exps), now, maxExpirations).calls;
      at + |frames[k]| <= |calls| && calls[at .. at + |frames[k]|] == frames[k]
  {
    var frames := CallsFrames(Selected(exps, maxExpirations), now);
    assert OptionsChainOf(Some(exps), now, maxExpirations).calls == Concat(frames);
    ConcatBlocks(frames, k);
  }

  /** The same for the puts. */
  lemma ChainPutsInExpirationOrder(exps: seq<Expiration>, now: Instant, maxExpirations: int, k: nat)
    requires exps != [] && !AnyFails(Selected(exps, maxExpirations))
    requires k < |Selected(exps, maxExpirations)|
    ensures
      var frames := PutsFrames(Selected(exps, maxExpirations), now);
      var at := TotalLength(frames[..k]);
      var puts := OptionsChainOf(Some(exps), now, maxExpirations).puts;
      at + |frames[k]| <= |puts| && puts[at .. at + |frames[k]|] == frames[k]
  {
    var frames := PutsFrames(Selected(exps, maxExpirations), now);
    assert OptionsChainOf(Some(exps), now, maxExpirations).puts == Concat(frames);
    ConcatBlocks(frames, k);
  }

  /** The rows the provider delivered for each leg, one table per expiration. */
  function ProviderCalls(sel: seq<Expiration>): (ts: seq<seq<Contract>>)
    ensures |ts| == |sel|
    ensures forall k :: 0 <= k < |sel| ==> ts[k] == if sel[k].answer.Chain? then sel[k].answer.calls else []
  {
    seq(|sel|, k requires 0 <= k < |sel| => if sel[k].answer.Chain? then sel[k].answer.calls else [])
  }

  function ProviderPuts(sel: seq<Expiration>): (ts: seq<seq<Contract>>)
    ensures |ts| == |sel|
    ensures forall k :: 0 <= k < |sel| ==> ts[k] == if sel[k].answer.Chain? then sel[k].answer.puts else []
  {
    seq(|sel|, k requires 0 <= k < |sel| => if sel[k].answer.Chain? then sel[k].answer.puts else [])
  }

  lemma {:induction false} TotalLengthBound<T, U>(ss: seq<seq<T>>, tt: seq<seq<U>>)
    requires |ss| == |tt|
    requires forall k :: 0 <= k < |ss| ==> |ss[k]| <= |tt[k]|
    ensures TotalLength(ss) <= TotalLength(tt)
  {
    if ss != [] {
      TotalLengthBound(ss[..|ss| - 1], tt[..|tt| - 1]);
    }
  }

  /** Each leg of the chain has at most as many rows as the provider delivered
      for that leg across the fetched expirations. */
  lemma ChainLengthBound(exps: seq<Expiration>, now: Instant, maxExpirations: int)
    ensures |OptionsChainOf(Some(exps), now, maxExpirations).calls|
         <= TotalLength(ProviderCalls(Selected(exps, maxExpirations)))
    ensures |OptionsChainOf(Some(exps), now, maxExpirations).puts|
         <= TotalLength(ProviderPuts(Selected(exps, maxExpirations)))
  {
    var sel := Selected(exps, maxExpirations);
    if exps != [] && !AnyFails(sel) {
      ConcatLength(CallsFrames(sel, now));
      ConcatLength(PutsFrames(sel, now));
      TotalLengthBound(CallsFrames(sel, now), ProviderCalls(sel));
      TotalLengthBound(PutsFrames(sel, now), ProviderPuts(sel));
    }
  }

  /** Expirations past the first maxExpirations are never fetched: appending
      more of them, failing or not, does not change the chain. */
  lemma ChainIgnoresLaterExpirations(exps: seq<Expiration>, more: seq<Expiration>, now: Instant,
                                     maxExpirations: int)
    requires 0 <= maxExpirations <= |exps|
    ensures OptionsChainOf(Some(exps + more), now, maxExpirations) == OptionsChainOf(Some(exps), now, maxExpirations)
  {
    assert Selected(exps + more, maxExpirations) == Selected(exps, maxExpirations);
    if exps == [] {
      assert Selected(exps + more, maxExpirations) == [];
      assert Concat<Quote>([]) == [];
    }
  }

  function Swap(e: Expiration): Expiration
  {
    match e.answer
    case Chain(calls, puts) => Expiration(e.date, e.day, Chain(puts, calls))
    case ChainError => e
  }

  /** Calls and puts are treated alike: exchanging every expiration's calls and
      puts exchanges the two legs of the chain. */
  lemma ChainLegsSymmetric(exps: seq<Expiration>, now: Instant, maxExpirations: int)
    ensures OptionsChainOf(Some(seq(|exps|, i requires 0 <= i < |exps| => Swap(exps[i]))), now, maxExpirations)
         == Legs(OptionsChainOf(Some(exps), now, maxExpirations).puts,
                 OptionsChainOf(Some(exps), now, maxExpirations).calls)
  {
    var swapped := seq(|exps|, i requires 0 <= i < |exps| => Swap(exps[i]));
    var sel, ssel := Selected(exps, maxExpirations), Selected(swapped, maxExpirations);
    assert |ssel| == |sel|;
    assert forall k :: 0 <= k < |sel| ==> ssel[k] == Swap(sel[k]);
    assert AnyFails(ssel) <==> AnyFails(sel) by {
      assert forall k :: 0 <= k < |sel| ==> (ssel[k].answer.ChainError? <==> sel[k].answer.ChainError?);
    }
    assert CallsFrames(ssel, now) == PutsFrames(sel, now);
    assert PutsFrames(ssel, now) == CallsFrames(sel, now);
  }
}
