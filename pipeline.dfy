/**
 The options part of the download run: fetch the chain, then keep each leg's
 rows near the target expiry. The counts in the run's summary are the lengths
 of these two legs.
 */
module Pipeline {
  import opened Wrappers
  import opened Seqs
  import opened Quotes
  import opened ExpiryWindow
  import opened OptionsChain

  /** The chain with both legs narrowed to the default expiry window. */
  function TargetOptions(listing: Option<seq<Expiration>>, now: Instant): Legs
  {
    var chain := OptionsChainOf(listing, now);
    Legs(FilterTargetExpiry(chain.calls), FilterTargetExpiry(chain.puts))
  }

  /** Every call row that reaches the output is liquid, lies in the window
      [75, 105], and carries its expiration's exact derived values. */
  lemma TargetCallsInvariant(listing: Option<seq<Expiration>>, now: Instant, q: Quote)
    requires q in TargetOptions(listing, now).calls
    ensures IsLiquid(q.contract)
    ensures 75 <= q.daysToExpiry <= 105
    ensures q.timeToExpiry * DaysPerYear == q.daysToExpiry as real
    ensures q.midPrice * 2.0 == q.contract.bid + q.contract.ask
  {
    ChainCallsMembers(listing, now, DefaultMaxExpirations, q);
  }

  /** The same for every put row that reaches the output. */
  lemma TargetPutsInvariant(listing: Option<seq<Expiration>>, now: Instant, q: Quote)
    requires q in TargetOptions(listing, now).puts
    ensures IsLiquid(q.contract)
    ensures 75 <= q.daysToExpiry <= 105
    ensures q.timeToExpiry * DaysPerYear == q.daysToExpiry as real
    ensures q.midPrice * 2.0 == q.contract.bid + q.contract.ask
  {
    ChainPutsMembers(listing, now, DefaultMaxExpirations, q);
  }

  /** A call row reaches the output exactly when it is in the chain's calls and
      its day count lies in the default window [75, 105]. */
  lemma TargetCallsMembers(listing: Option<seq<Expiration>>, now: Instant, q: Quote)
    ensures q in TargetOptions(listing, now).calls <==>
      q in OptionsChainOf(listing, now).calls && 75 <= q.daysToExpiry <= 105
  {
  }

  /** The same for the put rows. */
  lemma TargetPutsMembers(listing: Option<seq<Expiration>>, now: Instant, q: Quote)
    ensures q in TargetOptions(listing, now).puts <==>
      q in OptionsChainOf(listing, now).puts && 75 <= q.daysToExpiry <= 105
  {
  }

  /** With no expirations listed, or no listing at all, both output legs are empty. */
  lemma NoExpirationsNoOptions(now: Instant)
    ensures TargetOptions(Some([]), now) == Legs([], [])
    ensures TargetOptions(None, now) == Legs([], [])
  {
  }

  /** One expiration 90 days out whose three call rows include one with zero
      volume: exactly the other two calls reach the output, in their order. */
  lemma TwoOfThreeCallsKept()
    ensures
      var liquidA := Contract("A", 100.0, 5.0, 5.5, Some(10), Some(200), 0.25);
      var noVolume := Contract("B", 105.0, 3.0, 3.4, Some(0), Some(150), 0.24);
      var liquidC := Contract("C", 110.0, 1.5, 1.7, Some(4), Some(90), 0.23);
      var now := Instant(20_000, 36_000_000_000);
      var listing := Some([Expiration("2024-10-18", 20_091, Chain([liquidA, noVolume, liquidC], []))]);
      TargetOptions(listing, now).calls == [Tag(liquidA, "2024-10-18", 90), Tag(liquidC, "2024-10-18", 90)]
  {
    var liquidA := Contract("A", 100.0, 5.0, 5.5, Some(10), Some(200), 0.25);
    var noVolume := Contract("B", 105.0, 3.0, 3.4, Some(0), Some(150), 0.24);
    var liquidC := Contract("C", 110.0, 1.5, 1.7, Some(4), Some(90), 0.23);
    var now := Instant(20_000, 36_000_000_000);
    var e := Expiration("2024-10-18", 20_091, Chain([liquidA, noVolume, liquidC], []));
    var tagged := TagAll([liquidA, noVolume, liquidC], e.date, 90);
    assert DaysUntil(e.day, now) == 90;
    assert Filter(tagged, IsLiquidQuote) == [tagged[0], tagged[2]] by {
      assert tagged[1..][1..] == [tagged[2]] && [tagged[2]][1..] == [];
      assert !IsLiquidQuote(tagged[1]) && IsLiquidQuote(tagged[2]);
      assert Filter([tagged[2]], IsLiquidQuote) == [tagged[2]];
      assert Filter(tagged[1..], IsLiquidQuote) == [tagged[2]];
    }
    assert SliceEnd(1, DefaultMaxExpirations) == 1;
    assert Selected([e], DefaultMaxExpirations) == [e];
    assert !AnyFails([e]);
    assert CallsFrames([e], now) == [[tagged[0], tagged[2]]];
    assert Concat(CallsFrames([e], now)) == [tagged[0], tagged[2]] by {
      assert CallsFrames([e], now)[..0] == [];
    }
    var kept := Filter([tagged[0], tagged[2]], WindowKeep(TargetExpiryDays, DefaultTolerance));
    assert kept == [tagged[0], tagged[2]] by {
      var keep := WindowKeep(TargetExpiryDays, DefaultTolerance);
      assert [tagged[0], tagged[2]][1..] == [tagged[2]] && [tagged[2]][1..] == [];
      assert keep(tagged[0]) && keep(tagged[2]);
      assert Filter([tagged[2]], keep) == [tagged[2]];
    }
  }
}
