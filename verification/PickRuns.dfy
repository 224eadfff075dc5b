/** Sequences of picks, as the calls of a client make them. */
module PickRuns {
  import opened Wrappers
  import opened Ordering
  import opened Basics
  import opened Entries
  import opened Choice
  import opened Pickers
  import opened PickerBalance
  import opened Failover

  // ---------------------------------------------------------------------
  // Picks without a tracker
  // ---------------------------------------------------------------------

  /** `k` picks by one round-robin picker take the positions of its next `k` tickets. */
  method RoundRobinRun(p: RRPicker, k: nat) returns (chosen: seq<SubConnEntry>)
    requires p.healthy != []
    modifies p
    ensures p.counter == TicketAfter(old(p.counter), k)
    ensures chosen == At(p.healthy, Positions(old(p.counter), k, |p.healthy|))
  {
    chosen := [];
    for i := 0 to k
      invariant p.counter == TicketAfter(old(p.counter), i)
      invariant |chosen| == i
      invariant forall j :: 0 <= j < i ==> chosen[j] == p.healthy[TicketAfter(old(p.counter), j + 1) % |p.healthy|]
    {
      var r := p.Pick(null);
      chosen := chosen + [r.value];
    }
  }

  /** One such pick chooses the minimum of the whole list. */
  method LeastRequestPick(p: LRPicker) returns (chosen: SubConnEntry)
    requires p.healthy != [] && NoDuplicates(p.healthy)
    modifies p.healthy`inFlight
    ensures chosen == p.healthy[ArgMin(old(LoadsOf(p.healthy)), TextsOf(p.healthy))]
    ensures LoadsOf(p.healthy) == Charged(old(LoadsOf(p.healthy)), TextsOf(p.healthy))
  {
    NothingTried(p.healthy, EntryText);
    var r := p.Pick(null);
    chosen := r.value;
  }

  /** `k` picks by one least-request picker, none of them completing. */
  method LeastRequestRun(p: LRPicker, k: nat) returns (chosen: seq<SubConnEntry>)
    requires p.healthy != [] && NoDuplicates(p.healthy)
    modifies p.healthy`inFlight
    ensures LoadsOf(p.healthy) == LoadsAfter(old(LoadsOf(p.healthy)), TextsOf(p.healthy), k)
    ensures chosen == At(p.healthy, PicksMade(old(LoadsOf(p.healthy)), TextsOf(p.healthy), k))
  {
    chosen := [];
    ghost var loads, texts := LoadsOf(p.healthy), TextsOf(p.healthy);
    for i := 0 to k
      invariant LoadsOf(p.healthy) == LoadsAfter(loads, texts, i)
      invariant chosen == At(p.healthy, PicksMade(loads, texts, i))
    {
      AtSnoc(p.healthy, PicksMade(loads, texts, i), ArgMin(LoadsOf(p.healthy), texts));
      var e := LeastRequestPick(p);
      chosen := chosen + [e];
    }
  }

  /** The entries at these positions. */
  function At(es: seq<SubConnEntry>, positions: seq<nat>): (r: seq<SubConnEntry>)
    requires forall k :: 0 <= k < |positions| ==> positions[k] < |es|
    ensures |r| == |positions| && forall k :: 0 <= k < |r| ==> r[k] == es[positions[k]]
  {
    seq(|positions|, k requires 0 <= k < |positions| => es[positions[k]])
  }

  lemma AtSnoc(es: seq<SubConnEntry>, positions: seq<nat>, i: nat)
    requires i < |es| && forall k :: 0 <= k < |positions| ==> positions[k] < |es|
    ensures At(es, positions + [i]) == At(es, positions) + [es[i]]
  {
  }

  // ---------------------------------------------------------------------
  // Picks that share a tracker
  // ---------------------------------------------------------------------

  /** The addresses each picker offers, for those that have any. */
  function Offered(pickers: seq<Picker>): seq<seq<string>> {
    if pickers == [] then []
    else
      Offered(Init(pickers)) + (if HealthyIn(Last(pickers)) == [] then [] else [TextsOf(HealthyIn(Last(pickers)))])
  }

  /** The frame of a sequence of picks. */
  function CountersOf(pickers: seq<Picker>): set<RRPicker> {
    if pickers == [] then {} else CountersOf(Init(pickers)) + CounterOf(Last(pickers))
  }

  function Chargeable(pickers: seq<Picker>): set<SubConnEntry> {
    if pickers == [] then {} else Chargeable(Init(pickers)) + ChargeableIn(Last(pickers))
  }

  lemma {:induction false} InFrame(pickers: seq<Picker>, n: nat)
    requires n < |pickers|
    ensures CounterOf(pickers[n]) <= CountersOf(pickers) && ChargeableIn(pickers[n]) <= Chargeable(pickers)
  {
    if n < |pickers| - 1 { InFrame(Init(pickers), n); }
  }

  lemma OfferedSnoc(before: seq<Picker>, p: Picker)
    ensures Offered(before + [p])
         == Offered(before) + (if HealthyIn(p) == [] then [] else [TextsOf(HealthyIn(p))])
  {
    assert Init(before + [p]) == before && Last(before + [p]) == p;
  }

  lemma PickExtends(before: seq<Picker>, p: Picker, tried: seq<string>, chosen: SubConnEntry)
    requires Tracked(Offered(before), tried)
    requires HealthyIn(p) != [] && chosen in Eligible(HealthyIn(p), tried)
    ensures Tracked(Offered(before + [p]), tried + [EntryText(chosen)])
  {
    var texts := TextsOf(HealthyIn(p));
    OfferedSnoc(before, p);
    PickByAddress(HealthyIn(p), EntryText, texts, tried, chosen);
    TrackedSnoc(Offered(before), tried, texts, EntryText(chosen));
  }

  /** A tracked pick extends a tracked sequence, under either policy. */
  method TrackedPick(p: Picker, tracker: AttemptTracker, ghost before: seq<Picker>) returns (r: Option<SubConnEntry>)
    requires Tracked(Offered(before), tracker.addrs)
    modifies tracker, CounterOf(p), ChargeableIn(p)`inFlight
    ensures r == None <==> HealthyIn(p) == []
    ensures Tracked(Offered(before + [p]), tracker.addrs)
    ensures tracker.addrs == old(tracker.addrs) + (if r.Some? then [EntryText(r.value)] else [])
  {
    ghost var tried := tracker.addrs;
    r := PickFrom(p, tracker);
    if r.Some? {
      PickExtends(before, p, tried, r.value);
    } else {
      OfferedSnoc(before, p);
      assert tracker.addrs == tried;
    }
  }

  /** The addresses in a tracker come from one tracked pick by each of the first `n` pickers. */
  ghost predicate PickedBy(pickers: seq<Picker>, n: nat, addrs: seq<string>) {
    n <= |pickers| && Tracked(Offered(pickers[..n]), addrs)
  }

  lemma PickedByNext(pickers: seq<Picker>, n: nat, addrs: seq<string>)
    requires n < |pickers| && Tracked(Offered(pickers[..n] + [pickers[n]]), addrs)
    ensures PickedBy(pickers, n + 1, addrs)
  {
    assert pickers[..n + 1] == pickers[..n] + [pickers[n]];
  }

  /** Pick number `n`, counted from zero. */
  method NextPick(pickers: seq<Picker>, n: nat, tracker: AttemptTracker) returns (r: Option<SubConnEntry>)
    requires n < |pickers| && PickedBy(pickers, n, tracker.addrs)
    modifies tracker, CountersOf(pickers), Chargeable(pickers)`inFlight
    ensures r == None <==> HealthyIn(pickers[n]) == []
    ensures PickedBy(pickers, n + 1, tracker.addrs)
    ensures tracker.addrs == old(tracker.addrs) + (if r.Some? then [EntryText(r.value)] else [])
  {
    InFrame(pickers, n);
    r := TrackedPick(pickers[n], tracker, pickers[..n]);
    PickedByNext(pickers, n, tracker.addrs);
  }

  /**
   Picks that share one tracker, each by the picker installed at its time,
   whichever policy that one has and whatever is healthy by then.
   */
  method TrackedRun(pickers: seq<Picker>) returns (tracker: AttemptTracker)
    modifies CountersOf(pickers), Chargeable(pickers)`inFlight
    ensures fresh(tracker) && Tracked(Offered(pickers), tracker.addrs)
  {
    tracker := new AttemptTracker();
    for i := 0 to |pickers|
      invariant fresh(tracker) && PickedBy(pickers, i, tracker.addrs)
    {
      var _ := NextPick(pickers, i, tracker);
    }
    assert pickers[..|pickers|] == pickers;
  }

  /** Every picker has someone to offer. */
  predicate AllHave(pickers: seq<Picker>) {
    forall i :: 0 <= i < |pickers| ==> HealthyIn(pickers[i]) != []
  }

  function AllTexts(pickers: seq<Picker>): (r: seq<seq<string>>)
    ensures |r| == |pickers| && forall i :: 0 <= i < |r| ==> r[i] == TextsOf(HealthyIn(pickers[i]))
  {
    seq(|pickers|, i requires 0 <= i < |pickers| => TextsOf(HealthyIn(pickers[i])))
  }

  lemma AllTextsLast(pickers: seq<Picker>)
    requires pickers != []
    ensures AllTexts(pickers) == AllTexts(Init(pickers)) + [TextsOf(HealthyIn(Last(pickers)))]
  {
    hide TextsOf, AllTexts;
    var all, most := AllTexts(pickers), AllTexts(Init(pickers));
    forall i | 0 <= i < |most| ensures all[i] == most[i] {
      assert Init(pickers)[i] == pickers[i];
    }
    assert all == most + [all[|most|]];
  }

  lemma {:induction false} OfferedAll(pickers: seq<Picker>)
    requires AllHave(pickers)
    ensures Offered(pickers) == AllTexts(pickers)
  {
    if pickers != [] {
      assert AllHave(Init(pickers)) && HealthyIn(Last(pickers)) != [];
      OfferedAll(Init(pickers));
      AllTextsLast(pickers);
    }
  }

  /** Pickers over one healthy list offer the same addresses each time. */
  lemma {:induction false} OfferedAlways(pickers: seq<Picker>, healthy: seq<SubConnEntry>)
    requires healthy != [] && forall i :: 0 <= i < |pickers| ==> HealthyIn(pickers[i]) == healthy
    ensures Offered(pickers) == Always(TextsOf(healthy), |pickers|)
  {
    OfferedAll(pickers);
  }

  /**
   Tracked picks over one healthy list of N entries: the first min(m, N) of m
   reach different addresses, and the first N reach each address once.
   */
  method FixedRun(pickers: seq<Picker>, ghost healthy: seq<SubConnEntry>) returns (tracker: AttemptTracker)
    requires healthy != [] && NoDuplicates(TextsOf(healthy))
    requires forall i :: 0 <= i < |pickers| ==> HealthyIn(pickers[i]) == healthy
    modifies CountersOf(pickers), Chargeable(pickers)`inFlight
    ensures fresh(tracker) && |tracker.addrs| == |pickers|
    ensures NoDuplicates(tracker.addrs[..Min(|pickers|, |healthy|)])
    ensures |pickers| >= |healthy| ==> Elements(tracker.addrs[..|healthy|]) == Elements(TextsOf(healthy))
  {
    tracker := TrackedRun(pickers);
    OfferedAlways(pickers, healthy);
    PicksAreDistinct(TextsOf(healthy), tracker.addrs);
  }
}
