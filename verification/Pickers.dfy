/** The two built-in pickers, over entries shared with the pool. */
module Pickers {
  import opened Wrappers
  import opened Ordering
  import opened Entries
  import opened Choice
  import PS = PoolState

  /** Addresses tried so far in one RPC, retries included. */
  class AttemptTracker {
    var addrs: seq<string>

    constructor ()
      ensures addrs == []
    {
      addrs := [];
    }
  }

  function EntryText(e: SubConnEntry): string { PS.KeyText(e.key) }

  function TextsOf(es: seq<SubConnEntry>): (r: seq<string>)
    ensures |r| == |es| && forall i :: 0 <= i < |es| ==> r[i] == EntryText(es[i])
  {
    seq(|es|, i requires 0 <= i < |es| => EntryText(es[i]))
  }

  function LoadsOf(es: seq<SubConnEntry>): (r: seq<int>)
    reads es
    ensures |r| == |es| && forall i :: 0 <= i < |es| ==> r[i] == es[i].inFlight
  {
    seq(|es|, i requires 0 <= i < |es| reads es => es[i].inFlight)
  }

  /** The entries a pick with these tried addresses chooses from. */
  function Eligible(healthy: seq<SubConnEntry>, tried: seq<string>): seq<SubConnEntry> {
    Candidates(healthy, EntryText, tried)
  }

  /** The tracker's addresses; none without a tracker. */
  function Tried(tracker: AttemptTracker?): seq<string>
    reads tracker
  {
    if tracker == null then [] else tracker.addrs
  }

  /** Notes a chosen entry in the tracker, if there is one. */
  method Record(tracker: AttemptTracker?, entry: SubConnEntry)
    modifies tracker
    ensures tracker != null ==> tracker.addrs == old(tracker.addrs) + [EntryText(entry)]
  {
    if tracker != null {
      tracker.addrs := tracker.addrs + [EntryText(entry)];
    }
  }

  method IsTried(addr: string, tried: seq<string>) returns (isTried: bool)
    ensures isTried <==> addr in tried
  {
    isTried := false;
    for i := 0 to |tried|
      invariant !isTried && addr !in tried[..i]
    {
      if addr == tried[i] { return true; }
    }
  }

  /** The exclusion filter both pickers apply. */
  method Filter(healthy: seq<SubConnEntry>, tried: seq<string>) returns (candidates: seq<SubConnEntry>)
    ensures candidates == Eligible(healthy, tried)
  {
    candidates := healthy;
    NothingTried(healthy, EntryText);
    if |tried| > 0 {
      var filtered: seq<SubConnEntry> := [];
      for i := 0 to |healthy|
        invariant filtered == Untried(healthy[..i], EntryText, tried)
      {
        var isTried := IsTried(EntryText(healthy[i]), tried);
        assert healthy[..i + 1][..i] == healthy[..i];
        if !isTried {
          filtered := filtered + [healthy[i]];
        }
      }
      assert healthy[..|healthy|] == healthy;
      if |filtered| > 0 {
        candidates := filtered;
      }
    }
  }

  /** The candidates of a pick: everything healthy, unless a tracker excludes some. */
  method Offer(healthy: seq<SubConnEntry>, tracker: AttemptTracker?) returns (candidates: seq<SubConnEntry>)
    requires healthy != []
    ensures candidates == Eligible(healthy, Tried(tracker)) && candidates != []
    ensures tracker == null ==> candidates == healthy
    ensures forall i :: 0 <= i < |candidates| ==> candidates[i] in healthy
  {
    candidates := healthy;
    NothingTried(healthy, EntryText);
    if tracker != null {
      candidates := Filter(healthy, tracker.addrs);
    }
    forall i | 0 <= i < |candidates| ensures candidates[i] in healthy {
      CandidateExactly(healthy, EntryText, Tried(tracker), candidates[i]);
    }
    CandidateExactly(healthy, EntryText, Tried(tracker), healthy[0]);
  }

  class RRPicker {
    const healthy: seq<SubConnEntry>
    var counter: nat  // below 2^64

    constructor (healthy: seq<SubConnEntry>)
      ensures this.healthy == healthy && counter == 0
    {
      this.healthy, counter := healthy, 0;
    }

    /** None stands for the Unavailable status. */
    method Pick(tracker: AttemptTracker?) returns (r: Option<SubConnEntry>)
      modifies this, tracker
      ensures r == None <==> healthy == []
      ensures healthy == [] ==> counter == old(counter) && (tracker != null ==> tracker.addrs == old(tracker.addrs))
      ensures healthy != [] ==>
        var eligible := Eligible(healthy, old(Tried(tracker)));
        && eligible != []
        && counter == NextTicket(old(counter))
        && r == Some(eligible[counter % |eligible|])
        && (tracker != null ==> tracker.addrs == old(tracker.addrs) + [EntryText(r.value)])
        && (tracker == null ==> r == Some(healthy[counter % |healthy|]))
    {
      if |healthy| == 0 { return None; }
      var candidates := Offer(healthy, tracker);
      counter := NextTicket(counter);
      var entry := candidates[counter % |candidates|];
      Record(tracker, entry);
      return Some(entry);
    }
  }

  /** The entry least-request chooses. */
  function Least(candidates: seq<SubConnEntry>): SubConnEntry
    requires candidates != []
    reads candidates
  {
    candidates[ArgMin(LoadsOf(candidates), TextsOf(candidates))]
  }

  /** What a pick with these tried addresses chooses, if anything. */
  function LeastEligible(healthy: seq<SubConnEntry>, tried: seq<string>): Option<SubConnEntry>
    reads Eligible(healthy, tried)
  {
    if Eligible(healthy, tried) == [] then None else Some(Least(Eligible(healthy, tried)))
  }

  /** The scan for the entry with the fewest calls in flight. */
  method LeastLoaded(candidates: seq<SubConnEntry>) returns (chosen: SubConnEntry)
    requires candidates != []
    ensures chosen in candidates && chosen == Least(candidates)
  {
    chosen := candidates[0];
    var chosenKey := EntryText(chosen);
    var chosenInFlight := chosen.inFlight;
    ghost var loads, texts := LoadsOf(candidates), TextsOf(candidates);
    ghost var at := 0;
    for i := 1 to |candidates|
      invariant at < |candidates| && chosen == candidates[at]
      invariant chosenKey == texts[at] && chosenInFlight == loads[at]
      invariant at == ScanTo(loads, texts, i)
    {
      var entry := candidates[i];
      var inFlight := entry.inFlight;
      var key := EntryText(entry);
      if Beats(inFlight, key, chosenInFlight, chosenKey) {
        chosen, chosenKey, chosenInFlight := entry, key, inFlight;
        at := i;
      }
    }
  }

  /** Charges the least loaded candidate, and nothing else that is healthy, with one call. */
  method Charge(candidates: seq<SubConnEntry>, ghost healthy: seq<SubConnEntry>) returns (chosen: SubConnEntry)
    requires candidates != [] && forall i :: 0 <= i < |candidates| ==> candidates[i] in healthy
    modifies healthy`inFlight
    ensures chosen == old(Least(candidates)) && chosen in healthy
    ensures chosen.inFlight == old(chosen.inFlight) + 1
    ensures forall e :: e in healthy && e != chosen ==> e.inFlight == old(e.inFlight)
    ensures NoDuplicates(candidates) ==>
      LoadsOf(candidates) == Charged(old(LoadsOf(candidates)), TextsOf(candidates))
  {
    chosen := LeastLoaded(candidates);
    ghost var loads, texts := LoadsOf(candidates), TextsOf(candidates);
    chosen.inFlight := chosen.inFlight + 1;
    if NoDuplicates(candidates) {
      forall i | 0 <= i < |candidates| ensures candidates[i].inFlight == Charged(loads, texts)[i] {
        assert candidates[i] == chosen <==> i == ArgMin(loads, texts);
      }
    }
  }

  /** Chooses among what the tracker leaves and charges the choice. */
  method ChargeOffered(healthy: seq<SubConnEntry>, tracker: AttemptTracker?) returns (chosen: SubConnEntry)
    requires healthy != []
    modifies healthy`inFlight
    ensures var eligible := Eligible(healthy, Tried(tracker));
      && eligible != [] && chosen == old(Least(eligible))
      && chosen in healthy && chosen.inFlight == old(chosen.inFlight) + 1
    ensures forall e :: e in healthy && e != chosen ==> e.inFlight == old(e.inFlight)
    ensures tracker == null && NoDuplicates(healthy) ==>
      LoadsOf(healthy) == Charged(old(LoadsOf(healthy)), TextsOf(healthy))
  {
    hide Least, Candidates, Charged;
    ghost var eligible, loads := Eligible(healthy, Tried(tracker)), LoadsOf(healthy);
    var candidates := Offer(healthy, tracker);
    assert LoadsOf(healthy) == loads && candidates == eligible;
    assert Least(candidates) == old(Least(eligible));
    chosen := Charge(candidates, healthy);
  }

  class LRPicker {
    const healthy: seq<SubConnEntry>

    constructor (healthy: seq<SubConnEntry>)
      ensures this.healthy == healthy
    {
      this.healthy := healthy;
    }

    /** None stands for the Unavailable status. */
    method Pick(tracker: AttemptTracker?) returns (r: Option<SubConnEntry>)
      modifies tracker, healthy`inFlight
      ensures r == None <==> healthy == []
      ensures tracker != null ==>
        tracker.addrs == old(tracker.addrs) + (if r.Some? then [EntryText(r.value)] else [])
      ensures r == old(LeastEligible(healthy, Tried(tracker)))
      ensures r.Some? ==> r.value in healthy && r.value.inFlight == old(r.value.inFlight) + 1
      ensures forall e :: e in healthy && Some(e) != r ==> e.inFlight == old(e.inFlight)
      ensures healthy != [] && tracker == null && NoDuplicates(healthy) ==>
        LoadsOf(healthy) == Charged(old(LoadsOf(healthy)), TextsOf(healthy))
    {
      if |healthy| == 0 { return None; }
      var chosen := ChargeOffered(healthy, tracker);
      Record(tracker, chosen);
      return Some(chosen);
    }

    /** The Done callback of a pick. */
    static method Done(chosen: SubConnEntry)
      modifies chosen`inFlight
      ensures chosen.inFlight == old(chosen.inFlight) - 1
    {
      chosen.inFlight := chosen.inFlight - 1;
    }
  }

  // ---------------------------------------------------------------------
  // Any picker a balancer may have installed
  // ---------------------------------------------------------------------

  datatype Picker = NoHealthyPicker | RR(rr: RRPicker) | LR(lr: LRPicker)

  /** The entries a picker was built from. */
  function HealthyIn(p: Picker): seq<SubConnEntry> {
    match p
    case NoHealthyPicker => []
    case RR(rr) => rr.healthy
    case LR(lr) => lr.healthy
  }

  /** The counter a pick moves. */
  function CounterOf(p: Picker): set<RRPicker> {
    match p case RR(rr) => {rr} case _ => {}
  }

  /** The entries a pick may charge. */
  function ChargeableIn(p: Picker): set<SubConnEntry> {
    match p case LR(lr) => (set e | e in lr.healthy) case _ => {}
  }

  /** A pick under whichever policy; None stands for the Unavailable status. */
  method PickFrom(p: Picker, tracker: AttemptTracker?) returns (r: Option<SubConnEntry>)
    modifies tracker, CounterOf(p), ChargeableIn(p)`inFlight
    ensures r == None <==> HealthyIn(p) == []
    ensures r.Some? ==> r.value in Eligible(HealthyIn(p), old(Tried(tracker)))
    ensures tracker != null ==>
      tracker.addrs == old(tracker.addrs) + (if r.Some? then [EntryText(r.value)] else [])
  {
    match p
    case NoHealthyPicker => r := None;
    case RR(rr) => r := rr.Pick(tracker);
    case LR(lr) => r := lr.Pick(tracker);
  }
}
