/** An API outage end to end: the resolver's grace window feeding the balancer's pool. */
module Outage {
  import opened Basics
  import opened Wrappers
  import opened Ordering
  import opened Endpoints
  import opened Cap
  import opened PoolState
  import opened PoolBatch
  import opened BalancerState
  import opened BalancerRuns
  import opened Convergence
  import G = GraceState
  import R = GraceRuns

  // ---------------------------------------------------------------------
  // One update
  // ---------------------------------------------------------------------

  /** Every entry is still there, its record untouched. */
  ghost predicate KeepsAll(p: Pool, q: Pool) {
    forall k :: k in p.live ==> k in q.live && q.live[k] == p.live[k]
  }

  /** An update keeps every entry exactly when it still wants every endpoint. */
  lemma {:induction false} KeepsAllIff(b: Balancer, e: Event)
    requires BalancerInv(b) && e.Resolve? && Enabled(b, e)
    requires UnderIdentity(b.pool.live, Configure(b, e.cfg).cfg)
    ensures KeepsAll(b.pool, Step(b, e).pool)
       <==> EndpointsOf(b.pool.live) <= Wanted(Configure(b, e.cfg).cfg, e.addrs)
  {
    var cfg := Configure(b, e.cfg).cfg;
    forall k | k in b.pool.live
      ensures (k in Step(b, e).pool.live && Step(b, e).pool.live[k] == b.pool.live[k])
         <==> Ep(k) in Wanted(cfg, e.addrs)
    {
      RemovedIff(b, e, k);
    }
    forall k | k in b.pool.live ensures Ep(k) in EndpointsOf(b.pool.live) {
    }
  }

  lemma NothingWanted(cfg: Config)
    ensures Wanted(cfg, Printed([])) == {}
  {
    assert Desired(Printed([])) == {};
  }

  /** Every entry is one the addresses ask for. */
  lemma WithinTarget(live: map<PoolKey, Rec>, cfg: Config, addrs: seq<string>)
    requires live.Keys <= Target(cfg, addrs)
    ensures UnderIdentity(live, cfg) && EndpointsOf(live) <= Wanted(cfg, addrs)
  {
    forall k | k in live
      ensures k.namespace == cfg.namespace && k.service == cfg.service && Ep(k) in Wanted(cfg, addrs)
    {
      assert k in Target(cfg, addrs);
    }
  }

  /** After an update every entry is, whatever could be created, if all were under the identity before. */
  lemma UpdatedWithinTarget(b: Balancer, e: Event)
    requires BalancerInv(b) && e.Resolve? && Enabled(b, e)
    requires UnderIdentity(b.pool.live, Configure(b, e.cfg).cfg)
    ensures Step(b, e).pool.live.Keys <= Target(Configure(b, e.cfg).cfg, e.addrs)
  {
    var cfg := Configure(b, e.cfg).cfg;
    ResolveKeys(b, e);
    SucceededAll(e.adds, e.oks);
    NoMoreThanWanted(b.pool.live, Step(b, e).pool.live, cfg, Wanted(cfg, e.addrs), Succeeded(e.adds, e.oks));
  }

  /** How long the outage has lasted when a snapshot arrives. */
  function Elapsed(g: G.Grace, now: int): int {
    now - (if g.disconnectedAt.Some? then g.disconnectedAt.value else now)
  }

  /** The endpoints the resolver passes on for a Disconnected snapshot without any. */
  lemma PassedOnFor(window: int, g: G.Grace, snap: G.Snapshot, now: int)
    requires G.Enabled(g, G.Snap(snap, now)) && snap.mode == G.Disconnected && snap.endpoints == []
    ensures Last(G.Step(window, g, G.Snap(snap, now)).emitted).endpoints
         == if Elapsed(g, now) >= window then g.lastEndpoints else []
  {
  }

  /** An update without addresses keeps every entry only if there is none. */
  lemma EmptyKeepsAllIff(b: Balancer, e: Event)
    requires BalancerInv(b) && e.Resolve? && Enabled(b, e) && e.addrs == Printed([])
    requires UnderIdentity(b.pool.live, Configure(b, e.cfg).cfg)
    ensures KeepsAll(b.pool, Step(b, e).pool) <==> b.pool.live == map[]
  {
    KeepsAllIff(b, e);
    NothingWanted(Configure(b, e.cfg).cfg);
    NoEndpoints(b.pool.live);
  }

  /**
   What one Disconnected snapshot without endpoints does to a pool of
   remembered endpoints, not all of which need be there: every entry survives
   exactly when there is none, or the outage has already lasted the window.
   */
  lemma {:induction false} SnapshotKeepsPoolIff(window: int, g: G.Grace, snap: G.Snapshot, now: int,
                                                b: Balancer, e: Event)
    requires G.Enabled(g, G.Snap(snap, now)) && snap.mode == G.Disconnected && snap.endpoints == []
    requires BalancerInv(b) && e.Resolve? && Enabled(b, e)
    requires e.addrs == Printed(Last(G.Step(window, g, G.Snap(snap, now)).emitted).endpoints)
    requires b.pool.live.Keys <= Target(Configure(b, e.cfg).cfg, Printed(g.lastEndpoints))
    ensures KeepsAll(b.pool, Step(b, e).pool) <==> b.pool.live == map[] || Elapsed(g, now) >= window
  {
    PassedOnFor(window, g, snap, now);
    WithinTarget(b.pool.live, Configure(b, e.cfg).cfg, Printed(g.lastEndpoints));
    if Elapsed(g, now) >= window {
      KeepsAllIff(b, e);
    } else {
      EmptyKeepsAllIff(b, e);
    }
  }

  lemma NoEndpoints(live: map<PoolKey, Rec>)
    ensures EndpointsOf(live) <= {} <==> live == map[]
  {
    if live != map[] {
      var k :| k in live;
      assert Ep(k) in EndpointsOf(live);
    }
  }

  // ---------------------------------------------------------------------
  // What the resolver passes on during an outage
  // ---------------------------------------------------------------------

  /** All snapshots of the inner resolver are Disconnected ones without endpoints. */
  predicate OnlyFailures(es: seq<G.Event>) {
    forall i :: 0 <= i < |es| && es[i].Snap? ==> es[i].snap.mode == G.Disconnected && es[i].snap.endpoints == []
  }

  predicate HasSnapshot(es: seq<G.Event>) { exists i :: 0 <= i < |es| && es[i].Snap? }

  predicate AnyDisconnected(out: seq<G.Snapshot>) { exists i :: 0 <= i < |out| && out[i].mode == G.Disconnected }

  /** The remembered endpoints as InGraceWindow, or none as Disconnected. */
  predicate InOutage(out: seq<G.Snapshot>, last: seq<Endpoint>) {
    forall i :: 0 <= i < |out| ==>
      || (out[i].mode == G.InGraceWindow && out[i].endpoints == last)
      || (out[i].mode == G.Disconnected && out[i].endpoints == [])
  }

  /** Between the last Connected snapshot and an outage. */
  predicate BeforeOutage(g: G.Grace) { g.mode == G.Connected && g.disconnectedAt.None? }

  /** The state in the course of an outage, `out` having been passed on so far. */
  ghost predicate Underway(window: int, last: seq<Endpoint>, g: G.Grace, out: seq<G.Snapshot>, seen: bool) {
    && g.lastEndpoints == last && InOutage(out, last)
    && (g.disconnectedAt.Some? <==> seen)
    && (g.disconnectedAt.Some? ==> g.disconnectedAt.value <= g.clock)
    && (!seen ==> g.mode == G.Connected && out == [])
    && (AnyDisconnected(out) <==> window > 0 && seen)
  }

  lemma AnyDisconnectedSnoc(out: seq<G.Snapshot>, s: G.Snapshot)
    ensures AnyDisconnected(out + [s]) <==> AnyDisconnected(out) || s.mode == G.Disconnected
  {
    var now := out + [s];
    assert now[|out|] == s;
    forall i | 0 <= i < |out| ensures now[i] == out[i] {
    }
  }

  lemma UnderwaySnap(window: int, last: seq<Endpoint>, g: G.Grace, out: seq<G.Snapshot>, seen: bool, e: G.Event)
    requires Underway(window, last, g, out, seen) && G.Enabled(g, e)
    requires e.Snap? && e.snap.mode == G.Disconnected && e.snap.endpoints == []
    ensures var s := G.Step(window, g, e);
      s.emitted == g.emitted + [Last(s.emitted)] && Underway(window, last, s, out + [Last(s.emitted)], true)
  {
    AnyDisconnectedSnoc(out, Last(G.Step(window, g, e).emitted));
  }

  lemma UnderwayFire(window: int, last: seq<Endpoint>, g: G.Grace, out: seq<G.Snapshot>, seen: bool, e: G.Event)
    requires Underway(window, last, g, out, seen) && G.Enabled(g, e) && e.Fire?
    ensures var s := G.Step(window, g, e);
      || (s.emitted == g.emitted && Underway(window, last, s, out, seen))
      || (s.emitted == g.emitted + [Last(s.emitted)] && Underway(window, last, s, out + [Last(s.emitted)], seen))
  {
    var s := G.Step(window, g, e);
    if s.emitted != g.emitted { AnyDisconnectedSnoc(out, Last(s.emitted)); }
  }

  lemma HasSnapshotSnoc(es: seq<G.Event>)
    requires es != []
    ensures HasSnapshot(es) <==> HasSnapshot(Init(es)) || Last(es).Snap?
  {
    forall i | 0 <= i < |es| - 1 ensures es[i] == Init(es)[i] {
    }
  }

  /** What is passed on during an outage, and that it includes a Disconnected snapshot iff the window is positive. */
  lemma {:induction false} PassedOn(window: int, g: G.Grace, es: seq<G.Event>) returns (out: seq<G.Snapshot>)
    requires BeforeOutage(g) && R.Legal(window, g, es) && OnlyFailures(es)
    ensures R.After(window, g, es).emitted == g.emitted + out
    ensures Underway(window, g.lastEndpoints, R.After(window, g, es), out, HasSnapshot(es))
  {
    if es == [] {
      out := [];
    } else {
      var h, e := R.After(window, g, Init(es)), Last(es);
      assert forall i :: 0 <= i < |es| - 1 ==> Init(es)[i] == es[i];
      var before := PassedOn(window, g, Init(es));
      HasSnapshotSnoc(es);
      var s := G.Step(window, h, e);
      if e.Snap? {
        UnderwaySnap(window, g.lastEndpoints, h, before, HasSnapshot(Init(es)), e);
      } else if e.Fire? {
        UnderwayFire(window, g.lastEndpoints, h, before, HasSnapshot(Init(es)), e);
      }
      out := if s.emitted == h.emitted then before else before + [Last(s.emitted)];
    }
  }

  // ---------------------------------------------------------------------
  // What that does to the pool
  // ---------------------------------------------------------------------

  function UpdatesIn(es: seq<Event>): seq<Event> {
    if es == [] then [] else UpdatesIn(Init(es)) + (if Last(es).Resolve? then [Last(es)] else [])
  }

  /** The updates of a run are the snapshots passed on, in order. */
  predicate Delivers(es: seq<Event>, out: seq<G.Snapshot>) {
    && |UpdatesIn(es)| == |out|
    && forall i :: 0 <= i < |out| ==> UpdatesIn(es)[i].Resolve? && UpdatesIn(es)[i].addrs == Printed(out[i].endpoints)
  }

  /** No configuration of the run changes what addresses lead to. */
  predicate SteadyTarget(cfg: Config, es: seq<Event>) {
    forall i :: 0 <= i < |es| && es[i].Resolve? && es[i].cfg.Some? ==> SameTarget(cfg, es[i].cfg.value)
  }

  predicate SameTarget(c: Config, d: Config) {
    c.namespace == d.namespace && c.service == d.service && c.maxSubconns == d.maxSubconns
  }

  /** An entry is still there, on the same SubConn. */
  predicate Stays(p: Pool, q: Pool, k: PoolKey)
    requires k in p.live
  {
    k in q.live && q.live[k].sc == p.live[k].sc
  }

  /**
   The run so far: the entries are ones the remembered endpoints ask for, and
   those of the start all stay, or, once a Disconnected snapshot arrived, none
   does.
   */
  ghost predicate AllOrNone(b: Balancer, c: Balancer, last: seq<Endpoint>, drained: bool) {
    && SameTarget(b.cfg, c.cfg) && Moves(b.pool, c.pool)
    && c.pool.live.Keys <= Target(b.cfg, Printed(last))
    && (forall k :: k in b.pool.live ==> (Stays(b.pool, c.pool, k) <==> !drained))
  }

  lemma SameTargetWanted(c: Config, d: Config, addrs: seq<string>)
    requires SameTarget(c, d)
    ensures Wanted(c, addrs) == Wanted(d, addrs) && Target(c, addrs) == Target(d, addrs)
  {
  }

  lemma MovesOn(p: Pool, q: Pool, r: Pool)
    requires Moves(p, q) && Moves(q, r)
    ensures Moves(p, r)
  {
  }

  /** An entry that is gone does not come back on its old SubConn. */
  lemma GoneStaysGone(b: Balancer, c: Balancer, e: Event, k: PoolKey)
    requires BalancerInv(b) && BalancerInv(c) && Enabled(c, e) && k in b.pool.live
    requires b.pool.keys <= c.pool.keys && !Stays(b.pool, c.pool, k)
    ensures !Stays(b.pool, Step(c, e).pool, k)
  {
    assert InMapOnly(b.pool, k);
    StepMoves(c, e);
  }

  lemma OtherStep(b: Balancer, c: Balancer, e: Event, last: seq<Endpoint>, drained: bool)
    requires BalancerInv(b) && BalancerInv(c) && Enabled(c, e) && !e.Resolve? && AllOrNone(b, c, last, drained)
    ensures AllOrNone(b, Step(c, e), last, drained)
  {
    StepKeepsKeys(c, e);
    StepMoves(c, e);
    MovesOn(b.pool, c.pool, Step(c, e).pool);
    forall k | k in b.pool.live ensures Stays(b.pool, Step(c, e).pool, k) <==> !drained {
      if drained { GoneStaysGone(b, c, e, k); } else { StepKeepsSubConn(c, e, k); }
    }
  }

  /** An update with the remembered endpoints, or none, leaves only entries they ask for. */
  lemma StillWithin(b: Balancer, c: Balancer, e: Event, last: seq<Endpoint>, drained: bool)
    requires BalancerInv(c) && e.Resolve? && Enabled(c, e) && AllOrNone(b, c, last, drained)
    requires e.cfg.Some? ==> SameTarget(b.cfg, e.cfg.value)
    requires e.addrs == Printed(last) || e.addrs == Printed([])
    ensures var s, cfg := Step(c, e), Configure(c, e.cfg).cfg;
      && SameTarget(b.cfg, s.cfg) && Moves(b.pool, s.pool)
      && s.pool.live.Keys <= Target(b.cfg, Printed(last))
      && UnderIdentity(c.pool.live, cfg) && EndpointsOf(c.pool.live) <= Wanted(cfg, Printed(last))
  {
    var cfg := Configure(c, e.cfg).cfg;
    SameTargetWanted(b.cfg, cfg, Printed(last));
    WithinTarget(c.pool.live, cfg, Printed(last));
    UpdatedWithinTarget(c, e);
    NothingWanted(cfg);
    StepMoves(c, e);
    MovesOn(b.pool, c.pool, Step(c, e).pool);
  }

  lemma RepeatStep(b: Balancer, c: Balancer, e: Event, last: seq<Endpoint>)
    requires BalancerInv(c) && e.Resolve? && Enabled(c, e) && AllOrNone(b, c, last, false)
    requires e.cfg.Some? ==> SameTarget(b.cfg, e.cfg.value)
    requires e.addrs == Printed(last)
    ensures AllOrNone(b, Step(c, e), last, false)
  {
    StillWithin(b, c, e, last, false);
    KeepsAllIff(c, e);
  }

  lemma DrainStep(b: Balancer, c: Balancer, e: Event, last: seq<Endpoint>)
    requires BalancerInv(c) && e.Resolve? && Enabled(c, e) && AllOrNone(b, c, last, false)
    requires e.cfg.Some? ==> SameTarget(b.cfg, e.cfg.value)
    requires e.addrs == Printed([])
    ensures AllOrNone(b, Step(c, e), last, true)
  {
    StillWithin(b, c, e, last, false);
    NothingWanted(Configure(c, e.cfg).cfg);
    forall k | k in b.pool.live ensures !Stays(b.pool, Step(c, e).pool, k) {
      RemovedIff(c, e, k);
    }
  }

  lemma GoneStep(b: Balancer, c: Balancer, e: Event, last: seq<Endpoint>)
    requires BalancerInv(b) && BalancerInv(c) && e.Resolve? && Enabled(c, e) && AllOrNone(b, c, last, true)
    requires e.cfg.Some? ==> SameTarget(b.cfg, e.cfg.value)
    requires e.addrs == Printed(last) || e.addrs == Printed([])
    ensures AllOrNone(b, Step(c, e), last, true)
  {
    StillWithin(b, c, e, last, true);
    forall k | k in b.pool.live ensures !Stays(b.pool, Step(c, e).pool, k) {
      GoneStaysGone(b, c, e, k);
    }
  }

  lemma UpdateStep(b: Balancer, c: Balancer, e: Event, last: seq<Endpoint>, drained: bool, s: G.Snapshot)
    requires BalancerInv(b) && BalancerInv(c) && e.Resolve? && Enabled(c, e) && AllOrNone(b, c, last, drained)
    requires e.cfg.Some? ==> SameTarget(b.cfg, e.cfg.value)
    requires e.addrs == Printed(s.endpoints) && InOutage([s], last)
    ensures AllOrNone(b, Step(c, e), last, drained || s.mode == G.Disconnected)
  {
    assert InOutage([s], last) && [s][0] == s;
    if drained {
      GoneStep(b, c, e, last);
    } else if s.mode == G.Disconnected {
      DrainStep(b, c, e, last);
    } else {
      RepeatStep(b, c, e, last);
    }
  }

  lemma DeliversInit(es: seq<Event>, out: seq<G.Snapshot>)
    requires es != [] && Delivers(es, out)
    ensures if Last(es).Resolve? then
              out != [] && Delivers(Init(es), Init(out)) && Last(es).addrs == Printed(Last(out).endpoints)
            else Delivers(Init(es), out)
  {
    if Last(es).Resolve? {
      assert UpdatesIn(es) == UpdatesIn(Init(es)) + [Last(es)];
      assert UpdatesIn(es)[|out| - 1] == Last(es);
      forall i | 0 <= i < |out| - 1 ensures UpdatesIn(Init(es))[i] == UpdatesIn(es)[i] && Init(out)[i] == out[i] {
      }
    } else {
      assert UpdatesIn(es) == UpdatesIn(Init(es));
    }
  }

  lemma SteadyInit(cfg: Config, es: seq<Event>)
    requires es != [] && SteadyTarget(cfg, es)
    ensures SteadyTarget(cfg, Init(es))
    ensures Last(es).Resolve? && Last(es).cfg.Some? ==> SameTarget(cfg, Last(es).cfg.value)
  {
    assert forall i :: 0 <= i < |es| - 1 ==> Init(es)[i] == es[i];
  }

  lemma OutageInit(out: seq<G.Snapshot>, last: seq<Endpoint>)
    requires out != [] && InOutage(out, last)
    ensures InOutage(Init(out), last) && InOutage([Last(out)], last)
    ensures AnyDisconnected(out) <==> AnyDisconnected(Init(out)) || Last(out).mode == G.Disconnected
  {
    assert out == Init(out) + [Last(out)];
    AnyDisconnectedSnoc(Init(out), Last(out));
  }

  lemma {:induction false} RunKeepsAllOrNone(b: Balancer, es: seq<Event>, last: seq<Endpoint>,
                                             out: seq<G.Snapshot>)
    requires BalancerInv(b) && Legal(b, es) && SteadyTarget(b.cfg, es)
    requires b.pool.live.Keys <= Target(b.cfg, Printed(last))
    requires Delivers(es, out) && InOutage(out, last)
    ensures AllOrNone(b, After(b, es), last, AnyDisconnected(out))
    decreases |es|
  {
    if es != [] {
      AlwaysInv(b, Init(es));
      DeliversInit(es, out);
      SteadyInit(b.cfg, es);
      if Last(es).Resolve? {
        OutageInit(out, last);
        RunKeepsAllOrNone(b, Init(es), last, Init(out));
        UpdateStep(b, After(b, Init(es)), Last(es), last, AnyDisconnected(Init(out)), Last(out));
      } else {
        RunKeepsAllOrNone(b, Init(es), last, out);
        OtherStep(b, After(b, Init(es)), Last(es), last, AnyDisconnected(out));
      }
    }
  }

  /**
   A whole outage, from a pool of remembered endpoints, not all of which need
   be there: the balancer receives what the resolver passes on, with any other
   events in between. Every entry is still there on its SubConn at the end
   exactly when there was none, or the window is not positive, or the inner
   resolver reported nothing.
   */
  lemma {:induction false} OutageKeepsPoolIff(window: int, g: G.Grace, gs: seq<G.Event>, out: seq<G.Snapshot>,
                                              b: Balancer, es: seq<Event>)
    requires BeforeOutage(g) && R.Legal(window, g, gs) && OnlyFailures(gs)
    requires R.After(window, g, gs).emitted == g.emitted + out && Delivers(es, out)
    requires BalancerInv(b) && Legal(b, es) && SteadyTarget(b.cfg, es)
    requires b.pool.live.Keys <= Target(b.cfg, Printed(g.lastEndpoints))
    ensures (forall k :: k in b.pool.live ==> Stays(b.pool, After(b, es).pool, k))
       <==> b.pool.live == map[] || window <= 0 || !HasSnapshot(gs)
  {
    EmittedIsOut(window, g, gs, out);
    RunKeepsAllOrNone(b, es, g.lastEndpoints, out);
    if b.pool.live != map[] {
      var k :| k in b.pool.live;
      assert Stays(b.pool, After(b, es).pool, k) <==> !AnyDisconnected(out);
    }
  }

  lemma EmittedIsOut(window: int, g: G.Grace, gs: seq<G.Event>, out: seq<G.Snapshot>)
    requires BeforeOutage(g) && R.Legal(window, g, gs) && OnlyFailures(gs)
    requires R.After(window, g, gs).emitted == g.emitted + out
    ensures Underway(window, g.lastEndpoints, R.After(window, g, gs), out, HasSnapshot(gs))
  {
    var out' := PassedOn(window, g, gs);
    assert out == R.After(window, g, gs).emitted[|g.emitted|..] == out';
  }

  /**
   How an outage ends for the pool once the window has passed and what gRPC is
   asked for is created: the pool is on target for the remembered endpoints,
   and each entry of the start has a new SubConn, unless the window is not
   positive: then it still has its old one.
   */
  lemma {:induction false} RecoversOnNewSubConns(window: int, g: G.Grace, gs: seq<G.Event>, out: seq<G.Snapshot>,
                                                 b: Balancer, es: seq<Event>)
    requires BeforeOutage(g) && R.Legal(window, g, gs) && OnlyFailures(gs)
    requires R.After(window, g, gs).emitted == g.emitted + out && Delivers(es, out)
    requires BalancerInv(b) && Legal(b, es) && SteadyTarget(b.cfg, es)
    requires b.pool.live.Keys <= Target(b.cfg, Printed(g.lastEndpoints))
    requires out != [] && Last(out).mode == G.InGraceWindow
    requires es != [] && Last(es).Resolve? && AllCreated(Last(es).oks)
    ensures var s := After(b, es).pool;
      && s.live.Keys == Target(b.cfg, Printed(g.lastEndpoints))
      && forall k :: k in b.pool.live ==>
           k in s.live && if window > 0 then s.live[k].sc >= |b.pool.keys| else s.live[k].sc == b.pool.live[k].sc
  {
    EmittedIsOut(window, g, gs, out);
    RunKeepsAllOrNone(b, es, g.lastEndpoints, out);
    LastUpdateConverges(b, es, g.lastEndpoints, out);
    var s := After(b, es).pool;
    forall k | k in b.pool.live
      ensures k in s.live && if window > 0 then s.live[k].sc >= |b.pool.keys| else s.live[k].sc == b.pool.live[k].sc
    {
      assert k in s.live.Keys;
      assert Stays(b.pool, s, k) <==> !AnyDisconnected(out);
    }
  }

  lemma {:induction false} LastUpdateConverges(b: Balancer, es: seq<Event>, last: seq<Endpoint>, out: seq<G.Snapshot>)
    requires BalancerInv(b) && Legal(b, es) && SteadyTarget(b.cfg, es)
    requires b.pool.live.Keys <= Target(b.cfg, Printed(last))
    requires Delivers(es, out) && InOutage(out, last) && out != [] && Last(out).mode == G.InGraceWindow
    requires es != [] && Last(es).Resolve? && AllCreated(Last(es).oks)
    ensures After(b, es).pool.live.Keys == Target(b.cfg, Printed(last))
  {
    var c, e := After(b, Init(es)), Last(es);
    AlwaysInv(b, Init(es));
    DeliversInit(es, out);
    SteadyInit(b.cfg, es);
    OutageInit(out, last);
    RunKeepsAllOrNone(b, Init(es), last, Init(out));
    StillWithin(b, c, e, last, AnyDisconnected(Init(out)));
    SameTargetWanted(b.cfg, Configure(c, e.cfg).cfg, Printed(last));
    ConvergesIff(c, e);
  }
}
