/** Runs written out event by event: where a property of the balancer has its limits. */
module Scenarios {
  import opened Basics
  import opened Wrappers
  import opened Endpoints
  import opened Cap
  import opened Reconcile
  import opened PoolState
  import opened PoolBatch
  import opened BalancerState
  import opened BalancerRuns
  import opened Convergence
  import opened StaleVerdict
  import opened Outage
  import G = GraceState
  import R = GraceRuns

  const WINDOW := 30
  const ONE_POD := [Endpoint("pod", 1, true)]

  /** The resolver connects, and loses the connection ten seconds later. */
  function Connects(): seq<G.Event> { [G.Snap(G.Snapshot(ONE_POD, G.Connected, None), 0)] }

  function Loses(): seq<G.Event> { [G.Snap(G.Snapshot([], G.Disconnected, None), 10)] }

  lemma LosesPassesOn()
    ensures R.Legal(WINDOW, G.Initial(0), Connects() + Loses())
    ensures Last(R.After(WINDOW, G.Initial(0), Connects() + Loses()).emitted) == G.Snapshot([], G.Disconnected, None)
  {
    assert Init(Connects() + Loses()) == Connects() && Init(Connects()) == [];
  }

  lemma PodAppears()
    ensures Legal(Initial(CFG), [Appears()])
    ensures var b := After(Initial(CFG), [Appears()]);
      && b.cfg == CFG && b.pool.live == map[SLOT := Rec(0, Unknown, Idle, None)] && b.pool.draining == {}
  {
    var _ := AfterAppears();
  }

  lemma PodDisappears()
    ensures Legal(Initial(CFG), [Appears(), Disappears()])
    ensures var p := After(Initial(CFG), [Appears(), Disappears()]).pool; p.live == map[] && p.draining == {0}
  {
    PodAppears();
    DisappearsStep(After(Initial(CFG), [Appears()]));
    LegalSnoc(Initial(CFG), [Appears()], Disappears());
    assert [Appears()] + [Disappears()] == [Appears(), Disappears()];
  }

  /**
   A pool of one endpoint does not survive the first Disconnected snapshot of
   an outage: the resolver passes it on with no endpoints, before the window
   has begun to pass.
   */
  lemma {:induction false} OutageDrainsThePool()
    ensures R.Legal(WINDOW, G.Initial(0), Connects() + Loses())
    ensures Legal(Initial(CFG), [Appears(), Disappears()])
    ensures Appears().addrs == Printed(ONE_POD)
    ensures Disappears().addrs == Printed(Last(R.After(WINDOW, G.Initial(0), Connects() + Loses()).emitted).endpoints)
    ensures After(Initial(CFG), [Appears()]).pool.live.Keys == {SLOT}
    ensures var p := After(Initial(CFG), [Appears(), Disappears()]).pool; p.live == map[] && p.draining == {0}
  {
    LosesPassesOn();
    PodAppears();
    PodDisappears();
    assert ONE_POD[1..] == [];
  }

  lemma OnTarget(b: Balancer)
    requires b.cfg == CFG && b.pool.live.Keys == {SLOT}
    ensures b.pool.live.Keys == Target(CFG, Printed(ONE_POD))
  {
    DesiredPod();
    assert ONE_POD[1..] == [];
    assert Printed(ONE_POD) == [AddrPort("pod", 1)];
    assert Wanted(CFG, Printed(ONE_POD)) == {POD};
    assert At("ns", "svc", POD) == SLOT;
  }

  lemma LosesAlone()
    ensures R.Legal(WINDOW, G.Initial(0), Connects())
    ensures var g := R.After(WINDOW, G.Initial(0), Connects());
      && BeforeOutage(g) && g.lastEndpoints == ONE_POD
      && R.Legal(WINDOW, g, Loses()) && OnlyFailures(Loses()) && HasSnapshot(Loses())
      && R.After(WINDOW, g, Loses()).emitted == g.emitted + [G.Snapshot([], G.Disconnected, None)]
  {
    assert Init(Connects()) == [] && Init(Loses()) == [];
    assert Loses()[0].Snap?;
  }

  lemma DisappearsAlone(b: Balancer)
    requires b.cfg == CFG && b.pool.live.Keys == {SLOT}
    ensures Legal(b, [Disappears()]) && SteadyTarget(CFG, [Disappears()])
    ensures Delivers([Disappears()], [G.Snapshot([], G.Disconnected, None)])
  {
    DisappearsStep(b);
    assert Init([Disappears()]) == [] && UpdatesIn([Disappears()]) == [Disappears()];
  }

  /** The same outcome, as the case of OutageKeepsPoolIff that these runs are. */
  lemma {:induction false} OutageLosesTheEntry(b: Balancer)
    requires BalancerInv(b) && b.cfg == CFG && b.pool.live.Keys == {SLOT}
    ensures Legal(b, [Disappears()]) && !Stays(b.pool, After(b, [Disappears()]).pool, SLOT)
  {
    LosesAlone();
    OnTarget(b);
    DisappearsAlone(b);
    var g := R.After(WINDOW, G.Initial(0), Connects());
    OutageKeepsPoolIff(WINDOW, g, Loses(), [G.Snapshot([], G.Disconnected, None)], b, [Disappears()]);
  }

  // The same outage, up to the end of the window.

  function Waits(): G.Event { G.Fire(G.Timer(0, 40, 10), 40) }

  lemma LosesAndWaits() returns (g: G.Grace, gs: seq<G.Event>, out: seq<G.Snapshot>)
    ensures g == R.After(WINDOW, G.Initial(0), Connects()) && gs == Loses() + [Waits()] && OnlyFailures(gs)
    ensures BeforeOutage(g) && g.lastEndpoints == ONE_POD && R.Legal(WINDOW, g, gs)
    ensures R.After(WINDOW, g, gs).emitted == g.emitted + out
    ensures out == [G.Snapshot([], G.Disconnected, None), G.Snapshot(ONE_POD, G.InGraceWindow, None)]
    ensures Last(out).mode == G.InGraceWindow && WINDOW > 0
  {
    LosesAlone();
    g, gs := R.After(WINDOW, G.Initial(0), Connects()), Loses() + [Waits()];
    out := [G.Snapshot([], G.Disconnected, None), G.Snapshot(ONE_POD, G.InGraceWindow, None)];
    assert Init(gs) == Loses() && Last(gs) == Waits() && Init(Loses()) == [];
  }

  lemma DisappearsAndReturns(b: Balancer) returns (es: seq<Event>)
    requires BalancerInv(b) && b.cfg == CFG && b.pool.live.Keys == {SLOT}
    ensures es == [Disappears(), Appears()] && Legal(b, es) && SteadyTarget(CFG, es)
    ensures Last(es).Resolve? && AllCreated(Last(es).oks)
  {
    DisappearsAlone(b);
    DisappearsStep(b);
    es := [Disappears()];
    assert After(b, es) == Step(b, Disappears()) by { assert Init(es) == []; }
    AppearsStep(After(b, es));
    LegalSnoc(b, es, Appears());
    es := es + [Appears()];
  }

  lemma UpdatesSnoc(es: seq<Event>, e: Event)
    ensures UpdatesIn([]) == []
    ensures UpdatesIn(es + [e]) == UpdatesIn(es) + (if e.Resolve? then [e] else [])
  {
    assert Init(es + [e]) == es && Last(es + [e]) == e;
  }

  lemma DeliveredBoth(es: seq<Event>, out: seq<G.Snapshot>)
    requires es == [Disappears(), Appears()]
    requires out == [G.Snapshot([], G.Disconnected, None), G.Snapshot(ONE_POD, G.InGraceWindow, None)]
    ensures Delivers(es, out)
  {
    assert ONE_POD[1..] == [];
    UpdatesSnoc([], Disappears());
    UpdatesSnoc([Disappears()], Appears());
    assert [] + [Disappears()] == [Disappears()] && [Disappears()] + [Appears()] == es;
    hide UpdatesIn;
  }

  /** When the window has passed the entry is back, on a new SubConn: the case of RecoversOnNewSubConns. */
  lemma OutageReplacesTheSubConn(b: Balancer) returns (es: seq<Event>)
    requires BalancerInv(b) && b.cfg == CFG && b.pool.live.Keys == {SLOT}
    ensures es == [Disappears(), Appears()] && Legal(b, es)
    ensures var s := After(b, es).pool; s.live.Keys == {SLOT} && s.live[SLOT].sc >= |b.pool.keys|
  {
    hide *;
    var g, gs, out := LosesAndWaits();
    es := DisappearsAndReturns(b);
    OnTarget(b);
    DeliveredBoth(es, out);
    assert SLOT in b.pool.live.Keys;
    RecoversOnNewSubConns(WINDOW, g, gs, out, b, es);
  }

  const OTHER := Config("ns", "other", "", 0, true)

  /** An update under another service that wants nothing. */
  function Renames(): Event { Resolve(Some(OTHER), [], [], [], [POD]) }

  /** An entry added under one service is still there after an update under another that does not want it. */
  lemma {:induction false} ForeignEntryRemains()
    ensures Legal(Initial(CFG), [Appears(), Renames()])
    ensures var b, s := After(Initial(CFG), [Appears()]), After(Initial(CFG), [Appears(), Renames()]);
      && SLOT in b.pool.live && Wanted(s.cfg, Renames().addrs) == {}
      && SLOT in s.pool.live && s.pool.live[SLOT] == b.pool.live[SLOT]
  {
    PodAppears();
    assert [Appears()] + [Renames()] == [Appears(), Renames()];
    var b := After(Initial(CFG), [Appears()]);
    RenamesEnabled(b);
    LegalSnoc(Initial(CFG), [Appears()], Renames());
    InitialInv(CFG);
    AlwaysInv(Initial(CFG), [Appears()]);
    RemovedIff(b, Renames(), SLOT);
  }

  lemma RenamesEnabled(b: Balancer)
    requires b.pool.live.Keys == {SLOT}
    ensures Enabled(b, Renames()) && Wanted(OTHER, []) == {} && Configure(b, Some(OTHER)).cfg == OTHER
  {
    ListsOne();
    assert Ep(SLOT) == POD;
    assert EndpointsOf(b.pool.live) == {POD};
    assert Desired([]) == {};
    assert {} - {POD} == {} && {POD} - {} == {POD};
  }
}
