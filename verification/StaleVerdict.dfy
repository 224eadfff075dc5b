/**
 A run in which the verdict of a cancelled checker makes a SubConn eligible
 that never became Ready: the checker's callback was waiting for the
 balancer's mutex while its entry was removed and the key added again.
 */
module StaleVerdict {
  import opened Basics
  import opened Wrappers
  import opened Ordering
  import opened Endpoints
  import opened AddressText
  import opened Cap
  import opened Reconcile
  import opened PoolState
  import opened PoolBatch
  import opened BalancerState
  import opened BalancerRuns
  import opened BalancerHealth

  const CFG := Config("ns", "svc", "round_robin", 0, true)
  const POD := Key("pod", 1)
  const SLOT := PoolKey.PoolKey("ns", "svc", "pod", 1)

  /** The service of these runs, without a cap. */
  predicate Uncapped(cfg: Config) { cfg.namespace == "ns" && cfg.service == "svc" && cfg.maxSubconns == 0 }

  function Appears(): Event { Resolve(None, [AddrPort("pod", 1)], [POD], [true], []) }

  function Disappears(): Event { Resolve(None, [], [], [], [POD]) }

  function BecomesWatched(): Event { SubConnChange(0, Ready, Started) }

  lemma LegalSnoc(b: Balancer, es: seq<Event>, e: Event)
    requires Legal(b, es) && Enabled(After(b, es), e)
    ensures Legal(b, es + [e]) && After(b, es + [e]) == Step(After(b, es), e)
  {
    assert Init(es + [e]) == es && Last(es + [e]) == e;
  }

  lemma DesiredOne(address: string, port: int)
    requires NoSpace(address) && ValidPort(port)
    ensures Desired([AddrPort(address, port)]) == {Key(address, port)} && Desired([]) == {}
  {
    PrintThenParse(address, port);
  }

  lemma DesiredPod()
    ensures Desired([AddrPort("pod", 1)]) == {POD} && Desired([]) == {}
  {
    assert NoSpace("pod");
    DesiredOne("pod", 1);
  }

  lemma ListsOne()
    ensures Lists([POD], {POD}) && Lists<Key>([], {})
  {
  }

  lemma AppearsEnabled(b: Balancer)
    requires Uncapped(b.cfg) && b.pool.live == map[]
    ensures Enabled(b, Appears())
  {
    DesiredPod();
    ListsOne();
    assert EndpointsOf(b.pool.live) == {};
    var want := Wanted(b.cfg, [AddrPort("pod", 1)]);
    assert want - {} == {POD} && {} - want == {};
  }

  lemma AddsOnlyPod(p: Pool)
    ensures RemoveAll(AddAll(p, "ns", "svc", [POD], [true]), "ns", "svc", []) == Add(p, SLOT, true)
  {
    assert At("ns", "svc", POD) == SLOT;
    assert [POD][..0] == [] && [true][..0] == [];
  }

  /** The step for an endpoint appearing, from a pool without entries. */
  lemma AppearsStep(b: Balancer)
    requires Uncapped(b.cfg) && b.pool.live == map[]
    ensures Enabled(b, Appears())
    ensures var s := Step(b, Appears());
      && s.cfg == b.cfg && s.policy == b.policy
      && s.open == b.open && s.rotating == b.rotating && |s.installed| == |b.installed| + 1
      && s.pool == b.pool.(live := map[SLOT := Rec(|b.pool.flight|, Unknown, Idle, None)],
                           connects := s.pool.connects,
                           keys := b.pool.keys + [SLOT], dialled := s.pool.dialled,
                           flight := b.pool.flight + [0])
  {
    AppearsEnabled(b);
    AddsOnlyPod(b.pool);
  }

  lemma OnlyPod(live: map<PoolKey, Rec>)
    requires live.Keys == {SLOT}
    ensures EndpointsOf(live) == {POD}
  {
    assert Ep(SLOT) == POD;
  }

  lemma DisappearsEnabled(b: Balancer)
    requires Uncapped(b.cfg) && b.pool.live.Keys == {SLOT}
    ensures Enabled(b, Disappears())
  {
    OnlyPod(b.pool.live);
    DesiredPod();
    ListsOne();
    assert Wanted(b.cfg, []) == {};
    assert {} - {POD} == {} && {POD} - {} == {POD};
  }

  lemma RemovesOnlyPod(p: Pool)
    requires p.live.Keys == {SLOT}
    ensures RemoveAll(AddAll(p, "ns", "svc", [], []), "ns", "svc", [POD]) == Remove(p, SLOT)
    ensures Remove(p, SLOT).live == map[]
  {
    assert At("ns", "svc", POD) == SLOT;
    assert [POD][..0] == [];
    assert Remove(p, SLOT).live.Keys == {};
  }

  /** The step for the only endpoint disappearing. */
  lemma DisappearsStep(b: Balancer)
    requires Uncapped(b.cfg) && b.pool.live.Keys == {SLOT}
    ensures Enabled(b, Disappears())
    ensures var s := Step(b, Disappears());
      && s.cfg == b.cfg && s.open == b.open && s.rotating == b.rotating
      && s.pool == Remove(b.pool, SLOT) && s.pool.live == map[]
  {
    DisappearsEnabled(b);
    RemovesOnlyPod(b.pool);
  }

  /** Becoming Ready starts checker 0, on the pool alone. */
  lemma ReadyPool(p: Pool)
    requires p.live == map[SLOT := Rec(0, Unknown, Idle, None)]
    requires p.keys == [SLOT] && p.owners == []
    ensures var q := Connectivity(CFG, p, 0, Ready, Started);
      && q.live == map[SLOT := Rec(0, Unknown, Ready, Some(0))]
      && q.keys == [SLOT] && q.flight == p.flight && q.owners == [Owner(SLOT, 0)]
  {
    var q := SetConn(p, SLOT, Ready);
    assert q.live == map[SLOT := Rec(0, Unknown, Ready, None)];
    assert Connectivity(CFG, p, 0, Ready, Started) == StartChecker(q, SLOT, Started);
  }

  lemma ReadyStep(b: Balancer)
    requires b.cfg == CFG && b.pool.live == map[SLOT := Rec(0, Unknown, Idle, None)]
    requires b.pool.keys == [SLOT] && b.pool.owners == []
    ensures Enabled(b, BecomesWatched())
    ensures var s := Step(b, BecomesWatched());
      && s.cfg == CFG && s.pool.live == map[SLOT := Rec(0, Unknown, Ready, Some(0))]
      && s.pool.keys == [SLOT] && s.pool.flight == b.pool.flight && s.pool.owners == [Owner(SLOT, 0)]
  {
    assert IsLive(b.pool, 0);
    ReadyPool(b.pool);
  }

  lemma DisappearsWatched(b: Balancer)
    requires b.cfg == CFG && b.pool.live == map[SLOT := Rec(0, Unknown, Ready, Some(0))]
    ensures Enabled(b, Disappears())
    ensures var s := Step(b, Disappears());
      && s.cfg == CFG && s.pool.live == map[] && s.pool.keys == b.pool.keys && s.pool.flight == b.pool.flight
      && s.pool.owners == b.pool.owners && 0 in s.pool.cancelled
  {
    DisappearsStep(b);
    assert CancelOf(b.pool.live[SLOT]) == {0};
  }

  lemma VerdictStep(b: Balancer)
    requires b.pool.live == map[SLOT := Rec(1, Unknown, Idle, None)] && b.pool.keys == [SLOT, SLOT]
    requires b.pool.owners == [Owner(SLOT, 0)]
    ensures Enabled(b, Verdict(0, Serving))
    ensures var s := Step(b, Verdict(0, Serving));
      && s.pool.live == map[SLOT := Rec(1, Serving, Idle, None)] && s.pool.keys == [SLOT, SLOT]
      && s.pool.owners == b.pool.owners && s.pool.cancelled == b.pool.cancelled
  {
    var q := SetHealth(b.pool, SLOT, Serving);
    assert q.live == map[SLOT := Rec(1, Serving, Idle, None)];
    assert Step(b, Verdict(0, Serving)).pool == q;
  }

  // The run, one event at a time.

  lemma AfterAppears() returns (es: seq<Event>)
    ensures es == [Appears()] && Legal(Initial(CFG), es)
    ensures var b := After(Initial(CFG), es);
      && b.cfg == CFG && b.pool.live == map[SLOT := Rec(0, Unknown, Idle, None)]
      && b.pool.keys == [SLOT] && b.pool.flight == [0] && b.pool.owners == [] && b.pool.draining == {}
  {
    es := [];
    AppearsStep(Initial(CFG));
    LegalSnoc(Initial(CFG), es, Appears());
    es := es + [Appears()];
  }

  lemma AfterReady() returns (es: seq<Event>)
    ensures es == [Appears(), BecomesWatched()] && Legal(Initial(CFG), es)
    ensures var b := After(Initial(CFG), es);
      && b.cfg == CFG && b.pool.live == map[SLOT := Rec(0, Unknown, Ready, Some(0))]
      && b.pool.keys == [SLOT] && b.pool.flight == [0] && b.pool.owners == [Owner(SLOT, 0)]
  {
    es := AfterAppears();
    ReadyStep(After(Initial(CFG), es));
    LegalSnoc(Initial(CFG), es, BecomesWatched());
    es := es + [BecomesWatched()];
  }

  lemma AfterDisappears() returns (es: seq<Event>)
    ensures es == [Appears(), BecomesWatched(), Disappears()] && Legal(Initial(CFG), es)
    ensures var b := After(Initial(CFG), es);
      && b.cfg == CFG && b.pool.live == map[] && b.pool.keys == [SLOT] && b.pool.flight == [0]
      && b.pool.owners == [Owner(SLOT, 0)] && 0 in b.pool.cancelled
  {
    es := AfterReady();
    DisappearsWatched(After(Initial(CFG), es));
    LegalSnoc(Initial(CFG), es, Disappears());
    es := es + [Disappears()];
  }

  lemma AfterReturn() returns (es: seq<Event>)
    ensures es == [Appears(), BecomesWatched(), Disappears(), Appears()] && Legal(Initial(CFG), es)
    ensures var b := After(Initial(CFG), es);
      && b.pool.live == map[SLOT := Rec(1, Unknown, Idle, None)] && b.pool.keys == [SLOT, SLOT]
      && b.pool.owners == [Owner(SLOT, 0)] && 0 in b.pool.cancelled
  {
    es := AfterDisappears();
    AppearsStep(After(Initial(CFG), es));
    LegalSnoc(Initial(CFG), es, Appears());
    es := es + [Appears()];
  }

  lemma AfterVerdict() returns (es: seq<Event>)
    ensures es == [Appears(), BecomesWatched(), Disappears(), Appears(), Verdict(0, Serving)]
    ensures Legal(Initial(CFG), es)
    ensures var b := After(Initial(CFG), es);
      && b.pool.live == map[SLOT := Rec(1, Serving, Idle, None)] && b.pool.keys == [SLOT, SLOT]
      && b.pool.owners == [Owner(SLOT, 0)] && 0 in b.pool.cancelled
  {
    es := AfterReturn();
    VerdictStep(After(Initial(CFG), es));
    LegalSnoc(Initial(CFG), es, Verdict(0, Serving));
    es := es + [Verdict(0, Serving)];
  }

  /** SubConn 1 is then the one on offer. */
  lemma OneIsOffered(b: Balancer)
    requires BalancerInv(b)
    requires b.pool.live == map[SLOT := Rec(1, Serving, Idle, None)] && b.pool.keys == [SLOT, SLOT]
    ensures b.installed != [] && Holds(Current(b), 1)
  {
    HealthyHolds(b, 1);
  }

  /** Events of other SubConns leave no verdict. */
  lemma {:induction false} NoEventsNoVerdict(es: seq<Event>, sc: nat)
    requires forall i :: 0 <= i < |es| && es[i].SubConnChange? ==> es[i].sc != sc
    ensures LatestVerdict(es, sc) == Unknown
  {
    if es != [] {
      assert forall i :: 0 <= i < |es| - 1 ==> Init(es)[i] == es[i];
      NoEventsNoVerdict(Init(es), sc);
    }
  }

  lemma NoVerdictOfOne() returns (es: seq<Event>)
    ensures es == [Appears(), BecomesWatched(), Disappears(), Appears(), Verdict(0, Serving)]
    ensures LatestVerdict(es, 1) == Unknown
  {
    es := [Appears(), BecomesWatched(), Disappears(), Appears(), Verdict(0, Serving)];
    NoEventsNoVerdict(es, 1);
  }

  /**
   Events of one SubConn's checker can reach another SubConn: after this run
   the installed picker offers SubConn 1, for which no connectivity event
   arrived, on the word of SubConn 0's checker, which was cancelled.
   */
  lemma StaleVerdictReachesAnotherSubConn() returns (es: seq<Event>)
    ensures es == [Appears(), BecomesWatched(), Disappears(), Appears(), Verdict(0, Serving)]
    ensures Legal(Initial(CFG), es) && LatestVerdict(es, 1) == Unknown
    ensures var b := After(Initial(CFG), es);
      && |b.pool.keys| == 2 && |b.pool.owners| == 1
      && b.pool.owners[0].sc == 0 && 0 in b.pool.cancelled
      && b.installed != [] && Holds(Current(b), 1)
  {
    var _ := NoVerdictOfOne();
    es := AfterVerdict();
    InitialInv(CFG);
    AlwaysInv(Initial(CFG), es);
    OneIsOffered(After(Initial(CFG), es));
  }
}
