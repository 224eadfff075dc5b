/**
 The end of a drain while calls picked by round robin are open: such a pick
 gives gRPC no Done callback and leaves the in-flight counter alone, so the
 first poll finds nothing to wait for.
 */
module CutOff {
  import opened Basics
  import opened Wrappers
  import opened Endpoints
  import opened Entries
  import opened Pickers
  import opened PoolState
  import opened BalancerState
  import opened BalancerRuns
  import opened BalancerClass
  import opened StaleVerdict

  // ---------------------------------------------------------------------
  // On the objects
  // ---------------------------------------------------------------------

  /** A poll that finds no call counted closes the SubConn, whatever round robin has picked it for. */
  lemma PollShuts(b: Balancer, sc: nat)
    requires sc in b.pool.draining && sc < |b.pool.flight| && b.pool.flight[sc] <= 0 && RotatingOf(b, sc) > 0
    ensures Enabled(b, DrainEvent(sc, false))
    ensures var s := Step(b, DrainEvent(sc, false)); sc in s.pool.shut && CallsOpen(s, sc) > 0
  {
  }

  /** A round-robin pick of a draining entry. */
  method PickDraining(b: K8sBalancer, p: RRPicker, e: SubConnEntry, ghost generation: nat)
    returns (r: Option<SubConnEntry>)
    requires b.Valid() && generation < |b.installed| && b.installed[generation] == Shows(RR(p)) && p.healthy == [e]
    requires e in b.pool.created && e.subConn in b.pool.draining && e.inFlight == 0
    modifies b`rotating, p
    ensures b.Valid() && r == Some(e)
    ensures var v := b.View();
      && e.subConn in v.pool.draining && e.subConn < |v.pool.flight| && v.pool.flight[e.subConn] <= 0
      && RotatingOf(v, e.subConn) > 0
  {
    r := b.PickRoundRobin(p, null, generation);
  }

  /** A picker not yet replaced picks a draining entry, and the next poll shuts that entry down. */
  method PickThenPoll(b: K8sBalancer, p: RRPicker, e: SubConnEntry, ghost generation: nat)
    returns (r: Option<SubConnEntry>, closed: bool)
    requires b.Valid() && generation < |b.installed| && b.installed[generation] == Shows(RR(p)) && p.healthy == [e]
    requires e in b.pool.created && e.subConn in b.pool.draining && e.inFlight == 0
    modifies b`rotating, p, b.pool`draining, b.cc`shut
    ensures b.Valid() && r == Some(e) && closed
    ensures e.subConn in b.View().pool.shut && CallsOpen(b.View(), e.subConn) > 0
  {
    hide *;
    r := PickDraining(b, p, e, generation);
    PollShuts(b.View(), e.subConn);
    closed := b.DrainTurn(e, false);
  }

  // ---------------------------------------------------------------------
  // As a run
  // ---------------------------------------------------------------------

  /** A configuration without checks that leaves the policy in force. */
  const PLAIN := Config("ns", "svc", "", 0, false)

  /** The pod appears, with that configuration. */
  function Arrives(): Event { Resolve(Some(PLAIN), [AddrPort("pod", 1)], [POD], [true], []) }

  predicate NoCalls(b: Balancer) { b.open == map[] && b.rotating == map[] }

  function BecomesReady(): Event { SubConnChange(0, Ready, DialFails) }

  lemma ArrivesStep(b: Balancer)
    requires b.pool.live == map[]
    ensures Enabled(b, Arrives())
    ensures var s := Step(b, Arrives());
      && s.cfg == PLAIN && s.policy == b.policy
      && s.open == b.open && s.rotating == b.rotating && |s.installed| == |b.installed| + 1
      && s.pool == b.pool.(live := map[SLOT := Rec(|b.pool.flight|, Unknown, Idle, None)],
                           connects := s.pool.connects,
                           keys := b.pool.keys + [SLOT], dialled := s.pool.dialled,
                           flight := b.pool.flight + [0])
  {
    var c := Configure(b, Some(PLAIN));
    AppearsStep(c);
    assert Step(b, Arrives()) == Step(c, Appears());
  }

  // The run, one event at a time.

  lemma AfterArrives(cfg: Config) returns (es: seq<Event>)
    requires cfg.policy != "least_request"
    ensures es == [Arrives()] && Legal(Initial(cfg), es)
    ensures var b := After(Initial(cfg), es);
      && b.cfg == PLAIN && b.policy != "least_request" && |b.installed| == 2 && NoCalls(b)
      && b.pool.live == map[SLOT := Rec(0, Unknown, Idle, None)]
      && b.pool.keys == [SLOT] && b.pool.flight == [0] && b.pool.draining == {} && b.pool.shut == []
  {
    es := [];
    ArrivesStep(Initial(cfg));
    LegalSnoc(Initial(cfg), es, Arrives());
    es := es + [Arrives()];
  }

  /** Without checks, becoming Ready is enough to be Serving. */
  lemma ReadyServes(b: Balancer)
    requires b.cfg == PLAIN && b.pool.live == map[SLOT := Rec(0, Unknown, Idle, None)] && b.pool.keys == [SLOT]
    ensures Enabled(b, BecomesReady())
    ensures var s := Step(b, BecomesReady());
      && s.cfg == b.cfg && s.policy == b.policy && s.open == b.open && s.rotating == b.rotating
      && |s.installed| == |b.installed| + 1
      && s.pool == b.pool.(live := map[SLOT := Rec(0, Serving, Ready, None)])
  {
    var q := SetConn(b.pool, SLOT, Ready);
    assert q.live == map[SLOT := Rec(0, Unknown, Ready, None)];
    assert SetHealth(q, SLOT, Serving).live == map[SLOT := Rec(0, Serving, Ready, None)];
  }

  /** The current picker rotates over that entry. */
  lemma RotatesOver(b: Balancer)
    requires BalancerInv(b) && b.policy != "least_request"
    requires b.pool.live == map[SLOT := Rec(0, Serving, Ready, None)] && b.pool.keys == [SLOT]
    ensures b.installed != [] && Current(b).kind == RoundRobin && Holds(Current(b), 0)
  {
    HealthyHolds(b, 0);
  }

  /** The third picker is one that rotates over SubConn 0, which nothing has used yet. */
  ghost predicate OnOffer(b: Balancer) {
    && b.cfg == PLAIN && |b.installed| == 3 && NoCalls(b)
    && b.installed[2].kind == RoundRobin && Holds(b.installed[2], 0)
    && b.pool.live.Keys == {SLOT} && b.pool.live[SLOT].sc == 0
    && b.pool.keys == [SLOT] && b.pool.flight == [0] && b.pool.draining == {} && b.pool.shut == []
  }

  lemma ReadyIsOnOffer(b: Balancer)
    requires BalancerInv(b) && b.cfg == PLAIN && b.policy != "least_request" && |b.installed| == 2 && NoCalls(b)
    requires b.pool.live == map[SLOT := Rec(0, Unknown, Idle, None)]
    requires b.pool.keys == [SLOT] && b.pool.flight == [0] && b.pool.draining == {} && b.pool.shut == []
    ensures Enabled(b, BecomesReady()) && OnOffer(Step(b, BecomesReady()))
  {
    ReadyServes(b);
    StepInv(b, BecomesReady());
    RotatesOver(Step(b, BecomesReady()));
  }

  lemma AfterReady(cfg: Config) returns (es: seq<Event>)
    requires cfg.policy != "least_request"
    ensures es == [Arrives(), BecomesReady()] && Legal(Initial(cfg), es) && OnOffer(After(Initial(cfg), es))
  {
    es := AfterArrives(cfg);
    InitialInv(cfg);
    AlwaysInv(Initial(cfg), es);
    ReadyIsOnOffer(After(Initial(cfg), es));
    LegalSnoc(Initial(cfg), es, BecomesReady());
    es := es + [BecomesReady()];
  }

  lemma AfterPick(cfg: Config) returns (es: seq<Event>)
    requires cfg.policy != "least_request"
    ensures es == [Arrives(), BecomesReady(), RRPick(2, 0)] && Legal(Initial(cfg), es)
    ensures var b := After(Initial(cfg), es);
      && b.cfg == PLAIN && OpenOf(b, 0) == 0 && RotatingOf(b, 0) == 1
      && b.pool.live.Keys == {SLOT} && b.pool.live[SLOT].sc == 0
      && b.pool.flight == [0] && b.pool.draining == {} && b.pool.shut == []
  {
    es := AfterReady(cfg);
    LegalSnoc(Initial(cfg), es, RRPick(2, 0));
    es := es + [RRPick(2, 0)];
  }

  /** SubConn 0 is draining with one round-robin call open on it. */
  predicate OneRotating(b: Balancer) {
    OpenOf(b, 0) == 0 && RotatingOf(b, 0) == 1 && b.pool.flight == [0] && b.pool.draining == {0}
  }

  lemma AfterDisappears(cfg: Config) returns (es: seq<Event>)
    requires cfg.policy != "least_request"
    ensures es == [Arrives(), BecomesReady(), RRPick(2, 0), Disappears()] && Legal(Initial(cfg), es)
    ensures var b := After(Initial(cfg), es); OneRotating(b) && b.pool.shut == []
  {
    es := AfterPick(cfg);
    DisappearsStep(After(Initial(cfg), es));
    LegalSnoc(Initial(cfg), es, Disappears());
    es := es + [Disappears()];
  }

  /** A poll does not see that call. */
  lemma PollCloses(b: Balancer)
    requires OneRotating(b) && b.pool.shut == []
    ensures Enabled(b, DrainTick(0)) && !PollWaits(b, 0)
    ensures var s := Step(b, DrainTick(0)); s.pool.shut == [0] && CallsOpen(s, 0) == 1
  {
  }

  /**
   Under any policy but least request a poll, before any deadline, can shut a
   SubConn down with a call open on it: the poll after this run does not wait.
   */
  lemma RoundRobinCallIsCutOff(cfg: Config) returns (es: seq<Event>)
    requires cfg.policy != "least_request"
    ensures es == [Arrives(), BecomesReady(), RRPick(2, 0), Disappears()]
    ensures Legal(Initial(cfg), es) && Legal(Initial(cfg), es + [DrainTick(0)])
    ensures var b := After(Initial(cfg), es); 0 in b.pool.draining && !PollWaits(b, 0)
    ensures var b := After(Initial(cfg), es + [DrainTick(0)]); b.pool.shut == [0] && CallsOpen(b, 0) == 1
  {
    es := AfterDisappears(cfg);
    PollCloses(After(Initial(cfg), es));
    LegalSnoc(Initial(cfg), es, DrainTick(0));
  }

  /** In every run that configures no other policy but least request, every poll waits for the open calls. */
  ghost predicate EveryPollWaits(cfg: Config) {
    forall es, sc :: Legal(Initial(cfg), es) && LeastRequestOnly(es) && sc in After(Initial(cfg), es).pool.draining ==>
      PollWaits(After(Initial(cfg), es), sc)
  }

  /** Drains wait for the open calls, deadlines apart, exactly under a balancer built for least request. */
  lemma {:induction false} EveryPollWaitsIff(cfg: Config)
    ensures EveryPollWaits(cfg) <==> cfg.policy == "least_request"
  {
    if cfg.policy == "least_request" {
      forall es, sc | Legal(Initial(cfg), es) && LeastRequestOnly(es) && sc in After(Initial(cfg), es).pool.draining
        ensures PollWaits(After(Initial(cfg), es), sc)
      {
        LeastRequestPollsWait(cfg, es, sc);
      }
    } else {
      var es := RoundRobinCallIsCutOff(cfg);
      assert LeastRequestOnly(es);
    }
  }
}
