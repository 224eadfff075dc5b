/** What holds over every run of the balancer, from its construction on. */
module BalancerRuns {
  import opened Basics
  import opened Wrappers
  import opened Ordering
  import opened Sorting
  import Endpoints
  import opened PoolState
  import opened PoolBatch
  import opened BalancerState

  // ---------------------------------------------------------------------
  // Runs
  // ---------------------------------------------------------------------

  /** Each event is one the environment may cause in the state the earlier ones lead to. */
  ghost predicate Legal(b: Balancer, es: seq<Event>)
    decreases |es|, 0
  {
    es == [] || (Legal(b, Init(es)) && Enabled(After(b, Init(es)), Last(es)))
  }

  ghost function After(b: Balancer, es: seq<Event>): Balancer
    requires Legal(b, es)
    decreases |es|, 1
  {
    if es == [] then b else Step(After(b, Init(es)), Last(es))
  }

  lemma {:induction false} AlwaysInv(b: Balancer, es: seq<Event>)
    requires BalancerInv(b) && Legal(b, es)
    ensures BalancerInv(After(b, es))
  {
    if es != [] {
      AlwaysInv(b, Init(es));
      StepInv(After(b, Init(es)), Last(es));
    }
  }

  // ---------------------------------------------------------------------
  // The installed picker
  // ---------------------------------------------------------------------

  lemma HealthyHolds(b: Balancer, sc: nat)
    requires BalancerInv(b) && sc < |b.pool.keys|
    ensures Holds(Current(b), sc)
       <==> IsLive(b.pool, sc) && b.pool.live[b.pool.keys[sc]].health == Serving
  {
    var key := b.pool.keys[sc];
    var slots := Current(b).slots;
    if IsLive(b.pool, sc) && b.pool.live[key].health == Serving {
      assert Slot(key, sc) in ServingSlots(b.pool.live);
      assert Slot(key, sc) in Elements(slots);
    }
    if Holds(Current(b), sc) {
      var s :| s in slots && s.sc == sc;
      assert s in Elements(slots);
      assert s in ServingSlots(b.pool.live);
    }
  }

  lemma {:induction false} HealthySorted(b: Balancer)
    requires BalancerInv(b)
    ensures StrictlySorted(Current(b).slots, SlotText)
  {
    var S := ServingSlots(b.pool.live);
    forall s, t | s in S && t in S && SlotText(s) == SlotText(t) ensures s == t {
      Endpoints.AddrPortInjective(s.key.address, s.key.port, t.key.address, t.key.port);
      assert Ep(s.key) == Ep(t.key);
    }
    SortedIsStrict(Current(b).slots, SlotText);
  }

  /**
   In every run, at every step: the installed picker holds exactly the entries
   in the map that are Serving, in strict "address:port" order, none of them
   draining or shut down; and once a state was reported to gRPC it is Ready
   exactly when that list is not empty.
   */
  lemma {:induction false} PickerAgreesInEveryRun(cfg: Config, es: seq<Event>)
    requires Legal(Initial(cfg), es)
    ensures var b := After(Initial(cfg), es);
      && b.installed != []
      && StrictlySorted(Current(b).slots, SlotText)
      && (forall sc :: 0 <= sc < |b.pool.keys| ==>
            (Holds(Current(b), sc) <==> IsLive(b.pool, sc) && b.pool.live[b.pool.keys[sc]].health == Serving))
      && (forall sc: nat :: Holds(Current(b), sc) ==> sc !in b.pool.draining && sc !in b.pool.shut)
      && (b.reported.Some? ==> (b.reported == Some(Ready) <==> Current(b).slots != []))
  {
    InitialInv(cfg);
    AlwaysInv(Initial(cfg), es);
    var b := After(Initial(cfg), es);
    HealthySorted(b);
    forall sc | 0 <= sc < |b.pool.keys|
      ensures Holds(Current(b), sc) <==> IsLive(b.pool, sc) && b.pool.live[b.pool.keys[sc]].health == Serving
    {
      HealthyHolds(b, sc);
    }
    forall sc: nat | Holds(Current(b), sc) ensures sc !in b.pool.draining && sc !in b.pool.shut {
      var s :| s in Current(b).slots && s.sc == sc;
      assert InMapOnly(b.pool, b.pool.keys[sc]);
    }
  }

  // ---------------------------------------------------------------------
  // SubConn conservation
  // ---------------------------------------------------------------------

  /** The keys under which a SubConn is in the map. */
  ghost function HomesOf(p: Pool, sc: nat): set<PoolKey> {
    set k | k in p.live && p.live[k].sc == sc
  }

  /**
   In every run each SubConn created is, counted with multiplicity, in exactly
   one place: under one key in the map, draining, or shut down once.
   */
  lemma {:induction false} OnePlaceInEveryRun(cfg: Config, es: seq<Event>, sc: nat)
    requires Legal(Initial(cfg), es)
    requires sc < |After(Initial(cfg), es).pool.keys|
    ensures var p := After(Initial(cfg), es).pool;
      |HomesOf(p, sc)| + (if sc in p.draining then 1 else 0) + multiset(p.shut)[sc] == 1
  {
    InitialInv(cfg);
    AlwaysInv(Initial(cfg), es);
    var p := After(Initial(cfg), es).pool;
    NoDuplicatesCount(p.shut);
    assert sc in p.shut <==> multiset(p.shut)[sc] > 0;
    assert forall k :: k in p.live ==> InMapOnly(p, k);
    if IsLive(p, sc) {
      assert HomesOf(p, sc) == {p.keys[sc]};
    } else {
      assert HomesOf(p, sc) == {};
    }
  }

  /**
   How a step moves SubConns: nothing is forgotten, an entry of the map either
   keeps its SubConn or gets a new one, and shutting down only adds to `shut`.
   */
  ghost predicate Moves(p: Pool, q: Pool) {
    && p.keys <= q.keys
    && p.shut <= q.shut
    && (forall k :: k in q.live ==>
          q.live[k].sc >= |p.keys| || (k in p.live && p.live[k].sc == q.live[k].sc))
  }

  lemma ReconciledMoves(b: Balancer, adds: seq<Endpoints.Key>, oks: seq<bool>, removes: seq<Endpoints.Key>)
    requires Inv(b.pool) && |adds| == |oks| && NoDuplicates(adds)
    requires Elements(adds) !! EndpointsOf(b.pool.live)
    ensures var q := Reconciled(b, adds, oks, removes).pool;
      Moves(b.pool, q) && q.shut == b.pool.shut
  {
    var ns, svc := b.cfg.namespace, b.cfg.service;
    AddsAbsent(b.pool, ns, svc, adds);
    AddAllExtends(b.pool, ns, svc, adds, oks);
    RemoveAllEffect(AddAll(b.pool, ns, svc, adds, oks), ns, svc, removes);
  }

  lemma ConnectivityMoves(cfg: Config, p: Pool, sc: nat, conn: Conn, start: Start)
    requires sc < |p.keys| && IsLive(p, sc)
    ensures var q := Connectivity(cfg, p, sc, conn, start);
      Moves(p, q) && q.shut == p.shut
  {
  }

  lemma ResolveMoves(b: Balancer, e: Event)
    requires BalancerInv(b) && e.Resolve? && Enabled(b, e)
    ensures Moves(b.pool, Step(b, e).pool) && Step(b, e).pool.shut == b.pool.shut
  {
    var c := Configure(b, e.cfg);
    assert Elements(e.adds) !! EndpointsOf(c.pool.live);
    ReconciledMoves(c, e.adds, e.oks, e.removes);
  }

  lemma ChangeMoves(b: Balancer, e: Event)
    requires e.SubConnChange? && Enabled(b, e)
    ensures Moves(b.pool, Step(b, e).pool) && Step(b, e).pool.shut == b.pool.shut
  {
    if IsLive(b.pool, e.sc) { ConnectivityMoves(b.cfg, b.pool, e.sc, e.conn, e.start); }
  }

  lemma VerdictMoves(b: Balancer, e: Event)
    requires e.Verdict? && Enabled(b, e)
    ensures Moves(b.pool, Step(b, e).pool) && Step(b, e).pool.shut == b.pool.shut
  {
  }

  lemma FlightMoves(b: Balancer, e: Event)
    requires (e.Pick? || e.Done? || e.RRPick? || e.RREnd?) && Enabled(b, e)
    ensures Moves(b.pool, Step(b, e).pool) && Step(b, e).pool.shut == b.pool.shut
  {
  }

  lemma DrainMoves(b: Balancer, e: Event)
    requires (e.DrainTick? || e.DrainDeadline?) && Enabled(b, e)
    ensures Moves(b.pool, Step(b, e).pool) && e.sc in b.pool.draining
    ensures Step(b, e).pool.shut == b.pool.shut || Step(b, e).pool.shut == b.pool.shut + [e.sc]
  {
  }

  /** Shutting down happens in no step but the end of a drain. */
  predicate ShutsOnlyDrained(b: Balancer, e: Event, q: Pool) {
    || q.shut == b.pool.shut
    || ((e.DrainTick? || e.DrainDeadline?) && e.sc in b.pool.draining && q.shut == b.pool.shut + [e.sc])
  }

  lemma {:induction false} StepMoves(b: Balancer, e: Event)
    requires BalancerInv(b) && Enabled(b, e)
    ensures Moves(b.pool, Step(b, e).pool) && ShutsOnlyDrained(b, e, Step(b, e).pool)
  {
    match e {
      case Resolve(_, _, _, _, _) => ResolveMoves(b, e);
      case SubConnChange(_, _, _) => ChangeMoves(b, e);
      case Verdict(_, _) => VerdictMoves(b, e);
      case Pick(_, _) => FlightMoves(b, e);
      case Done(_) => FlightMoves(b, e);
      case RRPick(_, _) => FlightMoves(b, e);
      case RREnd(_) => FlightMoves(b, e);
      case DrainTick(_) => DrainMoves(b, e);
      case DrainDeadline(_) => DrainMoves(b, e);
    }
  }

  lemma ShutAlone(p: Pool, sc: nat)
    requires Inv(p) && sc in p.shut
    ensures sc < |p.keys| && sc !in p.draining && !IsLive(p, sc) && multiset(p.shut)[sc] == 1
  {
    NoDuplicatesCount(p.shut);
    assert multiset(p.shut)[sc] > 0;
    assert forall k :: k in p.live ==> InMapOnly(p, k);
  }

  /** A SubConn shut down at some point of a run is never in the map or shut down again. */
  lemma {:induction false} ShutDownIsFinal(b: Balancer, es: seq<Event>, sc: nat)
    requires BalancerInv(b) && Legal(b, es) && sc in b.pool.shut
    ensures var p := After(b, es).pool;
      sc in p.shut && multiset(p.shut)[sc] == 1 && sc !in p.draining && sc < |p.keys| && !IsLive(p, sc)
  {
    AlwaysInv(b, es);
    if es != [] {
      ShutDownIsFinal(b, Init(es), sc);
      AlwaysInv(b, Init(es));
      StepMoves(After(b, Init(es)), Last(es));
    }
    ShutAlone(After(b, es).pool, sc);
  }

  // ---------------------------------------------------------------------
  // In-flight calls and draining
  // ---------------------------------------------------------------------

  /** In every run an in-flight counter equals the picks of its SubConn not yet done. */
  lemma {:induction false} InFlightInEveryRun(cfg: Config, es: seq<Event>, sc: nat)
    requires Legal(Initial(cfg), es)
    requires sc < |After(Initial(cfg), es).pool.flight|
    ensures After(Initial(cfg), es).pool.flight[sc] == PicksOf(es, sc) - DonesOf(es, sc) >= 0
  {
    InitialInv(cfg);
    AlwaysInv(Initial(cfg), es);
    OpenCounts(Initial(cfg), es, sc);
  }

  function PicksOf(es: seq<Event>, sc: nat): nat {
    if es == [] then 0
    else PicksOf(Init(es), sc) + (if Last(es).Pick? && Last(es).sc == sc then 1 else 0)
  }

  function DonesOf(es: seq<Event>, sc: nat): nat {
    if es == [] then 0
    else DonesOf(Init(es), sc) + (if Last(es).Done? && Last(es).sc == sc then 1 else 0)
  }

  /** What a step does to the open picks of one SubConn. */
  function OpenDelta(e: Event, sc: nat): int {
    match e
    case Pick(_, s) => if s == sc then 1 else 0
    case Done(s) => if s == sc then -1 else 0
    case _ => 0
  }

  lemma StepOpen(b: Balancer, e: Event, sc: nat)
    requires Enabled(b, e)
    ensures OpenOf(Step(b, e), sc) == OpenOf(b, sc) + OpenDelta(e, sc)
  {
    match e {
      case Resolve(_, _, _, _, _) =>
      case SubConnChange(_, _, _) =>
      case Verdict(_, _) =>
      case Pick(_, _) =>
      case Done(_) =>
      case RRPick(_, _) =>
      case RREnd(_) =>
      case DrainTick(_) =>
      case DrainDeadline(_) =>
    }
  }

  lemma {:induction false} OpenCounts(b: Balancer, es: seq<Event>, sc: nat)
    requires Legal(b, es)
    ensures OpenOf(After(b, es), sc) == OpenOf(b, sc) + PicksOf(es, sc) - DonesOf(es, sc)
  {
    if es != [] {
      OpenCounts(b, Init(es), sc);
      StepOpen(After(b, Init(es)), Last(es), sc);
    }
  }

  /** Every least-request pick uses a picker installed at or after number `g`. */
  predicate PicksFrom(es: seq<Event>, g: int) {
    forall i :: 0 <= i < |es| && es[i].Pick? ==> es[i].generation >= g
  }

  /** Pickers number `g` and later do not offer the SubConn. */
  ghost predicate NotOfferedFrom(b: Balancer, g: int, sc: nat) {
    forall i :: 0 <= i < |b.installed| && g <= i ==> !Holds(b.installed[i], sc)
  }

  /** A SubConn that is not in the map never comes back to it. */
  lemma MovesNotLive(p: Pool, q: Pool, sc: nat)
    requires Moves(p, q) && sc < |p.keys| && !IsLive(p, sc)
    ensures sc < |q.keys| && !IsLive(q, sc)
  {
    assert q.keys[sc] == p.keys[sc];
  }

  /** A step installs no picker, or one that agrees with its pool. */
  lemma StepInstalled(b: Balancer, e: Event)
    requires BalancerInv(b) && Enabled(b, e)
    ensures var s := Step(b, e);
      s.installed == b.installed || (s.installed != [] && s.installed == b.installed + [Current(s)])
  {
    match e {
      case Resolve(_, _, _, _, _) =>
      case SubConnChange(_, _, _) =>
      case Verdict(_, _) =>
      case Pick(_, _) =>
      case Done(_) =>
      case RRPick(_, _) =>
      case RREnd(_) =>
      case DrainTick(_) =>
      case DrainDeadline(_) =>
    }
  }

  lemma StepNotOffered(b: Balancer, e: Event, g: int, sc: nat)
    requires BalancerInv(b) && Enabled(b, e)
    requires sc < |b.pool.keys| && !IsLive(b.pool, sc) && NotOfferedFrom(b, g, sc)
    ensures var s := Step(b, e);
      && sc < |s.pool.keys| && !IsLive(s.pool, sc)
      && NotOfferedFrom(s, g, sc) && |s.installed| >= |b.installed|
  {
    var s := Step(b, e);
    StepInv(b, e);
    StepMoves(b, e);
    MovesNotLive(b.pool, s.pool, sc);
    StepInstalled(b, e);
    HealthyHolds(s, sc);
  }

  /** The SubConn has left the map, and no picker from number `g` on offers it. */
  ghost predicate Gone(b: Balancer, g: int, sc: nat) {
    && sc < |b.pool.keys| && !IsLive(b.pool, sc)
    && NotOfferedFrom(b, g, sc) && g < |b.installed|
  }

  lemma GoneStep(b: Balancer, e: Event, g: int, sc: nat)
    requires BalancerInv(b) && Enabled(b, e) && Gone(b, g, sc)
    requires e.Pick? ==> e.generation >= g
    ensures Gone(Step(b, e), g, sc)
    ensures OpenOf(Step(b, e), sc) == OpenOf(b, sc) - (if e.Done? && e.sc == sc then 1 else 0)
  {
    StepNotOffered(b, e, g, sc);
    StepOpen(b, e, sc);
  }

  lemma {:induction false} GoneRun(b: Balancer, es: seq<Event>, g: int, sc: nat)
    requires BalancerInv(b) && Legal(b, es) && Gone(b, g, sc) && PicksFrom(es, g)
    ensures Gone(After(b, es), g, sc)
    ensures OpenOf(After(b, es), sc) == OpenOf(b, sc) - DonesOf(es, sc)
  {
    if es != [] {
      assert PicksFrom(Init(es), g);
      GoneRun(b, Init(es), g, sc);
      AlwaysInv(b, Init(es));
      GoneStep(After(b, Init(es)), Last(es), g, sc);
    }
  }

  lemma FlightIsOpen(b: Balancer, sc: nat)
    requires BalancerInv(b) && sc < |b.pool.keys|
    ensures sc < |b.pool.flight| && b.pool.flight[sc] == OpenOf(b, sc)
  {
  }

  /**
   Once a SubConn left the map, and as long as no pick uses a picker older
   than the one then installed, its in-flight counter only falls, by one for
   each call that completes.
   */
  lemma {:induction false} DrainingOnlyFalls(b: Balancer, es: seq<Event>, sc: nat)
    requires BalancerInv(b) && Legal(b, es)
    requires sc < |b.pool.keys| == |b.pool.flight| && !IsLive(b.pool, sc)
    requires PicksFrom(es, |b.installed| - 1)
    ensures var s := After(b, es);
      sc < |s.pool.flight| && s.pool.flight[sc] == b.pool.flight[sc] - DonesOf(es, sc)
  {
    HealthyHolds(b, sc);
    FlightIsOpen(b, sc);
    GoneRun(b, es, |b.installed| - 1, sc);
    AlwaysInv(b, es);
    FlightIsOpen(After(b, es), sc);
  }

  /**
   The polling path of a drain shuts a SubConn down exactly when none of its
   least-request calls is open; the deadline path is there for as long as the
   drain lasts, and ends it whatever is open.
   */
  lemma {:induction false} DrainEndsIdleOrAtDeadline(cfg: Config, es: seq<Event>, sc: nat)
    requires Legal(Initial(cfg), es) && sc in After(Initial(cfg), es).pool.draining
    ensures var b := After(Initial(cfg), es);
      && Enabled(b, DrainTick(sc)) && Enabled(b, DrainDeadline(sc))
      && (sc in Step(b, DrainTick(sc)).pool.shut <==> OpenOf(b, sc) == 0)
      && (OpenOf(b, sc) > 0 ==> Step(b, DrainTick(sc)) == b)
      && sc in Step(b, DrainDeadline(sc)).pool.shut && sc !in Step(b, DrainDeadline(sc)).pool.draining
  {
    InitialInv(cfg);
    AlwaysInv(Initial(cfg), es);
  }

  // ---------------------------------------------------------------------
  // Draining under the two policies
  // ---------------------------------------------------------------------

  /** The poll closes a SubConn exactly when no call is open on it, under whichever policy it was picked. */
  ghost predicate PollWaits(b: Balancer, sc: nat)
    requires sc in b.pool.draining
  {
    sc in Step(b, DrainTick(sc)).pool.shut <==> CallsOpen(b, sc) == 0
  }

  /**
   In every run the poll of a drain waits for the open calls exactly when no
   round-robin call is open on the SubConn, or a least-request call is too.
   Where the poll closes, no call is open exactly when no round-robin call is.
   */
  lemma {:induction false} PollWaitsIff(cfg: Config, es: seq<Event>, sc: nat)
    requires Legal(Initial(cfg), es) && sc in After(Initial(cfg), es).pool.draining
    ensures var b := After(Initial(cfg), es);
      && (PollWaits(b, sc) <==> RotatingOf(b, sc) == 0 || OpenOf(b, sc) > 0)
      && (sc in Step(b, DrainTick(sc)).pool.shut ==> (CallsOpen(b, sc) == 0 <==> RotatingOf(b, sc) == 0))
  {
    DrainEndsIdleOrAtDeadline(cfg, es, sc);
  }

  function RRPicksOf(es: seq<Event>, sc: nat): nat {
    if es == [] then 0
    else RRPicksOf(Init(es), sc) + (if Last(es).RRPick? && Last(es).sc == sc then 1 else 0)
  }

  function RREndsOf(es: seq<Event>, sc: nat): nat {
    if es == [] then 0
    else RREndsOf(Init(es), sc) + (if Last(es).RREnd? && Last(es).sc == sc then 1 else 0)
  }

  function RotatingDelta(e: Event, sc: nat): int {
    match e
    case RRPick(_, s) => if s == sc then 1 else 0
    case RREnd(s) => if s == sc then -1 else 0
    case _ => 0
  }

  lemma StepRotating(b: Balancer, e: Event, sc: nat)
    requires Enabled(b, e)
    ensures RotatingOf(Step(b, e), sc) == RotatingOf(b, sc) + RotatingDelta(e, sc)
  {
    match e {
      case Resolve(_, _, _, _, _) =>
      case SubConnChange(_, _, _) =>
      case Verdict(_, _) =>
      case Pick(_, _) =>
      case Done(_) =>
      case RRPick(_, _) =>
      case RREnd(_) =>
      case DrainTick(_) =>
      case DrainDeadline(_) =>
    }
  }

  /** The open round-robin calls of a SubConn are its picks not yet over. */
  lemma {:induction false} RotatingInEveryRun(cfg: Config, es: seq<Event>, sc: nat)
    requires Legal(Initial(cfg), es)
    ensures RotatingOf(After(Initial(cfg), es), sc) == RRPicksOf(es, sc) - RREndsOf(es, sc)
  {
    if es != [] {
      RotatingInEveryRun(cfg, Init(es), sc);
      StepRotating(After(Initial(cfg), Init(es)), Last(es), sc);
    }
  }

  /** Every configuration of the run asks for least request, or leaves the policy as it is. */
  predicate LeastRequestOnly(es: seq<Event>) {
    forall i :: 0 <= i < |es| && es[i].Resolve? && es[i].cfg.Some? ==>
      es[i].cfg.value.policy in {"", "least_request"}
  }

  /** No picker rotates, and no call was picked by one that does. */
  ghost predicate NoRotation(b: Balancer) {
    && b.policy == "least_request"
    && (forall g :: 0 <= g < |b.installed| ==> b.installed[g].kind != RoundRobin)
    && (forall sc :: sc in b.rotating ==> b.rotating[sc] == 0)
  }

  lemma RebuildsNoRotation(b: Balancer)
    requires NoRotation(b)
    ensures NoRotation(Rebuild(b))
  {
  }

  /** A configuration that asks for least request, or leaves the policy as it is, and a changed pool. */
  lemma ReconfiguresNoRotation(b: Balancer, cfg: Option<Config>, p: Pool)
    requires NoRotation(b) && (cfg.Some? ==> cfg.value.policy in {"", "least_request"})
    ensures NoRotation(Rebuild(Configure(b, cfg).(pool := p)))
  {
    RebuildsNoRotation(Configure(b, cfg).(pool := p));
  }

  lemma RepooledNoRotation(b: Balancer, p: Pool, open: map<nat, nat>)
    requires NoRotation(b)
    ensures NoRotation(b.(pool := p, open := open)) && NoRotation(Rebuild(b.(pool := p)))
  {
    RebuildsNoRotation(b.(pool := p));
  }

  lemma NoRotationStep(b: Balancer, e: Event)
    requires Enabled(b, e) && NoRotation(b)
    requires e.Resolve? && e.cfg.Some? ==> e.cfg.value.policy in {"", "least_request"}
    ensures NoRotation(Step(b, e))
  {
    var p, open := Step(b, e).pool, Step(b, e).open;
    match e {
      case Resolve(cfg, _, _, _, _) => ReconfiguresNoRotation(b, cfg, p);
      case SubConnChange(_, _, _) => RepooledNoRotation(b, p, open);
      case Verdict(_, _) => RepooledNoRotation(b, p, open);
      case Pick(_, _) => RepooledNoRotation(b, p, open);
      case Done(_) => RepooledNoRotation(b, p, open);
      case RRPick(_, _) => assert false;
      case RREnd(_) => assert false;
      case DrainTick(_) => RepooledNoRotation(b, p, open);
      case DrainDeadline(_) => RepooledNoRotation(b, p, open);
    }
  }

  lemma {:induction false} NoRotationInEveryRun(cfg: Config, es: seq<Event>)
    requires Legal(Initial(cfg), es) && cfg.policy == "least_request" && LeastRequestOnly(es)
    ensures NoRotation(After(Initial(cfg), es))
  {
    if es != [] {
      NoRotationInEveryRun(cfg, Init(es));
      NoRotationStep(After(Initial(cfg), Init(es)), Last(es));
    }
  }

  /** As long as only least request is configured, every poll of every drain waits for every open call. */
  lemma {:induction false} LeastRequestPollsWait(cfg: Config, es: seq<Event>, sc: nat)
    requires Legal(Initial(cfg), es) && cfg.policy == "least_request" && LeastRequestOnly(es)
    requires sc in After(Initial(cfg), es).pool.draining
    ensures PollWaits(After(Initial(cfg), es), sc)
  {
    NoRotationInEveryRun(cfg, es);
    PollWaitsIff(cfg, es, sc);
  }
}
