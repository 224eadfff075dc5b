/**
 The balancer as a step machine over values: its pool, the pickers it has
 installed, and the events that reach it. One critical section under the
 balancer's mutex is one step, and so is one atomic access by a picker or a
 drain goroutine. A drain's poll is placed at its load of the counter: the
 Shutdown that follows an idle load belongs to the same step, so a call that
 is picked between the two counts as picked after the end of the drain.

 An event carries what its environment decides: the order in which Go ranges
 over a map, which SubConns gRPC creates, how starting a checker turns out.
 */
module BalancerState {
  import opened Wrappers
  import opened Ordering
  import opened Sorting
  import opened Endpoints
  import opened AddressText
  import opened Cap
  import opened Reconcile
  import opened PoolState
  import opened PoolBatch

  datatype Config = Config(
    namespace: string, service: string, policy: string,
    maxSubconns: int, enableHealthCheck: bool
  )

  /** What a picker holds of an entry. */
  datatype Slot = Slot(key: PoolKey, sc: nat)

  datatype Kind = NoHealthy | RoundRobin | LeastRequest

  datatype Installed = Installed(kind: Kind, slots: seq<Slot>)

  datatype Balancer = Balancer(
    cfg: Config,
    policy: string,
    pool: Pool,
    installed: seq<Installed>,  // every picker installed so far, the current one last
    reported: Option<Conn>,     // state last reported to gRPC
    open: map<nat, nat>,        // least-request picks not yet done, by SubConn
    rotating: map<nat, nat>     // round-robin calls not yet over, by SubConn: the code keeps no such count
  )

  datatype Event =
    | Resolve(cfg: Option<Config>, addrs: seq<string>, adds: seq<Key>, oks: seq<bool>, removes: seq<Key>)
    | SubConnChange(sc: nat, conn: Conn, start: Start)
    | Verdict(checker: nat, health: Health)
    | Pick(generation: nat, sc: nat)
    | Done(sc: nat)
    | RRPick(generation: nat, sc: nat)
    | RREnd(sc: nat)
    | DrainTick(sc: nat)
    | DrainDeadline(sc: nat)

  // ---------------------------------------------------------------------
  // Pickers
  // ---------------------------------------------------------------------

  function SlotText(s: Slot): string { PoolState.KeyText(s.key) }

  ghost function ServingSlots(live: map<PoolKey, Rec>): set<Slot> {
    set k | k in live && live[k].health == Serving :: Slot(k, live[k].sc)
  }

  /** The healthy list handed to a picker factory: the Serving entries in "address:port" order. */
  ghost function HealthyOf(live: map<PoolKey, Rec>): seq<Slot> {
    SortSet(ServingSlots(live), SlotText)
  }

  /** An unknown policy falls back to round robin. */
  function KindOf(policy: string, healthy: nat): Kind {
    if healthy == 0 then NoHealthy
    else if policy == "least_request" then LeastRequest
    else RoundRobin
  }

  function ConnectivityFor(healthy: nat): Conn {
    if healthy > 0 then Ready else TransientFailure
  }

  ghost function Rebuild(b: Balancer): Balancer {
    var healthy := HealthyOf(b.pool.live);
    b.(installed := b.installed + [Installed(KindOf(b.policy, |healthy|), healthy)],
       reported := Some(ConnectivityFor(|healthy|)))
  }

  ghost function Current(b: Balancer): Installed
    requires b.installed != []
  {
    b.installed[|b.installed| - 1]
  }

  // ---------------------------------------------------------------------
  // Steps
  // ---------------------------------------------------------------------

  function Initial(cfg: Config): Balancer {
    Balancer(cfg, if cfg.policy == "" then "round_robin" else cfg.policy,
             EMPTY, [Installed(NoHealthy, [])], None, map[], map[])
  }

  function Configure(b: Balancer, cfg: Option<Config>): Balancer {
    match cfg
    case None => b
    case Some(c) => b.(cfg := c, policy := if c.policy != "" then c.policy else b.policy)
  }

  /** The identities of the addresses that parse. */
  ghost function Desired(addrs: seq<string>): set<Key> {
    set a | a in addrs && ParseAddr(a).Ok? :: KeyOf(ParseAddr(a).value)
  }

  ghost function Wanted(cfg: Config, addrs: seq<string>): set<Key> {
    Capped(Desired(addrs), cfg.maxSubconns)
  }

  /** The endpoints in the pool, whatever namespace and service they were added under. */
  ghost function EndpointsOf(live: map<PoolKey, Rec>): set<Key> {
    set k | k in live :: Ep(k)
  }

  function Reconciled(b: Balancer, adds: seq<Key>, oks: seq<bool>, removes: seq<Key>): Balancer
    requires |adds| == |oks|
  {
    var ns, svc := b.cfg.namespace, b.cfg.service;
    b.(pool := RemoveAll(AddAll(b.pool, ns, svc, adds, oks), ns, svc, removes))
  }

  function WentUp(cfg: Config, q: Pool, key: PoolKey, start: Start): Pool
    requires key in q.live
  {
    if !cfg.enableHealthCheck then SetHealth(q, key, Serving)
    else if q.live[key].cancel.None? then StartChecker(q, key, start)
    else q
  }

  function WentDown(q: Pool, key: PoolKey): Pool {
    SetHealth(StopChecker(q, key), key, NotServing)
  }

  function Connectivity(cfg: Config, p: Pool, sc: nat, conn: Conn, start: Start): Pool
    requires sc < |p.keys| && IsLive(p, sc)
  {
    var key := p.keys[sc];
    var q := SetConn(p, key, conn);
    match conn
    case Ready => WentUp(cfg, q, key, start)
    case TransientFailure => WentDown(q, key)
    case ShutDown => WentDown(q, key)
    case Idle => q.(connects := q.connects + [sc])
    case Connecting => q
  }

  ghost predicate Holds(i: Installed, sc: nat) {
    exists s :: s in i.slots && s.sc == sc
  }

  /** Additions and removals, in some order, that lead from the endpoints in the pool to the wanted ones. */
  ghost predicate IsPlan(want: set<Key>, have: set<Key>, adds: seq<Key>, oks: seq<bool>, removes: seq<Key>) {
    Lists(adds, want - have) && |oks| == |adds| && Lists(removes, have - want)
  }

  /**
   What the environment may do in a state. A verdict may name any checker ever
   numbered, even one whose watch failed and which never reports; that only
   adds runs.
   */
  ghost predicate Enabled(b: Balancer, e: Event) {
    match e
    case Resolve(cfg, addrs, adds, oks, removes) =>
      IsPlan(Wanted(Configure(b, cfg).cfg, addrs), EndpointsOf(b.pool.live), adds, oks, removes)
    case SubConnChange(sc, _, _) => sc < |b.pool.keys|
    case Verdict(c, _) => c < |b.pool.owners|
    case Pick(g, sc) =>
      g < |b.installed| && b.installed[g].kind == LeastRequest && Holds(b.installed[g], sc)
    case Done(sc) => OpenOf(b, sc) > 0
    case RRPick(g, sc) =>
      g < |b.installed| && b.installed[g].kind == RoundRobin && Holds(b.installed[g], sc)
    case RREnd(sc) => RotatingOf(b, sc) > 0
    case DrainTick(sc) => sc in b.pool.draining
    case DrainDeadline(sc) => sc in b.pool.draining
  }

  /** Open least-request picks of a SubConn. */
  function OpenOf(b: Balancer, sc: nat): nat {
    if sc in b.open then b.open[sc] else 0
  }

  /** Open round-robin calls of a SubConn. */
  function RotatingOf(b: Balancer, sc: nat): nat {
    if sc in b.rotating then b.rotating[sc] else 0
  }

  /** Open calls of a SubConn, whichever policy picked for them. */
  function CallsOpen(b: Balancer, sc: nat): nat { OpenOf(b, sc) + RotatingOf(b, sc) }

  /** One round-robin call more, or one fewer; the in-flight counter does not move. */
  function Rotated(b: Balancer, sc: nat, delta: int): Balancer
    requires RotatingOf(b, sc) + delta >= 0
  {
    b.(rotating := b.rotating[sc := RotatingOf(b, sc) + delta])
  }

  function Flight(p: Pool, sc: nat, delta: int): Pool {
    if sc < |p.flight| then p.(flight := p.flight[sc := p.flight[sc] + delta]) else p
  }

  /** One call more, or one fewer, in flight on a SubConn. */
  function Counted(b: Balancer, sc: nat, delta: int): Balancer
    requires OpenOf(b, sc) + delta >= 0
  {
    b.(pool := Flight(b.pool, sc, delta), open := b.open[sc := OpenOf(b, sc) + delta])
  }

  ghost function Step(b: Balancer, e: Event): Balancer
    requires Enabled(b, e)
  {
    match e
    case Resolve(cfg, addrs, adds, oks, removes) =>
      Rebuild(Reconciled(Configure(b, cfg), adds, oks, removes))
    case SubConnChange(sc, conn, start) =>
      if IsLive(b.pool, sc) then Rebuild(b.(pool := Connectivity(b.cfg, b.pool, sc, conn, start)))
      else b
    case Verdict(c, h) =>
      Rebuild(b.(pool := SetHealth(b.pool, b.pool.owners[c].key, h)))
    case Pick(_, sc) =>
      Counted(b, sc, 1)
    case Done(sc) =>
      Counted(b, sc, -1)
    case RRPick(_, sc) =>
      Rotated(b, sc, 1)
    case RREnd(sc) =>
      Rotated(b, sc, -1)
    case DrainTick(sc) =>
      b.(pool := Tick(b.pool, sc))
    case DrainDeadline(sc) =>
      b.(pool := Close(b.pool, sc))
  }

  // ---------------------------------------------------------------------
  // The invariant
  // ---------------------------------------------------------------------

  /** At most one entry for an address and port, across namespaces and services. */
  ghost predicate OnePerEndpoint(live: map<PoolKey, Rec>) {
    forall j, k :: j in live && k in live && Ep(j) == Ep(k) ==> j == k
  }

  /** The installed picker and the reported state follow from the pool. */
  ghost predicate Agrees(b: Balancer) {
    var healthy := HealthyOf(b.pool.live);
    && b.installed != []
    && Current(b) == Installed(KindOf(b.policy, |healthy|), healthy)
    && (b.reported.Some? ==> b.reported == Some(ConnectivityFor(|Current(b).slots|)))
  }

  /** A SubConn's in-flight counter counts its open least-request picks. */
  ghost predicate CountsOpen(b: Balancer) {
    && (forall i :: 0 <= i < |b.pool.flight| ==> b.pool.flight[i] == OpenOf(b, i))
    && (forall sc :: sc in b.open && b.open[sc] > 0 ==> sc < |b.pool.flight|)
  }

  /** Every picker ever built holds SubConns that exist, under the keys they were made for. */
  ghost predicate SlotsExist(b: Balancer) {
    forall g, s :: 0 <= g < |b.installed| && s in b.installed[g].slots ==>
      s.sc < |b.pool.keys| && b.pool.keys[s.sc] == s.key
  }

  /** What holds even in the middle of a critical section, before the rebuild. */
  ghost predicate Sound(b: Balancer) {
    && Inv(b.pool)
    && OnePerEndpoint(b.pool.live)
    && CountsOpen(b)
    && SlotsExist(b)
  }

  ghost predicate BalancerInv(b: Balancer) { Sound(b) && Agrees(b) }

  lemma InitialInv(cfg: Config)
    ensures BalancerInv(Initial(cfg))
  {
    assert ServingSlots(map[]) == {};
  }

  /** Rebuilding restores agreement, whatever happened to the pool before. */
  lemma RebuildInv(b: Balancer)
    requires Sound(b)
    ensures BalancerInv(Rebuild(b))
  {
    var healthy := HealthyOf(b.pool.live);
    forall s | s in healthy ensures s.sc < |b.pool.keys| && b.pool.keys[s.sc] == s.key {
      assert s in Elements(healthy);
    }
  }

  lemma ReconciledInv(b: Balancer, adds: seq<Key>, oks: seq<bool>, removes: seq<Key>)
    requires Sound(b) && |adds| == |oks| && NoDuplicates(adds)
    requires Elements(adds) !! EndpointsOf(b.pool.live)
    ensures Sound(Reconciled(b, adds, oks, removes))
  {
    var ns, svc := b.cfg.namespace, b.cfg.service;
    AddsAbsent(b.pool, ns, svc, adds);
    AddAllExtends(b.pool, ns, svc, adds, oks);
    AddAllInv(b.pool, ns, svc, adds, oks);
    var q := AddAll(b.pool, ns, svc, adds, oks);
    AddsOnePerEndpoint(b.pool, ns, svc, adds, oks);
    RemoveAllEffect(q, ns, svc, removes);
    RemoveAllInv(q, ns, svc, removes);
    GrownSound(b, q, Reconciled(b, adds, oks, removes).pool);
  }

  lemma AddsOnePerEndpoint(p: Pool, ns: string, svc: string, adds: seq<Key>, oks: seq<bool>)
    requires |adds| == |oks| && NoDuplicates(adds)
    requires OnePerEndpoint(p.live) && Elements(adds) !! EndpointsOf(p.live)
    ensures OnePerEndpoint(AddAll(p, ns, svc, adds, oks).live)
  {
    AddsAbsent(p, ns, svc, adds);
    AddAllExtends(p, ns, svc, adds, oks);
    SucceededAll(adds, oks);
    var q := AddAll(p, ns, svc, adds, oks);
    forall j, k | j in q.live && k in q.live && Ep(j) == Ep(k) ensures j == k {
      if j in p.live { assert Ep(j) in EndpointsOf(p.live); }
      if k in p.live { assert Ep(k) in EndpointsOf(p.live); }
    }
  }

  lemma GrownSound(b: Balancer, q: Pool, r: Pool)
    requires Sound(b) && Extends(b.pool, q) && OnePerEndpoint(q.live)
    requires Inv(r) && r.live.Keys <= q.live.Keys && r.keys == q.keys && r.flight == q.flight
    ensures Sound(b.(pool := r))
  {
    var c := b.(pool := r);
    assert OnePerEndpoint(r.live);
    assert CountsOpen(c) by {
      forall i | 0 <= i < |r.flight| ensures r.flight[i] == OpenOf(c, i) {
        if i < |b.pool.flight| { assert b.pool.flight[i] == q.flight[i]; }
      }
    }
    assert SlotsExist(c);
  }

  /** An endpoint to be added is not in the pool under any key. */
  lemma AddsAbsent(p: Pool, ns: string, svc: string, adds: seq<Key>)
    requires Elements(adds) !! EndpointsOf(p.live)
    ensures forall k :: k in adds ==> At(ns, svc, k) !in p.live
  {
    forall k | k in adds ensures At(ns, svc, k) !in p.live {
      assert k in Elements(adds);
      assert Ep(At(ns, svc, k)) == k;
    }
  }

  /** Same entries under the same keys, whatever they now say. */
  predicate SameKeys(p: Pool, q: Pool) {
    q.live.Keys == p.live.Keys && q.keys == p.keys && q.flight == p.flight
  }

  lemma WentUpInv(cfg: Config, q: Pool, key: PoolKey, start: Start)
    requires Inv(q) && key in q.live
    ensures var r := WentUp(cfg, q, key, start); Inv(r) && SameKeys(q, r)
  {
    SetHealthInv(q, key, Serving);
    if q.live[key].cancel.None? { StartCheckerInv(q, key, start); }
  }

  lemma WentDownInv(q: Pool, key: PoolKey)
    requires Inv(q)
    ensures var r := WentDown(q, key); Inv(r) && SameKeys(q, r)
  {
    StopCheckerInv(q, key);
    SetHealthInv(StopChecker(q, key), key, NotServing);
  }

  lemma ConnectivityInv(cfg: Config, p: Pool, sc: nat, conn: Conn, start: Start)
    requires Inv(p) && sc < |p.keys| && IsLive(p, sc)
    ensures var q := Connectivity(cfg, p, sc, conn, start); Inv(q) && SameKeys(p, q)
  {
    var key := p.keys[sc];
    SetConnInv(p, key, conn);
    var q := SetConn(p, key, conn);
    assert SameKeys(p, q);
    match conn
    case Ready => WentUpInv(cfg, q, key, start);
    case TransientFailure => WentDownInv(q, key);
    case ShutDown => WentDownInv(q, key);
    case Idle => SamePlacesInv(q, q.(connects := q.connects + [sc]));
    case Connecting =>
  }

  lemma {:induction false} ConnectivitySound(b: Balancer, sc: nat, conn: Conn, start: Start)
    requires Sound(b) && sc < |b.pool.keys| && IsLive(b.pool, sc)
    ensures Sound(b.(pool := Connectivity(b.cfg, b.pool, sc, conn, start)))
  {
    ConnectivityInv(b.cfg, b.pool, sc, conn, start);
    RekeyedSound(b, Connectivity(b.cfg, b.pool, sc, conn, start));
  }

  lemma ConnectivityStepInv(b: Balancer, sc: nat, conn: Conn, start: Start)
    requires BalancerInv(b) && sc < |b.pool.keys| && IsLive(b.pool, sc)
    ensures BalancerInv(Rebuild(b.(pool := Connectivity(b.cfg, b.pool, sc, conn, start))))
  {
    ConnectivitySound(b, sc, conn, start);
    RebuildInv(b.(pool := Connectivity(b.cfg, b.pool, sc, conn, start)));
  }

  /** Rewriting records in place. */
  lemma RekeyedSound(b: Balancer, q: Pool)
    requires Sound(b) && Inv(q) && SameKeys(b.pool, q)
    ensures Sound(b.(pool := q))
  {
    var c := b.(pool := q);
    assert OnePerEndpoint(c.pool.live);
    assert CountsOpen(c);
    assert SlotsExist(c);
  }

  lemma ConfigureInv(b: Balancer, cfg: Option<Config>)
    requires Sound(b)
    ensures Sound(Configure(b, cfg))
  {
    var c := Configure(b, cfg);
    assert CountsOpen(c);
    assert SlotsExist(c);
  }

  /** After the two loops of a planned update, only the rebuild is missing. */
  lemma PlanSound(b: Balancer, cfg: Option<Config>, addrs: seq<string>,
                  adds: seq<Key>, oks: seq<bool>, removes: seq<Key>)
    requires Sound(b)
    requires IsPlan(Wanted(Configure(b, cfg).cfg, addrs), EndpointsOf(b.pool.live), adds, oks, removes)
    ensures |oks| == |adds| && Sound(Reconciled(Configure(b, cfg), adds, oks, removes))
  {
    ConfigureInv(b, cfg);
    assert Elements(adds) !! EndpointsOf(b.pool.live);
    ReconciledInv(Configure(b, cfg), adds, oks, removes);
  }

  lemma ResolveStepInv(b: Balancer, e: Event)
    requires BalancerInv(b) && e.Resolve? && Enabled(b, e)
    ensures BalancerInv(Step(b, e))
  {
    PlanSound(b, e.cfg, e.addrs, e.adds, e.oks, e.removes);
    RebuildInv(Reconciled(Configure(b, e.cfg), e.adds, e.oks, e.removes));
  }

  lemma VerdictSound(b: Balancer, e: Event)
    requires Sound(b) && e.Verdict? && Enabled(b, e)
    ensures Sound(b.(pool := SetHealth(b.pool, b.pool.owners[e.checker].key, e.health)))
  {
    var key := b.pool.owners[e.checker].key;
    SetHealthInv(b.pool, key, e.health);
    RekeyedSound(b, SetHealth(b.pool, key, e.health));
  }

  lemma VerdictStepInv(b: Balancer, e: Event)
    requires BalancerInv(b) && e.Verdict? && Enabled(b, e)
    ensures BalancerInv(Step(b, e))
  {
    VerdictSound(b, e);
    RebuildInv(b.(pool := SetHealth(b.pool, b.pool.owners[e.checker].key, e.health)));
  }

  lemma HeldExists(b: Balancer, g: nat, sc: nat)
    requires SlotsExist(b) && g < |b.installed| && Holds(b.installed[g], sc)
    ensures sc < |b.pool.keys|
  {
  }

  lemma PickStepInv(b: Balancer, e: Event)
    requires BalancerInv(b) && e.Pick? && Enabled(b, e)
    ensures BalancerInv(Step(b, e))
  {
    HeldExists(b, e.generation, e.sc);
    FlightInv(b, e.sc, 1);
    assert Step(b, e) == Counted(b, e.sc, 1);
  }

  lemma DoneStepInv(b: Balancer, e: Event)
    requires BalancerInv(b) && e.Done? && Enabled(b, e)
    ensures BalancerInv(Step(b, e))
  {
    FlightInv(b, e.sc, -1);
    assert Step(b, e) == Counted(b, e.sc, -1);
  }

  lemma RotatedInv(b: Balancer, sc: nat, delta: int)
    requires BalancerInv(b) && RotatingOf(b, sc) + delta >= 0
    ensures BalancerInv(Rotated(b, sc, delta))
  {
    var c := Rotated(b, sc, delta);
    assert CountsOpen(c);
    assert SlotsExist(c);
  }

  /** Every step keeps the invariant. */
  lemma {:induction false} StepInv(b: Balancer, e: Event)
    requires BalancerInv(b) && Enabled(b, e)
    ensures BalancerInv(Step(b, e))
  {
    match e {
      case Resolve(_, _, _, _, _) => ResolveStepInv(b, e);
      case SubConnChange(sc, conn, start) =>
        if IsLive(b.pool, sc) { ConnectivityStepInv(b, sc, conn, start); }
      case Verdict(_, _) => VerdictStepInv(b, e);
      case Pick(_, _) => PickStepInv(b, e);
      case Done(_) => DoneStepInv(b, e);
      case RRPick(_, sc) => RotatedInv(b, sc, 1);
      case RREnd(sc) => RotatedInv(b, sc, -1);
      case DrainTick(sc) => DrainInv(b, sc);
      case DrainDeadline(sc) => DrainInv(b, sc);
    }
  }

  lemma FlightInv(b: Balancer, sc: nat, delta: int)
    requires BalancerInv(b) && sc < |b.pool.flight|
    requires OpenOf(b, sc) + delta >= 0
    ensures BalancerInv(Counted(b, sc, delta))
  {
    var q := Flight(b.pool, sc, delta);
    SamePlacesInv(b.pool, q);
    var c := Counted(b, sc, delta);
    assert CountsOpen(c);
    assert SlotsExist(c);
    assert Agrees(c);
  }

  lemma DrainInv(b: Balancer, sc: nat)
    requires BalancerInv(b) && sc in b.pool.draining
    ensures BalancerInv(b.(pool := Close(b.pool, sc)))
  {
    CloseInv(b.pool, sc);
    var c := b.(pool := Close(b.pool, sc));
    assert SlotsExist(c);
    assert Agrees(c);
  }
}
