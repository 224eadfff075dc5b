/** What the balancer asks of gRPC over a run: addresses dialled, connection attempts, re-resolutions. */
module Requests {
  import opened Basics
  import opened Wrappers
  import opened Ordering
  import opened Endpoints
  import opened AddressText
  import opened Cap
  import opened Reconcile
  import opened PoolState
  import opened PoolBatch
  import opened BalancerState
  import opened BalancerRuns

  // ---------------------------------------------------------------------
  // Which backend a SubConn connects to
  // ---------------------------------------------------------------------

  /** Every SubConn was created for the "address:port" of its key, which is one that parses. */
  ghost predicate Dials(p: Pool) {
    && |p.dialled| == |p.keys|
    && forall i :: 0 <= i < |p.keys| ==> DialsKey(p.dialled[i], p.keys[i])
  }

  predicate DialsKey(address: string, key: PoolKey) {
    && address == AddrPort(key.address, key.port)
    && NoSpace(key.address) && ValidPort(key.port)
  }

  lemma {:induction false} AddAllDials(p: Pool, ns: string, svc: string, ks: seq<Key>, oks: seq<bool>)
    requires |ks| == |oks| && Dials(p)
    requires forall k :: k in ks ==> NoSpace(k.address) && ValidPort(k.port)
    ensures Dials(AddAll(p, ns, svc, ks, oks))
  {
    if ks != [] {
      AddAllDials(p, ns, svc, ks[..|ks| - 1], oks[..|ks| - 1]);
    }
  }

  /** Only what parses is wanted. */
  lemma WantedIsClean(cfg: Config, addrs: seq<string>, k: Key)
    requires k in Wanted(cfg, addrs)
    ensures NoSpace(k.address) && ValidPort(k.port)
  {
    if cfg.maxSubconns > 0 { CappedIsSmallest(Desired(addrs), cfg.maxSubconns); }
    var a :| a in addrs && ParseAddr(a).Ok? && KeyOf(ParseAddr(a).value) == k;
    ParsedIsClean(a);
  }

  lemma ConnectivityDials(cfg: Config, p: Pool, sc: nat, conn: Conn, start: Start)
    requires sc < |p.keys| && IsLive(p, sc)
    ensures var q := Connectivity(cfg, p, sc, conn, start); q.dialled == p.dialled && q.keys == p.keys
  {
  }

  lemma ResolveDials(b: Balancer, e: Event)
    requires Dials(b.pool) && e.Resolve? && Enabled(b, e)
    ensures Dials(Step(b, e).pool)
  {
    var c := Configure(b, e.cfg);
    forall k | k in e.adds ensures NoSpace(k.address) && ValidPort(k.port) {
      assert k in Elements(e.adds);
      WantedIsClean(c.cfg, e.addrs, k);
    }
    AddAllDials(c.pool, c.cfg.namespace, c.cfg.service, e.adds, e.oks);
    RemoveAllEffect(AddAll(c.pool, c.cfg.namespace, c.cfg.service, e.adds, e.oks),
                    c.cfg.namespace, c.cfg.service, e.removes);
  }

  lemma StepDials(b: Balancer, e: Event)
    requires Dials(b.pool) && Enabled(b, e)
    ensures Dials(Step(b, e).pool)
  {
    match e {
      case Resolve(_, _, _, _, _) => ResolveDials(b, e);
      case SubConnChange(sc, conn, start) =>
        if IsLive(b.pool, sc) { ConnectivityDials(b.cfg, b.pool, sc, conn, start); }
      case Verdict(_, _) =>
      case Pick(_, _) =>
      case Done(_) =>
      case RRPick(_, _) =>
      case RREnd(_) =>
      case DrainTick(_) =>
      case DrainDeadline(_) =>
    }
  }

  /**
   In every run, each SubConn was created for an address that parses to the
   address and port of the key it was created under.
   */
  lemma {:induction false} DialsInEveryRun(cfg: Config, es: seq<Event>, sc: nat)
    requires Legal(Initial(cfg), es) && sc < |After(Initial(cfg), es).pool.keys|
    ensures var p := After(Initial(cfg), es).pool;
      && |p.dialled| == |p.keys|
      && p.dialled[sc] == AddrPort(p.keys[sc].address, p.keys[sc].port)
      && ParseAddr(p.dialled[sc]) == Ok(Endpoint(p.keys[sc].address, p.keys[sc].port, true))
  {
    AllDial(cfg, es);
    var p := After(Initial(cfg), es).pool;
    assert DialsKey(p.dialled[sc], p.keys[sc]);
    PrintThenParse(p.keys[sc].address, p.keys[sc].port);
  }

  /** In every run the picker lists its SubConns in the strict order of the addresses they connect to. */
  lemma {:induction false} OfferedInDialOrder(cfg: Config, es: seq<Event>, i: nat, j: nat)
    requires Legal(Initial(cfg), es)
    requires var b := After(Initial(cfg), es); b.installed != [] && i < j < |Current(b).slots|
    ensures var b := After(Initial(cfg), es);
      var x, y := Current(b).slots[i].sc, Current(b).slots[j].sc;
      && x < |b.pool.dialled| && y < |b.pool.dialled|
      && exists d: nat :: FirstDiffersAt(b.pool.dialled[x], b.pool.dialled[y], d)
  {
    var b := After(Initial(cfg), es);
    InitialInv(cfg);
    AlwaysInv(Initial(cfg), es);
    HealthySorted(b);
    SlotDials(cfg, es, i);
    SlotDials(cfg, es, j);
    LessIff(SlotText(Current(b).slots[i]), SlotText(Current(b).slots[j]));
  }

  lemma SlotDials(cfg: Config, es: seq<Event>, i: nat)
    requires Legal(Initial(cfg), es)
    requires var b := After(Initial(cfg), es); BalancerInv(b) && i < |Current(b).slots|
    ensures var b := After(Initial(cfg), es);
      var s := Current(b).slots[i];
      s.sc < |b.pool.dialled| && b.pool.dialled[s.sc] == SlotText(s)
  {
    var b := After(Initial(cfg), es);
    assert Current(b).slots[i] in b.installed[|b.installed| - 1].slots;
    DialsInEveryRun(cfg, es, Current(b).slots[i].sc);
  }

  lemma {:induction false} AllDial(cfg: Config, es: seq<Event>)
    requires Legal(Initial(cfg), es)
    ensures Dials(After(Initial(cfg), es).pool)
  {
    if es != [] {
      AllDial(cfg, Init(es));
      StepDials(After(Initial(cfg), Init(es)), Last(es));
    }
  }

  // ---------------------------------------------------------------------
  // Connection attempts and re-resolutions
  // ---------------------------------------------------------------------

  /** A connectivity event with this state, of a SubConn that is in the map. */
  ghost predicate Reports(b: Balancer, e: Event, conn: Conn) {
    e.SubConnChange? && e.conn == conn && e.sc < |b.pool.keys| && IsLive(b.pool, e.sc)
  }

  /** How many events of `sc` with this state arrived while it was in the map. */
  ghost function ReportsOf(b: Balancer, es: seq<Event>, conn: Conn, sc: nat): nat
    requires Legal(b, es)
    decreases |es|
  {
    if es == [] then 0
    else ReportsOf(b, Init(es), conn, sc)
         + (if Reports(After(b, Init(es)), Last(es), conn) && Last(es).sc == sc then 1 else 0)
  }

  /** How many events of any SubConn with this state arrived while it was in the map. */
  ghost function AllReports(b: Balancer, es: seq<Event>, conn: Conn): nat
    requires Legal(b, es)
    decreases |es|
  {
    if es == [] then 0
    else AllReports(b, Init(es), conn) + (if Reports(After(b, Init(es)), Last(es), conn) then 1 else 0)
  }

  /** A new SubConn is connected once. */
  lemma {:induction false} AddAllConnects(p: Pool, ns: string, svc: string, ks: seq<Key>, oks: seq<bool>, sc: nat)
    requires |ks| == |oks| && |p.keys| == |p.flight|
    ensures var q := AddAll(p, ns, svc, ks, oks);
      && |p.keys| <= |q.keys| == |q.flight| && q.resolves == p.resolves
      && multiset(q.connects)[sc] == multiset(p.connects)[sc] + (if |p.keys| <= sc < |q.keys| then 1 else 0)
  {
    if ks != [] {
      AddAllConnects(p, ns, svc, ks[..|ks| - 1], oks[..|ks| - 1], sc);
    }
  }

  lemma ConnectivityConnects(cfg: Config, p: Pool, sc: nat, conn: Conn, start: Start)
    requires sc < |p.keys| && IsLive(p, sc)
    ensures var q := Connectivity(cfg, p, sc, conn, start);
      && q.keys == p.keys
      && q.connects == (if conn == Idle then p.connects + [sc] else p.connects)
      && q.resolves == (if conn == TransientFailure then p.resolves + 1 else p.resolves)
  {
  }

  lemma ResolveConnects(b: Balancer, e: Event, sc: nat)
    requires |b.pool.keys| == |b.pool.flight| && e.Resolve? && Enabled(b, e)
    ensures var p, q := b.pool, Step(b, e).pool;
      && |p.keys| <= |q.keys| && q.resolves == p.resolves
      && multiset(q.connects)[sc] == multiset(p.connects)[sc] + (if |p.keys| <= sc < |q.keys| then 1 else 0)
  {
    var c := Configure(b, e.cfg);
    AddAllConnects(c.pool, c.cfg.namespace, c.cfg.service, e.adds, e.oks, sc);
    RemoveAllEffect(AddAll(c.pool, c.cfg.namespace, c.cfg.service, e.adds, e.oks),
                    c.cfg.namespace, c.cfg.service, e.removes);
  }

  /** What a step adds to the connection attempts of one SubConn, and to the re-resolutions. */
  lemma StepRequests(b: Balancer, e: Event, sc: nat)
    requires |b.pool.keys| == |b.pool.flight| && Enabled(b, e)
    ensures var p, q := b.pool, Step(b, e).pool;
      && |p.keys| <= |q.keys|
      && multiset(q.connects)[sc] == multiset(p.connects)[sc] + (if |p.keys| <= sc < |q.keys| then 1 else 0)
                                     + (if Reports(b, e, Idle) && e.sc == sc then 1 else 0)
      && q.resolves == p.resolves + (if Reports(b, e, TransientFailure) then 1 else 0)
  {
    match e {
      case Resolve(_, _, _, _, _) => ResolveConnects(b, e, sc);
      case SubConnChange(_, conn, start) =>
        if IsLive(b.pool, e.sc) { ConnectivityConnects(b.cfg, b.pool, e.sc, conn, start); }
      case Verdict(_, _) =>
      case Pick(_, _) =>
      case Done(_) =>
      case RRPick(_, _) =>
      case RREnd(_) =>
      case DrainTick(_) =>
      case DrainDeadline(_) =>
    }
  }

  /**
   In every run, a SubConn has been asked to connect once when it was created
   and once more for each Idle event that arrived while it was in the map.
   */
  lemma {:induction false} ConnectsInEveryRun(cfg: Config, es: seq<Event>, sc: nat)
    requires Legal(Initial(cfg), es)
    ensures var p := After(Initial(cfg), es).pool;
      && multiset(p.connects)[sc] == (if sc < |p.keys| then 1 + ReportsOf(Initial(cfg), es, Idle, sc) else 0)
      && (sc >= |p.keys| ==> ReportsOf(Initial(cfg), es, Idle, sc) == 0)
  {
    if es != [] {
      ConnectsInEveryRun(cfg, Init(es), sc);
      InitialInv(cfg);
      AlwaysInv(Initial(cfg), Init(es));
      StepRequests(After(Initial(cfg), Init(es)), Last(es), sc);
    }
  }

  /** In every run, gRPC was asked to resolve again once for each TransientFailure of a mapped SubConn. */
  lemma {:induction false} ResolvesInEveryRun(cfg: Config, es: seq<Event>)
    requires Legal(Initial(cfg), es)
    ensures After(Initial(cfg), es).pool.resolves == AllReports(Initial(cfg), es, TransientFailure)
  {
    if es != [] {
      ResolvesInEveryRun(cfg, Init(es));
      InitialInv(cfg);
      AlwaysInv(Initial(cfg), Init(es));
      StepRequests(After(Initial(cfg), Init(es)), Last(es), 0);
    }
  }
}
