/**
 What an entry's health stands for: with checks disabled, the history of its
 own connectivity events; with checks enabled, verdicts delivered by key.
 */
module BalancerHealth {
  import opened Basics
  import opened Wrappers
  import opened Ordering
  import Endpoints
  import opened PoolState
  import opened PoolBatch
  import opened BalancerState
  import opened BalancerRuns

  // ---------------------------------------------------------------------
  // Checks disabled
  // ---------------------------------------------------------------------

  /** Neither the initial configuration nor any later one turns checks on. */
  predicate ChecksOff(cfg: Config, es: seq<Event>) {
    && !cfg.enableHealthCheck
    && forall i :: 0 <= i < |es| && es[i].Resolve? && es[i].cfg.Some? ==> !es[i].cfg.value.enableHealthCheck
  }

  /** What the latest Ready, TransientFailure or Shutdown event of a SubConn says. */
  function LatestVerdict(es: seq<Event>, sc: nat): Health {
    if es == [] then Unknown
    else OwnVerdict(LatestVerdict(Init(es), sc), Last(es), sc)
  }

  function OwnVerdict(before: Health, e: Event, sc: nat): Health {
    if !e.SubConnChange? || e.sc != sc then before
    else
      match e.conn
      case Ready => Serving
      case TransientFailure => NotServing
      case ShutDown => NotServing
      case Idle => before
      case Connecting => before
  }

  /** Every record after the two loops was there before, or is as Add creates it. */
  ghost predicate OldOrNew(p: Pool, q: Pool) {
    && q.owners == p.owners && |p.keys| <= |q.keys|
    && forall k :: k in q.live ==>
         (k in p.live && q.live[k] == p.live[k]) || (q.live[k].sc >= |p.keys| && q.live[k].health == Unknown)
  }

  lemma ReconciledOldOrNew(b: Balancer, adds: seq<Endpoints.Key>, oks: seq<bool>, removes: seq<Endpoints.Key>)
    requires |b.pool.keys| == |b.pool.flight| && |adds| == |oks| && NoDuplicates(adds)
    requires Elements(adds) !! EndpointsOf(b.pool.live)
    ensures OldOrNew(b.pool, Reconciled(b, adds, oks, removes).pool)
  {
    var ns, svc := b.cfg.namespace, b.cfg.service;
    AddsAbsent(b.pool, ns, svc, adds);
    AddAllExtends(b.pool, ns, svc, adds, oks);
    RemoveAllEffect(AddAll(b.pool, ns, svc, adds, oks), ns, svc, removes);
  }

  /** Only the record of the SubConn itself changes; with checks off, to what the event says. */
  ghost predicate OwnRecordOnly(p: Pool, q: Pool, sc: nat, health: Health)
    requires sc < |p.keys|
  {
    var key := p.keys[sc];
    && key in p.live && key in q.live
    && q.live == p.live[key := q.live[key]]
    && q.live[key].sc == sc && q.live[key].health == health
    && q.keys == p.keys && q.owners == p.owners
  }

  lemma ConnectivityOwnRecord(cfg: Config, p: Pool, e: Event)
    requires e.SubConnChange? && e.sc < |p.keys| && IsLive(p, e.sc) && !cfg.enableHealthCheck
    ensures OwnRecordOnly(p, Connectivity(cfg, p, e.sc, e.conn, e.start), e.sc,
                          OwnVerdict(p.live[p.keys[e.sc]].health, e, e.sc))
  {
  }

  /** The entries' health is the fold of their own events; SubConns to come have none. */
  ghost predicate PoolFolded(p: Pool, es: seq<Event>) {
    && p.owners == []
    && (forall k :: k in p.live ==> p.live[k].health == LatestVerdict(es, p.live[k].sc))
    && (forall sc :: sc >= |p.keys| ==> LatestVerdict(es, sc) == Unknown)
  }

  lemma FoldRecords(p: Pool, q: Pool, es: seq<Event>)
    requires PoolFolded(p, es) && OldOrNew(p, q)
    ensures PoolFolded(q, es)
  {
  }

  lemma FoldOwnRecord(p: Pool, q: Pool, es: seq<Event>, e: Event)
    requires es != [] && Last(es) == e && e.SubConnChange? && e.sc < |p.keys|
    requires PoolFolded(p, Init(es)) && Conserved(p) && IsLive(p, e.sc)
    requires OwnRecordOnly(p, q, e.sc, OwnVerdict(p.live[p.keys[e.sc]].health, e, e.sc))
    ensures PoolFolded(q, es)
  {
    forall k | k in q.live ensures q.live[k].health == LatestVerdict(es, q.live[k].sc) {
      if k != p.keys[e.sc] { assert InMapOnly(p, k); }
    }
  }

  /** An event of a SubConn no longer in the map. */
  lemma FoldStray(p: Pool, es: seq<Event>, e: Event)
    requires es != [] && Last(es) == e && e.SubConnChange? && e.sc < |p.keys|
    requires PoolFolded(p, Init(es)) && Conserved(p) && !IsLive(p, e.sc)
    ensures PoolFolded(p, es)
  {
    forall k | k in p.live ensures p.live[k].health == LatestVerdict(es, p.live[k].sc) {
      assert InMapOnly(p, k);
    }
  }

  lemma FoldOther(p: Pool, es: seq<Event>)
    requires es != [] && !Last(es).SubConnChange? && PoolFolded(p, Init(es))
    ensures PoolFolded(p, es)
  {
  }

  lemma FoldStep(b: Balancer, es: seq<Event>)
    requires es != [] && BalancerInv(b) && Enabled(b, Last(es))
    requires !b.cfg.enableHealthCheck && PoolFolded(b.pool, Init(es))
    requires Last(es).Resolve? && Last(es).cfg.Some? ==> !Last(es).cfg.value.enableHealthCheck
    ensures PoolFolded(Step(b, Last(es)).pool, es) && !Step(b, Last(es)).cfg.enableHealthCheck
  {
    var e := Last(es);
    match e {
      case Resolve(_, _, _, _, _) =>
        FoldOther(b.pool, es);
        var c := Configure(b, e.cfg);
        assert Elements(e.adds) !! EndpointsOf(c.pool.live);
        ReconciledOldOrNew(c, e.adds, e.oks, e.removes);
        FoldRecords(b.pool, Step(b, e).pool, es);
      case SubConnChange(_, _, _) =>
        if IsLive(b.pool, e.sc) {
          ConnectivityOwnRecord(b.cfg, b.pool, e);
          FoldOwnRecord(b.pool, Step(b, e).pool, es, e);
        } else {
          FoldStray(b.pool, es, e);
        }
      case Verdict(_, _) => assert false;
      case Pick(_, _) => FoldOther(b.pool, es);
      case Done(_) => FoldOther(b.pool, es);
      case RRPick(_, _) => FoldOther(b.pool, es);
      case RREnd(_) => FoldOther(b.pool, es);
      case DrainTick(_) => FoldOther(b.pool, es);
      case DrainDeadline(_) => FoldOther(b.pool, es);
    }
  }

  /** In every run with checks disabled, health is the fold of the entry's own events. */
  lemma {:induction false} FoldInEveryRun(cfg: Config, es: seq<Event>)
    requires Legal(Initial(cfg), es) && ChecksOff(cfg, es)
    ensures PoolFolded(After(Initial(cfg), es).pool, es) && !After(Initial(cfg), es).cfg.enableHealthCheck
  {
    if es != [] {
      FoldInEveryRun(cfg, Init(es));
      InitialInv(cfg);
      AlwaysInv(Initial(cfg), Init(es));
      FoldStep(After(Initial(cfg), Init(es)), es);
    }
  }

  /**
   With checks disabled throughout, in every run the installed picker offers a
   SubConn exactly when it is in the map and the latest of its own Ready,
   TransientFailure and Shutdown events is Ready.
   */
  lemma {:induction false} OfferedIffLatestReady(cfg: Config, es: seq<Event>, sc: nat)
    requires Legal(Initial(cfg), es) && ChecksOff(cfg, es)
    requires sc < |After(Initial(cfg), es).pool.keys|
    ensures var b := After(Initial(cfg), es);
      && b.installed != []
      && (Holds(Current(b), sc) <==> IsLive(b.pool, sc) && LatestVerdict(es, sc) == Serving)
  {
    FoldInEveryRun(cfg, es);
    InitialInv(cfg);
    AlwaysInv(Initial(cfg), es);
    HealthyHolds(After(Initial(cfg), es), sc);
  }

  /** An event of one SubConn leaves the entries of all others alone, even under a reused key. */
  lemma ForeignEventsDoNotMatter(b: Balancer, e: Event, k: PoolKey)
    requires BalancerInv(b) && Enabled(b, e) && e.SubConnChange?
    requires k in b.pool.live && b.pool.live[k].sc != e.sc
    ensures k in Step(b, e).pool.live && Step(b, e).pool.live[k] == b.pool.live[k]
  {
    assert InMapOnly(b.pool, k);
    if IsLive(b.pool, e.sc) { ConnectivityElsewhere(b.cfg, b.pool, e.sc, e.conn, e.start, k); }
  }

  lemma ConnectivityElsewhere(cfg: Config, p: Pool, sc: nat, conn: Conn, start: Start, k: PoolKey)
    requires sc < |p.keys| && IsLive(p, sc) && k in p.live && k != p.keys[sc]
    ensures var q := Connectivity(cfg, p, sc, conn, start);
      k in q.live && q.live[k] == p.live[k]
  {
  }

  // ---------------------------------------------------------------------
  // Checks enabled
  // ---------------------------------------------------------------------

  /** The checkers running for a SubConn. */
  ghost function RunningFor(p: Pool, sc: nat): set<nat> {
    set c | 0 <= c < |p.owners| && c !in p.cancelled && p.owners[c].sc == sc
  }

  /** In every run a SubConn in the map has at most one checker running, any other none. */
  lemma {:induction false} CheckersInEveryRun(cfg: Config, es: seq<Event>, sc: nat)
    requires Legal(Initial(cfg), es)
    requires sc < |After(Initial(cfg), es).pool.keys|
    ensures var p := After(Initial(cfg), es).pool;
      RunningFor(p, sc) == if IsLive(p, sc) then CancelOf(p.live[p.keys[sc]]) else {}
  {
    InitialInv(cfg);
    AlwaysInv(Initial(cfg), es);
    var p := After(Initial(cfg), es).pool;
    forall c | c in RunningFor(p, sc)
      ensures IsLive(p, sc) && p.live[p.keys[sc]].cancel == Some(c)
    {
      var k := p.owners[c].key;
      assert WatchedBy(p, k, c);
      assert InMapOnly(p, k);
    }
    if IsLive(p, sc) && p.live[p.keys[sc]].cancel.Some? {
      assert WatchedBy(p, p.keys[sc], p.live[p.keys[sc]].cancel.value);
    }
  }

  /** The step for a verdict changes no record but those of SubConn `sc`. */
  ghost predicate TouchesOnly(b: Balancer, e: Event, sc: nat)
    requires Enabled(b, e)
  {
    forall k :: k in b.pool.live && (k !in Step(b, e).pool.live || Step(b, e).pool.live[k] != b.pool.live[k])
      ==> b.pool.live[k].sc == sc
  }

  /**
   A verdict is delivered under the key of the entry its checker was started
   for. It can touch no other SubConn exactly when that key is free or still
   belongs to the same SubConn; a checker not cancelled always meets this.
   */
  lemma VerdictsStayHomeIff(b: Balancer, c: nat)
    requires BalancerInv(b) && c < |b.pool.owners|
    ensures (forall h :: TouchesOnly(b, Verdict(c, h), b.pool.owners[c].sc))
       <==> (b.pool.owners[c].key in b.pool.live ==>
               b.pool.live[b.pool.owners[c].key].sc == b.pool.owners[c].sc)
    ensures c !in b.pool.cancelled ==> forall h :: TouchesOnly(b, Verdict(c, h), b.pool.owners[c].sc)
  {
    var o := b.pool.owners[c];
    forall h ensures TouchesOnly(b, Verdict(c, h), o.sc) <==>
      (o.key in b.pool.live && b.pool.live[o.key].health != h ==> b.pool.live[o.key].sc == o.sc)
    {
      VerdictTouches(b, c, h);
    }
    if o.key in b.pool.live && b.pool.live[o.key].sc != o.sc {
      var h := if b.pool.live[o.key].health == Serving then NotServing else Serving;
      assert !TouchesOnly(b, Verdict(c, h), o.sc);
    }
    if c !in b.pool.cancelled { assert WatchedBy(b.pool, o.key, c); }
  }

  lemma VerdictTouches(b: Balancer, c: nat, h: Health)
    requires c < |b.pool.owners|
    ensures var o := b.pool.owners[c];
      TouchesOnly(b, Verdict(c, h), o.sc) <==>
      (o.key in b.pool.live && b.pool.live[o.key].health != h ==> b.pool.live[o.key].sc == o.sc)
  {
    var o, after := b.pool.owners[c], Step(b, Verdict(c, h)).pool;
    assert after == SetHealth(b.pool, b.pool.owners[c].key, h);
    if o.key in b.pool.live && b.pool.live[o.key].health != h {
      assert after.live[o.key] != b.pool.live[o.key];
    }
  }
}
