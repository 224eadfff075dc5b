/** What one resolver update does to the pool, and when it reaches its target. */
module Convergence {
  import opened Basics
  import opened Wrappers
  import opened Ordering
  import opened Endpoints
  import opened AddressText
  import opened Cap
  import opened Reconcile
  import opened PoolState
  import opened PoolBatch
  import opened BalancerState
  import opened BalancerRuns

  /** The pool keys an update aims at: the capped, parsed addresses under the configured identity. */
  ghost function Target(cfg: Config, addrs: seq<string>): set<PoolKey> {
    Placed(cfg.namespace, cfg.service, Wanted(cfg, addrs))
  }

  /** Every entry was added under this namespace and service. */
  ghost predicate UnderIdentity(live: map<PoolKey, Rec>, cfg: Config) {
    forall k :: k in live ==> k.namespace == cfg.namespace && k.service == cfg.service
  }

  predicate AllCreated(oks: seq<bool>) { forall i :: 0 <= i < |oks| ==> oks[i] }

  /** The entries a resolver update removes. */
  ghost function Stale(cfg: Config, addrs: seq<string>, live: map<PoolKey, Rec>): set<PoolKey> {
    Placed(cfg.namespace, cfg.service, EndpointsOf(live) - Wanted(cfg, addrs))
  }

  /**
   The effect of an update: the missing endpoints whose SubConn gRPC creates
   are added, the stale ones drain, every other entry is untouched, and
   nothing is evicted or shut down.
   */
  ghost predicate UpdateEffect(p: Pool, q: Pool, created: set<PoolKey>, stale: set<PoolKey>) {
    && UpdatedEntries(p, q, created, stale)
    && |q.flight| == |p.flight| + |created|
    && q.draining == p.draining + SubConnsOf(p, stale)
    && q.shut == p.shut
  }

  ghost predicate UpdatedEntries(p: Pool, q: Pool, created: set<PoolKey>, stale: set<PoolKey>) {
    && q.live.Keys == (p.live.Keys - stale) + created
    && created !! p.live.Keys
    && (forall k :: k in p.live && k !in stale ==> q.live[k] == p.live[k])
    && (forall k :: k in created ==> IsNew(p, q.live[k]))
  }

  lemma AtInjective(ns: string, svc: string, K: set<Key>)
    ensures |Placed(ns, svc, K)| == |K|
    decreases |K|
  {
    if K != {} {
      var k :| k in K;
      AtInjective(ns, svc, K - {k});
      assert Placed(ns, svc, K) == Placed(ns, svc, K - {k}) + {At(ns, svc, k)};
    } else {
      assert Placed(ns, svc, K) == {};
    }
  }

  /** Adding absent keys consumes one SubConn number per success. */
  lemma {:induction false} AddAllCount(p: Pool, ns: string, svc: string, ks: seq<Key>, oks: seq<bool>)
    requires |ks| == |oks| && NoDuplicates(ks)
    ensures |AddAll(p, ns, svc, ks, oks).flight| == |p.flight| + |Succeeded(ks, oks)|
  {
    if ks != [] {
      var n := |ks| - 1;
      AddAllCount(p, ns, svc, ks[..n], oks[..n]);
      SucceededSnoc(ks, oks);
      SucceededAll(ks[..n], oks[..n]);
      assert ks[n] !in Elements(ks[..n]);
    } else {
      assert Succeeded(ks, oks) == {};
    }
  }

  lemma ReconciledEffect(b: Balancer, adds: seq<Key>, oks: seq<bool>, removes: seq<Key>, want: set<Key>)
    requires |b.pool.keys| == |b.pool.flight| && |oks| == |adds|
    requires Lists(adds, want - EndpointsOf(b.pool.live))
    requires Lists(removes, EndpointsOf(b.pool.live) - want)
    ensures UpdateEffect(b.pool, Reconciled(b, adds, oks, removes).pool,
                         Placed(b.cfg.namespace, b.cfg.service, Succeeded(adds, oks)),
                         Placed(b.cfg.namespace, b.cfg.service, EndpointsOf(b.pool.live) - want))
  {
    var p, ns, svc := b.pool, b.cfg.namespace, b.cfg.service;
    AddsAbsent(p, ns, svc, adds);
    AddAllExtends(p, ns, svc, adds, oks);
    AddAllCount(p, ns, svc, adds, oks);
    AtInjective(ns, svc, Succeeded(adds, oks));
    SucceededAll(adds, oks);
    var q := AddAll(p, ns, svc, adds, oks);
    var created := Placed(ns, svc, Succeeded(adds, oks));
    var stale := Placed(ns, svc, EndpointsOf(p.live) - want);
    RemoveAllEffect(q, ns, svc, removes);
    forall k | k in created ensures k !in p.live && k !in stale {
      assert Ep(k) in Elements(adds);
      assert k in p.live ==> Ep(k) in EndpointsOf(p.live);
    }
    EffectComposes(p, q, RemoveAll(q, ns, svc, removes), created, stale);
  }

  lemma EffectComposes(p: Pool, q: Pool, r: Pool, created: set<PoolKey>, stale: set<PoolKey>)
    requires q.live.Keys == p.live.Keys + created
    requires forall k :: k in p.live ==> q.live[k] == p.live[k]
    requires forall k :: k in created ==> IsNew(p, q.live[k])
    requires |q.flight| == |p.flight| + |created|
    requires q.draining == p.draining && q.shut == p.shut
    requires created !! p.live.Keys && created !! stale
    requires r.live == q.live - stale
    requires r.draining == q.draining + SubConnsOf(q, stale)
    requires r.shut == q.shut && r.flight == q.flight
    ensures UpdateEffect(p, r, created, stale)
  {
    assert forall k :: k in stale ==> (k in q.live.Keys <==> k in p.live.Keys);
    SubConnsOfSame(p, q, stale);
    EntriesCompose(p, q, r, created, stale);
  }

  lemma EntriesCompose(p: Pool, q: Pool, r: Pool, created: set<PoolKey>, stale: set<PoolKey>)
    requires q.live.Keys == p.live.Keys + created
    requires forall k :: k in p.live ==> q.live[k] == p.live[k]
    requires forall k :: k in created ==> IsNew(p, q.live[k])
    requires created !! p.live.Keys && created !! stale
    requires r.live == q.live - stale
    ensures UpdatedEntries(p, r, created, stale)
  {
    assert r.live.Keys == (p.live.Keys - stale) + created;
    assert forall k :: k in created ==> k in r.live.Keys;
  }

  lemma SubConnsOfSame(p: Pool, q: Pool, K: set<PoolKey>)
    requires forall k :: k in K ==> (k in q.live <==> k in p.live)
    requires forall k :: k in K && k in p.live ==> q.live[k] == p.live[k]
    ensures SubConnsOf(q, K) == SubConnsOf(p, K)
  {
  }

  lemma {:induction false} ResolveEffect(b: Balancer, e: Event)
    requires BalancerInv(b) && e.Resolve? && Enabled(b, e)
    ensures var cfg := Configure(b, e.cfg).cfg;
      UpdateEffect(b.pool, Step(b, e).pool,
                   Placed(cfg.namespace, cfg.service, Succeeded(e.adds, e.oks)),
                   Stale(cfg, e.addrs, b.pool.live))
  {
    var c := Configure(b, e.cfg);
    assert Conserved(b.pool);
    ReconciledEffect(c, e.adds, e.oks, e.removes, Wanted(c.cfg, e.addrs));
  }

  /** The part of the effect that names only keys and draining SubConns. */
  lemma ResolveKeys(b: Balancer, e: Event)
    requires BalancerInv(b) && e.Resolve? && Enabled(b, e)
    ensures var cfg := Configure(b, e.cfg).cfg;
      && Step(b, e).pool.live.Keys == (b.pool.live.Keys - Stale(cfg, e.addrs, b.pool.live))
                                      + Placed(cfg.namespace, cfg.service, Succeeded(e.adds, e.oks))
      && Step(b, e).pool.draining == b.pool.draining + SubConnsOf(b.pool, Stale(cfg, e.addrs, b.pool.live))
  {
    ResolveEffect(b, e);
  }

  // ---------------------------------------------------------------------
  // Convergence
  // ---------------------------------------------------------------------

  lemma IdentityPlaced(live: map<PoolKey, Rec>, cfg: Config)
    requires UnderIdentity(live, cfg)
    ensures live.Keys == Placed(cfg.namespace, cfg.service, EndpointsOf(live))
  {
    forall k | k in live ensures k in Placed(cfg.namespace, cfg.service, EndpointsOf(live)) {
      assert k == At(cfg.namespace, cfg.service, Ep(k));
      assert Ep(k) in EndpointsOf(live);
    }
    forall k | k in EndpointsOf(live) ensures At(cfg.namespace, cfg.service, k) in live {
      var j :| j in live && Ep(j) == k;
      assert j == At(cfg.namespace, cfg.service, k);
    }
  }

  /**
   Whatever the order of addresses and of map iteration, and whatever was in
   the pool: an update leaves exactly the capped, parsed address set if and
   only if no entry was added under another namespace or service and gRPC
   creates every missing SubConn.
   */
  lemma {:induction false} ConvergesIff(b: Balancer, e: Event)
    requires BalancerInv(b) && e.Resolve? && Enabled(b, e)
    ensures var cfg := Configure(b, e.cfg).cfg;
      Step(b, e).pool.live.Keys == Target(cfg, e.addrs)
      <==> UnderIdentity(b.pool.live, cfg) && AllCreated(e.oks)
  {
    var cfg := Configure(b, e.cfg).cfg;
    var ns, svc := cfg.namespace, cfg.service;
    var have, want := EndpointsOf(b.pool.live), Wanted(cfg, e.addrs);
    ResolveEffect(b, e);
    SucceededAll(e.adds, e.oks);
    KeysAfter(b.pool.live, Step(b, e).pool.live, ns, svc, have, want, Succeeded(e.adds, e.oks), cfg);
  }

  lemma KeysAfter(live: map<PoolKey, Rec>, after: map<PoolKey, Rec>, ns: string, svc: string,
                  have: set<Key>, want: set<Key>, made: set<Key>, cfg: Config)
    requires ns == cfg.namespace && svc == cfg.service
    requires have == EndpointsOf(live) && made <= want - have
    requires after.Keys == (live.Keys - Placed(ns, svc, have - want)) + Placed(ns, svc, made)
    ensures after.Keys == Placed(ns, svc, want) <==> UnderIdentity(live, cfg) && made == want - have
  {
    if UnderIdentity(live, cfg) {
      IdentityPlaced(live, cfg);
      PlacedAlgebra(ns, svc, have, want, made);
      if made != want - have {
        var k := Missing(want - have, made);
        assert At(ns, svc, k) in Placed(ns, svc, want);
        assert At(ns, svc, k) !in after by {
          forall j | j in (have * want) + made ensures At(ns, svc, j) != At(ns, svc, k) {}
        }
      }
    } else {
      var k :| k in live && !(k.namespace == ns && k.service == svc);
      assert k in after;
    }
  }

  /** A member of `big` that `small`, a different subset of it, lacks. */
  lemma Missing<T>(big: set<T>, small: set<T>) returns (x: T)
    requires small <= big && small != big
    ensures x in big && x !in small
  {
    assert exists y :: y in big && y !in small;
    x :| x in big && x !in small;
  }

  lemma PlacedAlgebra(ns: string, svc: string, have: set<Key>, want: set<Key>, made: set<Key>)
    ensures (Placed(ns, svc, have) - Placed(ns, svc, have - want)) + Placed(ns, svc, made)
         == Placed(ns, svc, (have * want) + made)
    ensures made == want - have ==> (have * want) + made == want
  {
    forall k ensures k in Placed(ns, svc, have) - Placed(ns, svc, have - want) <==> k in Placed(ns, svc, have * want) {
      if k in Placed(ns, svc, have) { assert k == At(ns, svc, Ep(k)) && Ep(k) in have; }
      if k in Placed(ns, svc, have - want) { assert k == At(ns, svc, Ep(k)) && Ep(k) in have - want; }
      if k in Placed(ns, svc, have) && k !in Placed(ns, svc, have - want) {
        assert Ep(k) in have * want;
      }
    }
  }

  /** Every configuration of the run names the namespace and service of the first. */
  predicate SteadyIdentity(cfg: Config, es: seq<Event>) {
    forall i :: 0 <= i < |es| && es[i].Resolve? && es[i].cfg.Some? ==>
      es[i].cfg.value.namespace == cfg.namespace && es[i].cfg.value.service == cfg.service
  }

  lemma ConnectivityKeys(cfg: Config, p: Pool, sc: nat, conn: Conn, start: Start)
    requires sc < |p.keys| && IsLive(p, sc)
    ensures Connectivity(cfg, p, sc, conn, start).live.Keys == p.live.Keys
  {
  }

  /** Only resolver updates change which keys are in the map. */
  lemma StepKeepsKeys(b: Balancer, e: Event)
    requires Enabled(b, e) && !e.Resolve?
    ensures Step(b, e).pool.live.Keys == b.pool.live.Keys
    ensures Step(b, e).cfg == b.cfg
  {
    if e.SubConnChange? && IsLive(b.pool, e.sc) {
      ConnectivityKeys(b.cfg, b.pool, e.sc, e.conn, e.start);
    }
  }

  lemma IdentityKept(live: map<PoolKey, Rec>, after: map<PoolKey, Rec>, cfg: Config, made: set<Key>)
    requires UnderIdentity(live, cfg)
    requires after.Keys <= live.Keys + Placed(cfg.namespace, cfg.service, made)
    ensures UnderIdentity(after, cfg)
  {
    forall k | k in after ensures k.namespace == cfg.namespace && k.service == cfg.service {
      assert k in after.Keys;
    }
  }

  lemma StepIdentity(b: Balancer, e: Event, cfg: Config)
    requires BalancerInv(b) && Enabled(b, e) && UnderIdentity(b.pool.live, cfg)
    requires b.cfg.namespace == cfg.namespace && b.cfg.service == cfg.service
    requires e.Resolve? && e.cfg.Some? ==>
      e.cfg.value.namespace == cfg.namespace && e.cfg.value.service == cfg.service
    ensures var s := Step(b, e);
      && s.cfg.namespace == cfg.namespace && s.cfg.service == cfg.service
      && UnderIdentity(s.pool.live, cfg)
  {
    if e.Resolve? {
      ResolveKeys(b, e);
      IdentityKept(b.pool.live, Step(b, e).pool.live, cfg, Succeeded(e.adds, e.oks));
    } else {
      StepKeepsKeys(b, e);
      IdentityKept(b.pool.live, Step(b, e).pool.live, cfg, {});
    }
  }

  /** With a steady identity all entries are under it, in every run. */
  lemma {:induction false} IdentityInEveryRun(cfg: Config, es: seq<Event>)
    requires Legal(Initial(cfg), es) && SteadyIdentity(cfg, es)
    ensures var b := After(Initial(cfg), es);
      && b.cfg.namespace == cfg.namespace && b.cfg.service == cfg.service
      && UnderIdentity(b.pool.live, cfg)
  {
    if es != [] {
      IdentityInEveryRun(cfg, Init(es));
      InitialInv(cfg);
      AlwaysInv(Initial(cfg), Init(es));
      var b, e := After(Initial(cfg), Init(es)), Last(es);
      StepIdentity(b, e, cfg);
    }
  }

  /** In every run with a steady identity, an update whose creations succeed reaches its target. */
  lemma {:induction false} ConvergesInEveryRun(cfg: Config, es: seq<Event>)
    requires es != [] && Legal(Initial(cfg), es) && SteadyIdentity(cfg, es)
    requires Last(es).Resolve? && AllCreated(Last(es).oks)
    ensures var b := After(Initial(cfg), es);
      b.pool.live.Keys == Target(b.cfg, Last(es).addrs)
  {
    var b, e := After(Initial(cfg), Init(es)), Last(es);
    InitialInv(cfg);
    AlwaysInv(Initial(cfg), Init(es));
    assert SteadyIdentity(cfg, Init(es));
    IdentityInEveryRun(cfg, Init(es));
    SteadyConverges(b, e, cfg);
  }

  lemma SteadyConverges(b: Balancer, e: Event, cfg: Config)
    requires BalancerInv(b) && Enabled(b, e) && UnderIdentity(b.pool.live, cfg)
    requires b.cfg.namespace == cfg.namespace && b.cfg.service == cfg.service
    requires e.Resolve? && AllCreated(e.oks)
    requires e.cfg.Some? ==> e.cfg.value.namespace == cfg.namespace && e.cfg.value.service == cfg.service
    ensures Step(b, e).pool.live.Keys == Target(Step(b, e).cfg, e.addrs)
  {
    ConvergesIff(b, e);
  }

  // ---------------------------------------------------------------------
  // The cap over runs
  // ---------------------------------------------------------------------

  /** With a cap, the pool has at most that many entries. */
  predicate WithinCap(b: Balancer) {
    b.cfg.maxSubconns > 0 ==> |b.pool.live| <= b.cfg.maxSubconns
  }

  lemma NoMoreThanWanted(live: map<PoolKey, Rec>, after: map<PoolKey, Rec>, cfg: Config, want: set<Key>, made: set<Key>)
    requires UnderIdentity(live, cfg) && made <= want
    requires after.Keys == (live.Keys - Placed(cfg.namespace, cfg.service, EndpointsOf(live) - want))
                           + Placed(cfg.namespace, cfg.service, made)
    ensures after.Keys <= Placed(cfg.namespace, cfg.service, want) && |after| <= |want|
  {
    var ns, svc := cfg.namespace, cfg.service;
    IdentityPlaced(live, cfg);
    PlacedAlgebra(ns, svc, EndpointsOf(live), want, made);
    assert after.Keys <= Placed(ns, svc, want);
    SubsetSize(after.Keys, Placed(ns, svc, want));
    AtInjective(ns, svc, want);
    assert |after| == |after.Keys|;
  }

  /**
   What an update asks for: as many of the identities that parse as the cap
   allows, all of them without a cap, and those whose text comes first.
   */
  lemma {:induction false} WantedExactly(cfg: Config, addrs: seq<string>)
    ensures var all, want := Desired(addrs), Wanted(cfg, addrs);
      && want <= all
      && |want| == (if 0 < cfg.maxSubconns < |all| then cfg.maxSubconns else |all|)
      && forall k, x :: k in want && x in all - want ==> FirstDiffers(k, x)
  {
    hide Desired;
    CappedExactly(Desired(addrs), cfg.maxSubconns);
  }

  /** An update that reaches its target leaves one entry for each identity it asks for. */
  lemma {:induction false} ConvergedSize(b: Balancer, e: Event)
    requires BalancerInv(b) && e.Resolve? && Enabled(b, e) && AllCreated(e.oks)
    requires UnderIdentity(b.pool.live, Configure(b, e.cfg).cfg)
    ensures var n, m := |Desired(e.addrs)|, Configure(b, e.cfg).cfg.maxSubconns;
      |Step(b, e).pool.live| == if 0 < m < n then m else n
  {
    hide Wanted, Desired;
    var cfg := Configure(b, e.cfg).cfg;
    ConvergesIff(b, e);
    WantedExactly(cfg, e.addrs);
    AtInjective(cfg.namespace, cfg.service, Wanted(cfg, e.addrs));
    assert |Step(b, e).pool.live| == |Step(b, e).pool.live.Keys|;
  }

  lemma WantedWithinCap(cfg: Config, addrs: seq<string>)
    requires cfg.maxSubconns > 0
    ensures |Wanted(cfg, addrs)| <= cfg.maxSubconns
  {
    CappedIsSmallest(Desired(addrs), cfg.maxSubconns);
  }

  /** An update leaves no more entries than the cap, whichever creations fail. */
  lemma ResolveWithinCap(b: Balancer, e: Event)
    requires BalancerInv(b) && e.Resolve? && Enabled(b, e)
    requires UnderIdentity(b.pool.live, Configure(b, e.cfg).cfg)
    ensures WithinCap(Step(b, e))
  {
    var cfg := Configure(b, e.cfg).cfg;
    ResolveKeys(b, e);
    SucceededAll(e.adds, e.oks);
    NoMoreThanWanted(b.pool.live, Step(b, e).pool.live, cfg, Wanted(cfg, e.addrs), Succeeded(e.adds, e.oks));
    if cfg.maxSubconns > 0 { WantedWithinCap(cfg, e.addrs); }
  }

  /** In every run with a steady identity, the pool stays within the configured cap at every step. */
  lemma {:induction false} CapInEveryRun(cfg: Config, es: seq<Event>)
    requires Legal(Initial(cfg), es) && SteadyIdentity(cfg, es)
    ensures WithinCap(After(Initial(cfg), es))
  {
    if es != [] {
      var b, e := After(Initial(cfg), Init(es)), Last(es);
      CapInEveryRun(cfg, Init(es));
      InitialInv(cfg);
      AlwaysInv(Initial(cfg), Init(es));
      IdentityInEveryRun(cfg, Init(es));
      if e.Resolve? {
        ResolveWithinCap(b, e);
      } else {
        StepKeepsKeys(b, e);
        assert |Step(b, e).pool.live| == |Step(b, e).pool.live.Keys|;
        assert |b.pool.live| == |b.pool.live.Keys|;
      }
    }
  }

  // ---------------------------------------------------------------------
  // Entries under another identity
  // ---------------------------------------------------------------------

  /** The configuration names the namespace and service an entry was added under. */
  predicate Names(cfg: Config, k: PoolKey) {
    cfg.namespace == k.namespace && cfg.service == k.service
  }

  lemma StaleExactly(cfg: Config, addrs: seq<string>, live: map<PoolKey, Rec>, k: PoolKey)
    requires k in live
    ensures k in Stale(cfg, addrs, live) <==> Names(cfg, k) && Ep(k) !in Wanted(cfg, addrs)
  {
    assert Ep(k) in EndpointsOf(live);
    if Names(cfg, k) { assert At(cfg.namespace, cfg.service, Ep(k)) == k; }
  }

  /**
   An update removes an entry exactly when its configuration names the
   entry's identity and no longer wants its endpoint. Any other entry keeps
   its record.
   */
  lemma {:induction false} RemovedIff(b: Balancer, e: Event, k: PoolKey)
    requires BalancerInv(b) && e.Resolve? && Enabled(b, e) && k in b.pool.live
    ensures var cfg, live := Configure(b, e.cfg).cfg, Step(b, e).pool.live;
      && (k !in live <==> Names(cfg, k) && Ep(k) !in Wanted(cfg, e.addrs))
      && (k in live ==> live[k] == b.pool.live[k])
  {
    ResolveEffect(b, e);
    StaleExactly(Configure(b, e.cfg).cfg, e.addrs, b.pool.live, k);
  }

  lemma StepKeepsSubConn(b: Balancer, e: Event, k: PoolKey)
    requires Enabled(b, e) && !e.Resolve? && k in b.pool.live
    ensures k in Step(b, e).pool.live && Step(b, e).pool.live[k].sc == b.pool.live[k].sc
  {
    if e.SubConnChange? && IsLive(b.pool, e.sc) { ConnectivitySubConn(b.cfg, b.pool, e.sc, e.conn, e.start, k); }
  }

  lemma ConnectivitySubConn(cfg: Config, p: Pool, sc: nat, conn: Conn, start: Start, k: PoolKey)
    requires sc < |p.keys| && IsLive(p, sc) && k in p.live
    ensures var q := Connectivity(cfg, p, sc, conn, start);
      k in q.live && q.live[k].sc == p.live[k].sc
  {
  }

  /** No configuration, neither the present one nor a later one, names the entry's identity. */
  predicate NeverNamed(cfg: Config, es: seq<Event>, k: PoolKey) {
    && !Names(cfg, k)
    && forall i :: 0 <= i < |es| && es[i].Resolve? && es[i].cfg.Some? ==> !Names(es[i].cfg.value, k)
  }

  /** As long as its identity is not configured, an entry is never removed. */
  lemma {:induction false} ForeignEntryStays(b: Balancer, es: seq<Event>, k: PoolKey)
    requires BalancerInv(b) && Legal(b, es) && k in b.pool.live && NeverNamed(b.cfg, es, k)
    ensures var s := After(b, es);
      k in s.pool.live && s.pool.live[k].sc == b.pool.live[k].sc && !Names(s.cfg, k)
  {
    if es != [] {
      assert NeverNamed(b.cfg, Init(es), k);
      ForeignEntryStays(b, Init(es), k);
      AlwaysInv(b, Init(es));
      var c, e := After(b, Init(es)), Last(es);
      if e.Resolve? { RemovedIff(c, e, k); } else { StepKeepsSubConn(c, e, k); StepKeepsKeys(c, e); }
    }
  }

  // ---------------------------------------------------------------------
  // Repeating, and changing by one
  // ---------------------------------------------------------------------

  lemma TargetEndpoints(cfg: Config, addrs: seq<string>, live: map<PoolKey, Rec>)
    requires live.Keys == Target(cfg, addrs)
    ensures EndpointsOf(live) == Wanted(cfg, addrs)
  {
    forall k | k in Wanted(cfg, addrs) ensures k in EndpointsOf(live) {
      assert At(cfg.namespace, cfg.service, k) in Target(cfg, addrs);
      assert Ep(At(cfg.namespace, cfg.service, k)) == k;
    }
  }

  /** Repeating an update that reached its target creates and removes nothing. */
  lemma RepeatingDoesNothing(b: Balancer, e: Event)
    requires e.Resolve? && Enabled(b, e)
    requires b.pool.live.Keys == Target(Configure(b, e.cfg).cfg, e.addrs)
    ensures e.adds == [] && e.removes == [] && Step(b, e).pool == b.pool
  {
    TargetEndpoints(Configure(b, e.cfg).cfg, e.addrs, b.pool.live);
    NonemptyElements(e.adds);
    NonemptyElements(e.removes);
  }

  /**
   In a pool that is on target, an update that resolves one endpoint more or
   one fewer makes at most one creation and one removal, capped or not.
   */
  lemma {:induction false} OneEndpointOneUpdate(b: Balancer, e: Event, before: seq<string>, k: Key)
    requires e.Resolve? && Enabled(b, e)
    requires b.pool.live.Keys == Target(Configure(b, e.cfg).cfg, before)
    requires Desired(e.addrs) == Desired(before) + {k} || Desired(before) == Desired(e.addrs) + {k}
    ensures |e.adds| <= 1 && |e.removes| <= 1
  {
    var cfg := Configure(b, e.cfg).cfg;
    TargetEndpoints(cfg, before, b.pool.live);
    NoDuplicatesSize(e.adds);
    NoDuplicatesSize(e.removes);
    OneEndpointOneChange(Desired(before), k, cfg.maxSubconns);
    OneEndpointOneChange(Desired(e.addrs), k, cfg.maxSubconns);
    var was, will := Wanted(cfg, before), Wanted(cfg, e.addrs);
    if Desired(e.addrs) == Desired(before) + {k} {
      SubsetSize(will - was, {k});
    } else {
      SubsetSize(was - will, {k});
    }
  }

  // ---------------------------------------------------------------------
  // From a resolver snapshot to the pool
  // ---------------------------------------------------------------------

  /** The addresses the resolver adapter sends for a snapshot. */
  function Printed(eps: seq<Endpoint>): seq<string> {
    if eps == [] then [] else [EndpointText(eps[0])] + Printed(eps[1..])
  }

  predicate Printable(eps: seq<Endpoint>) {
    forall e :: e in eps ==> NoSpace(e.address) && ValidPort(e.port)
  }

  lemma DesiredCons(address: string, port: int, rest: seq<string>)
    requires NoSpace(address) && ValidPort(port)
    ensures Desired([AddrPort(address, port)] + rest) == {Key(address, port)} + Desired(rest)
  {
    PrintThenParse(address, port);
    var all := [AddrPort(address, port)] + rest;
    assert forall a :: a in all <==> a == AddrPort(address, port) || a in rest;
  }

  lemma KeysOfCons(e: Endpoint, rest: seq<Endpoint>)
    ensures KeysOf([e] + rest) == {KeyOf(e)} + KeysOf(rest)
  {
    assert forall x :: x in [e] + rest <==> x == e || x in rest;
  }

  /** One address for each endpoint, in the order of the snapshot. */
  lemma {:induction false} PrintedInOrder(eps: seq<Endpoint>, i: nat)
    requires i < |eps|
    ensures |Printed(eps)| == |eps| && Printed(eps)[i] == AddrPort(eps[i].address, eps[i].port)
  {
    PrintedSize(eps);
    if i > 0 { PrintedInOrder(eps[1..], i - 1); }
  }

  lemma {:induction false} PrintedSize(eps: seq<Endpoint>)
    ensures |Printed(eps)| == |eps|
  {
    if eps != [] { PrintedSize(eps[1..]); }
  }

  /** No endpoint is lost or invented between the resolver and the balancer. */
  lemma {:induction false} SnapshotArrives(eps: seq<Endpoint>)
    requires Printable(eps)
    ensures Desired(Printed(eps)) == KeysOf(eps)
  {
    if eps != [] {
      var rest := eps[1..];
      SnapshotArrives(rest);
      assert eps == [eps[0]] + rest;
      KeysOfCons(eps[0], rest);
      DesiredCons(eps[0].address, eps[0].port, Printed(rest));
    }
  }

  /**
   A snapshot without endpoints, as the resolver forwards at the start of an
   outage, drains the whole pool and leaves the no-healthy picker installed.
   */
  lemma EmptySnapshotDrainsAll(b: Balancer, e: Event)
    requires BalancerInv(b) && e.Resolve? && Enabled(b, e) && e.addrs == Printed([])
    requires UnderIdentity(b.pool.live, Configure(b, e.cfg).cfg)
    ensures var s := Step(b, e);
      && s.pool.live == map[]
      && s.pool.draining == b.pool.draining + SubConnsOf(b.pool, b.pool.live.Keys)
      && s.installed != [] && Current(s) == Installed(NoHealthy, [])
      && s.reported == Some(TransientFailure)
  {
    EmptyTarget(b, e);
    StepInv(b, e);
    NothingServes(Step(b, e));
  }

  lemma EmptyTarget(b: Balancer, e: Event)
    requires BalancerInv(b) && e.Resolve? && Enabled(b, e) && e.addrs == []
    requires UnderIdentity(b.pool.live, Configure(b, e.cfg).cfg)
    ensures var q := Step(b, e).pool;
      q.live == map[] && q.draining == b.pool.draining + SubConnsOf(b.pool, b.pool.live.Keys)
  {
    var cfg := Configure(b, e.cfg).cfg;
    assert Desired(e.addrs) == {};
    assert Wanted(cfg, e.addrs) == {};
    ResolveKeys(b, e);
    IdentityPlaced(b.pool.live, cfg);
    NonemptyElements(e.adds);
    NoneLeft(b.pool.live, Step(b, e).pool.live, cfg, EndpointsOf(b.pool.live), Succeeded(e.adds, e.oks));
  }

  lemma NoneLeft(live: map<PoolKey, Rec>, after: map<PoolKey, Rec>, cfg: Config, have: set<Key>, made: set<Key>)
    requires live.Keys == Placed(cfg.namespace, cfg.service, have) && made == {}
    requires after.Keys == (live.Keys - Placed(cfg.namespace, cfg.service, have - {}))
                           + Placed(cfg.namespace, cfg.service, made)
    ensures after == map[]
    ensures Placed(cfg.namespace, cfg.service, have - {}) == live.Keys
  {
    assert have - {} == have;
    assert after.Keys == {};
  }

  lemma NothingServes(b: Balancer)
    requires Agrees(b) && b.pool.live == map[] && b.reported.Some?
    ensures Current(b) == Installed(NoHealthy, []) && b.reported == Some(TransientFailure)
  {
    assert ServingSlots(b.pool.live) == {};
  }
}
