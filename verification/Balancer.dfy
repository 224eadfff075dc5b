/**
 The balancer object. Each method is one critical section under the
 balancer's mutex and performs one step of the machine in BalancerState.
 */
module BalancerClass {
  import opened Wrappers
  import opened Ordering
  import opened Sorting
  import opened Endpoints
  import opened AddressText
  import opened Cap
  import opened Reconcile
  import opened Entries
  import opened PoolClass
  import opened Pickers
  import opened Choice
  import opened PoolBatch
  import opened BalancerState
  import PS = PoolState

  // ---------------------------------------------------------------------
  // The maps and slices of a resolver update
  // ---------------------------------------------------------------------

  /** A map from identities to endpoints of that identity. */
  ghost predicate KeyedBy(m: map<Key, Endpoint>, K: set<Key>) {
    m.Keys == K && forall k :: k in m ==> KeyOf(m[k]) == k
  }

  lemma DesiredSnoc(addrs: seq<string>, a: string)
    ensures Desired(addrs + [a]) == Desired(addrs) + (if ParseAddr(a).Ok? then {KeyOf(ParseAddr(a).value)} else {})
  {
  }

  /** Parses the addresses; those that do not parse are skipped. */
  method ParseAll(addrs: seq<string>) returns (desired: map<Key, Endpoint>)
    ensures KeyedBy(desired, Desired(addrs))
  {
    desired := map[];
    for i := 0 to |addrs|
      invariant KeyedBy(desired, Desired(addrs[..i]))
    {
      var ep := ParseAddrToEndpoint(addrs[i]);
      assert addrs[..i + 1] == addrs[..i] + [addrs[i]];
      DesiredSnoc(addrs[..i], addrs[i]);
      if ep.Ok? {
        desired := desired[KeyOf(ep.value) := ep.value];
      }
    }
    assert addrs[..|addrs|] == addrs;
  }

  /** The values of a map, ranged over in some order. */
  method SliceOf(m: map<Key, Endpoint>) returns (s: seq<Endpoint>)
    requires KeyedBy(m, m.Keys)
    ensures DistinctKeys(s) && KeysOf(s) == m.Keys
  {
    s := [];
    var todo := m.Keys;
    while todo != {}
      invariant todo <= m.Keys
      invariant DistinctKeys(s) && KeysOf(s) == m.Keys - todo
      decreases todo
    {
      var k :| k in todo;
      assert forall e :: e in s ==> KeyOf(e) in KeysOf(s);
      assert KeysOf(s + [m[k]]) == KeysOf(s) + {k};
      s := s + [m[k]];
      todo := todo - {k};
    }
  }

  method MapOf(eps: seq<Endpoint>) returns (m: map<Key, Endpoint>)
    ensures KeyedBy(m, KeysOf(eps))
  {
    m := map[];
    for i := 0 to |eps|
      invariant KeyedBy(m, KeysOf(eps[..i]))
    {
      assert eps[..i + 1] == eps[..i] + [eps[i]];
      assert KeysOf(eps[..i + 1]) == KeysOf(eps[..i]) + {KeyOf(eps[i])};
      m := m[KeyOf(eps[i]) := eps[i]];
    }
    assert eps[..|eps|] == eps;
  }

  /** The capped endpoints an update asks for. */
  method WantedMap(cfg: Config, addrs: seq<string>) returns (capped: map<Key, Endpoint>)
    ensures KeyedBy(capped, Wanted(cfg, addrs))
  {
    var desired := ParseAll(addrs);
    var slice := SliceOf(desired);
    var kept := CapEndpoints(slice, cfg.maxSubconns);
    CapSelectsSmallest(kept, slice, cfg.maxSubconns);
    capped := MapOf(kept);
  }

  /** The endpoints of the entries in a pool snapshot. */
  method CurrentMap(pool: Pool) returns (current: map<Key, Endpoint>)
    requires pool.Valid()
    ensures KeyedBy(current, EndpointsOf(pool.Live()))
  {
    var snapshot := pool.Snapshot();
    current := map[];
    for i := 0 to |snapshot|
      invariant KeyedBy(current, set e | e in snapshot[..i] :: PS.Ep(e.key))
    {
      var entry := snapshot[i];
      var ep := Endpoint(entry.key.address, entry.key.port, true);
      assert snapshot[..i + 1] == snapshot[..i] + [entry];
      current := current[KeyOf(ep) := ep];
    }
    assert snapshot[..|snapshot|] == snapshot;
    SnapshotEndpoints(pool, snapshot);
  }

  lemma SnapshotEndpoints(pool: Pool, snapshot: seq<SubConnEntry>)
    requires pool.Valid() && Elements(snapshot) == pool.entries.Values
    ensures (set e | e in snapshot :: PS.Ep(e.key)) == EndpointsOf(pool.Live())
  {
    forall e | e in snapshot ensures PS.Ep(e.key) in EndpointsOf(pool.Live()) {
      assert e in Elements(snapshot);
      var k :| k in pool.entries && pool.entries[k] == e;
      assert pool.Holds(k);
      assert k in pool.Live();
    }
    forall k | k in pool.Live() ensures PS.Ep(k) in set e | e in snapshot :: PS.Ep(e.key) {
      assert pool.Holds(k);
      assert pool.entries[k] in Elements(snapshot);
    }
  }

  // ---------------------------------------------------------------------
  // The two loops of a resolver update
  // ---------------------------------------------------------------------

  lemma AddAllSnoc(p: PS.Pool, ns: string, svc: string, ks: seq<Key>, oks: seq<bool>, k: Key, ok: bool)
    requires |ks| == |oks|
    ensures AddAll(p, ns, svc, ks + [k], oks + [ok])
         == PS.Add(AddAll(p, ns, svc, ks, oks), At(ns, svc, k), ok)
  {
    assert (ks + [k])[..|ks|] == ks && (oks + [ok])[..|oks|] == oks;
  }

  lemma RemoveAllSnoc(p: PS.Pool, ns: string, svc: string, ks: seq<Key>, k: Key)
    ensures RemoveAll(p, ns, svc, ks + [k]) == PS.Remove(RemoveAll(p, ns, svc, ks), At(ns, svc, k))
  {
    assert (ks + [k])[..|ks|] == ks;
  }

  /** Adds the endpoints that `current` lacks, ranging over `capped` in some order. */
  method AddMissing(pool: Pool, ns: string, svc: string, capped: map<Key, Endpoint>, current: map<Key, Endpoint>)
    returns (ghost adds: seq<Key>, ghost oks: seq<bool>)
    requires pool.Valid() && KeyedBy(capped, capped.Keys)
    modifies pool, pool.cc, pool.contexts
    ensures pool.Valid() && pool.cc.reported == old(pool.cc.reported)
    ensures Lists(adds, capped.Keys - current.Keys) && |oks| == |adds|
    ensures pool.View() == AddAll(old(pool.View()), ns, svc, adds, oks)
    ensures old(pool.created) <= pool.created
    ensures forall e :: e in pool.created ==> e in old(pool.created) || fresh(e)
    ensures forall k :: k in old(pool.entries) && PS.Ep(k) in current ==>
      k in pool.entries && pool.entries[k] == old(pool.entries[k])
  {
    adds, oks := [], [];
    var todo := capped.Keys;
    while todo != {}
      invariant todo <= capped.Keys
      invariant pool.Valid() && pool.cc.reported == old(pool.cc.reported)
      invariant Lists(adds, (capped.Keys - todo) - current.Keys) && |oks| == |adds|
      invariant pool.View() == AddAll(old(pool.View()), ns, svc, adds, oks)
      invariant old(pool.created) <= pool.created
      invariant forall e :: e in pool.created ==> e in old(pool.created) || fresh(e)
      invariant forall k :: k in old(pool.entries) && PS.Ep(k) in current ==>
        k in pool.entries && pool.entries[k] == old(pool.entries[k])
      decreases todo
    {
      var k :| k in todo;
      ListsVisit(adds, capped.Keys, todo, current.Keys, k);
      if k !in current {
        var entry := pool.Add(ns, svc, capped[k]);
        AddAllSnoc(old(pool.View()), ns, svc, adds, oks, k, entry.Some?);
        adds, oks := adds + [k], oks + [entry.Some?];
      }
      todo := todo - {k};
    }
  }

  /** Removes the endpoints that `capped` lacks, ranging over `current` in some order. */
  method RemoveStale(pool: Pool, ns: string, svc: string, capped: map<Key, Endpoint>, current: map<Key, Endpoint>)
    returns (ghost removes: seq<Key>)
    requires pool.Valid() && KeyedBy(current, current.Keys)
    modifies pool`entries, pool`draining, pool.contexts`cancelled, pool.created`draining
    ensures pool.Valid()
    ensures Lists(removes, current.Keys - capped.Keys)
    ensures pool.View() == RemoveAll(old(pool.View()), ns, svc, removes)
    ensures forall k :: k in pool.entries ==> k in old(pool.entries) && pool.entries[k] == old(pool.entries[k])
  {
    removes := [];
    var todo := current.Keys;
    while todo != {}
      invariant todo <= current.Keys
      invariant pool.Valid()
      invariant Lists(removes, (current.Keys - todo) - capped.Keys)
      invariant pool.View() == RemoveAll(old(pool.View()), ns, svc, removes)
      invariant forall k :: k in pool.entries ==> k in old(pool.entries) && pool.entries[k] == old(pool.entries[k])
      decreases todo
    {
      var k :| k in todo;
      ListsVisit(removes, current.Keys, todo, capped.Keys, k);
      if k !in capped {
        var ep := current[k];
        pool.Remove(PS.PoolKey.PoolKey(ns, svc, ep.address, ep.port));
        RemoveAllSnoc(old(pool.View()), ns, svc, removes, k);
        removes := removes + [k];
      }
      todo := todo - {k};
    }
  }

  /** Both loops. Entries that stay keep their objects. */
  method ReconcileEntries(pool: Pool, ns: string, svc: string, capped: map<Key, Endpoint>, current: map<Key, Endpoint>)
    returns (ghost adds: seq<Key>, ghost oks: seq<bool>, ghost removes: seq<Key>)
    requires pool.Valid() && KeyedBy(capped, capped.Keys) && KeyedBy(current, current.Keys)
    requires forall k :: k in pool.entries ==> PS.Ep(k) in current
    modifies pool, pool.cc, pool.contexts, pool.created
    ensures pool.Valid() && pool.cc.reported == old(pool.cc.reported)
    ensures Lists(adds, capped.Keys - current.Keys) && |oks| == |adds|
    ensures Lists(removes, current.Keys - capped.Keys)
    ensures pool.View() == RemoveAll(AddAll(old(pool.View()), ns, svc, adds, oks), ns, svc, removes)
    ensures forall k :: k in old(pool.entries) && k in pool.entries ==>
      pool.entries[k] == old(pool.entries[k])
  {
    adds, oks := AddMissing(pool, ns, svc, capped, current);
    assert forall i :: 0 <= i < |pool.created| ==> pool.created[i] in old(pool.created) || fresh(pool.created[i]);
    removes := RemoveStale(pool, ns, svc, capped, current);
  }

  /** Brings the pool to the wanted endpoints; `adds`, `oks` and `removes` say in which order. */
  method ReconcileTo(pool: Pool, ns: string, svc: string, capped: map<Key, Endpoint>)
    returns (ghost adds: seq<Key>, ghost oks: seq<bool>, ghost removes: seq<Key>)
    requires pool.Valid() && KeyedBy(capped, capped.Keys)
    modifies pool, pool.cc, pool.contexts, pool.created
    ensures pool.Valid() && pool.cc.reported == old(pool.cc.reported)
    ensures IsPlan(capped.Keys, EndpointsOf(old(pool.View()).live), adds, oks, removes)
    ensures |oks| == |adds|
    ensures pool.View() == RemoveAll(AddAll(old(pool.View()), ns, svc, adds, oks), ns, svc, removes)
    ensures forall k :: k in old(pool.entries) && k in pool.entries ==>
      pool.entries[k] == old(pool.entries[k])
  {
    ghost var p := pool.View();
    var current := CurrentMap(pool);
    assert pool.View() == p;
    forall k | k in pool.entries ensures PS.Ep(k) in current { assert k in pool.Live(); }
    adds, oks, removes := ReconcileEntries(pool, ns, svc, capped, current);
  }

  // ---------------------------------------------------------------------
  // Building a picker
  // ---------------------------------------------------------------------

  function SlotOf(e: SubConnEntry): Slot { Slot(e.key, e.subConn) }

  function SlotsOf(es: seq<SubConnEntry>): (r: seq<Slot>)
    ensures |r| == |es| && forall i :: 0 <= i < |es| ==> r[i] == SlotOf(es[i])
  {
    seq(|es|, i requires 0 <= i < |es| => SlotOf(es[i]))
  }

  /** The address a pick notes in a tracker is the one its SubConn was created for. */
  lemma NotedIsDialled(pool: Pool, e: SubConnEntry)
    requires pool.Valid() && e in pool.created
    ensures e.subConn < |pool.cc.dialled| && EntryText(e) == pool.cc.dialled[e.subConn]
  {
    pool.DialsItsAddress(e);
  }

  /** What a picker is, in the terms of the step machine. */
  function Shows(p: Picker): Installed {
    match p
    case NoHealthyPicker => Installed(NoHealthy, [])
    case RR(rr) => Installed(RoundRobin, SlotsOf(rr.healthy))
    case LR(lr) => Installed(LeastRequest, SlotsOf(lr.healthy))
  }

  /** Sorted by address text, the eligible entries are the machine's healthy list. */
  lemma HealthyListed(pool: Pool, hs: seq<SubConnEntry>)
    requires pool.Valid() && OnePerEndpoint(pool.Live())
    requires NoDuplicates(hs) && Sorted(hs, EntryText)
    requires Elements(hs) == set e | e in pool.entries.Values && e.health == PS.Serving
    ensures SlotsOf(hs) == HealthyOf(pool.Live())
  {
    var slots := SlotsOf(hs);
    HealthySlots(pool, hs);
    assert NoDuplicates(slots) by {
      forall i, j | 0 <= i < j < |slots| ensures slots[i] != slots[j] {
        HealthyKey(pool, hs, i);
        HealthyKey(pool, hs, j);
      }
    }
    assert Distinguishes(SlotText, Elements(slots)) by {
      forall s, t | s in Elements(slots) && t in Elements(slots) && SlotText(s) == SlotText(t) ensures s == t {
        AddrPortInjective(s.key.address, s.key.port, t.key.address, t.key.port);
        assert PS.Ep(s.key) == PS.Ep(t.key);
      }
    }
    assert Sorted(slots, SlotText);
    SortSetUnique(slots, ServingSlots(pool.Live()), SlotText);
  }

  lemma HealthyKey(pool: Pool, hs: seq<SubConnEntry>, i: nat)
    requires pool.Valid() && i < |hs|
    requires Elements(hs) == set e | e in pool.entries.Values && e.health == PS.Serving
    ensures hs[i].key in pool.entries && pool.entries[hs[i].key] == hs[i] && hs[i].health == PS.Serving
  {
    assert hs[i] in Elements(hs);
    var k :| k in pool.entries && pool.entries[k] == hs[i];
    assert pool.Holds(k);
  }

  lemma HealthySlots(pool: Pool, hs: seq<SubConnEntry>)
    requires pool.Valid()
    requires Elements(hs) == set e | e in pool.entries.Values && e.health == PS.Serving
    ensures Elements(SlotsOf(hs)) == ServingSlots(pool.Live())
  {
    var slots := SlotsOf(hs);
    forall s | s in slots ensures s in ServingSlots(pool.Live()) {
      var i :| 0 <= i < |slots| && slots[i] == s;
      HealthyKey(pool, hs, i);
      assert s.key in pool.Live();
    }
    forall s | s in ServingSlots(pool.Live()) ensures s in slots {
      var e := pool.entries[s.key];
      assert pool.Holds(s.key);
      assert e in Elements(hs);
      var i :| 0 <= i < |hs| && hs[i] == e;
      assert slots[i] == s;
    }
  }

  /** Copies the eligible entries and sorts the copy by "address:port". */
  method SortedHealthy(pool: Pool) returns (hs: seq<SubConnEntry>)
    requires pool.Valid() && OnePerEndpoint(pool.Live())
    ensures SlotsOf(hs) == HealthyOf(pool.Live())
    ensures forall e :: e in hs ==> e in pool.created
  {
    var healthy := pool.HealthyEntries();
    var a := new SubConnEntry[|healthy|](i requires 0 <= i < |healthy| => healthy[i]);
    assert a[..] == healthy;
    SortSlice(a, EntryText);
    hs := a[..];
    PermutesElements(hs, healthy);
    HealthyListed(pool, hs);
    forall e | e in hs ensures e in pool.created {
      assert e in Elements(hs);
      var k :| k in pool.entries && pool.entries[k] == e;
      assert pool.Holds(k);
    }
  }

  /** The picker for a healthy list under a policy. */
  method MakePicker(policy: string, healthy: seq<SubConnEntry>) returns (p: Picker)
    ensures Shows(p) == Installed(KindOf(policy, |healthy|), SlotsOf(healthy))
    ensures p.RR? ==> fresh(p.rr) && p.rr.counter == 0 && p.rr.healthy == healthy
    ensures p.LR? ==> fresh(p.lr) && p.lr.healthy == healthy
  {
    if |healthy| == 0 {
      p := NoHealthyPicker;
      assert SlotsOf(healthy) == [];
    } else if policy == "least_request" {
      var lr := new LRPicker(healthy);
      p := LR(lr);
    } else {
      var rr := new RRPicker(healthy);
      p := RR(rr);
    }
  }

  // ---------------------------------------------------------------------
  // Health checkers of an entry
  // ---------------------------------------------------------------------

  /** Sets or clears the cancel function of an entry in the map. */
  method SetCancel(pool: Pool, entry: SubConnEntry, cancel: Option<nat>)
    requires pool.Valid() && entry.key in pool.entries && pool.entries[entry.key] == entry
    modifies entry`healthCancel
    ensures pool.Valid() && entry.healthCancel == cancel
    ensures var p := old(pool.View());
      pool.View() == p.(live := p.live[entry.key := p.live[entry.key].(cancel := cancel)])
  {
    pool.Apart(entry.key);
    entry.healthCancel := cancel;
    assert pool.Live() == old(pool.Live())[entry.key := entry.Rec()];
    assert FlightOf(pool.created) == old(FlightOf(pool.created));
  }

  /** Dialling and opening the watch may each fail; a checker whose watch failed is cancelled and forgotten. */
  method StartHealthCheck(pool: Pool, entry: SubConnEntry) returns (outcome: PS.Start)
    requires pool.Valid() && entry.key in pool.entries && pool.entries[entry.key] == entry
    requires entry.healthCancel.None?
    modifies entry`healthCancel, pool.contexts
    ensures pool.Valid()
    ensures pool.View() == PS.StartChecker(old(pool.View()), entry.key, outcome)
  {
    var dialFails: bool := *;
    if dialFails { return PS.DialFails; }
    ghost var p := pool.View();
    var cancel := Arm(pool, entry);
    var watchFails: bool := *;
    if watchFails {
      StopHealthCheck(pool, entry);
      StoppedStart(p, entry.key);
      return PS.WatchFails;
    }
    return PS.Started;
  }

  /** Stores the cancel function of a new context in the entry. */
  method Arm(pool: Pool, entry: SubConnEntry) returns (cancel: nat)
    requires pool.Valid() && entry.key in pool.entries && pool.entries[entry.key] == entry
    modifies entry`healthCancel, pool.contexts`owners
    ensures pool.Valid() && pool.entries[entry.key] == entry && entry.healthCancel == Some(cancel)
    ensures pool.View() == PS.StartChecker(old(pool.View()), entry.key, PS.Started)
  {
    cancel := pool.contexts.Make(entry.key, entry.subConn);
    SetCancel(pool, entry, Some(cancel));
  }

  /** Starting and stopping at once is the failed start. */
  lemma StoppedStart(p: PS.Pool, key: PS.PoolKey)
    requires key in p.live && p.live[key].cancel.None?
    ensures PS.StopChecker(PS.StartChecker(p, key, PS.Started), key) == PS.StartChecker(p, key, PS.WatchFails)
  {
    assert PS.StopChecker(PS.StartChecker(p, key, PS.Started), key).live == p.live;
  }

  method StopHealthCheck(pool: Pool, entry: SubConnEntry)
    requires pool.Valid() && entry.key in pool.entries && pool.entries[entry.key] == entry
    modifies entry`healthCancel, pool.contexts`cancelled
    ensures pool.Valid()
    ensures pool.View() == PS.StopChecker(old(pool.View()), entry.key)
  {
    if entry.healthCancel.Some? {
      pool.contexts.Cancel(entry.healthCancel.value);
      SetCancel(pool, entry, None);
    }
  }

  // ---------------------------------------------------------------------
  // The balancer
  // ---------------------------------------------------------------------

  class K8sBalancer {
    const cc: ClientConn
    const contexts: Contexts
    const pool: Pool

    var cfg: Config
    var policy: string
    var picker: Picker

    ghost var installed: seq<Installed>
    ghost var open: map<nat, nat>
    ghost var rotating: map<nat, nat>

    ghost function View(): Balancer
      reads this, cc, contexts, pool, pool.cc, pool.contexts, pool.created, pool.entries.Values
    {
      Balancer(cfg, policy, pool.View(), installed, cc.reported, open, rotating)
    }

    ghost predicate Wired()
      reads this, cc, pool, pool.cc, pool.created
    {
      && pool.cc == cc && pool.contexts == contexts
      && pool.Valid()
    }

    /** What every critical section finds and leaves. */
    ghost predicate Valid()
      reads this, cc, contexts, pool, pool.cc, pool.contexts, pool.created, pool.entries.Values
    {
      && Wired()
      && BalancerInv(View())
      && installed != [] && Shows(picker) == installed[|installed| - 1]
    }

    /** Valid taken apart, for proofs that need nothing else of the definitions. */
    lemma Opened()
      requires Valid()
      ensures Wired() && BalancerInv(View())
      ensures View().pool == pool.View() && View().pool.draining == pool.draining && View().installed == installed
      ensures installed != [] && Shows(picker) == installed[|installed| - 1]
    {
    }

    lemma Closed()
      requires Wired() && BalancerInv(View())
      requires installed != [] && Shows(picker) == installed[|installed| - 1]
      ensures Valid()
    {
    }

    constructor (cfg: Config)
      ensures Valid() && View() == Initial(cfg)
      ensures fresh(cc) && fresh(contexts) && fresh(pool)
    {
      var conn := new ClientConn();
      var ctxs := new Contexts();
      var p := new Pool(conn, ctxs);
      cc, contexts, pool := conn, ctxs, p;
      this.cfg := cfg;
      policy := if cfg.policy == "" then "round_robin" else cfg.policy;
      picker := NoHealthyPicker;
      installed, open, rotating := [Installed(NoHealthy, [])], map[], map[];
      new;
      InitialInv(cfg);
    }

    /** Installs the picker for a healthy list and reports the resulting state to gRPC. */
    method InstallPicker(healthy: seq<SubConnEntry>)
      requires Wired() && SlotsOf(healthy) == HealthyOf(pool.View().live)
      modifies this`picker, this`installed, cc`reported
      ensures Wired() && installed == old(installed) + [Shows(picker)]
      ensures View() == Rebuild(old(View()))
    {
      picker := MakePicker(policy, healthy);
      installed := installed + [Shows(picker)];
      cc.UpdateState(ConnectivityFor(|healthy|));
      assert pool.View() == old(pool.View());
    }

    method RebuildPickerLocked()
      requires Wired() && Sound(View())
      modifies this`picker, this`installed, cc`reported
      ensures Valid() && View() == Rebuild(old(View()))
    {
      var healthy := SortedHealthy(pool);
      RebuildInv(View());
      InstallPicker(healthy);
    }

    /** Takes over a configuration that came with a resolver state. */
    method Reconfigure(attrs: Option<Config>)
      requires Wired()
      modifies this`cfg, this`policy
      ensures Wired() && View() == Configure(old(View()), attrs)
    {
      if attrs.Some? {
        cfg := attrs.value;
        if attrs.value.policy != "" {
          policy := attrs.value.policy;
        }
      }
    }

    /** Everything an update does before the rebuild. */
    method ConfigureAndReconcile(attrs: Option<Config>, addrs: seq<string>)
      returns (ghost adds: seq<Key>, ghost oks: seq<bool>, ghost removes: seq<Key>)
      requires Wired()
      modifies this`cfg, this`policy, cc, contexts, pool, pool.created
      ensures Wired()
      ensures IsPlan(Wanted(cfg, addrs), EndpointsOf(old(pool.View()).live), adds, oks, removes)
      ensures |oks| == |adds|
      ensures View() == Reconciled(Configure(old(View()), attrs), adds, oks, removes)
      ensures forall k :: k in old(pool.entries) && k in pool.entries ==>
        pool.entries[k] == old(pool.entries[k])
    {
      Reconfigure(attrs);
      ghost var p := pool.View();
      var capped := WantedMap(cfg, addrs);
      assert pool.View() == p;
      adds, oks, removes := ReconcileTo(pool, cfg.namespace, cfg.service, capped);
    }

    method UpdateClientConnState(attrs: Option<Config>, addrs: seq<string>) returns (ghost e: Event)
      requires Valid()
      modifies this, cc, contexts, pool, pool.created
      ensures Valid()
      ensures e.Resolve? && e.cfg == attrs && e.addrs == addrs
      ensures old(Enabled(View(), e)) && View() == old(Step(View(), e))
      ensures forall k :: k in old(pool.entries) && k in pool.entries ==>
        pool.entries[k] == old(pool.entries[k])
    {
      ghost var b := View();
      ghost var adds, oks, removes;
      adds, oks, removes := ConfigureAndReconcile(attrs, addrs);
      PlanSound(b, attrs, addrs, adds, oks, removes);
      RebuildPickerLocked();
      e := Resolve(attrs, addrs, adds, oks, removes);
    }

    /** Scans a snapshot of the pool for the entry with this SubConn. */
    method FindKeyForSubConn(sc: nat) returns (key: Option<PS.PoolKey>)
      requires Valid() && sc < |pool.View().keys|
      ensures key.Some? <==> PS.IsLive(pool.View(), sc)
      ensures key.Some? ==> key.value == pool.View().keys[sc] && key.value in pool.entries
    {
      var snapshot := pool.Snapshot();
      forall k | k in pool.entries ensures pool.entries[k] in snapshot {
        assert pool.entries[k] in Elements(snapshot);
      }
      for i := 0 to |snapshot|
        invariant forall j :: 0 <= j < i ==> snapshot[j].subConn != sc
      {
        if snapshot[i].subConn == sc {
          SnapshotEntry(snapshot[i], snapshot, sc);
          return Some(snapshot[i].key);
        }
      }
      return None;
    }

    lemma SnapshotEntry(e: SubConnEntry, snapshot: seq<SubConnEntry>, sc: nat)
      requires Wired() && sc < |pool.View().keys| && e.subConn == sc
      requires e in snapshot && Elements(snapshot) == pool.entries.Values
      ensures PS.IsLive(pool.View(), sc) && e.key == pool.View().keys[sc]
      ensures e.key in pool.entries && pool.entries[e.key] == e
    {
      assert e in Elements(snapshot);
      var k :| k in pool.entries && pool.entries[k] == e;
      assert pool.Holds(k);
      assert pool.created[sc] == e;
      assert k in pool.Live();
    }

    method GetPoolEntry(key: PS.PoolKey) returns (entry: Option<SubConnEntry>)
      requires pool.Valid()
      ensures entry == if key in pool.entries then Some(pool.entries[key]) else None
    {
      var snapshot := pool.Snapshot();
      forall k | k in pool.entries ensures pool.entries[k] in snapshot && pool.entries[k].key == k {
        assert pool.Holds(k);
        assert pool.entries[k] in Elements(snapshot);
      }
      for i := 0 to |snapshot|
        invariant forall j :: 0 <= j < i ==> snapshot[j].key != key
      {
        assert snapshot[i] in Elements(snapshot);
        if snapshot[i].key == key { return Some(snapshot[i]); }
      }
      return None;
    }

    /** The entry became Ready: eligible at once, or when its checker says so. */
    method BecomesReady(key: PS.PoolKey) returns (start: PS.Start)
      requires Wired() && key in pool.entries
      modifies contexts, pool.created
      ensures Wired()
      ensures key in old(pool.View()).live
      ensures pool.View() == WentUp(cfg, old(pool.View()), key, start)
    {
      start := PS.DialFails;
      pool.Apart(key);
      if cfg.enableHealthCheck {
        var entry := GetPoolEntry(key);
        if entry.Some? && entry.value.healthCancel.None? {
          start := StartHealthCheck(pool, entry.value);
        }
      } else {
        pool.UpdateHealth(key, PS.Serving);
      }
    }

    /** The entry failed: its checker stops and it is not eligible. */
    method BecomesDown(key: PS.PoolKey)
      requires Wired() && key in pool.entries
      modifies contexts`cancelled, pool.created
      ensures Wired()
      ensures pool.View() == WentDown(old(pool.View()), key)
    {
      pool.Apart(key);
      var entry := GetPoolEntry(key);
      if entry.Some? {
        StopHealthCheck(pool, entry.value);
      }
      pool.UpdateHealth(key, PS.NotServing);
    }

    /** The pool's side of a connectivity event of an entry in the map. */
    method FollowConnectivity(key: PS.PoolKey, sc: nat, state: PS.Conn) returns (start: PS.Start)
      requires Wired() && sc < |pool.View().keys| && PS.IsLive(pool.View(), sc)
      requires key == pool.View().keys[sc] && key in pool.entries
      modifies cc`resolves, cc`connects, contexts, pool.created
      ensures Wired()
      ensures pool.View() == Connectivity(cfg, old(pool.View()), sc, state, start)
    {
      start := PS.DialFails;
      pool.UpdateConnState(key, state);
      match state
      case Ready => start := BecomesReady(key);
      case TransientFailure => BecomesDown(key);
      case ShutDown => BecomesDown(key);
      case Idle => cc.Connect(sc);
      case Connecting =>
    }

    method UpdateSubConnState(sc: nat, state: PS.Conn) returns (ghost e: Event)
      requires Valid() && sc < |pool.View().keys|
      modifies this`picker, this`installed, cc, contexts, pool.created
      ensures Valid()
      ensures e.SubConnChange? && e.sc == sc && e.conn == state
      ensures Enabled(old(View()), e) && View() == Step(old(View()), e)
    {
      hide *;
      Opened();
      var key := FindKeyForSubConn(sc);
      if key.None? {
        e := SubConnChange(sc, state, PS.DialFails);
        NothingChanges(View(), e);
      } else {
        ghost var b := View();
        var start := FollowAndRebuild(key.value, sc, state);
        e := SubConnChange(sc, state, start);
        ChangesAndRebuilds(b, e);
      }
    }

    method FollowAndRebuild(key: PS.PoolKey, sc: nat, state: PS.Conn) returns (start: PS.Start)
      requires Valid() && sc < |pool.View().keys| && PS.IsLive(pool.View(), sc)
      requires key == pool.View().keys[sc] && key in pool.entries
      modifies this`picker, this`installed, cc, contexts, pool.created
      ensures Valid()
      ensures View() == Rebuild(Changed(old(View()), sc, state, start))
    {
      ghost var b := View();
      start := FollowConnectivity(key, sc, state);
      assert View() == Changed(b, sc, state, start);
      ConnectivitySound(b, sc, state, start);
      RebuildPickerLocked();
    }

    /** The callback of a health checker's state machine, for the entry it was started for. */
    method HealthVerdict(checker: nat, state: PS.Health)
      requires Valid() && checker < |contexts.owners|
      modifies this`picker, this`installed, cc`reported, pool.created
      ensures Valid()
      ensures Enabled(old(View()), Verdict(checker, state))
      ensures View() == Step(old(View()), Verdict(checker, state))
    {
      ghost var b := View();
      VerdictSound(b, Verdict(checker, state));
      pool.UpdateHealth(contexts.owners[checker].key, state);
      RebuildPickerLocked();
    }

    /** A turn of a drain goroutine, which runs outside the mutex. */
    method DrainTurn(entry: SubConnEntry, deadline: bool) returns (closed: bool)
      requires Valid() && entry in pool.created && entry.subConn in pool.draining
      modifies pool`draining, cc`shut
      ensures Valid() && (closed <==> deadline || entry.inFlight <= 0)
      ensures var e := DrainEvent(entry.subConn, deadline);
        Enabled(old(View()), e) && View() == Step(old(View()), e)
    {
      hide *;
      Opened();
      DrainedInv(View(), entry.subConn, deadline);
      closed := WakeAndClose(entry, deadline);
      Closed();
    }

    method WakeAndClose(entry: SubConnEntry, deadline: bool) returns (closed: bool)
      requires Wired() && entry in pool.created && entry.subConn in pool.draining
      modifies pool`draining, cc`shut
      ensures Wired() && (closed <==> deadline || entry.inFlight <= 0)
      ensures View() == Drained(old(View()), entry.subConn, deadline)
    {
      closed := pool.DrainWake(entry, deadline);
    }

    /**
     A pick by a least-request picker that this balancer installed at some
     point, perhaps long replaced. Picks do not take the mutex.
     */
    method PickLeastRequest(p: LRPicker, tracker: AttemptTracker?, ghost generation: nat)
      returns (r: Option<SubConnEntry>)
      requires Valid() && generation < |installed| && installed[generation] == Shows(LR(p))
      requires forall e :: e in p.healthy ==> e in pool.created
      modifies this`open, tracker, p.healthy`inFlight
      ensures Valid() && r == old(LeastEligible(p.healthy, Tried(tracker))) && (r == None <==> p.healthy == [])
      ensures r == None ==> View() == old(View())
      ensures r.Some? ==>
        && Enabled(old(View()), Pick(generation, r.value.subConn))
        && View() == Step(old(View()), Pick(generation, r.value.subConn))
      ensures tracker != null ==>
        tracker.addrs == old(tracker.addrs) + (if r.Some? then [EntryText(r.value)] else [])
    {
      ghost var b := View();
      hide *;
      Opened();
      r := PickAndCount(p, tracker);
      if r.Some? {
        PickedInv(b, p, r.value, generation);
      }
      Closed();
    }

    method PickAndCount(p: LRPicker, tracker: AttemptTracker?) returns (r: Option<SubConnEntry>)
      requires Wired() && forall e :: e in p.healthy ==> e in pool.created
      modifies this`open, tracker, p.healthy`inFlight
      ensures Wired() && r == old(LeastEligible(p.healthy, Tried(tracker))) && (r == None <==> p.healthy == [])
      ensures r == None ==> View() == old(View())
      ensures r.Some? ==>
        r.value in p.healthy && View() == Counted(old(View()), r.value.subConn, 1)
      ensures tracker != null ==>
        tracker.addrs == old(tracker.addrs) + (if r.Some? then [EntryText(r.value)] else [])
    {
      hide LeastEligible, Candidates;
      r := PickCharging(pool, p, tracker);
      if r.Some? {
        NoteOpen(r.value.subConn, 1);
      }
    }

    /** One open least-request pick more, or one fewer. */
    ghost method NoteOpen(sc: nat, delta: int)
      requires Wired() && OpenOf(View(), sc) + delta >= 0
      modifies this`open
      ensures Wired() && pool.View() == old(pool.View())
      ensures open == old(open)[sc := OpenOf(old(View()), sc) + delta]
    {
      open := open[sc := OpenOf(View(), sc) + delta];
    }

    /** One open round-robin call more, or one fewer. */
    ghost method NoteRotation(sc: nat, delta: int)
      requires Wired() && RotatingOf(View(), sc) + delta >= 0
      modifies this`rotating
      ensures Wired() && View() == Rotated(old(View()), sc, delta)
    {
      rotating := rotating[sc := RotatingOf(View(), sc) + delta];
    }

    /**
     A pick by a round-robin picker that this balancer installed at some
     point. It returns no Done callback, and the entry's counter stays as it is.
     */
    method PickRoundRobin(p: RRPicker, tracker: AttemptTracker?, ghost generation: nat)
      returns (r: Option<SubConnEntry>)
      requires Valid() && generation < |installed| && installed[generation] == Shows(RR(p))
      modifies this`rotating, p, tracker
      ensures Valid() && (r == None <==> p.healthy == [])
      ensures r == None ==> View() == old(View())
      ensures r.Some? ==>
        && r.value in p.healthy && Enabled(old(View()), RRPick(generation, r.value.subConn))
        && View() == Step(old(View()), RRPick(generation, r.value.subConn))
      ensures tracker != null ==>
        tracker.addrs == old(tracker.addrs) + (if r.Some? then [EntryText(r.value)] else [])
    {
      ghost var b := View();
      hide *;
      Opened();
      r := RotateAndCount(p, tracker);
      if r.Some? {
        RotatedPickInv(b, p, r.value, generation);
      }
      Closed();
    }

    method RotateAndCount(p: RRPicker, tracker: AttemptTracker?) returns (r: Option<SubConnEntry>)
      requires Wired()
      modifies this`rotating, p, tracker
      ensures Wired() && (r == None <==> p.healthy == [])
      ensures r == None ==> View() == old(View())
      ensures r.Some? ==> r.value in p.healthy && View() == Rotated(old(View()), r.value.subConn, 1)
      ensures tracker != null ==>
        tracker.addrs == old(tracker.addrs) + (if r.Some? then [EntryText(r.value)] else [])
    {
      r := Rotate(p, tracker);
      if r.Some? {
        NoteRotation(r.value.subConn, 1);
      }
    }

    /** The pick itself changes nothing of the balancer. */
    method Rotate(p: RRPicker, tracker: AttemptTracker?) returns (r: Option<SubConnEntry>)
      requires Wired()
      modifies p, tracker
      ensures Wired() && View() == old(View())
      ensures (r == None <==> p.healthy == []) && (r.Some? ==> r.value in p.healthy)
      ensures tracker != null ==>
        tracker.addrs == old(tracker.addrs) + (if r.Some? then [EntryText(r.value)] else [])
    {
      r := RotateOne(p, tracker);
    }

    /** A call picked by round robin is over; nothing in the balancer is told. */
    ghost method RoundRobinCallEnds(sc: nat)
      requires Valid() && RotatingOf(View(), sc) > 0
      modifies this`rotating
      ensures Valid()
      ensures Enabled(old(View()), RREnd(sc)) && View() == Step(old(View()), RREnd(sc))
    {
      RotatedInv(View(), sc, -1);
      NoteRotation(sc, -1);
    }

    /** The Done callback of a least-request pick. */
    method FinishCall(entry: SubConnEntry)
      requires Valid() && entry in pool.created && OpenOf(View(), entry.subConn) > 0
      modifies this`open, entry`inFlight
      ensures Valid()
      ensures Enabled(old(View()), Done(entry.subConn))
      ensures View() == Step(old(View()), Done(entry.subConn))
    {
      hide *;
      Opened();
      FinishedInv(View(), entry.subConn);
      FinishAndCount(entry);
      Closed();
    }

    method FinishAndCount(entry: SubConnEntry)
      requires Wired() && entry in pool.created && OpenOf(View(), entry.subConn) > 0
      modifies this`open, entry`inFlight
      ensures Wired() && View() == Counted(old(View()), entry.subConn, -1)
    {
      DoneCharging(pool, entry);
      NoteOpen(entry.subConn, -1);
    }
  }

  /** The pool's side of a connectivity event, with the rest of the balancer as it was. */
  function Changed(b: Balancer, sc: nat, conn: PS.Conn, start: PS.Start): Balancer
    requires sc < |b.pool.keys| && PS.IsLive(b.pool, sc)
  {
    b.(pool := Connectivity(b.cfg, b.pool, sc, conn, start))
  }

  /** A connectivity event of an entry in the map. */
  lemma ChangesAndRebuilds(b: Balancer, e: Event)
    requires e.SubConnChange? && e.sc < |b.pool.keys| && PS.IsLive(b.pool, e.sc)
    ensures Enabled(b, e) && Step(b, e) == Rebuild(Changed(b, e.sc, e.conn, e.start))
  {
  }

  /** A connectivity event of a SubConn that is not in the map. */
  lemma NothingChanges(b: Balancer, e: Event)
    requires e.SubConnChange? && e.sc < |b.pool.keys| && !PS.IsLive(b.pool, e.sc)
    ensures Enabled(b, e) && Step(b, e) == b
  {
  }

  /** The event of a drain goroutine's turn. */
  function DrainEvent(sc: nat, deadline: bool): Event {
    if deadline then DrainDeadline(sc) else DrainTick(sc)
  }

  function Drained(b: Balancer, sc: nat, deadline: bool): Balancer {
    b.(pool := if deadline then PS.Close(b.pool, sc) else PS.Tick(b.pool, sc))
  }

  /** Such a turn is a step of the machine. */
  lemma DrainedInv(b: Balancer, sc: nat, deadline: bool)
    requires BalancerInv(b) && sc in b.pool.draining
    ensures var e, next := DrainEvent(sc, deadline), Drained(b, sc, deadline);
      Enabled(b, e) && Step(b, e) == next && BalancerInv(next)
  {
    StepInv(b, DrainEvent(sc, deadline));
  }

  /** Picking an entry of an installed picker is a step of the machine. */
  lemma PickedInv(b: Balancer, p: LRPicker, e: SubConnEntry, generation: nat)
    requires BalancerInv(b) && generation < |b.installed| && b.installed[generation] == Shows(LR(p))
    requires e in p.healthy
    ensures var next := Counted(b, e.subConn, 1);
      && Enabled(b, Pick(generation, e.subConn)) && Step(b, Pick(generation, e.subConn)) == next
      && BalancerInv(next)
  {
    PickedSlot(p, e);
    PickStepInv(b, Pick(generation, e.subConn));
  }

  lemma PickedSlot(p: LRPicker, e: SubConnEntry)
    requires e in p.healthy
    ensures Holds(Shows(LR(p)), e.subConn)
  {
    var i :| 0 <= i < |p.healthy| && p.healthy[i] == e;
    assert SlotsOf(p.healthy)[i].sc == e.subConn;
  }

  /** So is the end of such a call. */
  lemma FinishedInv(b: Balancer, sc: nat)
    requires BalancerInv(b) && OpenOf(b, sc) > 0
    ensures var next := Counted(b, sc, -1);
      Enabled(b, Done(sc)) && Step(b, Done(sc)) == next && BalancerInv(next)
  {
    DoneStepInv(b, Done(sc));
  }

  /** So is picking by rotation. */
  lemma RotatedPickInv(b: Balancer, p: RRPicker, e: SubConnEntry, generation: nat)
    requires BalancerInv(b) && generation < |b.installed| && b.installed[generation] == Shows(RR(p))
    requires e in p.healthy
    ensures var next := Rotated(b, e.subConn, 1);
      && Enabled(b, RRPick(generation, e.subConn)) && Step(b, RRPick(generation, e.subConn)) == next
      && BalancerInv(next)
  {
    var i :| 0 <= i < |p.healthy| && p.healthy[i] == e;
    assert SlotsOf(p.healthy)[i].sc == e.subConn;
    RotatedInv(b, e.subConn, 1);
  }

  /** A round-robin pick moves its picker's counter only. */
  method RotateOne(p: RRPicker, tracker: AttemptTracker?) returns (r: Option<SubConnEntry>)
    modifies p, tracker
    ensures (r == None <==> p.healthy == []) && (r.Some? ==> r.value in p.healthy)
    ensures tracker != null ==>
      tracker.addrs == old(tracker.addrs) + (if r.Some? then [EntryText(r.value)] else [])
  {
    ghost var tried := Tried(tracker);
    r := p.Pick(tracker);
    if r.Some? { CandidateExactly(p.healthy, EntryText, tried, r.value); }
  }

  /** A least-request pick charges one entry of its picker and leaves the other counters alone. */
  method PickOne(p: LRPicker, tracker: AttemptTracker?) returns (r: Option<SubConnEntry>)
    modifies tracker, p.healthy`inFlight
    ensures r == old(LeastEligible(p.healthy, Tried(tracker))) && (r == None <==> p.healthy == [])
    ensures r.Some? ==> r.value in p.healthy && r.value.inFlight == old(r.value.inFlight) + 1
    ensures forall e :: e in p.healthy && Some(e) != r ==> e.inFlight == old(e.inFlight)
    ensures tracker != null ==>
      tracker.addrs == old(tracker.addrs) + (if r.Some? then [EntryText(r.value)] else [])
  {
    hide *;
    r := p.Pick(tracker);
  }

  /** One counter moved by `delta` in the pool, nothing else. */
  method PickCharging(pool: Pool, p: LRPicker, tracker: AttemptTracker?) returns (r: Option<SubConnEntry>)
    requires pool.Valid() && forall e :: e in p.healthy ==> e in pool.created
    modifies tracker, p.healthy`inFlight
    ensures pool.Valid() && r == old(LeastEligible(p.healthy, Tried(tracker))) && (r == None <==> p.healthy == [])
    ensures r.Some? ==> r.value in p.healthy
    ensures pool.View() == if r.Some? then Flight(old(pool.View()), r.value.subConn, 1) else old(pool.View())
    ensures tracker != null ==>
      tracker.addrs == old(tracker.addrs) + (if r.Some? then [EntryText(r.value)] else [])
  {
    hide LeastEligible, Candidates, KeysMade, AddressesOf;
    r := PickOne(p, tracker);
    assert pool.Live() == old(pool.Live());
    if r.Some? {
      var sc := r.value.subConn;
      assert pool.created[sc] == r.value;
      assert FlightOf(pool.created) == old(FlightOf(pool.created))[sc := old(r.value.inFlight) + 1];
    } else {
      assert FlightOf(pool.created) == old(FlightOf(pool.created));
    }
  }

  method DoneCharging(pool: Pool, entry: SubConnEntry)
    requires pool.Valid() && entry in pool.created
    modifies entry`inFlight
    ensures pool.Valid()
    ensures pool.View() == Flight(old(pool.View()), entry.subConn, -1)
  {
    LRPicker.Done(entry);
    assert pool.Live() == old(pool.Live());
    assert FlightOf(pool.created) == old(FlightOf(pool.created))[entry.subConn := old(entry.inFlight) - 1];
  }
}
