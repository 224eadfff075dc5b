/**
 The subconnection pool as a value: what each pool operation does to the map
 of entries, to the SubConns handed out by gRPC, and to the health checkers.

 SubConns are numbered in the order gRPC created them, so number `i` is the
 SubConn of the `i`-th successful NewSubConn call; health checkers likewise.
 */
module PoolState {
  import opened Wrappers
  import opened Ordering
  import opened Endpoints

  datatype PoolKey = PoolKey(namespace: string, service: string, address: string, port: int)

  /** The part of a pool key that the resolver knows. */
  function Ep(k: PoolKey): Key { Key(k.address, k.port) }

  function KeyText(k: PoolKey): string { AddrPort(k.address, k.port) }

  datatype Health = Unknown | Serving | NotServing

  datatype Conn = Idle | Connecting | Ready | TransientFailure | ShutDown

  /** A pool entry. `cancel` is the checker its HealthCancel function would stop. */
  datatype Rec = Rec(sc: nat, health: Health, conn: Conn, cancel: Option<nat>)

  /** The entry a health checker was started for. */
  datatype Owner = Owner(key: PoolKey, sc: nat)

  datatype Pool = Pool(
    live: map<PoolKey, Rec>,    // the entries map
    draining: set<nat>,         // SubConns whose drain goroutine has not finished
    shut: seq<nat>,             // Shutdown calls, in order
    connects: seq<nat>,         // Connect calls, in order
    resolves: nat,              // re-resolution requests
    keys: seq<PoolKey>,         // the key each SubConn was created for
    dialled: seq<string>,       // the address each SubConn connects to
    flight: seq<int>,           // in-flight counter of each SubConn
    owners: seq<Owner>,         // health checkers started
    cancelled: set<nat>         // health checkers cancelled
  )

  const EMPTY := Pool(map[], {}, [], [], 0, [], [], [], [], {})

  // ---------------------------------------------------------------------
  // Operations
  // ---------------------------------------------------------------------

  function CancelOf(r: Rec): set<nat> {
    match r.cancel case None => {} case Some(c) => {c}
  }

  /** First half of Add: an entry already under the key is shut down and dropped. */
  function Evict(p: Pool, key: PoolKey): Pool {
    if key in p.live then
      p.(live := p.live - {key},
         shut := p.shut + [p.live[key].sc],
         cancelled := p.cancelled + CancelOf(p.live[key]))
    else p
  }

  /** Second half of Add, when gRPC creates the SubConn. */
  function Create(p: Pool, key: PoolKey): Pool {
    var sc := |p.flight|;
    p.(live := p.live[key := Rec(sc, Unknown, Idle, None)],
       connects := p.connects + [sc],
       keys := p.keys + [key],
       dialled := p.dialled + [KeyText(key)],
       flight := p.flight + [0])
  }

  function Add(p: Pool, key: PoolKey, ok: bool): Pool {
    if ok then Create(Evict(p, key), key) else Evict(p, key)
  }

  /** The entry leaves the map at once; its SubConn drains. */
  function Remove(p: Pool, key: PoolKey): Pool {
    if key in p.live then
      p.(live := p.live - {key},
         draining := p.draining + {p.live[key].sc},
         cancelled := p.cancelled + CancelOf(p.live[key]))
    else p
  }

  /** The end of a drain goroutine. */
  function Close(p: Pool, sc: nat): Pool {
    p.(draining := p.draining - {sc}, shut := p.shut + [sc])
  }

  /** One poll of a drain goroutine. */
  function Tick(p: Pool, sc: nat): Pool {
    if sc < |p.flight| && p.flight[sc] <= 0 then Close(p, sc) else p
  }

  function SetConn(p: Pool, key: PoolKey, c: Conn): Pool {
    if key in p.live then
      p.(live := p.live[key := p.live[key].(conn := c)],
         resolves := if c == TransientFailure then p.resolves + 1 else p.resolves)
    else p
  }

  function SetHealth(p: Pool, key: PoolKey, h: Health): Pool {
    if key in p.live then p.(live := p.live[key := p.live[key].(health := h)]) else p
  }

  /** How starting a health checker turns out. */
  datatype Start = DialFails | WatchFails | Started

  function StartChecker(p: Pool, key: PoolKey, outcome: Start): Pool {
    if key !in p.live || outcome == DialFails then p
    else
      var c := |p.owners|;
      var q := p.(owners := p.owners + [Owner(key, p.live[key].sc)]);
      if outcome == WatchFails then q.(cancelled := q.cancelled + {c})
      else q.(live := q.live[key := q.live[key].(cancel := Some(c))])
  }

  function StopChecker(p: Pool, key: PoolKey): Pool {
    if key in p.live && p.live[key].cancel.Some? then
      p.(live := p.live[key := p.live[key].(cancel := None)],
         cancelled := p.cancelled + CancelOf(p.live[key]))
    else p
  }

  // ---------------------------------------------------------------------
  // Conservation
  // ---------------------------------------------------------------------

  predicate IsLive(p: Pool, sc: nat)
    requires sc < |p.keys|
  {
    p.keys[sc] in p.live && p.live[p.keys[sc]].sc == sc
  }

  /**
   Every SubConn ever created is in exactly one of three places: in the map
   under its own key, draining, or shut down by exactly one Shutdown call.
   */
  ghost predicate Conserved(p: Pool) {
    && |p.keys| == |p.flight|
    && (forall k :: k in p.live ==> InMapOnly(p, k))
    && (forall i :: i in p.draining ==> i < |p.keys| && i !in p.shut)
    && (forall i :: i in p.shut ==> i < |p.keys|)
    && (forall i :: 0 <= i < |p.keys| ==> i in p.draining || i in p.shut || IsLive(p, i))
    && NoDuplicates(p.shut)
  }

  ghost predicate InMapOnly(p: Pool, k: PoolKey)
    requires k in p.live
  {
    var sc := p.live[k].sc;
    sc < |p.keys| && p.keys[sc] == k && sc !in p.draining && sc !in p.shut
  }

  /** The checkers not cancelled are exactly the ones the entries in the map would cancel. */
  ghost predicate CheckersOwned(p: Pool) {
    && (forall k :: k in p.live && p.live[k].cancel.Some? ==> WatchedBy(p, k, p.live[k].cancel.value))
    && (forall c :: c in p.cancelled ==> c < |p.owners|)
    && (forall c :: 0 <= c < |p.owners| && c !in p.cancelled ==>
          p.owners[c].key in p.live && p.live[p.owners[c].key].cancel == Some(c))
    && (forall c :: 0 <= c < |p.owners| ==> p.owners[c].sc < |p.keys|)
  }

  ghost predicate WatchedBy(p: Pool, k: PoolKey, c: nat)
    requires k in p.live
  {
    c < |p.owners| && c !in p.cancelled && p.owners[c] == Owner(k, p.live[k].sc)
  }

  ghost predicate Inv(p: Pool) { Conserved(p) && CheckersOwned(p) }

  lemma EvictInv(p: Pool, key: PoolKey)
    requires Inv(p)
    ensures Inv(Evict(p, key))
  {
    if key in p.live {
      var q := Evict(p, key);
      assert forall i :: i in q.shut <==> i in p.shut || i == p.live[key].sc;
      assert Conserved(q);
      assert CheckersOwned(q);
    }
  }

  lemma CreateInv(p: Pool, key: PoolKey)
    requires Inv(p) && key !in p.live
    ensures Inv(Create(p, key))
  {
    var q := Create(p, key);
    assert Conserved(q);
    assert CheckersOwned(q);
  }

  lemma AddInv(p: Pool, key: PoolKey, ok: bool)
    requires Inv(p)
    ensures Inv(Add(p, key, ok))
  {
    EvictInv(p, key);
    if ok { CreateInv(Evict(p, key), key); }
  }

  lemma RemoveInv(p: Pool, key: PoolKey)
    requires Inv(p)
    ensures Inv(Remove(p, key))
  {
    if key in p.live {
      var q := Remove(p, key);
      assert Conserved(q);
      assert CheckersOwned(q);
    }
  }

  lemma CloseInv(p: Pool, sc: nat)
    requires Inv(p) && sc in p.draining
    ensures Inv(Close(p, sc))
  {
    var q := Close(p, sc);
    assert forall i :: i in q.shut <==> i in p.shut || i == sc;
    assert Conserved(q);
    assert CheckersOwned(q);
  }

  lemma SetConnInv(p: Pool, key: PoolKey, c: Conn)
    requires Inv(p)
    ensures Inv(SetConn(p, key, c))
  {
  }

  lemma SetHealthInv(p: Pool, key: PoolKey, h: Health)
    requires Inv(p)
    ensures Inv(SetHealth(p, key, h))
  {
  }

  lemma StartCheckerInv(p: Pool, key: PoolKey, outcome: Start)
    requires Inv(p)
    requires key in p.live ==> p.live[key].cancel == None
    ensures Inv(StartChecker(p, key, outcome))
  {
    assert Conserved(StartChecker(p, key, outcome));
    if key in p.live && outcome != DialFails {
      if outcome == WatchFails { WatchFailsOwned(p, key); } else { StartedOwned(p, key); }
    }
  }

  lemma WatchFailsOwned(p: Pool, key: PoolKey)
    requires CheckersOwned(p) && key in p.live && p.live[key].sc < |p.keys|
    ensures CheckersOwned(StartChecker(p, key, WatchFails))
  {
  }

  lemma StartedOwned(p: Pool, key: PoolKey)
    requires CheckersOwned(p) && key in p.live && p.live[key].sc < |p.keys| && p.live[key].cancel == None
    ensures CheckersOwned(StartChecker(p, key, Started))
  {
    var q := StartChecker(p, key, Started);
    forall k | k in q.live && q.live[k].cancel.Some? ensures WatchedBy(q, k, q.live[k].cancel.value) {
      if k != key { assert WatchedBy(p, k, p.live[k].cancel.value); }
    }
    forall c | 0 <= c < |q.owners| && c !in q.cancelled
      ensures q.owners[c].key in q.live && q.live[q.owners[c].key].cancel == Some(c)
    {
      if c < |p.owners| { assert q.owners[c] == p.owners[c]; }
    }
  }

  lemma StopCheckerInv(p: Pool, key: PoolKey)
    requires Inv(p)
    ensures Inv(StopChecker(p, key))
  {
    var q := StopChecker(p, key);
    assert Conserved(q);
    assert CheckersOwned(q);
  }

  /** Connect calls, re-resolutions and in-flight counts play no part in the invariant. */
  lemma SamePlacesInv(p: Pool, q: Pool)
    requires Inv(p) && |q.flight| == |p.flight|
    requires q == p.(connects := q.connects, resolves := q.resolves, flight := q.flight)
    ensures Inv(q)
  {
    assert Conserved(q);
    assert CheckersOwned(q);
  }
}
