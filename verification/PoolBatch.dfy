/** The two loops of a resolver update: a batch of Adds, then a batch of Removes. */
module PoolBatch {
  import opened Wrappers
  import opened Ordering
  import opened Endpoints
  import opened PoolState

  /** The pool key of an endpoint under the configured namespace and service. */
  function At(namespace: string, service: string, k: Key): PoolKey {
    PoolKey(namespace, service, k.address, k.port)
  }

  /** Adds in the order `ks`; `oks[i]` says whether gRPC creates the `i`-th SubConn. */
  function AddAll(p: Pool, ns: string, svc: string, ks: seq<Key>, oks: seq<bool>): Pool
    requires |ks| == |oks|
  {
    if ks == [] then p
    else
      var n := |ks| - 1;
      Add(AddAll(p, ns, svc, ks[..n], oks[..n]), At(ns, svc, ks[n]), oks[n])
  }

  function RemoveAll(p: Pool, ns: string, svc: string, ks: seq<Key>): Pool {
    if ks == [] then p
    else Remove(RemoveAll(p, ns, svc, ks[..|ks| - 1]), At(ns, svc, ks[|ks| - 1]))
  }

  /** The pool keys of the endpoints in a set. */
  ghost function Placed(ns: string, svc: string, K: set<Key>): set<PoolKey> {
    set k | k in K :: At(ns, svc, k)
  }

  /** The endpoints whose SubConn gRPC created. */
  ghost function Succeeded(ks: seq<Key>, oks: seq<bool>): set<Key>
    requires |ks| == |oks|
  {
    set i | 0 <= i < |ks| && oks[i] :: ks[i]
  }

  lemma SucceededSnoc(ks: seq<Key>, oks: seq<bool>)
    requires |ks| == |oks| > 0
    ensures var n := |ks| - 1;
      Succeeded(ks, oks) == Succeeded(ks[..n], oks[..n]) + (if oks[n] then {ks[n]} else {})
  {
    var n := |ks| - 1;
    assert forall i :: 0 <= i < n ==> ks[..n][i] == ks[i] && oks[..n][i] == oks[i];
    forall k | k in Succeeded(ks[..n], oks[..n]) ensures k in Succeeded(ks, oks) {
      var i :| 0 <= i < n && oks[..n][i] && ks[..n][i] == k;
      assert ks[i] == k && oks[i];
    }
  }

  lemma SucceededAll(ks: seq<Key>, oks: seq<bool>)
    requires |ks| == |oks| && NoDuplicates(ks)
    ensures Succeeded(ks, oks) <= Elements(ks)
    ensures Succeeded(ks, oks) == Elements(ks) <==> forall i :: 0 <= i < |oks| ==> oks[i]
  {
    if Succeeded(ks, oks) == Elements(ks) {
      forall i | 0 <= i < |oks| ensures oks[i] { assert ks[i] in Elements(ks); }
    }
  }

  /** No creation, no eviction, no other effect on an entry or a SubConn already there. */
  ghost predicate Extends(p: Pool, q: Pool) {
    && p.live.Keys <= q.live.Keys
    && (forall k :: k in p.live ==> q.live[k] == p.live[k])
    && (forall k :: k in q.live && k !in p.live ==> IsNew(p, q.live[k]))
    && q.draining == p.draining && q.shut == p.shut && q.resolves == p.resolves
    && q.owners == p.owners && q.cancelled == p.cancelled
    && p.flight <= q.flight && p.keys <= q.keys && p.connects <= q.connects
    && |q.keys| - |p.keys| == |q.flight| - |p.flight| == |q.connects| - |p.connects|
    && (forall i :: |p.flight| <= i < |q.flight| ==> q.flight[i] == 0)
  }

  /** A record as Add creates it, for a SubConn that did not exist in `p`. */
  ghost predicate IsNew(p: Pool, r: Rec) {
    r == Rec(r.sc, Unknown, Idle, None) && r.sc >= |p.flight|
  }

  /** Adding keys that are absent only adds: Add's eviction branch is not taken. */
  lemma {:induction false} AddAllExtends(p: Pool, ns: string, svc: string, ks: seq<Key>, oks: seq<bool>)
    requires |ks| == |oks| && NoDuplicates(ks)
    requires forall k :: k in ks ==> At(ns, svc, k) !in p.live
    ensures var q := AddAll(p, ns, svc, ks, oks);
      Extends(p, q) && q.live.Keys == p.live.Keys + Placed(ns, svc, Succeeded(ks, oks))
  {
    if ks != [] {
      var n := |ks| - 1;
      AddAllExtends(p, ns, svc, ks[..n], oks[..n]);
      SucceededSnoc(ks, oks);
      var q := AddAll(p, ns, svc, ks[..n], oks[..n]);
      var key := At(ns, svc, ks[n]);
      assert key !in q.live by {
        assert key !in p.live;
        assert forall i :: 0 <= i < n ==> ks[..n][i] == ks[i] != ks[n];
      }
      ExtendsCreate(p, q, key);
    }
  }

  lemma ExtendsCreate(p: Pool, q: Pool, key: PoolKey)
    requires Extends(p, q) && key !in q.live
    ensures Extends(p, Create(q, key))
  {
  }

  lemma {:induction false} AddAllInv(p: Pool, ns: string, svc: string, ks: seq<Key>, oks: seq<bool>)
    requires Inv(p) && |ks| == |oks|
    ensures Inv(AddAll(p, ns, svc, ks, oks))
  {
    if ks != [] {
      var n := |ks| - 1;
      AddAllInv(p, ns, svc, ks[..n], oks[..n]);
      AddInv(AddAll(p, ns, svc, ks[..n], oks[..n]), At(ns, svc, ks[n]), oks[n]);
    }
  }

  /** The SubConns of the entries under the keys `K`. */
  ghost function SubConnsOf(p: Pool, K: set<PoolKey>): set<nat> {
    set k | k in K && k in p.live :: p.live[k].sc
  }

  /** Removing is order-independent: the entries go, their SubConns drain. */
  lemma {:induction false} RemoveAllEffect(p: Pool, ns: string, svc: string, ks: seq<Key>)
    ensures var q := RemoveAll(p, ns, svc, ks);
      && q.live == p.live - Placed(ns, svc, Elements(ks))
      && q.draining == p.draining + SubConnsOf(p, Placed(ns, svc, Elements(ks)))
      && q.shut == p.shut && q.connects == p.connects && q.resolves == p.resolves
      && q.keys == p.keys && q.dialled == p.dialled && q.flight == p.flight && q.owners == p.owners
  {
    if ks != [] {
      var n := |ks| - 1;
      RemoveAllEffect(p, ns, svc, ks[..n]);
      assert ks == ks[..n] + [ks[n]];
      assert Elements(ks) == Elements(ks[..n]) + {ks[n]};
      var key := At(ns, svc, ks[n]);
      var K := Placed(ns, svc, Elements(ks[..n]));
      assert Placed(ns, svc, Elements(ks)) == K + {key};
      assert SubConnsOf(p, K + {key}) == SubConnsOf(p, K) + SubConnsOf(p, {key});
    }
  }

  lemma {:induction false} RemoveAllInv(p: Pool, ns: string, svc: string, ks: seq<Key>)
    requires Inv(p)
    ensures Inv(RemoveAll(p, ns, svc, ks))
  {
    if ks != [] {
      RemoveAllInv(p, ns, svc, ks[..|ks| - 1]);
      RemoveInv(RemoveAll(p, ns, svc, ks[..|ks| - 1]), At(ns, svc, ks[|ks| - 1]));
    }
  }
}
