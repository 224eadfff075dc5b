/** The subconnection pool: a map of entries updated in place. */
module PoolClass {
  import opened Wrappers
  import opened Basics
  import opened Ordering
  import opened Endpoints
  import opened Entries
  import PS = PoolState

  ghost function KeysMade(es: seq<SubConnEntry>): seq<PS.PoolKey> {
    seq(|es|, i requires 0 <= i < |es| => es[i].key)
  }

  /** The "address:port" texts of entries. */
  ghost function AddressesOf(es: seq<SubConnEntry>): seq<string> {
    seq(|es|, i requires 0 <= i < |es| => AddrPort(es[i].key.address, es[i].key.port))
  }

  lemma MadeSnoc(es: seq<SubConnEntry>, e: SubConnEntry)
    ensures KeysMade(es + [e]) == KeysMade(es) + [e.key]
    ensures AddressesOf(es + [e]) == AddressesOf(es) + [PS.KeyText(e.key)]
  {
  }

  ghost function FlightOf(es: seq<SubConnEntry>): seq<int>
    reads es
  {
    seq(|es|, i requires 0 <= i < |es| reads es => es[i].inFlight)
  }

  class Pool {
    const cc: ClientConn
    const contexts: Contexts

    var entries: map<PS.PoolKey, SubConnEntry>

    ghost var created: seq<SubConnEntry>  // every entry ever made, by SubConn number
    ghost var draining: set<nat>          // SubConns with a drain goroutine

    /** The entries map in abstract terms. */
    ghost function Live(): map<PS.PoolKey, PS.Rec>
      reads this, entries.Values
    {
      map k | k in entries :: entries[k].Rec()
    }

    ghost function View(): PS.Pool
      reads this, cc`dialled, cc`shut, cc`connects, cc`resolves, contexts, created, entries.Values
    {
      PS.Pool(Live(), draining, cc.shut, cc.connects, cc.resolves,
              KeysMade(created), cc.dialled, FlightOf(created), contexts.owners, contexts.cancelled)
    }

    ghost predicate Valid()
      reads this, cc`dialled, created
    {
      && cc.dialled == AddressesOf(created)
      && (forall i :: 0 <= i < |created| ==> created[i].subConn == i)
      && (forall k :: k in entries ==> Holds(k))
    }

    /** The entry under a key was made for that key and is not draining. */
    ghost predicate Holds(k: PS.PoolKey)
      requires k in entries
      reads this, created
    {
      entries[k] in created && entries[k].key == k && !entries[k].draining
    }

    /** Every entry's SubConn was created for the entry's "address:port". */
    lemma DialsItsAddress(e: SubConnEntry)
      requires Valid() && e in created
      ensures e.subConn < |cc.dialled| && cc.dialled[e.subConn] == AddrPort(e.key.address, e.key.port)
    {
      var i :| 0 <= i < |created| && created[i] == e;
      assert AddressesOf(created)[i] == AddrPort(e.key.address, e.key.port);
    }

    constructor (cc: ClientConn, contexts: Contexts)
      requires cc.dialled == [] && cc.shut == [] && cc.connects == [] && cc.resolves == 0
      requires contexts.owners == [] && contexts.cancelled == {}
      ensures this.cc == cc && this.contexts == contexts
      ensures Valid() && View() == PS.EMPTY && created == []
    {
      this.cc, this.contexts := cc, contexts;
      entries := map[];
      created, draining := [], {};
    }

    /** Cancels an entry's checker and shuts its SubConn down, without touching the map. */
    method Discard(existing: SubConnEntry)
      modifies cc`shut, contexts`cancelled
      ensures cc.shut == old(cc.shut) + [existing.subConn]
      ensures contexts.cancelled == old(contexts.cancelled) + PS.CancelOf(existing.Rec())
    {
      if existing.healthCancel.Some? {
        contexts.Cancel(existing.healthCancel.value);
      }
      cc.Shutdown(existing.subConn);
    }

    /** First half of Add: shut down and drop an entry already under the key. */
    method Evict(key: PS.PoolKey)
      requires Valid()
      modifies this`entries, cc`shut, contexts`cancelled
      ensures Valid() && entries == old(entries) - {key}
      ensures View() == PS.Evict(old(View()), key)
    {
      if key in entries {
        Discard(entries[key]);
        assert Live() == old(Live());
        entries := entries - {key};
        assert Live() == old(Live()) - {key};
      }
    }

    /** Second half of Add, once gRPC created the SubConn. */
    method Enter(key: PS.PoolKey, sc: nat) returns (e: SubConnEntry)
      requires |created| == sc && cc.dialled == AddressesOf(created) + [PS.KeyText(key)]
      requires forall i :: 0 <= i < |created| ==> created[i].subConn == i
      requires forall k :: k in entries ==> Holds(k)
      modifies this, cc`connects
      ensures Valid() && fresh(e) && draining == old(draining)
      ensures entries == old(entries)[key := e] && created == old(created) + [e]
      ensures View() == PS.Create(old(View()).(dialled := old(AddressesOf(created))), key)
    {
      hide KeysMade, AddressesOf;
      e := new SubConnEntry(key, sc);
      MadeSnoc(created, e);
      created := created + [e];
      entries := entries[key := e];
      cc.Connect(sc);
      assert Live() == old(Live())[key := e.Rec()];
      assert FlightOf(created) == old(FlightOf(created)) + [0];
    }

    /** Asks gRPC for a SubConn and enters it, if there is one. */
    method Create(key: PS.PoolKey) returns (entry: Option<SubConnEntry>)
      requires Valid()
      modifies this, cc`dialled, cc`connects
      ensures Valid() && draining == old(draining)
      ensures View() == if entry.Some? then PS.Create(old(View()), key) else old(View())
      ensures entry.Some? ==>
        && entries == old(entries)[key := entry.value]
        && fresh(entry.value) && created == old(created) + [entry.value]
      ensures entry.None? ==> entries == old(entries) && created == old(created)
      ensures cc.dialled == old(cc.dialled) + (if entry.Some? then [AddrPort(key.address, key.port)] else [])
    {
      var sc := cc.NewSubConn(PS.KeyText(key));
      assert sc.None? ==> View() == old(View());
      if sc.None? { return None; }
      assert View().(dialled := old(AddressesOf(created))) == old(View());
      assert forall k :: k in entries ==> Holds(k);
      var e := Enter(key, sc.value);
      entry := Some(e);
    }

    method Add(namespace: string, service: string, ep: Endpoint) returns (entry: Option<SubConnEntry>)
      requires Valid()
      modifies this, cc`dialled, cc`shut, cc`connects, contexts`cancelled
      ensures Valid()
      ensures var key := PS.PoolKey.PoolKey(namespace, service, ep.address, ep.port);
        && View() == PS.Add(old(View()), key, entry.Some?)
        && entries == (if entry.Some? then old(entries)[key := entry.value] else old(entries) - {key})
      ensures old(created) <= created
      ensures entry.Some? ==> fresh(entry.value) && created == old(created) + [entry.value]
      ensures entry.None? ==> created == old(created)
      ensures cc.dialled == old(cc.dialled) + (if entry.Some? then [AddrPort(ep.address, ep.port)] else [])
    {
      var key := PS.PoolKey.PoolKey(namespace, service, ep.address, ep.port);
      Evict(key);
      entry := Create(key);
      if entry.Some? { PutAfterDrop(old(entries), key, entry.value); }
    }

    /** Different keys hold different entries. */
    lemma Apart(key: PS.PoolKey)
      requires Valid() && key in entries
      ensures entries[key] in created && entries[key].key == key
      ensures forall k :: k in entries && k != key ==> entries[k] != entries[key]
    {
      assert Holds(key);
      assert forall k :: k in entries ==> Holds(k);
    }

    /** Marks an entry as draining and cancels its checker, without taking it off the map yet. */
    method MarkDraining(key: PS.PoolKey, entry: SubConnEntry)
      requires Valid() && key in entries && entries[key] == entry
      modifies entry`draining, contexts`cancelled
      ensures entry.draining
      ensures contexts.cancelled == old(contexts.cancelled) + PS.CancelOf(entry.Rec())
      ensures Live() == old(Live()) && FlightOf(created) == old(FlightOf(created))
      ensures forall k :: k in entries && k != key ==> Holds(k)
    {
      Apart(key);
      entry.draining := true;
      if entry.healthCancel.Some? {
        contexts.Cancel(entry.healthCancel.value);
      }
    }

    /** The entry leaves the map at once; a goroutine drains it. */
    method Remove(key: PS.PoolKey)
      requires Valid()
      modifies this`entries, this`draining, contexts`cancelled, created`draining
      ensures Valid() && entries == old(entries) - {key}
      ensures View() == PS.Remove(old(View()), key)
    {
      if key !in entries { return; }
      var entry := entries[key];
      assert Holds(key);
      MarkDraining(key, entry);
      entries := entries - {key};
      draining := draining + {entry.subConn};
      assert Live() == old(Live()) - {key};
    }

    /** One turn of the drain loop: the deadline has passed, or the poll timer ticked. */
    method DrainWake(entry: SubConnEntry, deadline: bool) returns (closed: bool)
      requires Valid() && entry in created && entry.subConn in draining
      modifies this`draining, cc`shut
      ensures Valid()
      ensures closed <==> deadline || entry.inFlight <= 0
      ensures View() == if deadline then PS.Close(old(View()), entry.subConn)
                        else PS.Tick(old(View()), entry.subConn)
    {
      if !deadline && entry.inFlight > 0 { return false; }
      cc.Shutdown(entry.subConn);
      draining := draining - {entry.subConn};
      return true;
    }

    /** Sets the connectivity state of an entry in the map. */
    method NoteConnState(key: PS.PoolKey, state: PS.Conn)
      requires Valid() && key in entries
      modifies created
      ensures Valid()
      ensures forall e :: e in created ==> e.inFlight == old(e.inFlight)
      ensures var p := old(View()); View() == p.(live := p.live[key := p.live[key].(conn := state)])
    {
      var entry := entries[key];
      Apart(key);
      entry.connState := state;
      assert Live() == old(Live())[key := entry.Rec()];
      assert FlightOf(created) == old(FlightOf(created));
    }

    method UpdateConnState(key: PS.PoolKey, state: PS.Conn)
      requires Valid()
      modifies cc`resolves, created
      ensures Valid()
      ensures forall e :: e in created ==> e.inFlight == old(e.inFlight)
      ensures View() == PS.SetConn(old(View()), key, state)
    {
      if key !in entries { return; }
      NoteConnState(key, state);
      if state == PS.TransientFailure {
        cc.ResolveNow();
      }
    }

    method UpdateHealth(key: PS.PoolKey, state: PS.Health)
      requires Valid()
      modifies created
      ensures Valid()
      ensures forall e :: e in created ==> e.inFlight == old(e.inFlight)
      ensures View() == PS.SetHealth(old(View()), key, state)
    {
      if key in entries {
        var entry := entries[key];
        Apart(key);
        entry.health := state;
        assert Live() == old(Live())[key := entry.Rec()];
        assert FlightOf(created) == old(FlightOf(created));
      }
    }

    /** Keys visited so far give exactly the entries collected so far. */
    ghost predicate Collected(r: seq<SubConnEntry>, visited: set<PS.PoolKey>, servingOnly: bool)
      requires visited <= entries.Keys
      reads this, entries.Values
    {
      && NoDuplicates(r)
      && (forall e :: e in r ==> e.key in visited && entries[e.key] == e)
      && (forall k :: k in visited && !entries[k].draining && (servingOnly ==> entries[k].health == PS.Serving)
            ==> entries[k] in r)
      && (servingOnly ==> forall e :: e in r ==> e.health == PS.Serving)
    }

    /** All entries of the map, in some order; `servingOnly` keeps the eligible ones. */
    method Collect(servingOnly: bool) returns (result: seq<SubConnEntry>)
      requires Valid()
      ensures Collected(result, entries.Keys, servingOnly)
    {
      result := [];
      var todo := entries.Keys;
      while todo != {}
        invariant todo <= entries.Keys
        invariant Collected(result, entries.Keys - todo, servingOnly)
        decreases todo
      {
        var k :| k in todo;
        var entry := entries[k];
        assert Holds(k);
        if !entry.draining && (servingOnly ==> entry.health == PS.Serving) {
          result := result + [entry];
        }
        todo := todo - {k};
      }
    }

    method Snapshot() returns (result: seq<SubConnEntry>)
      requires Valid()
      ensures NoDuplicates(result) && Elements(result) == entries.Values
    {
      result := Collect(false);
      assert forall k :: k in entries ==> Holds(k);
    }

    method HealthyEntries() returns (result: seq<SubConnEntry>)
      requires Valid()
      ensures NoDuplicates(result)
      ensures Elements(result) == set e | e in entries.Values && e.health == PS.Serving
    {
      result := Collect(true);
      assert forall k :: k in entries ==> Holds(k);
    }
  }
}
