/** Pool entries, and the parts of gRPC and of context cancellation the pool calls. */
module Entries {
  import opened Wrappers
  import opened PoolState

  class SubConnEntry {
    const key: PoolKey
    const subConn: nat
    var inFlight: int
    var draining: bool
    var health: Health
    var connState: Conn
    var healthCancel: Option<nat>

    constructor (key: PoolKey, subConn: nat)
      ensures this.key == key && this.subConn == subConn
      ensures inFlight == 0 && !draining && health == Unknown && connState == Idle && healthCancel == None
    {
      this.key, this.subConn := key, subConn;
      inFlight, draining := 0, false;
      health, connState, healthCancel := Unknown, Idle, None;
    }

    function Rec(): Rec
      reads this
    {
      PoolState.Rec(subConn, health, connState, healthCancel)
    }
  }

  /** gRPC's side of the connection: what the balancer asked it to do. */
  class ClientConn {
    var dialled: seq<string>    // the address each SubConn was created for, in the order of creation
    var shut: seq<nat>
    var connects: seq<nat>
    var resolves: nat
    var reported: Option<Conn>

    constructor ()
      ensures dialled == [] && shut == [] && connects == [] && resolves == 0 && reported == None
    {
      dialled, shut, connects, resolves, reported := [], [], [], 0, None;
    }

    /** A fresh SubConn, or failure; which of the two is up to gRPC. A SubConn is known by its number. */
    method NewSubConn(addr: string) returns (sc: Option<nat>)
      modifies this`dialled
      ensures sc == None ==> dialled == old(dialled)
      ensures sc.Some? ==> sc.value == |old(dialled)| && dialled == old(dialled) + [addr]
    {
      var fails: bool := *;
      if fails { return None; }
      sc := Some(|dialled|);
      dialled := dialled + [addr];
    }

    method Shutdown(sc: nat)
      modifies this`shut
      ensures shut == old(shut) + [sc]
    {
      shut := shut + [sc];
    }

    method Connect(sc: nat)
      modifies this`connects
      ensures connects == old(connects) + [sc]
    {
      connects := connects + [sc];
    }

    method ResolveNow()
      modifies this`resolves
      ensures resolves == old(resolves) + 1
    {
      resolves := resolves + 1;
    }

    method UpdateState(c: Conn)
      modifies this`reported
      ensures reported == Some(c)
    {
      reported := Some(c);
    }
  }

  /** The cancellable contexts health checkers run under. */
  class Contexts {
    var owners: seq<Owner>
    var cancelled: set<nat>

    constructor ()
      ensures owners == [] && cancelled == {}
    {
      owners, cancelled := [], {};
    }

    method Make(key: PoolKey, sc: nat) returns (c: nat)
      modifies this`owners
      ensures c == |old(owners)| && owners == old(owners) + [Owner(key, sc)]
    {
      c := |owners|;
      owners := owners + [Owner(key, sc)];
    }

    method Cancel(c: nat)
      modifies this`cancelled
      ensures cancelled == old(cancelled) + {c}
    {
      cancelled := cancelled + {c};
    }
  }
}
