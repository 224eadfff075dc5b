/** Endpoints, their identity, and the "address:port" text both are ordered by. */
module Endpoints {
  import opened Ordering
  import opened Decimal

  datatype Endpoint = Endpoint(address: string, port: int, ready: bool)

  /** Identity of an endpoint inside one resolver result. */
  datatype Key = Key(address: string, port: int)

  function KeyOf(e: Endpoint): Key { Key(e.address, e.port) }

  /** The "%s:%d" text of an address and a port. */
  function AddrPort(address: string, port: int): string {
    address + ":" + FormatInt(port)
  }

  function KeyText(k: Key): string { AddrPort(k.address, k.port) }

  function EndpointText(e: Endpoint): string { AddrPort(e.address, e.port) }

  // ---------------------------------------------------------------------
  // The text identifies the pair
  // ---------------------------------------------------------------------

  /** Index of the last colon, -1 if there is none. */
  function LastColon(s: string): (i: int)
    ensures -1 <= i < |s|
    ensures i >= 0 ==> s[i] == ':'
    ensures forall j :: i < j < |s| ==> s[j] != ':'
  {
    if s == [] then -1
    else if s[|s| - 1] == ':' then |s| - 1
    else LastColon(s[..|s| - 1])
  }

  /** Colons inside the address do not matter: the port text has none. */
  lemma LastColonOfAddrPort(address: string, port: int)
    ensures LastColon(AddrPort(address, port)) == |address|
    ensures AddrPort(address, port)[..|address|] == address
    ensures AddrPort(address, port)[|address| + 1..] == FormatInt(port)
  {
    var s := AddrPort(address, port);
    FormatIntShape(port);
    assert s[|address|] == ':';
    assert s[|address| + 1..] == FormatInt(port);
    forall j | |address| < j < |s| ensures s[j] != ':' {
      assert s[j] == FormatInt(port)[j - |address| - 1];
    }
  }

  lemma AddrPortInjective(a: string, p: int, b: string, q: int)
    requires AddrPort(a, p) == AddrPort(b, q)
    ensures a == b && p == q
  {
    LastColonOfAddrPort(a, p);
    LastColonOfAddrPort(b, q);
    FormatIntInjective(p, q);
  }

  // ---------------------------------------------------------------------
  // A strict total order on endpoint identities
  // ---------------------------------------------------------------------

  /** The order of sorting, capping and tie-breaking. */
  predicate Before(a: Key, b: Key) { Less(KeyText(a), KeyText(b)) }

  /** Exactly one of "before", "same" and "after" holds of two identities. */
  lemma BeforeIsTrichotomous(a: Key, b: Key)
    ensures Before(a, b) || a == b || Before(b, a)
    ensures !(Before(a, b) && Before(b, a))
    ensures !Before(a, a)
  {
    LessTotal(KeyText(a), KeyText(b));
    LessAsymmetric(KeyText(a), KeyText(b));
    LessIrreflexive(KeyText(a));
    if KeyText(a) == KeyText(b) { AddrPortInjective(a.address, a.port, b.address, b.port); }
  }

  lemma BeforeTransitive(a: Key, b: Key, c: Key)
    requires Before(a, b) && Before(b, c)
    ensures Before(a, c)
  {
    LessTransitive(KeyText(a), KeyText(b), KeyText(c));
  }

  lemma KeyTextDistinguishes(S: set<Key>)
    ensures Distinguishes(KeyText, S)
  {
    forall x, y | x in S && y in S && KeyText(x) == KeyText(y) ensures x == y {
      AddrPortInjective(x.address, x.port, y.address, y.port);
    }
  }
}
