/**
 The cap on the number of subconnections: the `m` endpoints that come first
 by "address:port", and why a cap keeps churn small.
 */
module Cap {
  import opened Basics
  import opened Ordering
  import opened Sorting
  import opened Endpoints

  // ---------------------------------------------------------------------
  // The capped set
  // ---------------------------------------------------------------------

  /** `R` is the `m` first members of `S` (all of them when there are fewer). */
  ghost predicate IsSmallest(R: set<Key>, S: set<Key>, m: nat) {
    && R <= S
    && |R| == Min(|S|, m)
    && forall r, x :: r in R && x in S - R ==> Before(r, x)
  }

  /** The cap applied to a set of identities; zero or less means no cap. */
  ghost function Capped(S: set<Key>, m: int): set<Key> {
    if m <= 0 || |S| <= m then S else Elements(SortSet(S, KeyText)[..m])
  }

  lemma PrefixComesFirst(s: seq<Key>, m: nat, r: Key, x: Key)
    requires m <= |s| && StrictlySorted(s, KeyText)
    requires r in s[..m] && x in s[m..]
    ensures Before(r, x)
  {
    var i :| 0 <= i < m && s[..m][i] == r;
    var j :| 0 <= j < |s| - m && s[m..][j] == x;
    assert s[i] == r && s[m + j] == x;
  }

  lemma PrefixElements(s: seq<Key>, m: nat)
    requires m <= |s| && NoDuplicates(s)
    ensures |Elements(s[..m])| == m && Elements(s[..m]) <= Elements(s)
    ensures forall x :: x in Elements(s) - Elements(s[..m]) ==> x in s[m..]
  {
    NoDuplicatesSize(s[..m]);
    forall r | r in s[..m] ensures r in s {
      var i :| 0 <= i < m && s[..m][i] == r;
      assert s[i] == r;
    }
    assert s == s[..m] + s[m..];
  }

  lemma CappedIsSmallest(S: set<Key>, m: nat)
    requires m > 0
    ensures IsSmallest(Capped(S, m), S, m)
  {
    if |S| > m {
      var s := SortSet(S, KeyText);
      PrefixElements(s, m);
      KeyTextDistinguishes(S);
      SortedIsStrict(s, KeyText);
      var R := Elements(s[..m]);
      forall r, x | r in R && x in S - R ensures Before(r, x) {
        PrefixComesFirst(s, m, r, x);
      }
    }
  }

  /** Where the texts of two identities first differ, the first one's ends or has the smaller character. */
  ghost predicate FirstDiffers(k: Key, x: Key) {
    exists i: nat :: FirstDiffersAt(AddrPort(k.address, k.port), AddrPort(x.address, x.port), i)
  }

  lemma BeforeDiffers(k: Key, x: Key)
    requires Before(k, x)
    ensures FirstDiffers(k, x)
  {
    LessIff(KeyText(k), KeyText(x));
  }

  /** As many members as the cap allows, all of them without a cap, and those whose text comes first. */
  lemma {:induction false} CappedExactly(S: set<Key>, m: int)
    ensures var R := Capped(S, m);
      && R <= S && |R| == (if 0 < m < |S| then m else |S|)
      && forall k, x :: k in R && x in S - R ==> FirstDiffers(k, x)
  {
    hide Before, FirstDiffers;
    if m > 0 {
      CappedIsSmallest(S, m);
      var R := Capped(S, m);
      forall k, x | k in R && x in S - R ensures FirstDiffers(k, x) { BeforeDiffers(k, x); }
    }
  }

  /** Different sets of the same size each have a member that the other lacks. */
  lemma Differ<T>(A: set<T>, B: set<T>) returns (a: T, b: T)
    requires |A| == |B| && A != B
    ensures a in A && a !in B && b in B && b !in A
  {
    if A <= B { SubsetSize(A, B); }
    if B <= A { SubsetSize(B, A); }
    a :| a in A && a !in B;
    b :| b in B && b !in A;
  }

  lemma SmallestUnique(R1: set<Key>, R2: set<Key>, S: set<Key>, m: nat)
    requires IsSmallest(R1, S, m) && IsSmallest(R2, S, m)
    ensures R1 == R2
  {
    hide Before;
    if R1 != R2 {
      var a, b := Differ(R1, R2);
      assert a in S - R2 && b in S - R1;
      BeforeIsTrichotomous(a, b);
    }
  }

  // ---------------------------------------------------------------------
  // Algebra
  // ---------------------------------------------------------------------

  /** Being under the cap is inherited by smaller sets. */
  lemma CappedInherits(A: set<Key>, S: set<Key>, m: nat, k: Key)
    requires m > 0 && A <= S && k in A && k in Capped(S, m)
    ensures k in Capped(A, m)
  {
    CappedIsSmallest(A, m);
    CappedIsSmallest(S, m);
    if k !in Capped(A, m) {
      TooManyBefore(Capped(A, m), A, Capped(S, m), S, m, k);
    }
  }

  /** If `m` members of A, hence of S, come before k, that is too many for the cap on S to hold k. */
  lemma TooManyBefore(C: set<Key>, A: set<Key>, D: set<Key>, S: set<Key>, m: nat, k: Key)
    requires IsSmallest(C, A, m) && IsSmallest(D, S, m)
    requires A <= S && k in A && k !in C
    ensures k !in D
  {
    SubsetSize(A, S);
    SubsetSize(C, A);
    if k in D {
      forall x | x in C ensures x in D { BeforeIsTrichotomous(x, k); }
      SubsetSize(C + {k}, D);
    }
  }

  /** Capping twice over parts is capping the whole. */
  lemma {:induction false} CappedUnion(A: set<Key>, B: set<Key>, m: int)
    ensures Capped(A + B, m) == Capped(Capped(A, m) + Capped(B, m), m)
  {
    if m > 0 {
      var U := Capped(A, m) + Capped(B, m);
      var R := Capped(A + B, m);
      CappedIsSmallest(A, m);
      CappedIsSmallest(B, m);
      CappedIsSmallest(A + B, m);
      forall k | k in R ensures k in U {
        if k in A { CappedInherits(A, A + B, m, k); } else { CappedInherits(B, A + B, m, k); }
      }
      SubsetSize(R, U);
      SubsetSize(U, A + B);
      assert IsSmallest(R, U, m);
      CappedIsSmallest(U, m);
      SmallestUnique(R, Capped(U, m), U, m);
    }
  }

  lemma CappedMonotoneSize(A: set<Key>, S: set<Key>, m: int)
    requires A <= S
    ensures |Capped(A, m)| <= |Capped(S, m)|
  {
    SubsetSize(A, S);
    if m > 0 {
      CappedIsSmallest(A, m);
      CappedIsSmallest(S, m);
    }
  }

  lemma Partition(A: set<Key>, B: set<Key>)
    ensures |A| == |A * B| + |A - B|
  {
    assert A == A * B + (A - B);
  }

  /** A set that gains at most `e` without shrinking loses at most one member. */
  lemma GainOneLoseOne(was: set<Key>, now: set<Key>, e: Key)
    requires now <= was + {e} && |was| <= |now|
    ensures |was - now| <= 1
  {
    Partition(was, now);
    Partition(now, was);
    assert was * now == now * was;
    SubsetSize(now - was, {e});
  }

  /**
   Resolving one endpoint more, or one fewer, changes the capped set by at
   most one addition and at most one removal, and the addition or removal of
   the endpoint itself is the only one of its kind.
   */
  lemma {:induction false} OneEndpointOneChange(S: set<Key>, e: Key, m: int)
    ensures Capped(S + {e}, m) - Capped(S, m) <= {e}
    ensures |Capped(S, m) - Capped(S + {e}, m)| <= 1
  {
    var was, now := Capped(S, m), Capped(S + {e}, m);
    forall k | k in now && k != e ensures k in was {
      if m > 0 {
        CappedIsSmallest(S + {e}, m);
        CappedInherits(S, S + {e}, m, k);
      }
    }
    CappedMonotoneSize(S, S + {e}, m);
    GainOneLoseOne(was, now, e);
  }

  // ---------------------------------------------------------------------
  // The method
  // ---------------------------------------------------------------------

  ghost function KeysOf(eps: seq<Endpoint>): set<Key> { set e | e in eps :: KeyOf(e) }

  /** No two endpoints share an identity. */
  ghost predicate DistinctKeys(eps: seq<Endpoint>) {
    forall i, j :: 0 <= i < j < |eps| ==> KeyOf(eps[i]) != KeyOf(eps[j])
  }

  /** What capping a slice yields, up to the order of endpoints that print alike. */
  ghost predicate IsCapOf(r: seq<Endpoint>, eps: seq<Endpoint>, m: int) {
    if m <= 0 then r == eps
    else Sorted(r, EndpointText) && exists rest :: IsSplit(r, rest, eps, m)
  }

  /** `r` and `rest` share out `eps`; `r` has the first `m`. */
  ghost predicate IsSplit(r: seq<Endpoint>, rest: seq<Endpoint>, eps: seq<Endpoint>, m: int) {
    && Permutes(r + rest, eps)
    && |r| == Min(|eps|, m)
    && forall x, y :: x in r && y in rest ==> AtMost(EndpointText(x), EndpointText(y))
  }

  lemma HeadAtMostTail(all: seq<Endpoint>, m: nat)
    requires m <= |all| && Sorted(all, EndpointText)
    ensures forall x, y :: x in all[..m] && y in all[m..] ==> AtMost(EndpointText(x), EndpointText(y))
  {
    forall x, y | x in all[..m] && y in all[m..] ensures AtMost(EndpointText(x), EndpointText(y)) {
      var i :| 0 <= i < m && all[..m][i] == x;
      var j :| 0 <= j < |all| - m && all[m..][j] == y;
      assert all[i] == x && all[m + j] == y;
    }
  }

  /** Cutting a sorted permutation gives a split. */
  lemma CutSplits(all: seq<Endpoint>, eps: seq<Endpoint>, m: int)
    requires m > 0 && Sorted(all, EndpointText) && Permutes(all, eps)
    ensures |all| == |eps|
    ensures |all| > m ==> IsCapOf(all[..m], eps, m)
    ensures |all| <= m ==> IsCapOf(all, eps, m)
  {
    PermutesElements(all, eps);
    if |all| > m {
      var r, rest := all[..m], all[m..];
      assert all == r + rest;
      HeadAtMostTail(all, m);
      assert IsSplit(r, rest, eps, m);
    } else {
      assert all == all + [];
      assert IsSplit(all, [], eps, m);
    }
  }

  method CapEndpoints(endpoints: seq<Endpoint>, maxSubconns: int) returns (r: seq<Endpoint>)
    ensures IsCapOf(r, endpoints, maxSubconns)
    ensures |r| == if 0 < maxSubconns < |endpoints| then maxSubconns else |endpoints|
  {
    if maxSubconns <= 0 { return endpoints; }
    var sorted := new Endpoint[|endpoints|](i requires 0 <= i < |endpoints| => endpoints[i]);
    assert sorted[..] == endpoints;
    SortSlice(sorted, EndpointText);
    CutSplits(sorted[..], endpoints, maxSubconns);
    if sorted.Length > maxSubconns {
      r := sorted[..maxSubconns];
      assert r == sorted[..][..maxSubconns];
    } else {
      r := sorted[..];
    }
  }

  lemma AtMostIsBefore(a: Endpoint, b: Endpoint)
    requires AtMost(EndpointText(a), EndpointText(b)) && KeyOf(a) != KeyOf(b)
    ensures Before(KeyOf(a), KeyOf(b))
  {
    BeforeIsTrichotomous(KeyOf(a), KeyOf(b));
  }

  /** The keys of the first part of a split come before those of the rest. */
  lemma SplitKeys(r: seq<Endpoint>, rest: seq<Endpoint>, eps: seq<Endpoint>, m: int)
    requires IsSplit(r, rest, eps, m)
    ensures Elements(r) <= Elements(eps) && KeysOf(r) <= KeysOf(eps)
    ensures forall k, x :: k in KeysOf(r) && x in KeysOf(eps) - KeysOf(r) ==> Before(k, x)
  {
    hide AtMost, Before;
    PermutesElements(r + rest, eps);
    forall x | x in r ensures x in eps { assert x in Elements(r + rest); }
    forall k, x | k in KeysOf(r) && x in KeysOf(eps) - KeysOf(r) ensures Before(k, x) {
      var a :| a in r && KeyOf(a) == k;
      var b :| b in eps && KeyOf(b) == x;
      assert b in rest by { assert b in Elements(r + rest); }
      AtMostIsBefore(a, b);
    }
  }

  /**
   With a cap, an endpoint that was kept and one whose text was not first
   differ where the kept one has the smaller character, or ends.
   */
  lemma KeptComesFirst(r: seq<Endpoint>, eps: seq<Endpoint>, m: int, x: Endpoint, y: Endpoint)
    requires IsCapOf(r, eps, m) && m > 0 && x in r && y in eps
    requires forall z :: z in r ==> EndpointText(z) != EndpointText(y)
    ensures exists i: nat :: FirstDiffersAt(EndpointText(x), EndpointText(y), i)
  {
    var rest :| IsSplit(r, rest, eps, m);
    PermutesElements(r + rest, eps);
    assert y in Elements(eps) && y in Elements(r + rest);
    LessTotal(EndpointText(x), EndpointText(y));
    LessIff(EndpointText(x), EndpointText(y));
  }

  lemma DistinctPrefix(r: seq<Endpoint>, rest: seq<Endpoint>)
    requires DistinctKeys(r + rest)
    ensures DistinctKeys(r)
  {
    forall i, j | 0 <= i < j < |r| ensures KeyOf(r[i]) != KeyOf(r[j]) {
      assert (r + rest)[i] == r[i] && (r + rest)[j] == r[j];
    }
  }

  /** On distinct identities the method selects the capped set, each member once. */
  lemma CapSelectsSmallest(r: seq<Endpoint>, eps: seq<Endpoint>, m: int)
    requires IsCapOf(r, eps, m) && DistinctKeys(eps)
    ensures KeysOf(r) == Capped(KeysOf(eps), m)
    ensures Elements(r) <= Elements(eps) && DistinctKeys(r)
  {
    if m > 0 {
      var rest :| IsSplit(r, rest, eps, m);
      SplitKeys(r, rest, eps, m);
      DistinctPermutation(r + rest, eps);
      DistinctPrefix(r, rest);
      DistinctKeysSize(r);
      DistinctKeysSize(eps);
      CappedIsSmallest(KeysOf(eps), m);
      SmallestUnique(KeysOf(r), Capped(KeysOf(eps), m), KeysOf(eps), m);
    }
  }

  lemma {:induction false} DistinctKeysSize(eps: seq<Endpoint>)
    requires DistinctKeys(eps)
    ensures |KeysOf(eps)| == |eps|
  {
    if eps != [] {
      var init, last := eps[..|eps| - 1], eps[|eps| - 1];
      DistinctKeysSize(init);
      assert eps == init + [last];
      assert KeysOf(eps) == KeysOf(init) + {KeyOf(last)};
      assert KeyOf(last) !in KeysOf(init);
    }
  }

  lemma DistinctPermutation(a: seq<Endpoint>, b: seq<Endpoint>)
    requires Permutes(a, b) && DistinctKeys(b)
    ensures DistinctKeys(a)
  {
    PermutesElements(a, b);
    forall i, j | 0 <= i < j < |a| ensures KeyOf(a[i]) != KeyOf(a[j]) {
      assert NoDuplicates(a) by {
        assert NoDuplicates(b);
      }
      assert a[i] in Elements(b) && a[j] in Elements(b);
    }
  }

  /** The input order of distinct endpoints has no influence on the result. */
  lemma {:induction false} CapIgnoresOrder(r1: seq<Endpoint>, eps1: seq<Endpoint>,
                                           r2: seq<Endpoint>, eps2: seq<Endpoint>, m: int)
    requires m > 0
    requires IsCapOf(r1, eps1, m) && IsCapOf(r2, eps2, m)
    requires DistinctKeys(eps1) && Permutes(eps1, eps2)
    ensures r1 == r2
  {
    DistinctPermutation(eps2, eps1);
    CapSelectsSmallest(r1, eps1, m);
    CapSelectsSmallest(r2, eps2, m);
    PermutesElements(eps1, eps2);
    assert KeysOf(eps1) == KeysOf(eps2) by {
      assert forall e :: e in eps1 <==> e in Elements(eps2);
    }
    SameKeysSameEndpoints(r1, r2, eps1);
    CappedStrict(r1);
    CappedStrict(r2);
    StrictlySortedUnique(r1, r2, EndpointText);
  }

  lemma CappedStrict(r: seq<Endpoint>)
    requires Sorted(r, EndpointText) && DistinctKeys(r)
    ensures StrictlySorted(r, EndpointText)
  {
    forall i, j | 0 <= i < j < |r| ensures Less(EndpointText(r[i]), EndpointText(r[j])) {
      BeforeIsTrichotomous(KeyOf(r[i]), KeyOf(r[j]));
    }
  }

  lemma SameKeysSameEndpoints(r1: seq<Endpoint>, r2: seq<Endpoint>, eps: seq<Endpoint>)
    requires DistinctKeys(eps) && KeysOf(r1) == KeysOf(r2)
    requires Elements(r1) <= Elements(eps) && Elements(r2) <= Elements(eps)
    ensures Elements(r1) == Elements(r2)
  {
    forall a, b | a in eps && b in eps && KeyOf(a) == KeyOf(b) ensures a == b {
      var i :| 0 <= i < |eps| && eps[i] == a;
      var j :| 0 <= j < |eps| && eps[j] == b;
    }
    forall x ensures x in r1 <==> x in r2 {
      if x in r1 {
        assert x in Elements(eps);
        assert KeyOf(x) in KeysOf(r2);
        var y :| y in r2 && KeyOf(y) == KeyOf(x);
        assert y in Elements(eps);
      }
      if x in r2 {
        assert x in Elements(eps);
        assert KeyOf(x) in KeysOf(r1);
        var y :| y in r1 && KeyOf(y) == KeyOf(x);
        assert y in Elements(eps);
      }
    }
  }
}
