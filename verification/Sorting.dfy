/**
 `sort.Slice` by a string key: the set-level result it is measured against
 (`SortSet`) and an in-place method on an array (`SortSlice`).
 */
module Sorting {
  import opened Ordering

  ghost predicate IsLeast<T>(m: T, S: set<T>, text: T -> string) {
    m in S && forall x :: x in S ==> AtMost(text(m), text(x))
  }

  lemma {:induction false} LeastExists<T>(S: set<T>, text: T -> string)
    requires S != {}
    ensures exists m :: IsLeast(m, S, text)
    decreases |S|
  {
    var x :| x in S;
    if S == {x} {
      LessIrreflexive(text(x));
      assert IsLeast(x, S, text);
    } else {
      var rest := S - {x};
      assert S == rest + {x};
      LeastExists(rest, text);
      var m :| IsLeast(m, rest, text);
      LessIrreflexive(text(x));
      if AtMost(text(m), text(x)) {
        assert IsLeast(m, S, text);
      } else {
        forall y | y in S ensures AtMost(text(x), text(y)) {
          LessAsymmetric(text(x), text(m));
          if y != x { AtMostTransitive(text(x), text(m), text(y)); }
        }
        assert IsLeast(x, S, text);
      }
    }
  }

  lemma ElementsCons<T>(m: T, rest: seq<T>, S: set<T>)
    requires m in S && Elements(rest) == S - {m}
    ensures Elements([m] + rest) == S && m !in rest
  {
    var s := [m] + rest;
    forall x ensures x in s <==> x in S {
      assert x in rest <==> x in Elements(rest);
      if x in rest { var i :| 0 <= i < |rest| && rest[i] == x; assert s[i + 1] == x; }
      if x == m { assert s[0] == m; }
    }
  }

  /** `s` lists the members of `S`, each once, in text order. */
  ghost predicate IsSorting<T>(s: seq<T>, S: set<T>, text: T -> string) {
    |s| == |S| && Elements(s) == S && NoDuplicates(s) && Sorted(s, text)
  }

  /** By repeatedly taking a least member. */
  lemma {:induction false} SortingExists<T>(S: set<T>, text: T -> string) returns (s: seq<T>)
    ensures IsSorting(s, S, text)
    decreases |S|
  {
    if S == {} {
      s := [];
    } else {
      LeastExists(S, text);
      var m :| IsLeast(m, S, text);
      var rest := SortingExists(S - {m}, text);
      assert forall x :: x in rest ==> x in Elements(rest);
      ElementsCons(m, rest, S);
      s := [m] + rest;
    }
  }

  /** The members of `S` in text order. */
  ghost function SortSet<T(!new)>(S: set<T>, text: T -> string): (s: seq<T>)
    ensures IsSorting(s, S, text)
  {
    assert exists s :: IsSorting(s, S, text) by { var s := SortingExists(S, text); }
    var s :| IsSorting(s, S, text);
    s
  }

  /** Any duplicate-free sorted listing of `S` is the one `SortSet` gives. */
  lemma SortSetUnique<T(!new)>(s: seq<T>, S: set<T>, text: T -> string)
    requires Elements(s) == S && NoDuplicates(s) && Sorted(s, text)
    requires Distinguishes(text, S)
    ensures s == SortSet(S, text)
  {
    SortedIsStrict(s, text);
    SortedIsStrict(SortSet(S, text), text);
    StrictlySortedUnique(s, SortSet(S, text), text);
  }

  /** Same members, same multiplicities. */
  ghost predicate Permutes<T>(a: seq<T>, b: seq<T>) { multiset(a) == multiset(b) }

  lemma PermutesSwap<T>(s: seq<T>, i: nat, j: nat)
    requires i < |s| && j < |s|
    ensures Permutes(s[i := s[j]][j := s[i]], s)
  {
  }

  /** Position of a least element of `a[from..]`. */
  method LeastFrom<T>(a: array<T>, from: nat, text: T -> string) returns (m: nat)
    requires from < a.Length
    ensures from <= m < a.Length
    ensures forall k :: from <= k < a.Length ==> AtMost(text(a[m]), text(a[k]))
  {
    m := from;
    LessIrreflexive(text(a[m]));
    var j := from + 1;
    while j < a.Length
      invariant from <= m < j <= a.Length
      invariant forall k :: from <= k < j ==> AtMost(text(a[m]), text(a[k]))
    {
      if Less(text(a[j]), text(a[m])) {
        LessIrreflexive(text(a[j]));
        LessAsymmetric(text(a[j]), text(a[m]));
        forall k | from <= k < j ensures AtMost(text(a[j]), text(a[k])) {
          AtMostTransitive(text(a[j]), text(a[m]), text(a[k]));
        }
        m := j;
      }
      j := j + 1;
    }
  }

  /** Everything before `i` is in order and no greater than anything from `i` on. */
  ghost predicate SortedUpTo<T>(s: seq<T>, i: nat, text: T -> string) {
    i <= |s| && forall j, k :: 0 <= j < i && j < k < |s| ==> AtMost(text(s[j]), text(s[k]))
  }

  lemma SortedUpToStep<T>(s: seq<T>, i: nat, m: nat, text: T -> string)
    requires SortedUpTo(s, i, text) && i <= m < |s|
    requires forall k :: i <= k < |s| ==> AtMost(text(s[m]), text(s[k]))
    ensures SortedUpTo(s[i := s[m]][m := s[i]], i + 1, text)
  {
  }

  method SortSlice<T>(a: array<T>, text: T -> string)
    modifies a
    ensures Sorted(a[..], text)
    ensures Permutes(a[..], old(a[..]))
  {
    var i := 0;
    while i < a.Length
      invariant 0 <= i <= a.Length
      invariant SortedUpTo(a[..], i, text)
      invariant Permutes(a[..], old(a[..]))
    {
      var m := LeastFrom(a, i, text);
      ghost var before := a[..];
      SortedUpToStep(before, i, m, text);
      PermutesSwap(before, i, m);
      a[i], a[m] := a[m], a[i];
      assert a[..] == before[i := before[m]][m := before[i]];
      i := i + 1;
    }
  }

  lemma PermutesElements<T>(a: seq<T>, b: seq<T>)
    requires Permutes(a, b)
    ensures Elements(a) == Elements(b) && |a| == |b|
    ensures NoDuplicates(a) <==> NoDuplicates(b)
  {
    forall x ensures x in a <==> x in b {
      assert x in multiset(a) <==> x in multiset(b);
    }
    assert |multiset(a)| == |multiset(b)|;
    NoDuplicatesCount(a);
    NoDuplicatesCount(b);
  }

  /** No repetition means every multiplicity is at most one. */
  lemma {:induction false} NoDuplicatesCount<T>(s: seq<T>)
    ensures NoDuplicates(s) <==> forall x :: multiset(s)[x] <= 1
  {
    if s != [] {
      var r := s[1..];
      NoDuplicatesCount(r);
      assert s == [s[0]] + r;
      assert multiset(s) == multiset{s[0]} + multiset(r);
      NoDuplicatesHead(s);
      assert s[0] in r <==> multiset(r)[s[0]] >= 1;
      if forall x :: multiset(s)[x] <= 1 {
        assert multiset(s)[s[0]] <= 1;
        forall x ensures multiset(r)[x] <= 1 { assert multiset(s)[x] <= 1; }
      }
    }
  }
}
