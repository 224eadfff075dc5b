/**
 The order Go's `<` gives strings, and `sort.Slice` by a string-valued key.

 Go compares strings byte by byte; on well-formed UTF-8 that is the order of
 the code points, which is the order on `char` used here.
 */
module Ordering {

  // ---------------------------------------------------------------------
  // Lexicographic order on strings
  // ---------------------------------------------------------------------

  predicate Less(a: string, b: string) {
    if a == [] then b != []
    else b != [] && (a[0] < b[0] || (a[0] == b[0] && Less(a[1..], b[1..])))
  }

  /** `a` and `b` agree on their first `i` characters; there `a` ends, or has the smaller character. */
  predicate FirstDiffersAt(a: string, b: string, i: nat) {
    i <= |a| && i < |b| && a[..i] == b[..i] && (i == |a| || a[i] < b[i])
  }

  lemma HeadsAgree(a: string, b: string, i: nat)
    requires FirstDiffersAt(a, b, i) && i > 0
    ensures a != [] && b != [] && a[0] == b[0]
  {
    assert a[..i][0] == b[..i][0];
  }

  lemma DiffersLater(a: string, b: string, i: nat)
    requires a != [] && b != [] && a[0] == b[0]
    ensures FirstDiffersAt(a, b, i + 1) <==> FirstDiffersAt(a[1..], b[1..], i)
  {
    if i <= |a| - 1 && i < |b| - 1 {
      assert a[..i + 1] == [a[0]] + a[1..][..i] && b[..i + 1] == [b[0]] + b[1..][..i];
      assert a[..i + 1][1..] == a[1..][..i] && b[..i + 1][1..] == b[1..][..i];
    }
  }

  /** A string is less than another exactly if it is at the place where they first differ. */
  lemma {:induction false} LessIff(a: string, b: string)
    ensures Less(a, b) <==> exists i: nat :: FirstDiffersAt(a, b, i)
  {
    forall i: nat | FirstDiffersAt(a, b, i) && i > 0 ensures a != [] && b != [] && a[0] == b[0] {
      HeadsAgree(a, b, i);
    }
    if a != [] && b != [] && a[0] == b[0] {
      LessIff(a[1..], b[1..]);
      forall i: nat ensures FirstDiffersAt(a, b, i + 1) <==> FirstDiffersAt(a[1..], b[1..], i) {
        DiffersLater(a, b, i);
      }
      if i: nat :| FirstDiffersAt(a[1..], b[1..], i) { assert FirstDiffersAt(a, b, i + 1); }
      if i: nat :| FirstDiffersAt(a, b, i) { assert i > 0 && FirstDiffersAt(a[1..], b[1..], i - 1); }
    } else {
      assert Less(a, b) <==> FirstDiffersAt(a, b, 0);
    }
  }

  lemma {:induction false} LessIrreflexive(a: string)
    ensures !Less(a, a)
  {
    if a != [] { LessIrreflexive(a[1..]); }
  }

  lemma {:induction false} LessTransitive(a: string, b: string, c: string)
    requires Less(a, b) && Less(b, c)
    ensures Less(a, c)
  {
    if a != [] && a[0] == b[0] == c[0] { LessTransitive(a[1..], b[1..], c[1..]); }
  }

  lemma {:induction false} LessTotal(a: string, b: string)
    ensures a == b || Less(a, b) || Less(b, a)
  {
    if a != [] && b != [] && a[0] == b[0] {
      LessTotal(a[1..], b[1..]);
      if a[1..] == b[1..] { assert a == [a[0]] + a[1..] == [b[0]] + b[1..] == b; }
    }
  }

  lemma LessAsymmetric(a: string, b: string)
    ensures !(Less(a, b) && Less(b, a))
  {
    if Less(a, b) && Less(b, a) {
      LessTransitive(a, b, a);
      LessIrreflexive(a);
    }
  }

  /** Not greater: the negation of the reversed strict order. */
  predicate AtMost(a: string, b: string) { !Less(b, a) }

  lemma AtMostTransitive(a: string, b: string, c: string)
    requires AtMost(a, b) && AtMost(b, c)
    ensures AtMost(a, c)
  {
    if Less(c, a) {
      LessTotal(b, c);
      if b != c { LessTransitive(b, c, a); }
    }
  }

  lemma AtMostLess(a: string, b: string, c: string)
    ensures AtMost(a, b) && Less(b, c) ==> Less(a, c)
    ensures Less(a, b) && AtMost(b, c) ==> Less(a, c)
  {
    LessTotal(a, b);
    LessTotal(b, c);
    if Less(a, b) && Less(b, c) { LessTransitive(a, b, c); }
  }

  // ---------------------------------------------------------------------
  // Sequences sorted by a string-valued key
  // ---------------------------------------------------------------------

  ghost predicate Sorted<T>(s: seq<T>, text: T -> string) {
    forall i, j :: 0 <= i < j < |s| ==> AtMost(text(s[i]), text(s[j]))
  }

  ghost predicate StrictlySorted<T>(s: seq<T>, text: T -> string) {
    forall i, j :: 0 <= i < j < |s| ==> Less(text(s[i]), text(s[j]))
  }

  ghost predicate NoDuplicates<T>(s: seq<T>) {
    forall i, j :: 0 <= i < j < |s| ==> s[i] != s[j]
  }

  ghost function Elements<T>(s: seq<T>): set<T> { set x | x in s }

  /** No two members of `S` print alike. */
  ghost predicate Distinguishes<T>(text: T -> string, S: set<T>) {
    forall x, y :: x in S && y in S && text(x) == text(y) ==> x == y
  }

  lemma SortedIsStrict<T>(s: seq<T>, text: T -> string)
    requires Sorted(s, text) && NoDuplicates(s) && Distinguishes(text, Elements(s))
    ensures StrictlySorted(s, text)
  {
    forall i, j | 0 <= i < j < |s| ensures Less(text(s[i]), text(s[j])) {
      LessTotal(text(s[i]), text(s[j]));
    }
  }

  lemma NonemptyElements<T>(s: seq<T>)
    ensures s == [] <==> Elements(s) == {}
  {
    if s != [] { assert s[0] in Elements(s); }
  }

  /** Two strictly sorted sequences over the same elements are the same sequence. */
  lemma {:induction false} StrictlySortedUnique<T>(a: seq<T>, b: seq<T>, text: T -> string)
    requires StrictlySorted(a, text) && StrictlySorted(b, text)
    requires Elements(a) == Elements(b)
    ensures a == b
  {
    NonemptyElements(a);
    NonemptyElements(b);
    if a != [] {
      assert a[0] in Elements(b);
      assert b[0] in Elements(a);
      HeadIsLeast(a, b, text);
      forall x ensures x in Elements(a[1..]) <==> x in Elements(b[1..]) {
        TailElements(a, text, x);
        TailElements(b, text, x);
      }
      StrictlySortedUnique(a[1..], b[1..], text);
      assert a == [a[0]] + a[1..];
      assert b == [b[0]] + b[1..];
    }
  }

  lemma HeadIsLeast<T>(a: seq<T>, b: seq<T>, text: T -> string)
    requires StrictlySorted(a, text) && StrictlySorted(b, text)
    requires a != [] && b != [] && a[0] in b && b[0] in a
    ensures a[0] == b[0]
  {
    if a[0] != b[0] {
      var i :| 0 <= i < |b| && b[i] == a[0];
      var j :| 0 <= j < |a| && a[j] == b[0];
      LessAsymmetric(text(a[0]), text(b[0]));
    }
  }

  lemma TailElements<T>(s: seq<T>, text: T -> string, x: T)
    requires StrictlySorted(s, text) && s != []
    ensures x in Elements(s[1..]) <==> x in Elements(s) && x != s[0]
  {
    LessIrreflexive(text(s[0]));
    if x in s[1..] {
      var i :| 0 <= i < |s[1..]| && s[1..][i] == x;
      assert s[i + 1] == x;
    }
    if x in s && x != s[0] {
      var i :| 0 <= i < |s| && s[i] == x;
      assert s[1..][i - 1] == x;
    }
  }

  // ---------------------------------------------------------------------
  // Sizes
  // ---------------------------------------------------------------------

  lemma NoDuplicatesHead<T>(s: seq<T>)
    requires s != []
    ensures NoDuplicates(s) <==> NoDuplicates(s[1..]) && s[0] !in s[1..]
  {
    var r := s[1..];
    assert forall k :: 0 <= k < |r| ==> r[k] == s[k + 1];
    assert forall k :: 1 <= k < |s| ==> s[k] == r[k - 1];
  }

  lemma {:induction false} NoDuplicatesSize<T>(s: seq<T>)
    requires NoDuplicates(s)
    ensures |Elements(s)| == |s|
  {
    if s != [] {
      NoDuplicatesHead(s);
      NoDuplicatesSize(s[1..]);
      assert s == [s[0]] + s[1..];
      assert Elements(s) == {s[0]} + Elements(s[1..]);
    }
  }

  lemma SubsetSize<T>(A: set<T>, B: set<T>)
    requires A <= B
    ensures |A| <= |B|
    ensures |A| == |B| <==> A == B
    ensures |B - A| == |B| - |A|
  {
    assert B == A + (B - A);
  }

  /** The numbers below `n`. */
  ghost function Below(n: nat): (r: set<nat>)
    ensures |r| == n && forall i: nat :: i in r <==> i < n
  {
    if n == 0 then {} else Below(n - 1) + {n - 1}
  }

  /** Different numbers below `n`: at most `n` of them, and `n` only if all. */
  lemma BoundedDistinct(s: seq<nat>, n: nat)
    requires NoDuplicates(s) && forall k :: 0 <= k < |s| ==> s[k] < n
    ensures |s| <= n
    ensures |s| == n <==> forall i :: 0 <= i < n ==> i in s
  {
    var R := Below(n);
    assert Elements(s) <= R;
    NoDuplicatesSize(s);
    SubsetSize(Elements(s), R);
    if |s| == n {
      forall i | 0 <= i < n ensures i in s { assert i in Elements(s); }
    }
    if forall i :: 0 <= i < n ==> i in s { assert R <= Elements(s); }
  }
}
