/** Picks that share one attempt tracker, under either policy. */
module Failover {
  import opened Basics
  import opened Ordering
  import opened Choice

  function Itself(a: string): string { a }

  /**
   `picks[i]` was made when the healthy addresses were `healthy[i]` and the
   tracker held the earlier picks. Both policies choose among the candidates.
   */
  ghost predicate Tracked(healthy: seq<seq<string>>, picks: seq<string>) {
    && |healthy| == |picks|
    && forall i :: 0 <= i < |picks| ==> picks[i] in Candidates(healthy[i], Itself, picks[..i])
  }

  /** An address is picked again only when every healthy one was tried. */
  lemma {:induction false} RepeatsOnlyWhenExhausted(healthy: seq<seq<string>>, picks: seq<string>, i: nat)
    requires Tracked(healthy, picks) && i < |picks| && picks[i] in picks[..i]
    ensures forall a :: a in healthy[i] ==> a in picks[..i]
  {
    CandidateExactly(healthy[i], Itself, picks[..i], picks[i]);
  }

  /** What one pick of an item means for the addresses alone. */
  lemma {:induction false} PickByAddress<T>(items: seq<T>, text: T -> string, addrs: seq<string>,
                                            tried: seq<string>, x: T)
    requires |addrs| == |items| && forall i :: 0 <= i < |items| ==> addrs[i] == text(items[i])
    requires x in Candidates(items, text, tried)
    ensures text(x) in Candidates(addrs, Itself, tried)
  {
    CandidateExactly(items, text, tried, x);
    CandidateExactly(addrs, Itself, tried, text(x));
    var i :| 0 <= i < |items| && items[i] == x;
    assert addrs[i] == text(x);
    if text(x) in tried {
      forall a | a in addrs ensures a in tried {
        var j :| 0 <= j < |addrs| && addrs[j] == a;
        assert items[j] in items;
      }
    }
  }

  /** One more pick. */
  lemma TrackedSnoc(healthy: seq<seq<string>>, picks: seq<string>, h: seq<string>, a: string)
    requires Tracked(healthy, picks) && a in Candidates(h, Itself, picks)
    ensures Tracked(healthy + [h], picks + [a])
  {
    var hs, ps := healthy + [h], picks + [a];
    forall i | 0 <= i < |ps| ensures ps[i] in Candidates(hs[i], Itself, ps[..i]) {
      assert ps[..i] == picks[..i];
      if i == |picks| { assert picks[..i] == picks; }
    }
  }

  /** The earlier picks on their own. */
  lemma TrackedPrefix(healthy: seq<seq<string>>, picks: seq<string>, n: nat)
    requires Tracked(healthy, picks) && n <= |picks|
    ensures Tracked(healthy[..n], picks[..n])
  {
    forall i | 0 <= i < n ensures picks[..n][i] in Candidates(healthy[..n][i], Itself, picks[..n][..i]) {
      assert picks[..n][..i] == picks[..i];
    }
  }

  /** With fewer tries than addresses, the next pick is one not tried. */
  lemma NextIsNew(healthy: seq<string>, tried: seq<string>, next: string)
    requires NoDuplicates(healthy) && NoDuplicates(tried) && |tried| < |healthy|
    requires next in Candidates(healthy, Itself, tried)
    ensures next in healthy && next !in tried
  {
    CandidateExactly(healthy, Itself, tried, next);
    NoDuplicatesSize(tried);
    NoDuplicatesSize(healthy);
    if Elements(healthy) <= Elements(tried) { SubsetSize(Elements(healthy), Elements(tried)); }
    var a :| a in Elements(healthy) && a !in Elements(tried);
  }

  /** At every pick more different addresses are healthy than were tried before. */
  ghost predicate Plenty(healthy: seq<seq<string>>) {
    forall i :: 0 <= i < |healthy| ==> NoDuplicates(healthy[i]) && |healthy[i]| > i
  }

  /**
   Over changing healthy sets: as long as each is larger than the number of
   tries before it, no address is picked twice.
   */
  lemma {:induction false} PlentyMeansDistinct(healthy: seq<seq<string>>, picks: seq<string>)
    requires Tracked(healthy, picks) && Plenty(healthy)
    ensures NoDuplicates(picks)
    ensures forall i :: 0 <= i < |picks| ==> picks[i] in healthy[i]
    decreases |picks|
  {
    if picks != [] {
      var n := |picks| - 1;
      TrackedPrefix(healthy, picks, n);
      PlentyMeansDistinct(healthy[..n], picks[..n]);
      NextIsNew(healthy[n], picks[..n], picks[n]);
      assert forall i :: 0 <= i < n ==> picks[..n][i] == picks[i] && healthy[..n][i] == healthy[i];
      assert picks == picks[..n] + [picks[n]];
    }
  }

  /** The same healthy addresses at each of `n` picks. */
  function Always(healthy: seq<string>, n: nat): (r: seq<seq<string>>)
    ensures |r| == n && forall i :: 0 <= i < n ==> r[i] == healthy
  {
    seq(n, i => healthy)
  }

  /**
   Over a fixed set of N different addresses, the first min(m, N) of any m
   picks are all different, and the first N are a permutation of the set.
   */
  lemma {:induction false} PicksAreDistinct(healthy: seq<string>, picks: seq<string>)
    requires NoDuplicates(healthy) && Tracked(Always(healthy, |picks|), picks)
    ensures var first := picks[..Min(|picks|, |healthy|)];
      && NoDuplicates(first) && Elements(first) <= Elements(healthy)
      && (|picks| >= |healthy| ==> Elements(first) == Elements(healthy))
  {
    var n := Min(|picks|, |healthy|);
    var first := picks[..n];
    TrackedPrefix(Always(healthy, |picks|), picks, n);
    PlentyMeansDistinct(Always(healthy, |picks|)[..n], first);
    assert forall a :: a in first ==> a in healthy;
    NoDuplicatesSize(first);
    NoDuplicatesSize(healthy);
    SubsetSize(Elements(first), Elements(healthy));
  }
}
