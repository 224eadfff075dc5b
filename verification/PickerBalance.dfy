/** How evenly the built-in policies spread calls that carry no tracker. */
module PickerBalance {
  import opened Ordering
  import opened Arithmetic
  import opened Choice

  // ---------------------------------------------------------------------
  // Least request: runs of picks without completions
  // ---------------------------------------------------------------------

  /** The loads after `n` picks. */
  function LoadsAfter(loads: seq<int>, texts: seq<string>, n: nat): (r: seq<int>)
    requires |loads| == |texts| > 0
    ensures |r| == |loads|
  {
    if n == 0 then loads else Charged(LoadsAfter(loads, texts, n - 1), texts)
  }

  /** The positions chosen by `n` picks, in order. */
  function PicksMade(loads: seq<int>, texts: seq<string>, n: nat): (r: seq<nat>)
    requires |loads| == |texts| > 0
    ensures |r| == n && forall k :: 0 <= k < n ==> r[k] < |loads|
  {
    if n == 0 then []
    else PicksMade(loads, texts, n - 1) + [ArgMin(LoadsAfter(loads, texts, n - 1), texts)]
  }

  /** No two loads are more than `s` apart. */
  predicate Within(loads: seq<int>, s: int) {
    forall i, j :: 0 <= i < |loads| && 0 <= j < |loads| ==> loads[i] - loads[j] <= s
  }

  /** The choice has the smallest load. */
  lemma ArgMinHasLeastLoad(loads: seq<int>, texts: seq<string>)
    requires |loads| == |texts| > 0
    ensures forall j :: 0 <= j < |loads| ==> loads[ArgMin(loads, texts)] <= loads[j]
  {
    ArgMinIsMinimum(loads, texts);
  }

  /**
   Any run of picks without completions keeps the spread of loads at most the
   larger of one and what it was.
   */
  lemma {:induction false} SpreadStaysBounded(loads: seq<int>, texts: seq<string>, n: nat, s: int)
    requires |loads| == |texts| > 0 && Within(loads, s)
    ensures Within(LoadsAfter(loads, texts, n), if s >= 1 then s else 1)
  {
    if n > 0 {
      SpreadStaysBounded(loads, texts, n - 1, s);
      ArgMinHasLeastLoad(LoadsAfter(loads, texts, n - 1), texts);
    }
  }

  /** `k` picks from equal loads charged `k` different entries once each. */
  ghost predicate OnceEach(loads: seq<int>, c: int, picks: seq<nat>) {
    && NoDuplicates(picks)
    && (forall k :: 0 <= k < |picks| ==> picks[k] < |loads|)
    && forall i :: 0 <= i < |loads| ==> loads[i] == if i in picks then c + 1 else c
  }

  lemma {:induction false} EqualLoadsOnceEach(loads: seq<int>, texts: seq<string>, c: int, n: nat)
    requires |loads| == |texts| > 0 && n <= |loads|
    requires forall i :: 0 <= i < |loads| ==> loads[i] == c
    ensures OnceEach(LoadsAfter(loads, texts, n), c, PicksMade(loads, texts, n))
  {
    if n > 0 {
      EqualLoadsOnceEach(loads, texts, c, n - 1);
      var l, p := LoadsAfter(loads, texts, n - 1), PicksMade(loads, texts, n - 1);
      var i := ArgMin(l, texts);
      ArgMinHasLeastLoad(l, texts);
      var free := Unpicked(p, |loads|);
      assert l[free] == c && l[i] <= c;
      assert i !in p;
    }
  }

  /** Fewer than `n` different positions leave one free. */
  lemma Unpicked(p: seq<nat>, n: nat) returns (free: nat)
    requires NoDuplicates(p) && |p| < n && forall k :: 0 <= k < |p| ==> p[k] < n
    ensures free < n && free !in p
  {
    BoundedDistinct(p, n);
    free :| free < n && free !in p;
  }

  /** From equal loads, as many picks as there are entries choose each entry exactly once. */
  lemma {:induction false} EqualLoadsPermute(loads: seq<int>, texts: seq<string>, c: int)
    requires |loads| == |texts| > 0
    requires forall i :: 0 <= i < |loads| ==> loads[i] == c
    ensures NoDuplicates(PicksMade(loads, texts, |loads|))
    ensures forall i :: 0 <= i < |loads| ==> i in PicksMade(loads, texts, |loads|)
    ensures forall i :: 0 <= i < |loads| ==> LoadsAfter(loads, texts, |loads|)[i] == c + 1
  {
    EqualLoadsOnceEach(loads, texts, c, |loads|);
    BoundedDistinct(PicksMade(loads, texts, |loads|), |loads|);
  }

  // ---------------------------------------------------------------------
  // Round robin: tickets
  // ---------------------------------------------------------------------

  /** The tickets among the first `k` after `start` that lead to position `i` of `n`. */
  ghost function Hits(start: nat, k: nat, n: nat, i: nat): set<nat>
    requires n > 0
  {
    set t | start < t <= start + k && t % n == i
  }

  /** Any `n` consecutive tickets lead to each position exactly once. */
  lemma ConsecutiveTicketsPermute(start: nat, n: nat, i: nat)
    requires i < n
    ensures |Hits(start, n, n, i)| == 1
  {
    var r := (start + 1) % n;
    var t := if i >= r then start + 1 + (i - r) else start + 1 + (i + n - r);
    var q := (start + 1) / n;
    assert start + 1 == q * n + r;
    if i >= r { RemainderIs(t, q, n, i); } else {
      assert (q + 1) * n == q * n + n;
      RemainderIs(t, q + 1, n, i);
    }
    forall u | start < u <= start + n && u % n == i ensures u == t { SameRemainder(t, u, n); }
    assert Hits(start, n, n, i) == {t};
  }

  lemma HitsSplit(start: nat, j: nat, k: nat, n: nat, i: nat)
    requires n > 0
    ensures |Hits(start, j + k, n, i)| == |Hits(start, j, n, i)| + |Hits(start + j, k, n, i)|
  {
    assert Hits(start, j + k, n, i) == Hits(start, j, n, i) + Hits(start + j, k, n, i);
  }

  /** Fewer than `n` tickets hit a position at most once. */
  lemma FewTickets(start: nat, k: nat, n: nat, i: nat)
    requires i < n && k < n
    ensures |Hits(start, k, n, i)| <= 1
  {
    ConsecutiveTicketsPermute(start, n, i);
    HitsSplit(start, k, n - k, n, i);
  }

  lemma {:induction false} BlocksOfTickets(start: nat, q: nat, r: nat, n: nat, i: nat)
    requires i < n && r < n
    ensures q <= |Hits(start, q * n + r, n, i)| <= q + (if r == 0 then 0 else 1)
    decreases q
  {
    if q == 0 {
      FewTickets(start, r, n, i);
      if r == 0 { assert Hits(start, 0, n, i) == {}; }
    } else {
      var k := (q - 1) * n + r;
      assert (q - 1) * n >= 0;
      assert q * n + r == n + k;
      ConsecutiveTicketsPermute(start, n, i);
      HitsSplit(start, n, k, n, i);
      BlocksOfTickets(start + n, q - 1, r, n, i);
    }
  }

  /** Any `k` consecutive numbers hit each of `n` positions floor(k/n) or ceil(k/n) times. */
  lemma HitsAreFair(start: nat, k: nat, n: nat, i: nat)
    requires i < n
    ensures k / n <= |Hits(start, k, n, i)| <= k / n + (if k % n == 0 then 0 else 1)
  {
    var q, r := k / n, k % n;
    assert k == q * n + r;
    BlocksOfTickets(start, q, r, n, i);
  }

  // ---------------------------------------------------------------------
  // Round robin: picks
  // ---------------------------------------------------------------------

  /** The counter after `k` picks. */
  function TicketAfter(counter: nat, k: nat): nat {
    if k == 0 then counter else NextTicket(TicketAfter(counter, k - 1))
  }

  /** The positions `k` picks without a tracker choose from a list of `n`, in the order of their tickets. */
  function Positions(counter: nat, k: nat, n: nat): (r: seq<nat>)
    requires n > 0
    ensures |r| == k && forall j :: 0 <= j < k ==> r[j] == TicketAfter(counter, j + 1) % n
  {
    seq(k, j requires j >= 0 => TicketAfter(counter, j + 1) % n)
  }

  /** Tickets count up to the largest 64-bit number and start again at zero. */
  lemma {:induction false} TicketsCountUp(counter: nat, k: nat)
    requires counter < TWO_64 && k <= TWO_64
    ensures TicketAfter(counter, k) == if counter + k < TWO_64 then counter + k else counter + k - TWO_64
  {
    if k > 0 { TicketsCountUp(counter, k - 1); }
  }

  /** How often `x` occurs in `s`. */
  function Count(s: seq<nat>, x: nat): nat {
    if s == [] then 0 else Count(s[..|s| - 1], x) + (if s[|s| - 1] == x then 1 else 0)
  }

  lemma HitsNext(start: nat, k: nat, n: nat, i: nat)
    requires i < n && k > 0
    ensures |Hits(start, k, n, i)| == |Hits(start, k - 1, n, i)| + (if (start + k) % n == i then 1 else 0)
  {
    var t := start + k;
    assert Hits(start, k, n, i) == Hits(start, k - 1, n, i) + (if t % n == i then {t} else {});
  }

  lemma CountNext(counter: nat, k: nat, n: nat, i: nat)
    requires i < n && k > 0
    ensures Count(Positions(counter, k, n), i)
         == Count(Positions(counter, k - 1, n), i) + (if TicketAfter(counter, k) % n == i then 1 else 0)
  {
    assert Positions(counter, k, n)[..k - 1] == Positions(counter, k - 1, n);
  }

  lemma {:induction false} CountIsHits(counter: nat, k: nat, n: nat, i: nat)
    requires i < n && counter + k < TWO_64
    ensures Count(Positions(counter, k, n), i) == |Hits(counter, k, n, i)|
  {
    if k == 0 {
      assert Hits(counter, 0, n, i) == {};
    } else {
      CountIsHits(counter, k - 1, n, i);
      TicketsCountUp(counter, k);
      CountNext(counter, k, n, i);
      HitsNext(counter, k, n, i);
    }
  }

  /**
   Any `k` picks that do not wrap the counter, from a fresh picker fewer than
   2^64 of them, choose each of `n` entries floor(k/n) or ceil(k/n) times. A
   pick draws its ticket by one atomic addition, so this does not depend on
   which caller draws which ticket.
   */
  lemma {:induction false} PicksAreFair(counter: nat, k: nat, n: nat, i: nat)
    requires i < n && counter + k < TWO_64
    ensures k / n <= Count(Positions(counter, k, n), i) <= k / n + (if k % n == 0 then 0 else 1)
  {
    CountIsHits(counter, k, n, i);
    HitsAreFair(counter, k, n, i);
  }

  /** Numbers fewer than `n` apart leave different remainders. */
  lemma DistinctRemainders(counter: nat, n: nat, ps: seq<nat>)
    requires n > 0 && |ps| == n && forall j :: 0 <= j < n ==> ps[j] == (counter + j + 1) % n
    ensures NoDuplicates(ps)
  {
    forall j, k | 0 <= j < k < n ensures ps[j] != ps[k] {
      if ps[j] == ps[k] { SameRemainder(counter + j + 1, counter + k + 1, n); }
    }
  }

  lemma DistinctRun(counter: nat, n: nat)
    requires n > 0 && counter + n < TWO_64
    ensures NoDuplicates(Positions(counter, n, n))
  {
    var ps := Positions(counter, n, n);
    forall j | 0 <= j < n ensures ps[j] == (counter + j + 1) % n { TicketsCountUp(counter, j + 1); }
    DistinctRemainders(counter, n, ps);
  }

  /** After the largest ticket the rotation starts afresh, at position zero. */
  lemma DistinctFromZero(n: nat)
    requires 0 < n <= TWO_64
    ensures NoDuplicates(Positions(TWO_64 - 1, n, n))
  {
    var ps := Positions(TWO_64 - 1, n, n);
    forall j | 0 <= j < n ensures ps[j] == j {
      TicketsCountUp(TWO_64 - 1, j + 1);
      RemainderIs(j, 0, n, j);
    }
  }

  /** A list length that divides 2^64 makes the wrap invisible. */
  lemma DistinctOverDivisor(counter: nat, n: nat)
    requires 0 < n <= TWO_64 && counter < TWO_64 && TWO_64 % n == 0
    ensures NoDuplicates(Positions(counter, n, n))
  {
    var ps := Positions(counter, n, n);
    forall j | 0 <= j < n ensures ps[j] == (counter + j + 1) % n {
      TicketsCountUp(counter, j + 1);
      if counter + j + 1 >= TWO_64 { DropMultiple(counter + j + 1 - TWO_64, TWO_64, n); }
    }
    DistinctRemainders(counter, n, ps);
  }

  /** Otherwise a ticket `d` before the wrap and one after it lead to the same position. */
  lemma WrapCollides(counter: nat, n: nat)
    requires 0 < n <= TWO_64 && counter < TWO_64 - 1 && counter + n >= TWO_64 && TWO_64 % n != 0
    ensures !NoDuplicates(Positions(counter, n, n))
  {
    var q, r, m := TWO_64 / n, TWO_64 % n, TWO_64 - 1 - counter;
    var d := if r <= m then r else m;
    assert TWO_64 == q * n + r;
    RemainderIs(TWO_64 - d, q, n, r - d);
    RemainderIs(r - d, 0, n, r - d);
    var j, k := TWO_64 - d - counter - 1, m + r - d;
    TicketsCountUp(counter, j + 1);
    TicketsCountUp(counter, k + 1);
    assert Positions(counter, n, n)[j] == Positions(counter, n, n)[k];
  }

  /**
   `n` consecutive picks from a list of `n` choose every entry once exactly
   when they do not wrap the counter, or start right at its wrap, or `n`
   divides 2^64.
   */
  lemma {:induction false} RotationPermutesIff(counter: nat, n: nat)
    requires counter < TWO_64 && 0 < n <= TWO_64
    ensures (NoDuplicates(Positions(counter, n, n)) && forall i :: 0 <= i < n ==> i in Positions(counter, n, n))
       <==> counter + n < TWO_64 || counter == TWO_64 - 1 || TWO_64 % n == 0
  {
    if counter + n < TWO_64 {
      DistinctRun(counter, n);
    } else if counter == TWO_64 - 1 {
      DistinctFromZero(n);
    } else if TWO_64 % n == 0 {
      DistinctOverDivisor(counter, n);
    } else {
      WrapCollides(counter, n);
    }
    if NoDuplicates(Positions(counter, n, n)) { BoundedDistinct(Positions(counter, n, n), n); }
  }

  /** A fresh picker's counter takes every value. */
  lemma {:induction false} EveryTicketIsDrawn(c: nat)
    requires c < TWO_64
    ensures TicketAfter(0, c) == c
  {
    TicketsCountUp(0, c);
  }

  /** The case that fails, with three entries: two picks before the wrap and one after it. */
  lemma {:induction false} ThreeAcrossTheWrap(counter: nat)
    requires counter == TWO_64 - 2
    ensures TicketAfter(0, counter) == counter
    ensures Positions(counter, 3, 3) == [0, 0, 1] && 2 !in Positions(counter, 3, 3)
  {
    EveryTicketIsDrawn(counter);
    TicketsCountUp(counter, 1);
    TicketsCountUp(counter, 2);
    TicketsCountUp(counter, 3);
  }
}
