/**
 How a picker chooses, as functions of addresses and loads: the attempt
 exclusion filter, the least-request minimum, the round-robin ticket.
 */
module Choice {
  import opened Ordering

  // ---------------------------------------------------------------------
  // Attempt exclusion
  // ---------------------------------------------------------------------

  /** The items whose address was not tried yet, in order. */
  function Untried<T>(items: seq<T>, text: T -> string, tried: seq<string>): seq<T> {
    if items == [] then []
    else
      var n := |items| - 1;
      Untried(items[..n], text, tried) + (if text(items[n]) in tried then [] else [items[n]])
  }

  /** What a pick may choose from: the untried items, or all when all were tried. */
  function Candidates<T>(items: seq<T>, text: T -> string, tried: seq<string>): seq<T> {
    var u := Untried(items, text, tried);
    if u != [] then u else items
  }

  lemma {:induction false} UntriedExactly<T>(items: seq<T>, text: T -> string, tried: seq<string>, x: T)
    ensures x in Untried(items, text, tried) <==> x in items && text(x) !in tried
  {
    if items != [] {
      var n := |items| - 1;
      UntriedExactly(items[..n], text, tried, x);
      assert items == items[..n] + [items[n]];
    }
  }

  /** With nothing tried, everything is a candidate, in order. */
  lemma NothingTried<T>(items: seq<T>, text: T -> string)
    ensures Candidates(items, text, []) == items
  {
    AllUntried(items, text);
  }

  lemma LastUntried<T>(items: seq<T>, text: T -> string, tried: seq<string>)
    ensures items == [] ==> Untried(items, text, tried) == []
    ensures items != [] ==>
      var n := |items| - 1;
      Untried(items, text, tried)
      == Untried(items[..n], text, tried) + (if text(items[n]) in tried then [] else [items[n]])
  {
  }

  lemma {:induction false} AllUntried<T>(items: seq<T>, text: T -> string)
    ensures Untried(items, text, []) == items
  {
    hide Untried;
    LastUntried(items, text, []);
    if items != [] {
      var n := |items| - 1;
      AllUntried(items[..n], text);
      assert items == items[..n] + [items[n]];
    }
  }

  /** An item whose address was tried is a candidate only if no untried one exists. */
  lemma CandidateExactly<T>(items: seq<T>, text: T -> string, tried: seq<string>, x: T)
    ensures x in Candidates(items, text, tried)
       <==> x in items && (text(x) !in tried || forall y :: y in items ==> text(y) in tried)
    ensures items != [] ==> Candidates(items, text, tried) != []
  {
    UntriedExactly(items, text, tried, x);
    var u := Untried(items, text, tried);
    if u != [] {
      UntriedExactly(items, text, tried, u[0]);
    } else {
      forall y | y in items ensures text(y) in tried { UntriedExactly(items, text, tried, y); }
    }
  }

  // ---------------------------------------------------------------------
  // Least request
  // ---------------------------------------------------------------------

  /** Fewer calls in flight, or as many and an earlier "address:port". */
  predicate Beats(load: int, text: string, load': int, text': string) {
    load < load' || (load == load' && Less(text, text'))
  }

  /** Where a scan of the first `n`, keeping the entry that nothing later beats, ends up. */
  function ScanTo(loads: seq<int>, texts: seq<string>, n: nat): (i: nat)
    requires |loads| == |texts| && 0 < n <= |loads|
    ensures i < n
  {
    if n == 1 then 0
    else
      var i := ScanTo(loads, texts, n - 1);
      if Beats(loads[n - 1], texts[n - 1], loads[i], texts[i]) then n - 1 else i
  }

  function ArgMin(loads: seq<int>, texts: seq<string>): nat
    requires |loads| == |texts| > 0
  {
    ScanTo(loads, texts, |loads|)
  }

  /** The loads after one pick that charges the entry chosen. */
  function Charged(loads: seq<int>, texts: seq<string>): (r: seq<int>)
    requires |loads| == |texts| > 0
    ensures |r| == |loads|
  {
    loads[ArgMin(loads, texts) := loads[ArgMin(loads, texts)] + 1]
  }

  /** Nothing beats the entry at `i`. */
  ghost predicate IsMinimum(loads: seq<int>, texts: seq<string>, i: nat)
    requires |loads| == |texts|
  {
    i < |loads| && forall j :: 0 <= j < |loads| ==> !Beats(loads[j], texts[j], loads[i], texts[i])
  }

  lemma BeatsTransitive(a: int, s: string, b: int, t: string, c: int, u: string)
    requires Beats(a, s, b, t) && !Beats(c, u, b, t)
    ensures Beats(a, s, c, u)
  {
    AtMostLess(s, t, u);
    AtMostLess(t, u, s);
    if a == b == c {
      LessTotal(t, u);
      if t != u { LessTransitive(s, t, u); }
    }
  }

  lemma {:induction false} ScanIsMinimum(loads: seq<int>, texts: seq<string>, n: nat)
    requires |loads| == |texts| && 0 < n <= |loads|
    ensures var i := ScanTo(loads, texts, n);
      forall j :: 0 <= j < n ==> !Beats(loads[j], texts[j], loads[i], texts[i])
  {
    LessIrreflexive(texts[n - 1]);
    if n > 1 {
      ScanIsMinimum(loads, texts, n - 1);
      var i := ScanTo(loads, texts, n - 1);
      if Beats(loads[n - 1], texts[n - 1], loads[i], texts[i]) {
        forall j | 0 <= j < n - 1 ensures !Beats(loads[j], texts[j], loads[n - 1], texts[n - 1]) {
          BeatsTransitive(loads[n - 1], texts[n - 1], loads[i], texts[i], loads[j], texts[j]);
          BeatsAsymmetric(loads[n - 1], texts[n - 1], loads[j], texts[j]);
        }
      }
    }
  }

  lemma ArgMinIsMinimum(loads: seq<int>, texts: seq<string>)
    requires |loads| == |texts| > 0
    ensures IsMinimum(loads, texts, ArgMin(loads, texts))
  {
    ScanIsMinimum(loads, texts, |loads|);
  }

  /**
   The entry chosen has the fewest calls in flight; an entry with as few has
   the same text, or one that is greater where the two first differ.
   */
  lemma ChosenIsFirst(loads: seq<int>, texts: seq<string>, j: nat)
    requires |loads| == |texts| > 0 && j < |loads|
    ensures var i := ArgMin(loads, texts);
      && loads[i] <= loads[j]
      && (loads[i] == loads[j] ==> texts[i] == texts[j] || exists d: nat :: FirstDiffersAt(texts[i], texts[j], d))
  {
    var i := ArgMin(loads, texts);
    ArgMinIsMinimum(loads, texts);
    assert !Beats(loads[j], texts[j], loads[i], texts[i]);
    LessTotal(texts[i], texts[j]);
    LessIff(texts[i], texts[j]);
  }

  lemma BeatsAsymmetric(a: int, s: string, b: int, t: string)
    ensures !(Beats(a, s, b, t) && Beats(b, t, a, s))
  {
    LessAsymmetric(s, t);
  }

  /** The pair is in the lists at one position. */
  ghost predicate Offers(loads: seq<int>, texts: seq<string>, load: int, text: string)
    requires |loads| == |texts|
  {
    exists i :: 0 <= i < |loads| && loads[i] == load && texts[i] == text
  }

  /**
   The choice is the unique minimum, whatever the order of the list: two
   listings of the same entries lead to the same address and load.
   */
  lemma ChoiceIgnoresOrder(l1: seq<int>, t1: seq<string>, l2: seq<int>, t2: seq<string>)
    requires |l1| == |t1| > 0 && |l2| == |t2| > 0
    requires forall load, text :: Offers(l1, t1, load, text) <==> Offers(l2, t2, load, text)
    ensures t1[ArgMin(l1, t1)] == t2[ArgMin(l2, t2)] && l1[ArgMin(l1, t1)] == l2[ArgMin(l2, t2)]
  {
    ArgMinIsMinimum(l1, t1);
    ArgMinIsMinimum(l2, t2);
    var i, j := ArgMin(l1, t1), ArgMin(l2, t2);
    assert Offers(l2, t2, l1[i], t1[i]) by { assert Offers(l1, t1, l1[i], t1[i]); }
    assert Offers(l1, t1, l2[j], t2[j]) by { assert Offers(l2, t2, l2[j], t2[j]); }
    LessTotal(t1[i], t2[j]);
  }

  // ---------------------------------------------------------------------
  // Round robin
  // ---------------------------------------------------------------------

  const TWO_64: nat := 0x1_0000_0000_0000_0000

  /** `counter.Add(1)` on an atomic.Uint64. */
  function NextTicket(counter: nat): nat { (counter + 1) % TWO_64 }
}
