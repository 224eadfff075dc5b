/** The set difference between the current and the desired endpoints. */
module Reconcile {
  import opened Ordering
  import opened Endpoints

  /** `s` lists exactly the members of `S`, each once, in some order. */
  ghost predicate Lists<T>(s: seq<T>, S: set<T>) {
    NoDuplicates(s) && Elements(s) == S
  }

  lemma ListsSnoc<T>(s: seq<T>, S: set<T>, x: T)
    requires Lists(s, S) && x !in S
    ensures Lists(s + [x], S + {x})
  {
    assert forall y :: y in s <==> y in Elements(s);
  }

  /** Visiting one more key of `all`, and listing it unless `those` has it. */
  lemma ListsVisit<T>(out: seq<T>, all: set<T>, todo: set<T>, those: set<T>, k: T)
    requires k in todo && todo <= all && Lists(out, (all - todo) - those)
    ensures Lists(if k in those then out else out + [k], (all - (todo - {k})) - those)
  {
    var done := (all - todo) - those;
    if k in those {
      assert (all - (todo - {k})) - those == done;
    } else {
      ListsSnoc(out, done, k);
      assert (all - (todo - {k})) - those == done + {k};
    }
  }

  /** A Go map is ranged over in an arbitrary order. */
  method Reconcile(current: map<Key, Endpoint>, desired: map<Key, Endpoint>)
    returns (toAdd: seq<Key>, toRemove: seq<Key>)
    ensures Lists(toAdd, desired.Keys - current.Keys)
    ensures Lists(toRemove, current.Keys - desired.Keys)
  {
    toAdd := Missing(desired, current);
    toRemove := Missing(current, desired);
  }

  /** One of the two loops: the keys of `these` that `those` lacks. */
  method Missing(these: map<Key, Endpoint>, those: map<Key, Endpoint>) returns (out: seq<Key>)
    ensures Lists(out, these.Keys - those.Keys)
  {
    out := [];
    var todo := these.Keys;
    while todo != {}
      invariant todo <= these.Keys
      invariant Lists(out, (these.Keys - todo) - those.Keys)
      decreases todo
    {
      var k :| k in todo;
      ListsVisit(out, these.Keys, todo, those.Keys, k);
      if k !in those {
        out := out + [k];
      }
      todo := todo - {k};
    }
  }

  /** Nothing is both added and removed, and performing the difference reaches `desired`. */
  lemma ReconcileReaches(current: map<Key, Endpoint>, desired: map<Key, Endpoint>, toAdd: seq<Key>, toRemove: seq<Key>)
    requires Lists(toAdd, desired.Keys - current.Keys)
    requires Lists(toRemove, current.Keys - desired.Keys)
    ensures Elements(toAdd) !! Elements(toRemove)
    ensures (current.Keys - Elements(toRemove)) + Elements(toAdd) == desired.Keys
    ensures toAdd == [] && toRemove == [] <==> current.Keys == desired.Keys
  {
    NonemptyElements(toAdd);
    NonemptyElements(toRemove);
  }
}
