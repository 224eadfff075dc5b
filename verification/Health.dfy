/** The health state machine of one SubConn. */
module HealthMachine {
  import opened PoolState

  // ---------------------------------------------------------------------
  // The callbacks of a sequence of events
  // ---------------------------------------------------------------------

  /** The state after `events`, starting from `current`. */
  function Latest(current: Health, events: seq<Health>): Health {
    if events == [] then current else events[|events| - 1]
  }

  /** The callbacks: every event that differs from the state it finds. */
  function Transitions(current: Health, events: seq<Health>): seq<Health> {
    if events == [] then []
    else
      var init, last := events[..|events| - 1], events[|events| - 1];
      Transitions(current, init) + (if last == Latest(current, init) then [] else [last])
  }

  /** What event `i` is compared with. */
  function Preceding(current: Health, events: seq<Health>, i: nat): Health
    requires i < |events|
  {
    if i == 0 then current else events[i - 1]
  }

  predicate ChangedAt(current: Health, events: seq<Health>, i: nat) {
    i < |events| && events[i] != Preceding(current, events, i)
  }

  lemma ChangedAtPrefix(current: Health, init: seq<Health>, last: Health, i: nat)
    ensures i < |init| ==> ChangedAt(current, init + [last], i) == ChangedAt(current, init, i)
    ensures ChangedAt(current, init + [last], |init|) <==> last != Latest(current, init)
  {
  }

  ghost predicate Increasing(at: seq<nat>, bound: nat) {
    && (forall k :: 0 <= k < |at| ==> at[k] < bound)
    && (forall j, k :: 0 <= j < k < |at| ==> at[j] < at[k])
  }

  /** `at` lists in order exactly the places whose event differs from the one before. */
  ghost predicate ListsChanges(current: Health, events: seq<Health>, at: seq<nat>) {
    Increasing(at, |events|) && forall i: nat :: i in at <==> ChangedAt(current, events, i)
  }

  lemma OneMoreEvent(current: Health, init: seq<Health>, last: Health, at: seq<nat>, at': seq<nat>)
    requires ListsChanges(current, init, at)
    requires at' == if last == Latest(current, init) then at else at + [|init|]
    ensures ListsChanges(current, init + [last], at')
  {
    forall i: nat ensures i in at' <==> ChangedAt(current, init + [last], i) {
      ChangedAtPrefix(current, init, last, i);
      assert i in at' <==> i in at || (i == |init| && last != Latest(current, init));
    }
  }

  lemma OneMoreCallback(current: Health, init: seq<Health>, last: Health, at: seq<nat>, at': seq<nat>)
    requires Increasing(at, |init|) && |at| == |Transitions(current, init)|
    requires forall k :: 0 <= k < |at| ==> Transitions(current, init)[k] == init[at[k]]
    requires at' == if last == Latest(current, init) then at else at + [|init|]
    ensures var events := init + [last];
      && Increasing(at', |events|) && |at'| == |Transitions(current, events)|
      && forall k :: 0 <= k < |at'| ==> Transitions(current, events)[k] == events[at'[k]]
  {
    var events := init + [last];
    assert events[..|events| - 1] == init;
    assert Transitions(current, events)
        == Transitions(current, init) + (if last == Latest(current, init) then [] else [last]);
    forall k | 0 <= k < |at'| ensures Transitions(current, events)[k] == events[at'[k]] {
      if k < |at| { assert events[at[k]] == init[at[k]]; }
    }
  }

  /** The callbacks are the events that differ from their predecessor, all of them and in order. */
  lemma {:induction false} TransitionsAreTheChanges(current: Health, events: seq<Health>) returns (at: seq<nat>)
    ensures ListsChanges(current, events, at) && |at| == |Transitions(current, events)|
    ensures forall k :: 0 <= k < |at| ==> Transitions(current, events)[k] == events[at[k]]
    decreases |events|
  {
    if events == [] {
      at := [];
    } else {
      var init, last := events[..|events| - 1], events[|events| - 1];
      var before := TransitionsAreTheChanges(current, init);
      assert events == init + [last];
      at := if last == Latest(current, init) then before else before + [|init|];
      OneMoreEvent(current, init, last, before, at);
      OneMoreCallback(current, init, last, before, at);
    }
  }

  /** No two callbacks in a row report the same state, and the first reports a new one. */
  lemma {:induction false} NoCallbackRepeats(current: Health, events: seq<Health>)
    ensures var calls := Transitions(current, events);
            && (calls != [] ==> calls[0] != current)
            && (forall k :: 0 < k < |calls| ==> calls[k] != calls[k - 1])
    ensures Latest(current, Transitions(current, events)) == Latest(current, events)
    decreases |events|
  {
    if events != [] {
      NoCallbackRepeats(current, events[..|events| - 1]);
    }
  }

  /** A checker's verdict; Unknown is only the state before the first one. */
  predicate Verdict(h: Health) { h.Serving? || h.NotServing? }

  function Other(h: Health): Health { if h.Serving? then NotServing else Serving }

  /** With verdicts only, the callbacks alternate strictly from the first verdict on. */
  lemma {:induction false} CallbacksAlternate(events: seq<Health>)
    requires forall e :: e in events ==> Verdict(e)
    ensures var calls := Transitions(Unknown, events);
            && (calls == [] <==> events == [])
            && forall k :: 0 <= k < |calls| ==> calls[k] == if k % 2 == 0 then events[0] else Other(events[0])
  {
    var calls := Transitions(Unknown, events);
    NoCallbackRepeats(Unknown, events);
    var at := TransitionsAreTheChanges(Unknown, events);
    if events != [] {
      assert Verdict(events[0]) && events[0] != Preceding(Unknown, events, 0);
      assert 0 in at;
      assert at[0] == 0;
      AlternatesFrom(calls);
    }
  }

  lemma {:induction false} AlternatesFrom(calls: seq<Health>)
    requires calls != [] && forall k :: 0 <= k < |calls| ==> Verdict(calls[k])
    requires forall k :: 0 < k < |calls| ==> calls[k] != calls[k - 1]
    ensures forall k :: 0 <= k < |calls| ==> calls[k] == if k % 2 == 0 then calls[0] else Other(calls[0])
  {
    if |calls| > 1 {
      var n := |calls| - 1;
      AlternatesFrom(calls[..n]);
      assert calls[n - 1] == calls[..n][n - 1];
    }
  }

  // ---------------------------------------------------------------------
  // The state machine
  // ---------------------------------------------------------------------

  class StateMachine {
    var current: Health
    /** The arguments of the callback so far. */
    var calls: seq<Health>

    constructor ()
      ensures current == Unknown && calls == []
    {
      current, calls := Unknown, [];
    }

    /**
     Consumes events until the channel is closed, which is after the last one,
     or until the cancelled context is noticed, before event `cancelledAt`.
     */
    method Drain(events: seq<Health>, cancelledAt: nat) returns (consumed: nat)
      modifies this
      ensures consumed == if cancelledAt < |events| then cancelledAt else |events|
      ensures current == Latest(old(current), events[..consumed])
      ensures calls == old(calls) + Transitions(old(current), events[..consumed])
    {
      consumed := 0;
      while true
        invariant 0 <= consumed <= |events| && consumed <= cancelledAt
        invariant current == Latest(old(current), events[..consumed])
        invariant calls == old(calls) + Transitions(old(current), events[..consumed])
        decreases |events| - consumed
      {
        if consumed == cancelledAt || consumed == |events| {
          return;
        }
        var state := events[consumed];
        assert events[..consumed + 1][..consumed] == events[..consumed];
        if state != current {
          current := state;
          calls := calls + [state];
        }
        consumed := consumed + 1;
      }
    }
  }
}
