/** The checker that feeds a health state machine: a watch stream with a fallback to periodic checks. */
module HealthChecker {
  import opened Wrappers
  import opened PoolState
  import opened HealthMachine

  datatype Status = UNKNOWN | SERVING | NOT_SERVING | SERVICE_UNKNOWN

  /** How a stream that was established comes to an end. */
  datatype Ending = Cancelled | WatchDropped | Broken

  /** One attempt to open the watch stream. */
  datatype Attempt = Refused | Unimplemented | Established(statuses: seq<Status>, ending: Ending)

  function ToHealthState(s: Status): Health {
    if s.SERVING? then Serving else NotServing
  }

  /** A periodic check; None is one that failed. */
  function DoCheck(reply: Option<Status>): Health {
    match reply case None => NotServing case Some(s) => ToHealthState(s)
  }

  // ---------------------------------------------------------------------
  // What there is to send, and how long the pauses are
  // ---------------------------------------------------------------------

  function FromStream(statuses: seq<Status>): seq<Health> {
    seq(|statuses|, i requires 0 <= i < |statuses| => ToHealthState(statuses[i]))
  }

  function FromChecks(checks: seq<Option<Status>>): seq<Health> {
    seq(|checks|, i requires 0 <= i < |checks| => DoCheck(checks[i]))
  }

  /** What one attempt gives the checker to send. */
  function Once(attempt: Attempt, checks: seq<Option<Status>>): seq<Health> {
    match attempt
    case Refused => [NotServing]
    case Unimplemented => FromChecks(checks)
    case Established(statuses, Cancelled) => FromStream(statuses)
    case Established(statuses, WatchDropped) => FromStream(statuses) + FromChecks(checks)
    case Established(statuses, Broken) => FromStream(statuses) + [NotServing]
  }

  /** The attempts that are followed by another. */
  predicate Retried(attempt: Attempt) {
    attempt.Refused? || (attempt.Established? && attempt.ending.Broken?)
  }

  /**
   Everything the answers to attempt `i` and the later ones give the checker to
   send, until the context is cancelled.
   */
  function Reports(attempts: seq<Attempt>, checks: seq<Option<Status>>, i: nat): seq<Health>
    requires i <= |attempts|
    decreases |attempts| - i
  {
    if i == |attempts| then []
    else Once(attempts[i], checks) + (if Retried(attempts[i]) then Reports(attempts, checks, i + 1) else [])
  }

  lemma OnceIsVerdicts(attempt: Attempt, checks: seq<Option<Status>>)
    ensures Verdicts(Once(attempt, checks))
  {
  }

  predicate Verdicts(hs: seq<Health>) { forall i :: 0 <= i < |hs| ==> Verdict(hs[i]) }

  lemma VerdictsConcat(a: seq<Health>, b: seq<Health>)
    requires Verdicts(a) && Verdicts(b)
    ensures Verdicts(a + b)
  {
  }

  /** The checker reports verdicts only: it never sends Unknown. */
  lemma {:induction false} ReportsAreVerdicts(attempts: seq<Attempt>, checks: seq<Option<Status>>, i: nat)
    requires i <= |attempts|
    ensures Verdicts(Reports(attempts, checks, i))
    decreases |attempts| - i
  {
    if i < |attempts| {
      ReportsAreVerdicts(attempts, checks, i + 1);
      OnceIsVerdicts(attempts[i], checks);
      VerdictsConcat(Once(attempts[i], checks), if Retried(attempts[i]) then Reports(attempts, checks, i + 1) else []);
    }
  }

  /** A status is reported as Serving exactly if it is SERVING; so is a check that succeeded. */
  lemma ServingIff(s: Status, reply: Option<Status>)
    ensures ToHealthState(s) == Serving <==> s == SERVING
    ensures DoCheck(reply) == Serving <==> reply == Some(SERVING)
  {
  }

  /** These reports are the verdicts on these statuses. */
  predicate Tells(reports: seq<Health>, statuses: seq<Status>) {
    && |reports| == |statuses|
    && forall k :: 0 <= k < |statuses| ==> reports[k] == if statuses[k] == SERVING then Serving else NotServing
  }

  /** These reports are the verdicts on these periodic checks. */
  predicate TellsChecks(reports: seq<Health>, checks: seq<Option<Status>>) {
    && |reports| == |checks|
    && forall k :: 0 <= k < |checks| ==> reports[k] == if checks[k] == Some(SERVING) then Serving else NotServing
  }

  lemma StreamTells(statuses: seq<Status>)
    ensures Tells(FromStream(statuses), statuses)
  {
  }

  lemma ChecksTell(checks: seq<Option<Status>>)
    ensures TellsChecks(FromChecks(checks), checks)
  {
  }

  /** What `reports` is, given what `later` attempts bring. */
  predicate ReportsOf(attempt: Attempt, checks: seq<Option<Status>>, reports: seq<Health>, later: seq<Health>) {
    match attempt
    case Refused => reports == [NotServing] + later
    case Unimplemented => TellsChecks(reports, checks)
    case Established(statuses, ending) =>
      && |statuses| <= |reports| && Tells(reports[..|statuses|], statuses)
      && match ending
         case Cancelled => |reports| == |statuses|
         case WatchDropped => TellsChecks(reports[|statuses|..], checks)
         case Broken => reports[|statuses|..] == [NotServing] + later
  }

  lemma SplitAt(a: seq<Health>, b: seq<Health>)
    ensures (a + b)[..|a|] == a && (a + b)[|a|..] == b
  {
  }

  /**
   What there is to report from attempt `i` on. A refusal counts as
   NotServing, and so does a broken stream after its statuses; both are tried
   again. A backend without the watch is checked periodically, from the start
   or after the statuses of a stream. A stream that ends with the context
   brings its statuses and nothing else.
   */
  lemma {:induction false} ReportsFrom(attempts: seq<Attempt>, checks: seq<Option<Status>>, i: nat)
    requires i < |attempts|
    ensures ReportsOf(attempts[i], checks, Reports(attempts, checks, i), Reports(attempts, checks, i + 1))
  {
    var all, later := Reports(attempts, checks, i), Reports(attempts, checks, i + 1);
    ChecksTell(checks);
    match attempts[i]
    case Refused =>
      assert all == [NotServing] + later;
    case Unimplemented =>
      assert all == FromChecks(checks) + [] == FromChecks(checks);
    case Established(statuses, ending) =>
      hide FromStream, FromChecks, Tells, TellsChecks;
      StreamTells(statuses);
      var told := FromStream(statuses);
      assert |told| == |statuses| by { TellsSize(told, statuses); }
      match ending
      case Cancelled =>
        assert all == told + [] == told;
        SplitAt(told, []);
      case WatchDropped =>
        assert all == told + FromChecks(checks) + [] == told + FromChecks(checks);
        SplitAt(told, FromChecks(checks));
      case Broken =>
        assert all == (told + [NotServing]) + later == told + ([NotServing] + later);
        SplitAt(told, [NotServing] + later);
  }

  lemma TellsSize(reports: seq<Health>, statuses: seq<Status>)
    requires Tells(reports, statuses)
    ensures |reports| == |statuses|
  {
  }

  /** Whatever part of its reports a checker gets across, the machine's callbacks alternate. */
  lemma CheckedCallbacksAlternate(attempts: seq<Attempt>, checks: seq<Option<Status>>, events: seq<Health>)
    requires events <= Reports(attempts, checks, 0)
    ensures var calls := Transitions(Unknown, events);
            forall k :: 0 <= k < |calls| ==> calls[k] == if k % 2 == 0 then events[0] else Other(events[0])
  {
    ReportsAreVerdicts(attempts, checks, 0);
    assert forall i :: 0 <= i < |events| ==> events[i] == Reports(attempts, checks, 0)[i];
    CallbacksAlternate(events);
  }

  const MAX_PAUSE := 10

  function TwoTo(k: nat): int { if k == 0 then 1 else 2 * TwoTo(k - 1) }

  /** The pause, in seconds, after a refusal that follows `refusals` others in a row. */
  function PauseAfter(refusals: nat): int {
    if TwoTo(refusals) > MAX_PAUSE then MAX_PAUSE else TwoTo(refusals)
  }

  /** One, two, four and eight seconds, and ten from then on. */
  lemma {:induction false} PausesGrow(refusals: nat)
    ensures PauseAfter(0) == 1 && PauseAfter(1) == 2 && PauseAfter(2) == 4 && PauseAfter(3) == 8
    ensures refusals >= 4 ==> PauseAfter(refusals) == 10
  {
    if refusals > 4 {
      PausesGrow(refusals - 1);
      assert TwoTo(refusals - 1) > 10 || refusals == 5;
    }
    assert TwoTo(4) == 16;
  }

  /** How many attempts right before `i` were refused in a row. */
  function RefusedBefore(attempts: seq<Attempt>, i: nat): nat
    requires i <= |attempts|
  {
    if i == 0 || !attempts[i - 1].Refused? then 0 else 1 + RefusedBefore(attempts, i - 1)
  }

  /** The attempts right before `i` that were refused, back to the first one that was not. */
  lemma {:induction false} RefusedInARow(attempts: seq<Attempt>, i: nat)
    requires i <= |attempts|
    ensures var n := RefusedBefore(attempts, i);
      && n <= i && (forall k :: i - n <= k < i ==> attempts[k].Refused?)
      && (n < i ==> !attempts[i - n - 1].Refused?)
  {
    if i > 0 && attempts[i - 1].Refused? { RefusedInARow(attempts, i - 1); }
  }

  /** The pauses in the course of the first `k` attempts. */
  function Pauses(attempts: seq<Attempt>, k: nat): seq<int>
    requires k <= |attempts|
  {
    if k == 0 then []
    else Pauses(attempts, k - 1) +
         (if attempts[k - 1].Refused? then [PauseAfter(RefusedBefore(attempts, k - 1))] else [])
  }

  /** How the pauses go on after attempt `i`. */
  lemma NextPause(attempts: seq<Attempt>, i: nat)
    requires i < |attempts|
    ensures var pause := PauseAfter(RefusedBefore(attempts, i));
      && PauseAfter(RefusedBefore(attempts, i + 1))
         == (if !attempts[i].Refused? then 1 else if 2 * pause > MAX_PAUSE then MAX_PAUSE else 2 * pause)
      && Pauses(attempts, i + 1) == Pauses(attempts, i) + (if attempts[i].Refused? then [pause] else [])
  {
  }

  /**
   The attempts from `i` on that are followed by another, given the sends left
   before the context is done: up to the first that is not, or whose reports
   do not all get across.
   */
  function Continued(attempts: seq<Attempt>, checks: seq<Option<Status>>, i: nat, left: nat): (k: nat)
    requires i <= |attempts|
    ensures i <= k <= |attempts|
    decreases |attempts| - i
  {
    if i < |attempts| && Retried(attempts[i]) && |Once(attempts[i], checks)| <= left
    then Continued(attempts, checks, i + 1, left - |Once(attempts[i], checks)|)
    else i
  }

  /** What attempt `i` gets across, `sent` after `before`, is as much of all reports as can be. */
  lemma ReportsStep(attempts: seq<Attempt>, checks: seq<Option<Status>>, i: nat,
                    before: seq<Health>, left: nat, sent: seq<Health>, left': nat)
    requires i < |attempts| && sent <= before + Once(attempts[i], checks)
    requires var n := |Once(attempts[i], checks)|; |sent| == |before| + (if left < n then left else n)
    requires left' == |before| + left - |sent|
    ensures Continued(attempts, checks, i, left)
         == if Retried(attempts[i]) && left >= |Once(attempts[i], checks)|
            then Continued(attempts, checks, i + 1, left') else i
    ensures var all := before + Reports(attempts, checks, i);
      if Retried(attempts[i]) && left >= |Once(attempts[i], checks)| then all == sent + Reports(attempts, checks, i + 1)
      else sent <= all && |sent| == |before| + (if left < |all| - |before| then left else |all| - |before|)
  {
    var once := Once(attempts[i], checks);
    var rest := if Retried(attempts[i]) then Reports(attempts, checks, i + 1) else [];
    assert Reports(attempts, checks, i) == once + rest;
    Relayed(before, once, rest, left, sent);
  }

  /** `sent` adds to `before` what `left` sends get across of `once`. */
  lemma Relayed(before: seq<Health>, once: seq<Health>, rest: seq<Health>, left: nat, sent: seq<Health>)
    requires sent <= before + once && |sent| == |before| + (if left < |once| then left else |once|)
    ensures sent <= before + (once + rest)
    ensures left >= |once| ==> before + (once + rest) == sent + rest
  {
    assert before + (once + rest) == (before + once) + rest;
    if left >= |once| { assert sent == before + once; }
  }

  // ---------------------------------------------------------------------
  // The loops
  // ---------------------------------------------------------------------

  /** The channel, and how many more sends succeed before the context is done. */
  class Channel {
    var sent: seq<Health>
    var left: nat
    var closed: bool

    constructor (sends: nat)
      ensures sent == [] && left == sends && !closed
    {
      sent, left, closed := [], sends, false;
    }

    method Send(h: Health) returns (ok: bool)
      requires !closed
      modifies this`sent, this`left
      ensures ok <==> old(left) > 0
      ensures sent == old(sent) + (if ok then [h] else [])
      ensures left == if ok then old(left) - 1 else 0
    {
      ok := left > 0;
      if ok { sent, left := sent + [h], left - 1; }
    }

    method Close()
      requires !closed
      modifies this`closed
      ensures closed
    {
      closed := true;
    }

    /** All of `reports` was sent since `before`, or as much of it as `budget` sends allow. */
    predicate Sent(before: seq<Health>, budget: nat, reports: seq<Health>)
      reads this
    {
      && sent <= before + reports
      && |sent| == |before| + (if budget < |reports| then budget else |reports|)
      && left == if budget < |reports| then 0 else budget - |reports|
    }
  }

  method RunPeriodicCheck(ch: Channel, checks: seq<Option<Status>>)
    requires !ch.closed
    modifies ch`sent, ch`left
    ensures ch.Sent(old(ch.sent), old(ch.left), FromChecks(checks))
  {
    for i := 0 to |checks|
      invariant ch.sent == old(ch.sent) + FromChecks(checks)[..i] && ch.left == old(ch.left) - i
    {
      var ok := ch.Send(DoCheck(checks[i]));
      if !ok { return; }
    }
  }

  /** The inner loop over an established stream, up to where Recv fails. */
  method Relay(ch: Channel, statuses: seq<Status>) returns (ok: bool)
    requires !ch.closed
    modifies ch`sent, ch`left
    ensures ch.Sent(old(ch.sent), old(ch.left), FromStream(statuses))
    ensures ok <==> old(ch.left) >= |statuses|
  {
    for i := 0 to |statuses|
      invariant ch.sent == old(ch.sent) + FromStream(statuses)[..i] && ch.left == old(ch.left) - i
    {
      ok := ch.Send(ToHealthState(statuses[i]));
      if !ok { return; }
    }
    ok := true;
  }

  /** One attempt; `again` when the loop goes on to the next. */
  method WatchOnce(ch: Channel, attempt: Attempt, checks: seq<Option<Status>>) returns (again: bool)
    requires !ch.closed
    modifies ch`sent, ch`left
    ensures ch.Sent(old(ch.sent), old(ch.left), Once(attempt, checks))
    ensures again <==> Retried(attempt) && old(ch.left) >= |Once(attempt, checks)|
  {
    match attempt {
      case Unimplemented =>
        RunPeriodicCheck(ch, checks);
        again := false;
      case Refused =>
        again := ch.Send(NotServing);
      case Established(statuses, ending) =>
        again := Relay(ch, statuses);
        if again {
          match ending {
            case Cancelled => again := false;
            case WatchDropped =>
              RunPeriodicCheck(ch, checks);
              again := false;
            case Broken =>
              again := ch.Send(NotServing);
          }
        }
    }
  }

  /** After the first `i` attempts: the pauses made, and the one a refusal now would bring. */
  predicate Paused(attempts: seq<Attempt>, i: nat, pauses: seq<int>, backoff: int) {
    i <= |attempts| && pauses == Pauses(attempts, i) && backoff == PauseAfter(RefusedBefore(attempts, i))
  }

  /** Doubled after a refusal, up to the maximum; reset by an established stream. */
  method NextBackoff(attempts: seq<Attempt>, i: nat, pauses: seq<int>, backoff: int)
    returns (pauses': seq<int>, backoff': int)
    requires i < |attempts| && Paused(attempts, i, pauses, backoff)
    ensures Paused(attempts, i + 1, pauses', backoff')
  {
    NextPause(attempts, i);
    pauses', backoff' := pauses, 1;
    if attempts[i].Refused? {
      pauses' := pauses + [backoff];
      backoff' := backoff * 2;
      if backoff' > MAX_PAUSE { backoff' := MAX_PAUSE; }
    }
  }

  /** After the first `i` attempts: what was sent, and where the loop will end. */
  ghost predicate Reported(ch: Channel, attempts: seq<Attempt>, checks: seq<Option<Status>>, i: nat,
                           reports: seq<Health>, sends: nat, reached: nat)
    reads ch
  {
    && i <= |attempts| && !ch.closed && ch.left == sends - |ch.sent|
    && reports == ch.sent + Reports(attempts, checks, i)
    && reached == Continued(attempts, checks, i, ch.left)
  }

  /** Attempt `i`: on to the next, or everything that can be is sent. */
  method Round(ch: Channel, attempts: seq<Attempt>, checks: seq<Option<Status>>, i: nat,
               ghost reports: seq<Health>, ghost sends: nat, ghost reached: nat) returns (again: bool)
    requires i < |attempts| && Reported(ch, attempts, checks, i, reports, sends, reached)
    modifies ch`sent, ch`left
    ensures again ==> Reported(ch, attempts, checks, i + 1, reports, sends, reached)
    ensures !again ==> ch.Sent([], sends, reports) && reached == i
  {
    ghost var before, left := ch.sent, ch.left;
    again := WatchOnce(ch, attempts[i], checks);
    ReportsStep(attempts, checks, i, before, left, ch.sent, ch.left);
  }

  /**
   The checker's goroutine. It sends as much of the reports as it can before
   the context is done, in order, closes the channel, and pauses after every
   refusal it reports: one second, and twice as long after the next one in a
   row, up to ten.
   */
  method RunWatch(ch: Channel, attempts: seq<Attempt>, checks: seq<Option<Status>>)
    returns (pauses: seq<int>)
    requires !ch.closed && ch.sent == []
    modifies ch
    ensures ch.closed && ch.Sent([], old(ch.left), Reports(attempts, checks, 0))
    ensures pauses == Pauses(attempts, Continued(attempts, checks, 0, old(ch.left)))
  {
    assert [] + Reports(attempts, checks, 0) == Reports(attempts, checks, 0);
    pauses := WatchLoop(ch, attempts, checks, Reports(attempts, checks, 0), ch.left,
                        Continued(attempts, checks, 0, ch.left));
    ch.Close();
  }

  /** Its loop over the attempts, which leaves the channel open. */
  method WatchLoop(ch: Channel, attempts: seq<Attempt>, checks: seq<Option<Status>>,
                   ghost reports: seq<Health>, ghost sends: nat, ghost reached: nat) returns (pauses: seq<int>)
    requires Reported(ch, attempts, checks, 0, reports, sends, reached)
    modifies ch`sent, ch`left
    ensures ch.Sent([], sends, reports) && reached <= |attempts| && pauses == Pauses(attempts, reached)
  {
    pauses := [];
    var backoff, i := 1, 0;
    while i < |attempts|
      invariant Reported(ch, attempts, checks, i, reports, sends, reached)
      invariant Paused(attempts, i, pauses, backoff)
    {
      var again := Round(ch, attempts, checks, i, reports, sends, reached);
      if !again { return; }
      pauses, backoff := NextBackoff(attempts, i, pauses, backoff);
      i := i + 1;
    }
  }

  /** The entry point: with checks disabled, one report of Serving and a closed channel. */
  method Watch(enabled: bool, attempts: seq<Attempt>, checks: seq<Option<Status>>, sends: nat) returns (ch: Channel)
    ensures fresh(ch) && ch.closed
    ensures enabled ==> ch.Sent([], sends, Reports(attempts, checks, 0))
    ensures !enabled ==> ch.sent == [Serving]
  {
    ch := new Channel(if enabled then sends else 1);
    if !enabled {
      var _ := ch.Send(Serving);
      ch.Close();
      return;
    }
    var _ := RunWatch(ch, attempts, checks);
  }
}
