/** The retry loops of the unary and the streaming interceptor. */
module Retry {
  import opened Basics
  import opened Wrappers
  import opened Ordering
  import opened Backoff
  import opened Failover
  import opened Pickers
  import opened PickRuns

  type Code = nat

  datatype Reply = Ok | Fail(code: Code)

  datatype CtxErr = Canceled | DeadlineExceeded

  datatype Policy = Policy(
    maxAttempts: int, initialBackoff: int, maxBackoff: int,
    backoffMultiplier: real, retryableCodes: seq<Code>
  )

  /** What validation of the configuration guarantees, and that backoffs fit a Duration. */
  predicate ValidPolicy(p: Policy) {
    && p.initialBackoff >= 0 && p.maxBackoff >= 0 && p.backoffMultiplier >= 1.0
    && Scaled(p.initialBackoff as real, p.backoffMultiplier) < TWO_63 as real
    && Scaled(p.maxBackoff as real, p.backoffMultiplier) < TWO_63 as real
  }

  /**
   Everything the loops do not decide: for each attempt, whether the context
   is done before it, how the call ends, whether the context ends the sleep
   after it.
   */
  datatype Env = Env(
    ctxBefore: int -> Option<CtxErr>,
    reply: int -> Reply,
    ctxAsleep: int -> Option<CtxErr>
  )

  datatype Act = Call(reply: Reply) | Sleep(duration: int)

  /** What the interceptor returns; a context error wraps the last failure if there was one. */
  datatype Outcome = Success | Failure(code: Code) | Interrupted(ctx: CtxErr, last: Option<Code>)

  function OutcomeOf(r: Reply): Outcome {
    match r case Ok => Success case Fail(c) => Failure(c)
  }

  // ---------------------------------------------------------------------
  // The specification
  // ---------------------------------------------------------------------

  predicate Retryable(p: Policy, r: Reply) { r.Fail? && r.code in p.retryableCodes }

  function WaitAfter(p: Policy, attempt: int): int {
    BackoffOf(attempt, p.initialBackoff, p.maxBackoff, p.backoffMultiplier)
  }

  /** The wait after each attempt. */
  function Waits(p: Policy): int -> int { n => WaitAfter(p, n) }

  /** The waits are the policy's backoffs, and each can be converted to a Duration. */
  ghost predicate BackoffsFit(p: Policy, waits: int -> int) {
    && Convertible(p.initialBackoff, p.maxBackoff, p.backoffMultiplier)
    && forall n {:trigger WaitAfter(p, n)} :: waits(n) == WaitAfter(p, n)
  }

  /** Calls 1 to `n`, with the waits after attempts 1 to `s` in between. */
  function Alternating(waits: int -> int, env: Env, n: nat, s: nat): (acts: seq<Act>)
    requires s <= n <= s + 1
    ensures |acts| == n + s
    decreases n + s
  {
    if n == 0 then []
    else if s == n then Alternating(waits, env, n, s - 1) + [Sleep(waits(n))]
    else Alternating(waits, env, n - 1, s) + [Call(env.reply(n))]
  }

  /** Attempts 1 to `n - 1` failed retryably and nothing cut them or their sleeps short. */
  ghost predicate ReachedAttempt(p: Policy, env: Env, n: nat) {
    && n <= p.maxAttempts
    && (forall k :: 1 <= k < n ==> Retryable(p, env.reply(k)) && env.ctxAsleep(k).None?)
    && (forall k :: 1 <= k < n ==> env.ctxBefore(k).None?)
  }

  /** The loop ends with the reply to call `n`. */
  ghost predicate EndsWithReply(p: Policy, waits: int -> int, env: Env, n: nat, acts: seq<Act>, out: Outcome) {
    && n >= 1 && ReachedAttempt(p, env, n) && env.ctxBefore(n).None?
    && (Retryable(p, env.reply(n)) ==> n == p.maxAttempts)
    && acts == Alternating(waits, env, n, n - 1)
    && out == OutcomeOf(env.reply(n))
  }

  /** The context is found done before call `n + 1`, or during the sleep before it. */
  ghost predicate EndsWithContext(p: Policy, waits: int -> int, env: Env, n: nat, acts: seq<Act>, out: Outcome) {
    && n < p.maxAttempts && ReachedAttempt(p, env, n)
    && (n >= 1 ==> env.ctxBefore(n).None? && Retryable(p, env.reply(n)))
    && acts == Alternating(waits, env, n, n)
    && var last := if n == 0 then None else Some(env.reply(n).code);
    && (if n >= 1 && env.ctxAsleep(n).Some? then out == Interrupted(env.ctxAsleep(n).value, last)
        else env.ctxBefore(n + 1).Some? && out == Interrupted(env.ctxBefore(n + 1).value, last))
  }

  /** Without retries there is one call, and its reply is the result. */
  predicate PassesThrough(env: Env, acts: seq<Act>, out: Outcome) {
    acts == [Call(env.reply(1))] && out == OutcomeOf(env.reply(1))
  }

  /** A run of attempts with these waits in between. */
  ghost predicate Retries(p: Policy, waits: int -> int, env: Env, acts: seq<Act>, out: Outcome) {
    exists n: nat :: EndsWithReply(p, waits, env, n, acts, out) || EndsWithContext(p, waits, env, n, acts, out)
  }

  /** What an interceptor may do for one RPC. */
  ghost predicate Conforms(p: Policy, nonIdempotent: bool, env: Env, acts: seq<Act>, out: Outcome) {
    if nonIdempotent || p.maxAttempts <= 1 then PassesThrough(env, acts, out)
    else Retries(p, Waits(p), env, acts, out)
  }

  // ---------------------------------------------------------------------
  // The loops
  // ---------------------------------------------------------------------

  method IsRetryable(r: Reply, retryable: seq<Code>) returns (yes: bool)
    ensures yes <==> r.Fail? && r.code in retryable
  {
    if r.Ok? { return false; }
    for i := 0 to |retryable|
      invariant r.code !in retryable[..i]
    {
      if r.code == retryable[i] { return true; }
    }
    return false;
  }

  function CallsIn(acts: seq<Act>): nat {
    if acts == [] then 0
    else CallsIn(acts[..|acts| - 1]) + (if acts[|acts| - 1].Call? then 1 else 0)
  }

  /** There is a picker for each attempt: the one installed when its call picks. */
  predicate PickerPerAttempt(p: Policy, pickers: seq<Picker>) {
    |pickers| >= 1 && |pickers| >= p.maxAttempts
  }

  /** At each attempt at least MaxAttempts different addresses are healthy. */
  ghost predicate Abundant(p: Policy, pickers: seq<Picker>) {
    forall i :: 0 <= i < |pickers| ==>
      NoDuplicates(TextsOf(HealthyIn(pickers[i]))) && |HealthyIn(pickers[i])| >= p.maxAttempts
  }

  /** The trace has `calls` calls. */
  ghost predicate Makes(waits: int -> int, env: Env, calls: nat, acts: seq<Act>) {
    acts == Alternating(waits, env, calls, calls) || (calls >= 1 && acts == Alternating(waits, env, calls, calls - 1))
  }

  lemma MakesCalls(waits: int -> int, env: Env, calls: nat, acts: seq<Act>)
    requires Makes(waits, env, calls, acts)
    ensures CallsIn(acts) == calls
  {
    AlternatingCalls(waits, env, calls, if acts == Alternating(waits, env, calls, calls) then calls else calls - 1);
  }

  /** Call number `attempt`: it picks, noting the address in the tracker, and is replied to. */
  method Invoke(env: Env, attempt: nat, pickers: seq<Picker>, tracker: AttemptTracker) returns (reply: Reply)
    requires 1 <= attempt <= |pickers| && PickedBy(pickers, attempt - 1, tracker.addrs)
    modifies tracker, CountersOf(pickers), Chargeable(pickers)`inFlight
    ensures reply == env.reply(attempt) && PickedBy(pickers, attempt, tracker.addrs)
  {
    hide *;
    var _ := NextPick(pickers, attempt - 1, tracker);
    reply := env.reply(attempt);
  }

  /** Notes a sleep, which picks nothing. */
  method Pause(p: Policy, ghost waits: int -> int, attempt: nat, acts: seq<Act>) returns (acts': seq<Act>)
    requires BackoffsFit(p, waits)
    ensures acts' == acts + [Sleep(waits(attempt))]
  {
    var backoff := AttemptBackoff(attempt, p.initialBackoff, p.maxBackoff, p.backoffMultiplier);
    assert backoff == WaitAfter(p, attempt);
    acts' := acts + [Sleep(backoff)];
  }

  /** The context is found done before call `n + 1`. */
  lemma InterruptedConforms(p: Policy, waits: int -> int, env: Env, n: nat, acts: seq<Act>, last: Option<Code>)
    requires p.maxAttempts > 1 && n < p.maxAttempts && ReachedAttempt(p, env, n + 1)
    requires acts == Alternating(waits, env, n, n) && env.ctxBefore(n + 1).Some?
    requires last == if n == 0 then None else Some(env.reply(n).code)
    ensures Retries(p, waits, env, acts, Interrupted(env.ctxBefore(n + 1).value, last)) && Makes(waits, env, n, acts)
  {
    assert EndsWithContext(p, waits, env, n, acts, Interrupted(env.ctxBefore(n + 1).value, last));
  }

  /** The reply to call `n` ends the RPC. */
  lemma RepliedConforms(p: Policy, waits: int -> int, env: Env, n: nat, acts: seq<Act>)
    requires p.maxAttempts > 1 && 1 <= n && ReachedAttempt(p, env, n) && env.ctxBefore(n).None?
    requires Retryable(p, env.reply(n)) ==> n == p.maxAttempts
    requires acts == Alternating(waits, env, n, n - 1)
    ensures Retries(p, waits, env, acts, OutcomeOf(env.reply(n)))
  {
    assert EndsWithReply(p, waits, env, n, acts, OutcomeOf(env.reply(n)));
  }

  /**
   What both loops do after a failed call: return, when `end` is set; leave
   the loop, when the attempts are exhausted; or sleep before the next one.
   */
  method AfterFailure(p: Policy, ghost waits: int -> int, env: Env, attempt: nat, lastErr: Code, acts: seq<Act>)
    returns (acts': seq<Act>, end: Option<Outcome>, exhausted: bool)
    requires BackoffsFit(p, waits) && p.maxAttempts > 1 && 1 <= attempt && ReachedAttempt(p, env, attempt)
    requires env.ctxBefore(attempt).None? && env.reply(attempt) == Fail(lastErr)
    requires acts == Alternating(waits, env, attempt, attempt - 1)
    ensures Makes(waits, env, attempt, acts')
    ensures end.Some? ==> Retries(p, waits, env, acts', end.value) && !end.value.Success?
    ensures exhausted ==> end.None? && Retries(p, waits, env, acts', Failure(lastErr))
    ensures end.None? && !exhausted ==>
      ReachedAttempt(p, env, attempt + 1) && acts' == Alternating(waits, env, attempt, attempt)
  {
    acts', end, exhausted := acts, None, false;
    var retryable := IsRetryable(env.reply(attempt), p.retryableCodes);
    if !retryable {
      end := Some(Failure(lastErr));
      RepliedConforms(p, waits, env, attempt, acts);
      return;
    }
    if attempt >= p.maxAttempts {
      exhausted := true;
      RepliedConforms(p, waits, env, attempt, acts);
      return;
    }
    acts' := Pause(p, waits, attempt, acts);
    if env.ctxAsleep(attempt).Some? {
      end := Some(Interrupted(env.ctxAsleep(attempt).value, Some(lastErr)));
      assert EndsWithContext(p, waits, env, attempt, acts', end.value);
    }
  }

  /**
   One attempt, the same in both loops: the call, and what follows from its
   reply. `end` is what the interceptor returns at once, if it does.
   */
  method Attempt(p: Policy, ghost waits: int -> int, env: Env, attempt: nat,
                 pickers: seq<Picker>, tracker: AttemptTracker, acts: seq<Act>)
    returns (acts': seq<Act>, lastErr: Option<Code>, end: Option<Outcome>, exhausted: bool)
    requires BackoffsFit(p, waits) && p.maxAttempts > 1 && 1 <= attempt <= |pickers| && ReachedAttempt(p, env, attempt)
    requires env.ctxBefore(attempt).None? && acts == Alternating(waits, env, attempt - 1, attempt - 1)
    requires PickedBy(pickers, attempt - 1, tracker.addrs)
    modifies tracker, CountersOf(pickers), Chargeable(pickers)`inFlight
    ensures PickedBy(pickers, attempt, tracker.addrs) && Makes(waits, env, attempt, acts')
    ensures lastErr == if env.reply(attempt).Ok? then None else Some(env.reply(attempt).code)
    ensures end.Some? ==> Retries(p, waits, env, acts', end.value) && (end.value.Success? <==> lastErr.None?)
    ensures exhausted ==> end.None? && lastErr.Some? && Retries(p, waits, env, acts', Failure(lastErr.value))
    ensures end.None? && !exhausted ==> attempt < p.maxAttempts && lastErr.Some?
    ensures end.None? && !exhausted ==>
      ReachedAttempt(p, env, attempt + 1) && acts' == Alternating(waits, env, attempt, attempt)
  {
    var reply := Invoke(env, attempt, pickers, tracker);
    acts' := acts + [Call(reply)];
    lastErr := if reply.Ok? then None else Some(reply.code);
    if lastErr.None? {
      end, exhausted := Some(Success), false;
      RepliedConforms(p, waits, env, attempt, acts');
      return;
    }
    acts', end, exhausted := AfterFailure(p, waits, env, attempt, lastErr.value, acts');
  }

  /** With retries off the one call picks without a tracker. */
  method PassThrough(env: Env, pickers: seq<Picker>) returns (acts: seq<Act>, out: Outcome)
    requires |pickers| >= 1
    modifies CountersOf(pickers), Chargeable(pickers)`inFlight
    ensures PassesThrough(env, acts, out)
  {
    InFrame(pickers, 0);
    var _ := PickFrom(pickers[0], null);
    return [Call(env.reply(1))], OutcomeOf(env.reply(1));
  }

  /** Before the first call. */
  lemma NothingDone(p: Policy, waits: int -> int, env: Env, pickers: seq<Picker>)
    requires p.maxAttempts > 1 && PickerPerAttempt(p, pickers)
    ensures Alternating(waits, env, 0, 0) == [] && ReachedAttempt(p, env, 1) && PickedBy(pickers, 0, [])
    ensures |pickers| >= p.maxAttempts
  {
  }

  /** The unary interceptor; `tracker` is what it put into the context of its calls. */
  method Unary(p: Policy, nonIdempotent: bool, env: Env, pickers: seq<Picker>)
    returns (acts: seq<Act>, out: Outcome, tracker: AttemptTracker?)
    requires ValidPolicy(p) && PickerPerAttempt(p, pickers)
    modifies CountersOf(pickers), Chargeable(pickers)`inFlight
    ensures Conforms(p, nonIdempotent, env, acts, out)
    ensures tracker == null <==> nonIdempotent || p.maxAttempts <= 1
    ensures tracker != null ==> fresh(tracker) && PickedBy(pickers, CallsIn(acts), tracker.addrs)
    ensures tracker != null && Abundant(p, pickers) ==> NoDuplicates(tracker.addrs) && |tracker.addrs| == CallsIn(acts)
  {
    if nonIdempotent || p.maxAttempts <= 1 {
      acts, out := PassThrough(env, pickers);
      return acts, out, null;
    }
    InRangeConverts(p.initialBackoff, p.maxBackoff, p.backoffMultiplier);
    ghost var calls;
    tracker := new AttemptTracker();
    acts, out, calls := UnaryAttempts(p, Waits(p), env, pickers, tracker);
    MakesCalls(Waits(p), env, calls, acts);
    if Abundant(p, pickers) { NeverTwice(p, env, acts, out, pickers, tracker.addrs); }
  }

  /** Its loop over the attempts. */
  method UnaryAttempts(p: Policy, ghost waits: int -> int, env: Env, pickers: seq<Picker>, tracker: AttemptTracker)
    returns (acts: seq<Act>, out: Outcome, ghost calls: nat)
    requires BackoffsFit(p, waits) && PickerPerAttempt(p, pickers) && p.maxAttempts > 1 && tracker.addrs == []
    modifies tracker, CountersOf(pickers), Chargeable(pickers)`inFlight
    ensures Retries(p, waits, env, acts, out)
    ensures Makes(waits, env, calls, acts) && PickedBy(pickers, calls, tracker.addrs)
  {
    hide *;
    calls := 0;
    acts := [];
    NothingDone(p, waits, env, pickers);
    var lastErr: Option<Code> := None;
    var attempt := 1;
    while attempt <= p.maxAttempts
      invariant 1 <= attempt <= p.maxAttempts
      invariant ReachedAttempt(p, env, attempt)
      invariant acts == Alternating(waits, env, attempt - 1, attempt - 1)
      invariant attempt > 1 ==> env.reply(attempt - 1).Fail?
      invariant lastErr == if attempt == 1 then None else Some(env.reply(attempt - 1).code)
      invariant calls == attempt - 1
      invariant PickedBy(pickers, calls, tracker.addrs)
      decreases p.maxAttempts - attempt
    {
      if env.ctxBefore(attempt).Some? {
        out := Interrupted(env.ctxBefore(attempt).value, lastErr);
        InterruptedConforms(p, waits, env, attempt - 1, acts, lastErr);
        return;
      }
      var end, exhausted;
      acts, lastErr, end, exhausted := Attempt(p, waits, env, attempt, pickers, tracker, acts);
      calls := attempt;
      if lastErr.None? {
        out := Success;
        return;
      }
      if end.Some? {
        out := end.value;
        return;
      }
      if exhausted {
        break;
      }
      attempt := attempt + 1;
    }
    out := Failure(lastErr.value);
  }

  /** A stream that remembers whether a message went out on it. */
  class RetryableClientStream {
    var forwarded: seq<string>  // messages handed to the stream underneath
    var sentMsg: bool

    constructor ()
      ensures !sentMsg && forwarded == []
    {
      forwarded, sentMsg := [], false;
    }

    /** `result` is what the stream underneath returns; None is success. */
    method SendMsg(m: string, result: Option<Code>) returns (err: Option<Code>)
      modifies this
      ensures forwarded == old(forwarded) + [m] && err == result
      ensures sentMsg == (old(sentMsg) || result.None?)
    {
      forwarded := forwarded + [m];
      err := result;
      if err.None? { sentMsg := true; }
    }
  }

  /**
   The streaming interceptor. A reply of Ok is an established stream, which is
   returned wrapped when retries are on.
   */
  method Stream(p: Policy, nonIdempotent: bool, env: Env, pickers: seq<Picker>)
    returns (acts: seq<Act>, out: Outcome, wrapped: RetryableClientStream?, tracker: AttemptTracker?)
    requires ValidPolicy(p) && PickerPerAttempt(p, pickers)
    modifies CountersOf(pickers), Chargeable(pickers)`inFlight
    ensures Conforms(p, nonIdempotent, env, acts, out)
    ensures wrapped != null <==> !nonIdempotent && p.maxAttempts > 1 && out.Success?
    ensures wrapped != null ==> fresh(wrapped) && !wrapped.sentMsg
    ensures tracker == null <==> nonIdempotent || p.maxAttempts <= 1
    ensures tracker != null ==> fresh(tracker) && PickedBy(pickers, CallsIn(acts), tracker.addrs)
    ensures tracker != null && Abundant(p, pickers) ==> NoDuplicates(tracker.addrs) && |tracker.addrs| == CallsIn(acts)
  {
    if nonIdempotent || p.maxAttempts <= 1 {
      acts, out := PassThrough(env, pickers);
      return acts, out, null, null;
    }
    InRangeConverts(p.initialBackoff, p.maxBackoff, p.backoffMultiplier);
    ghost var calls;
    tracker := new AttemptTracker();
    acts, out, wrapped, calls := StreamAttempts(p, Waits(p), env, pickers, tracker);
    MakesCalls(Waits(p), env, calls, acts);
    if Abundant(p, pickers) { NeverTwice(p, env, acts, out, pickers, tracker.addrs); }
  }

  /**
   Its loop over the attempts. The check for a stream that already carried a
   message is never true: a stream is remembered only on the way out.
   */
  method StreamAttempts(p: Policy, ghost waits: int -> int, env: Env, pickers: seq<Picker>, tracker: AttemptTracker)
    returns (acts: seq<Act>, out: Outcome, wrapped: RetryableClientStream?, ghost calls: nat)
    requires BackoffsFit(p, waits) && PickerPerAttempt(p, pickers) && p.maxAttempts > 1 && tracker.addrs == []
    modifies tracker, CountersOf(pickers), Chargeable(pickers)`inFlight
    ensures Retries(p, waits, env, acts, out)
    ensures wrapped != null <==> out.Success?
    ensures wrapped != null ==> fresh(wrapped) && !wrapped.sentMsg
    ensures Makes(waits, env, calls, acts) && PickedBy(pickers, calls, tracker.addrs)
  {
    hide *;
    calls := 0;
    acts, wrapped := [], null;
    NothingDone(p, waits, env, pickers);
    var lastErr: Option<Code> := None;
    var lastStream: RetryableClientStream? := null;
    var attempt := 1;
    while attempt <= p.maxAttempts
      invariant 1 <= attempt <= p.maxAttempts
      invariant ReachedAttempt(p, env, attempt)
      invariant acts == Alternating(waits, env, attempt - 1, attempt - 1)
      invariant attempt > 1 ==> env.reply(attempt - 1).Fail?
      invariant lastErr == if attempt == 1 then None else Some(env.reply(attempt - 1).code)
      invariant lastStream == null && wrapped == null
      invariant calls == attempt - 1
      invariant PickedBy(pickers, calls, tracker.addrs)
      decreases p.maxAttempts - attempt
    {
      if env.ctxBefore(attempt).Some? {
        out := Interrupted(env.ctxBefore(attempt).value, lastErr);
        InterruptedConforms(p, waits, env, attempt - 1, acts, lastErr);
        return;
      }
      // There is no remembered stream whose message flag could be asked.
      if lastStream != null {
        assert false;
      }
      var end, exhausted;
      acts, lastErr, end, exhausted := Attempt(p, waits, env, attempt, pickers, tracker, acts);
      calls := attempt;
      if lastErr.None? {
        out := Success;
        lastStream := new RetryableClientStream();
        wrapped := lastStream;
        return;
      }
      if end.Some? {
        out := end.value;
        return;
      }
      if exhausted {
        break;
      }
      attempt := attempt + 1;
    }
    out := Failure(lastErr.value);
  }

  // ---------------------------------------------------------------------
  // What the specification amounts to
  // ---------------------------------------------------------------------

  function SleptIn(acts: seq<Act>): int {
    if acts == [] then 0
    else SleptIn(acts[..|acts| - 1]) + (if acts[|acts| - 1].Sleep? then acts[|acts| - 1].duration else 0)
  }

  lemma CallsInSnoc(acts: seq<Act>, a: Act)
    ensures CallsIn([]) == 0
    ensures CallsIn(acts + [a]) == CallsIn(acts) + (if a.Call? then 1 else 0)
  {
    assert (acts + [a])[..|acts|] == acts;
  }

  lemma {:induction false} AlternatingCalls(waits: int -> int, env: Env, n: nat, s: nat)
    requires s <= n <= s + 1
    ensures CallsIn(Alternating(waits, env, n, s)) == n
    decreases n + s
  {
    hide CallsIn;
    if n == 0 {
      CallsInSnoc([], Sleep(0));
    } else {
      if s == n {
        AlternatingCalls(waits, env, n, s - 1);
        CallsInSnoc(Alternating(waits, env, n, s - 1), Sleep(waits(n)));
      } else {
        AlternatingCalls(waits, env, n - 1, s);
        CallsInSnoc(Alternating(waits, env, n - 1, s), Call(env.reply(n)));
      }
    }
  }

  lemma WaitIsBounded(p: Policy, attempt: int)
    requires ValidPolicy(p)
    ensures 0 <= WaitAfter(p, attempt) <= p.maxBackoff
  {
    BackoffSticksToMax(attempt, attempt, p.initialBackoff, p.maxBackoff, p.backoffMultiplier);
  }

  /** `k` times `c`, by addition. */
  function Times(k: nat, c: int): int {
    if k == 0 then 0 else Times(k - 1, c) + c
  }

  lemma {:induction false} TimesOrder(j: nat, k: nat, c: int)
    requires j <= k && c >= 0
    ensures 0 <= Times(j, c) <= Times(k, c) == k * c
  {
    if k > 0 {
      TimesOrder(if j < k then j else k - 1, k - 1, c);
    }
  }

  lemma {:induction false} AlternatingSleeps(waits: int -> int, most: int, env: Env, n: nat, s: nat)
    requires s <= n <= s + 1
    requires forall k :: 0 <= waits(k) <= most
    ensures 0 <= SleptIn(Alternating(waits, env, n, s)) <= Times(s, most)
    decreases n + s
  {
    var acts := Alternating(waits, env, n, s);
    if n > 0 {
      if s == n {
        AlternatingSleeps(waits, most, env, n, s - 1);
        assert acts[..|acts| - 1] == Alternating(waits, env, n, s - 1);
        assert 0 <= waits(n) <= most;
      } else {
        AlternatingSleeps(waits, most, env, n - 1, s);
        assert acts[..|acts| - 1] == Alternating(waits, env, n - 1, s);
      }
    }
  }

  /**
   One RPC makes at most MaxAttempts calls (one when retries are off) and
   sleeps at most (MaxAttempts - 1) times the maximum backoff in all.
   */
  lemma RetriesAreBounded(p: Policy, nonIdempotent: bool, env: Env, acts: seq<Act>, out: Outcome)
    requires ValidPolicy(p) && Conforms(p, nonIdempotent, env, acts, out)
    ensures CallsIn(acts) <= (if nonIdempotent || p.maxAttempts <= 1 then 1 else p.maxAttempts)
    ensures SleptIn(acts) <= (if nonIdempotent || p.maxAttempts <= 1 then 0 else (p.maxAttempts - 1) * p.maxBackoff)
  {
    if nonIdempotent || p.maxAttempts <= 1 {
      assert acts[..0] == [];
    } else {
      var n, s := ShapeOfRun(p, env, acts, out);
      AlternatingCalls(Waits(p), env, n, s);
      forall k ensures 0 <= Waits(p)(k) <= p.maxBackoff { WaitIsBounded(p, k); }
      AlternatingSleeps(Waits(p), p.maxBackoff, env, n, s);
      TimesOrder(s, p.maxAttempts - 1, p.maxBackoff);
    }
  }

  /** With retries on, calls and sleeps alternate; the last attempt allowed is not slept after. */
  lemma ShapeOfRun(p: Policy, env: Env, acts: seq<Act>, out: Outcome) returns (n: nat, s: nat)
    requires p.maxAttempts > 1 && Conforms(p, false, env, acts, out)
    ensures s <= n <= s + 1 && n <= p.maxAttempts && s < p.maxAttempts
    ensures acts == Alternating(Waits(p), env, n, s)
    ensures if s < n then EndsWithReply(p, Waits(p), env, n, acts, out)
            else EndsWithContext(p, Waits(p), env, n, acts, out)
  {
    n :| EndsWithReply(p, Waits(p), env, n, acts, out) || EndsWithContext(p, Waits(p), env, n, acts, out);
    s := if EndsWithReply(p, Waits(p), env, n, acts, out) then n - 1 else n;
  }

  lemma {:induction false} AlternatingAt(waits: int -> int, env: Env, n: nat, s: nat, i: nat)
    requires s <= n <= s + 1 && i < n + s
    ensures Alternating(waits, env, n, s)[i]
         == if i % 2 == 0 then Call(env.reply(i / 2 + 1)) else Sleep(waits(i / 2 + 1))
    decreases n + s
  {
    if i < n + s - 1 {
      if s == n {
        AlternatingAt(waits, env, n, s - 1, i);
      } else {
        AlternatingAt(waits, env, n - 1, s, i);
      }
    }
  }

  /** What a backoff is: the initial one times the multiplier for each earlier attempt, within the maximum. */
  function KthBackoff(p: Policy, k: int): int
    requires k >= 1
  {
    Min(p.maxBackoff, (p.initialBackoff as real * Pow(p.backoffMultiplier, k - 1)).Floor)
  }

  lemma KthIsBackoffOf(p: Policy, k: int)
    requires k >= 1
    ensures KthBackoff(p, k) == BackoffOf(k, p.initialBackoff, p.maxBackoff, p.backoffMultiplier)
  {
  }

  /** What happens at place `i`: a call at the even places, the k-th backoff at the k-th odd one. */
  function ActAt(p: Policy, env: Env, i: nat): Act {
    if i % 2 == 0 then Call(env.reply(i / 2 + 1)) else Sleep(KthBackoff(p, i / 2 + 1))
  }

  /**
   The trace of an RPC with retries on: calls at the even places and sleeps at
   the odd ones, the k-th sleep as long as the k-th backoff; every reply
   followed by anything is a retryable failure; and the result is the last
   reply, or a context error that carries the last reply's failure.
   */
  lemma TraceOfRun(p: Policy, env: Env, acts: seq<Act>, out: Outcome)
    requires p.maxAttempts > 1 && Conforms(p, false, env, acts, out)
    ensures forall i :: 0 <= i < |acts| ==> acts[i] == ActAt(p, env, i)
    ensures forall i :: 0 <= i < |acts| - 1 && acts[i].Call? ==>
              acts[i].reply.Fail? && acts[i].reply.code in p.retryableCodes
    ensures !out.Interrupted? ==> acts != [] && acts[|acts| - 1].Call? && Returns(acts[|acts| - 1].reply, out)
    ensures out.Interrupted? ==> |acts| % 2 == 0
    ensures out.Interrupted? && acts == [] ==> out.last == None
    ensures out.Interrupted? && acts != [] ==>
              acts[|acts| - 2].Call? && acts[|acts| - 2].reply.Fail? && out.last == Some(acts[|acts| - 2].reply.code)
  {
    hide KthBackoff, BackoffOf, Conforms;
    var n, s := ShapeOfRun(p, env, acts, out);
    forall i | 0 <= i < |acts| ensures acts[i] == ActAt(p, env, i) {
      AlternatingAt(Waits(p), env, n, s, i);
      KthIsBackoffOf(p, i / 2 + 1);
    }
    if acts != [] { assert acts[|acts| - 1] == ActAt(p, env, |acts| - 1); }
    if |acts| >= 2 { assert acts[|acts| - 2] == ActAt(p, env, |acts| - 2); }
  }

  /** A reply handed on as it is. */
  predicate Returns(r: Reply, out: Outcome) {
    match r case Ok => out == Success case Fail(c) => out == Failure(c)
  }

  lemma BackoffsGrow(p: Policy, j: int, k: int)
    requires p.initialBackoff >= 0 && p.maxBackoff >= 0 && p.backoffMultiplier >= 1.0 && 1 <= j <= k
    ensures 0 <= KthBackoff(p, j) <= KthBackoff(p, k) <= p.maxBackoff
  {
    hide KthBackoff, BackoffOf;
    KthIsBackoffOf(p, j);
    KthIsBackoffOf(p, k);
    BackoffMonotone(j, k, p.initialBackoff, p.maxBackoff, p.backoffMultiplier);
    BackoffSticksToMax(j, k, p.initialBackoff, p.maxBackoff, p.backoffMultiplier);
    BackoffSticksToMax(k, k, p.initialBackoff, p.maxBackoff, p.backoffMultiplier);
  }

  /** The sleeps of an RPC never get shorter, and none is longer than the maximum. */
  lemma {:induction false} SleepsNeverDecrease(p: Policy, env: Env, acts: seq<Act>, out: Outcome, i: nat, j: nat)
    requires ValidPolicy(p) && p.maxAttempts > 1 && Conforms(p, false, env, acts, out)
    requires i <= j < |acts| && acts[i].Sleep? && acts[j].Sleep?
    ensures 0 <= acts[i].duration <= acts[j].duration <= p.maxBackoff
  {
    hide Conforms, Scaled, KthBackoff;
    TraceOfRun(p, env, acts, out);
    assert acts[i] == ActAt(p, env, i) && acts[j] == ActAt(p, env, j);
    BackoffsGrow(p, i / 2 + 1, j / 2 + 1);
  }

  /**
   When an RPC with retries on ends: after `n` calls, none of them made with
   the context done. If the context is not what ends it, the last reply is
   not a retryable failure or the attempts are used up. Otherwise attempts
   are left, and it is the context error of the sleep after the last call, or
   of the moment before the next one.
   */
  lemma EndOfRun(p: Policy, env: Env, acts: seq<Act>, out: Outcome)
    requires p.maxAttempts > 1 && Conforms(p, false, env, acts, out)
    ensures var n := CallsIn(acts);
      && n <= p.maxAttempts
      && (forall k :: 1 <= k <= n ==> env.ctxBefore(k).None?)
      && (forall k :: 1 <= k < n ==> env.ctxAsleep(k).None?)
      && (!out.Interrupted? ==>
            && n >= 1 && |acts| == 2 * n - 1
            && (env.reply(n).Fail? && env.reply(n).code in p.retryableCodes ==> n == p.maxAttempts))
      && (out.Interrupted? ==>
            && n < p.maxAttempts && |acts| == 2 * n
            && Some(out.ctx) == if n >= 1 && env.ctxAsleep(n).Some? then env.ctxAsleep(n) else env.ctxBefore(n + 1))
  {
    hide CallsIn, Alternating, Conforms;
    var n, s := ShapeOfRun(p, env, acts, out);
    AlternatingCalls(Waits(p), env, n, s);
  }

  /** With retries off, one call is made, without a wait, and its reply is handed on. */
  lemma WithoutRetries(p: Policy, nonIdempotent: bool, env: Env, acts: seq<Act>, out: Outcome)
    requires Conforms(p, nonIdempotent, env, acts, out) && (nonIdempotent || p.maxAttempts <= 1)
    ensures acts == [Call(env.reply(1))] && Returns(env.reply(1), out)
  {
  }

  /**
   The specification leaves no choice: unary and streaming RPCs that meet the
   same environment perform the same calls and sleeps and return the same.
   */
  lemma ConformingRunsAgree(p: Policy, nonIdempotent: bool, env: Env,
                            a1: seq<Act>, o1: Outcome, a2: seq<Act>, o2: Outcome)
    requires Conforms(p, nonIdempotent, env, a1, o1) && Conforms(p, nonIdempotent, env, a2, o2)
    ensures a1 == a2 && o1 == o2
  {
    if !nonIdempotent && p.maxAttempts > 1 {
      var m: nat :| EndsWithReply(p, Waits(p), env, m, a1, o1) || EndsWithContext(p, Waits(p), env, m, a1, o1);
      var n: nat :| EndsWithReply(p, Waits(p), env, n, a2, o2) || EndsWithContext(p, Waits(p), env, n, a2, o2);
      EndsNoLater(p, Waits(p), env, m, a1, o1, n, a2, o2);
      EndsNoLater(p, Waits(p), env, n, a2, o2, m, a1, o1);
    }
  }

  lemma EndsNoLater(p: Policy, waits: int -> int, env: Env,
                    m: nat, a1: seq<Act>, o1: Outcome, n: nat, a2: seq<Act>, o2: Outcome)
    requires EndsWithReply(p, waits, env, m, a1, o1) || EndsWithContext(p, waits, env, m, a1, o1)
    requires EndsWithReply(p, waits, env, n, a2, o2) || EndsWithContext(p, waits, env, n, a2, o2)
    ensures n <= m
    ensures m == n ==> (EndsWithReply(p, waits, env, m, a1, o1) <==> EndsWithReply(p, waits, env, n, a2, o2))
  {
  }

  /**
   A retried RPC whose attempts each find at least MaxAttempts different
   addresses healthy, the same ones or not, never reaches a backend twice.
   */
  lemma {:induction false} NeverTwice(p: Policy, env: Env, acts: seq<Act>, out: Outcome,
                                      pickers: seq<Picker>, addrs: seq<string>)
    requires p.maxAttempts > 1 && Conforms(p, false, env, acts, out)
    requires Abundant(p, pickers) && PickedBy(pickers, CallsIn(acts), addrs)
    ensures NoDuplicates(addrs) && |addrs| == CallsIn(acts)
    ensures forall i :: 0 <= i < |addrs| ==> addrs[i] in TextsOf(HealthyIn(pickers[i]))
  {
    var n, s := ShapeOfRun(p, env, acts, out);
    AlternatingCalls(Waits(p), env, n, s);
    AbundantMeansPlenty(p, pickers, n);
    PlentyMeansDistinct(Offered(pickers[..n]), addrs);
  }

  lemma AbundantMeansPlenty(p: Policy, pickers: seq<Picker>, n: nat)
    requires Abundant(p, pickers) && n <= |pickers| && n <= p.maxAttempts
    ensures |Offered(pickers[..n])| == n && Plenty(Offered(pickers[..n]))
    ensures forall i :: 0 <= i < n ==> Offered(pickers[..n])[i] == TextsOf(HealthyIn(pickers[i]))
  {
    if n > 0 {
      assert AllHave(pickers[..n]);
      OfferedAll(pickers[..n]);
    } else {
      assert pickers[..n] == [];
    }
  }
}
