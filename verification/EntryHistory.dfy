/**
 What an entry's record, the configuration in force and the reported state
 owe to the events of a run, whatever mix of configurations the run has.
 */
module EntryHistory {
  import opened Basics
  import opened Wrappers
  import opened Ordering
  import Endpoints
  import opened PoolState
  import opened PoolBatch
  import opened BalancerState
  import opened BalancerRuns

  // ---------------------------------------------------------------------
  // The configuration in force
  // ---------------------------------------------------------------------

  /** The latest configuration that came with a resolver update; the initial one before that. */
  function LatestConfig(cfg: Config, es: seq<Event>): Config {
    if es == [] then cfg
    else if Last(es).Resolve? && Last(es).cfg.Some? then Last(es).cfg.value
    else LatestConfig(cfg, Init(es))
  }

  /** The policy that the latest configuration with one names; round_robin if none does. */
  function PolicyInForce(cfg: Config, es: seq<Event>): string {
    if es == [] then (if cfg.policy != "" then cfg.policy else "round_robin")
    else if Last(es).Resolve? && Last(es).cfg.Some? && Last(es).cfg.value.policy != "" then Last(es).cfg.value.policy
    else PolicyInForce(cfg, Init(es))
  }

  lemma StepConfig(b: Balancer, e: Event)
    requires Enabled(b, e)
    ensures var s := Step(b, e);
      && s.cfg == (if e.Resolve? && e.cfg.Some? then e.cfg.value else b.cfg)
      && s.policy == (if e.Resolve? && e.cfg.Some? && e.cfg.value.policy != "" then e.cfg.value.policy else b.policy)
      && (e.Resolve? ==> s.reported.Some?)
      && (b.reported.Some? ==> s.reported.Some?)
  {
    match e {
      case Resolve(_, _, _, _, _) =>
      case SubConnChange(_, _, _) =>
      case Verdict(_, _) =>
      case Pick(_, _) =>
      case Done(_) =>
      case RRPick(_, _) =>
      case RREnd(_) =>
      case DrainTick(_) =>
      case DrainDeadline(_) =>
    }
  }

  /**
   In every run: the configuration is the latest that came, the policy the
   latest that was named, and the installed picker follows that policy. From
   the first resolver update on a state is reported.
   */
  lemma {:induction false} ConfigInEveryRun(cfg: Config, es: seq<Event>)
    requires Legal(Initial(cfg), es)
    ensures var b := After(Initial(cfg), es);
      && b.cfg == LatestConfig(cfg, es) && b.policy == PolicyInForce(cfg, es)
      && b.installed != []
      && Current(b).kind == (if Current(b).slots == [] then NoHealthy
                             else if PolicyInForce(cfg, es) == "least_request" then LeastRequest
                             else RoundRobin)
      && ((exists i :: 0 <= i < |es| && es[i].Resolve?) ==>
            b.reported == Some(if Current(b).slots == [] then TransientFailure else Ready))
  {
    FieldsInEveryRun(cfg, es);
    InitialInv(cfg);
    AlwaysInv(Initial(cfg), es);
  }

  lemma {:induction false} FieldsInEveryRun(cfg: Config, es: seq<Event>)
    requires Legal(Initial(cfg), es)
    ensures var b := After(Initial(cfg), es);
      && b.cfg == LatestConfig(cfg, es) && b.policy == PolicyInForce(cfg, es)
      && ((exists i :: 0 <= i < |es| && es[i].Resolve?) ==> b.reported.Some?)
  {
    if es != [] {
      FieldsInEveryRun(cfg, Init(es));
      StepConfig(After(Initial(cfg), Init(es)), Last(es));
      if i :| 0 <= i < |es| && es[i].Resolve? && i < |es| - 1 { assert Init(es)[i] == es[i]; }
    }
  }

  /** The event makes the balancer build a picker: not if it is about a SubConn that left the map. */
  ghost predicate Rebuilds(b: Balancer, e: Event) {
    || e.Resolve? || e.Verdict?
    || (e.SubConnChange? && e.sc < |b.pool.keys| && IsLive(b.pool, e.sc))
  }

  ghost function RebuildsIn(b: Balancer, es: seq<Event>): nat
    requires Legal(b, es)
    decreases |es|
  {
    if es == [] then 0 else RebuildsIn(b, Init(es)) + (if Rebuilds(After(b, Init(es)), Last(es)) then 1 else 0)
  }

  lemma StepRebuilds(b: Balancer, e: Event)
    requires Enabled(b, e)
    ensures |Step(b, e).installed| == |b.installed| + (if Rebuilds(b, e) then 1 else 0)
    ensures b.installed <= Step(b, e).installed
  {
    match e {
      case Resolve(_, _, _, _, _) =>
      case SubConnChange(_, _, _) =>
      case Verdict(_, _) =>
      case Pick(_, _) =>
      case Done(_) =>
      case RRPick(_, _) =>
      case RREnd(_) =>
      case DrainTick(_) =>
      case DrainDeadline(_) =>
    }
  }

  /** In every run a picker was installed at the start and by each event that calls for one, and by no other. */
  lemma {:induction false} InstalledInEveryRun(cfg: Config, es: seq<Event>)
    requires Legal(Initial(cfg), es)
    ensures |After(Initial(cfg), es).installed| == 1 + RebuildsIn(Initial(cfg), es)
  {
    if es != [] {
      InstalledInEveryRun(cfg, Init(es));
      StepRebuilds(After(Initial(cfg), Init(es)), Last(es));
    }
  }

  // ---------------------------------------------------------------------
  // The record of an entry
  // ---------------------------------------------------------------------

  /** What an entry's record says: its health, its connectivity, whether it has a checker to stop. */
  datatype Told = Told(health: Health, conn: Conn, watched: bool)

  const UNTOLD := Told(Unknown, Idle, false)

  function TellConn(enabled: bool, conn: Conn, start: Start, before: Told): Told {
    match conn
    case Ready =>
      if !enabled then Told(Serving, conn, before.watched)
      else Told(before.health, conn, before.watched || start == Started)
    case TransientFailure => Told(NotServing, conn, false)
    case ShutDown => Told(NotServing, conn, false)
    case Idle => before.(conn := conn)
    case Connecting => before.(conn := conn)
  }

  /**
   What an event tells the entry of SubConn `sc`: its own connectivity events,
   and the verdicts of any checker that was started for an entry of its key.
   */
  function Tell(b: Balancer, e: Event, sc: nat, before: Told): Told {
    match e
    case SubConnChange(s, conn, start) =>
      if s == sc then TellConn(b.cfg.enableHealthCheck, conn, start, before) else before
    case Verdict(c, h) =>
      if sc < |b.pool.keys| && c < |b.pool.owners| && b.pool.owners[c].key == b.pool.keys[sc]
      then before.(health := h) else before
    case _ => before
  }

  /** What the events of a run told the entry of a SubConn. */
  ghost function ToldIn(b: Balancer, es: seq<Event>, sc: nat): Told
    requires Legal(b, es)
    decreases |es|
  {
    if es == [] then UNTOLD else Tell(After(b, Init(es)), Last(es), sc, ToldIn(b, Init(es), sc))
  }

  function Says(r: Rec): Told { Told(r.health, r.conn, r.cancel.Some?) }

  /** If a SubConn of this number is in the map, its record says this; if there is none yet, nothing was told. */
  ghost predicate Recorded(p: Pool, sc: nat, told: Told) {
    if sc < |p.keys| then IsLive(p, sc) ==> Says(p.live[p.keys[sc]]) == told
    else told == UNTOLD
  }

  /** Records after the two loops: as before, or as Add creates them, under SubConns made since. */
  ghost predicate OldOrUntold(p: Pool, q: Pool) {
    && p.keys <= q.keys
    && forall k :: k in q.live ==>
         if q.live[k].sc < |p.keys| then k in p.live && q.live[k] == p.live[k] else Says(q.live[k]) == UNTOLD
  }

  lemma ReconciledRecords(b: Balancer, adds: seq<Endpoints.Key>, oks: seq<bool>, removes: seq<Endpoints.Key>)
    requires Inv(b.pool) && |adds| == |oks| && NoDuplicates(adds)
    requires Elements(adds) !! EndpointsOf(b.pool.live)
    ensures OldOrUntold(b.pool, Reconciled(b, adds, oks, removes).pool)
  {
    var ns, svc := b.cfg.namespace, b.cfg.service;
    AddsAbsent(b.pool, ns, svc, adds);
    AddAllExtends(b.pool, ns, svc, adds, oks);
    RemoveAllEffect(AddAll(b.pool, ns, svc, adds, oks), ns, svc, removes);
    assert forall k :: k in b.pool.live ==> InMapOnly(b.pool, k);
  }

  lemma RecordedByUpdate(p: Pool, q: Pool, sc: nat, told: Told)
    requires Recorded(p, sc, told) && OldOrUntold(p, q)
    ensures Recorded(q, sc, told)
  {
    if sc < |p.keys| && IsLive(q, sc) { assert q.keys[sc] == p.keys[sc]; }
  }

  lemma RecordedResolve(b: Balancer, e: Event, sc: nat, told: Told)
    requires BalancerInv(b) && e.Resolve? && Enabled(b, e) && Recorded(b.pool, sc, told)
    ensures Recorded(Step(b, e).pool, sc, told)
  {
    var c := Configure(b, e.cfg);
    assert Elements(e.adds) !! EndpointsOf(c.pool.live);
    ReconciledRecords(c, e.adds, e.oks, e.removes);
    RecordedByUpdate(b.pool, Step(b, e).pool, sc, told);
  }

  /** The record of the SubConn itself after its connectivity event. */
  lemma OwnRecord(cfg: Config, p: Pool, sc: nat, conn: Conn, start: Start)
    requires sc < |p.keys| && IsLive(p, sc)
    ensures var key, q := p.keys[sc], Connectivity(cfg, p, sc, conn, start);
      && q.keys == p.keys && key in q.live && q.live == p.live[key := q.live[key]]
      && q.live[key].sc == sc
      && Says(q.live[key]) == TellConn(cfg.enableHealthCheck, conn, start, Says(p.live[key]))
  {
  }

  lemma RecordedChange(b: Balancer, e: Event, sc: nat, told: Told)
    requires e.SubConnChange? && Enabled(b, e) && Recorded(b.pool, sc, told)
    ensures Recorded(Step(b, e).pool, sc, Tell(b, e, sc, told))
  {
    if IsLive(b.pool, e.sc) { OwnRecord(b.cfg, b.pool, e.sc, e.conn, e.start); }
  }

  lemma RecordedVerdict(b: Balancer, e: Event, sc: nat, told: Told)
    requires e.Verdict? && Enabled(b, e) && Recorded(b.pool, sc, told)
    ensures Recorded(Step(b, e).pool, sc, Tell(b, e, sc, told))
  {
    assert Step(b, e).pool == SetHealth(b.pool, b.pool.owners[e.checker].key, e.health);
  }

  lemma RecordedOther(b: Balancer, e: Event, sc: nat, told: Told)
    requires Enabled(b, e) && !e.Resolve? && !e.SubConnChange? && !e.Verdict? && Recorded(b.pool, sc, told)
    ensures Recorded(Step(b, e).pool, sc, told)
  {
  }

  lemma RecordedStep(b: Balancer, e: Event, sc: nat, told: Told)
    requires BalancerInv(b) && Enabled(b, e) && Recorded(b.pool, sc, told)
    ensures Recorded(Step(b, e).pool, sc, Tell(b, e, sc, told))
  {
    match e {
      case Resolve(_, _, _, _, _) => RecordedResolve(b, e, sc, told);
      case SubConnChange(_, _, _) => RecordedChange(b, e, sc, told);
      case Verdict(_, _) => RecordedVerdict(b, e, sc, told);
      case Pick(_, _) => RecordedOther(b, e, sc, told);
      case Done(_) => RecordedOther(b, e, sc, told);
      case RRPick(_, _) => RecordedOther(b, e, sc, told);
      case RREnd(_) => RecordedOther(b, e, sc, told);
      case DrainTick(_) => RecordedOther(b, e, sc, told);
      case DrainDeadline(_) => RecordedOther(b, e, sc, told);
    }
  }

  /**
   In every run, checks on or off or switched in between, the record of an
   entry in the map says what the events of the run told it: the state of its
   latest connectivity event, the latest of its own Ready, TransientFailure
   and Shutdown events and of the verdicts under its key, and a checker to
   stop exactly if one was started since the entry last went down.
   */
  lemma {:induction false} RecordInEveryRun(cfg: Config, es: seq<Event>, sc: nat)
    requires Legal(Initial(cfg), es)
    ensures Recorded(After(Initial(cfg), es).pool, sc, ToldIn(Initial(cfg), es, sc))
  {
    if es != [] {
      RecordInEveryRun(cfg, Init(es), sc);
      InitialInv(cfg);
      AlwaysInv(Initial(cfg), Init(es));
      RecordedStep(After(Initial(cfg), Init(es)), Last(es), sc, ToldIn(Initial(cfg), Init(es), sc));
    }
  }

  lemma DownCancels(cfg: Config, p: Pool, sc: nat, conn: Conn, start: Start)
    requires sc < |p.keys| && IsLive(p, sc) && conn in {TransientFailure, ShutDown}
    ensures CancelOf(p.live[p.keys[sc]]) <= Connectivity(cfg, p, sc, conn, start).cancelled
  {
  }

  lemma DownIsNotServing(b: Balancer, e: Event)
    requires e.SubConnChange? && e.conn in {TransientFailure, ShutDown} && Enabled(b, e) && IsLive(b.pool, e.sc)
    ensures var q := Step(b, e).pool;
      q.keys == b.pool.keys && IsLive(q, e.sc) && q.live[q.keys[e.sc]].health == NotServing
  {
    OwnRecord(b.cfg, b.pool, e.sc, e.conn, e.start);
  }

  /** An entry that goes down is not offered, and whatever checker it had is cancelled. */
  lemma DownStopsTheChecker(b: Balancer, e: Event)
    requires BalancerInv(b) && e.SubConnChange? && e.conn in {TransientFailure, ShutDown} && Enabled(b, e)
    requires IsLive(b.pool, e.sc)
    ensures var s := Step(b, e);
      && BalancerInv(s) && !Holds(Current(s), e.sc)
      && CancelOf(b.pool.live[b.pool.keys[e.sc]]) <= s.pool.cancelled
  {
    hide BalancerInv;
    StepInv(b, e);
    DownIsNotServing(b, e);
    DownCancels(b.cfg, b.pool, e.sc, e.conn, e.start);
    HealthyHolds(Step(b, e), e.sc);
  }
}
