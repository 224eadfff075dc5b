/** What holds over every run of the grace-window machine. */
module GraceRuns {
  import opened Basics
  import opened Arithmetic
  import opened Wrappers
  import opened Endpoints
  import opened GraceState

  ghost predicate Legal(window: int, g: Grace, es: seq<Event>)
    decreases |es|, 0
  {
    es == [] || (Legal(window, g, Init(es)) && Enabled(After(window, g, Init(es)), Last(es)))
  }

  ghost function After(window: int, g: Grace, es: seq<Event>): Grace
    requires Legal(window, g, es)
    decreases |es|, 1
  {
    if es == [] then g else Step(window, After(window, g, Init(es)), Last(es))
  }

  // ---------------------------------------------------------------------
  // No lost wake-up, no early transition
  // ---------------------------------------------------------------------

  /** Outage bookkeeping. */
  ghost predicate OutageInv(window: int, g: Grace) {
    && (g.disconnectedAt.Some? ==> g.disconnectedAt.value <= g.clock)
    && (forall t :: t in g.pending ==> t.due == t.outage + window)
    && (g.mode == Disconnected ==> g.disconnectedAt.Some?)
    && (g.mode == Disconnected && g.live ==> Armed(window, g))
  }

  /** A re-check armed in the current outage, due at its grace deadline, is pending. */
  ghost predicate Armed(window: int, g: Grace) {
    exists t :: t in g.pending && IsDeadline(window, g, t)
  }

  predicate IsDeadline(window: int, g: Grace, t: Timer) {
    g.disconnectedAt == Some(t.outage) && t.due == t.outage + window
  }

  lemma OutageSnap(window: int, g: Grace, e: Event)
    requires OutageInv(window, g) && Enabled(g, e) && e.Snap?
    ensures OutageInv(window, Step(window, g, e))
  {
    var s := Step(window, g, e);
    if e.snap.mode == Disconnected {
      var start := if g.disconnectedAt.Some? then g.disconnectedAt.value else e.now;
      if s.mode == Disconnected {
        assert IsDeadline(window, s, Timer(g.armed, start + window, start));
      }
    }
  }

  lemma OutageFire(window: int, g: Grace, e: Event)
    requires OutageInv(window, g) && Enabled(g, e) && e.Fire?
    ensures OutageInv(window, Step(window, g, e))
  {
    var s := Step(window, g, e);
    if s.mode == Disconnected && s.live {
      var t :| t in g.pending && IsDeadline(window, g, t);
      assert IsDeadline(window, s, t);
    }
  }

  lemma OutageStep(window: int, g: Grace, e: Event)
    requires OutageInv(window, g) && Enabled(g, e)
    ensures OutageInv(window, Step(window, g, e))
  {
    if e.Snap? { OutageSnap(window, g, e); }
    if e.Fire? { OutageFire(window, g, e); }
  }

  lemma {:induction false} OutageInEveryRun(window: int, clock: int, es: seq<Event>)
    requires Legal(window, Initial(clock), es)
    ensures OutageInv(window, After(window, Initial(clock), es))
  {
    if es != [] {
      OutageInEveryRun(window, clock, Init(es));
      OutageStep(window, After(window, Initial(clock), Init(es)), Last(es));
    }
  }

  /**
   No lost wake-up. In every run, while the machine is Disconnected and its
   context live, a re-check armed in this outage is pending; whenever it
   fires, the machine goes to InGraceWindow and passes on the endpoints it
   remembers.
   */
  lemma NoLostWakeUp(window: int, clock: int, es: seq<Event>)
    requires Legal(window, Initial(clock), es)
    requires var g := After(window, Initial(clock), es); g.mode == Disconnected && g.live
    ensures var g := After(window, Initial(clock), es);
      exists t :: t in g.pending && IsDeadline(window, g, t) && WakesUp(window, g, t)
  {
    OutageInEveryRun(window, clock, es);
    var g := After(window, Initial(clock), es);
    var t :| t in g.pending && IsDeadline(window, g, t);
    assert WakesUp(window, g, t);
  }

  /** Whenever the timer fires, the remembered endpoints go out as InGraceWindow. */
  ghost predicate WakesUp(window: int, g: Grace, t: Timer) {
    forall now :: Enabled(g, Fire(t, now)) ==>
      var s := Step(window, g, Fire(t, now));
      s.mode == InGraceWindow
      && s.emitted == g.emitted + [Snapshot(g.lastEndpoints, InGraceWindow, None)]
  }

  /**
   No early transition. In every run a timer, whichever outage it was armed
   in, makes the machine pass something on exactly when the machine is
   Disconnected and the current outage has lasted the whole window.
   */
  lemma NoEarlyTransition(window: int, clock: int, es: seq<Event>, t: Timer, now: int)
    requires Legal(window, Initial(clock), es)
    requires Enabled(After(window, Initial(clock), es), Fire(t, now))
    ensures var g := After(window, Initial(clock), es);
      var s := Step(window, g, Fire(t, now));
      && (s.emitted != g.emitted
          <==> g.mode == Disconnected && g.disconnectedAt.Some? && now >= g.disconnectedAt.value + window)
      && (s.emitted == g.emitted ==> s == g.(pending := g.pending - {t}, clock := now))
      && (g.mode == Disconnected && g.disconnectedAt == Some(t.outage) ==> s.emitted != g.emitted)
  {
    OutageInEveryRun(window, clock, es);
  }

  // ---------------------------------------------------------------------
  // Warnings
  // ---------------------------------------------------------------------

  /** Any two warnings are at least a window apart. */
  predicate Spaced(window: int, times: seq<int>) {
    forall i, j :: 0 <= i < j < |times| ==> times[i] <= times[j] && times[j] - times[i] >= window
  }

  /** The latest warning, or what replaces the memory of it after a reconnect. */
  ghost predicate WarnInv(window: int, g: Grace) {
    && Spaced(window, g.warns)
    && (g.disconnectedAt.Some? ==> g.disconnectedAt.value <= g.clock)
    && (g.lastWarnAt.Some? ==> g.warns != [] && g.lastWarnAt.value == Last(g.warns))
    && (g.warns != [] ==> Last(g.warns) <= g.clock)
    && (g.warns != [] && g.lastWarnAt.None? && g.disconnectedAt.Some? ==>
          Last(g.warns) <= g.disconnectedAt.value)
  }

  lemma SpacedSnoc(window: int, times: seq<int>, now: int)
    requires Spaced(window, times)
    requires times != [] ==> Last(times) <= now && now - Last(times) >= window
    ensures Spaced(window, times + [now])
  {
    forall i | 0 <= i < |times| ensures times[i] <= now && now - times[i] >= window {
      if i < |times| - 1 { assert times[i] <= Last(times); }
    }
  }

  lemma WarnEnter(window: int, g: Grace, now: int, err: Option<string>)
    requires WarnInv(window, g.(clock := now)) && g.disconnectedAt.Some?
    requires now - g.disconnectedAt.value >= window
    ensures WarnInv(window, EnterGrace(window, g, now, err).(clock := now))
  {
    if g.lastWarnAt.None? || now - g.lastWarnAt.value >= window { SpacedSnoc(window, g.warns, now); }
  }

  lemma WarnSnap(window: int, g: Grace, e: Event)
    requires WarnInv(window, g) && Enabled(g, e) && e.Snap?
    ensures WarnInv(window, Step(window, g, e))
  {
    if e.snap.mode == Disconnected {
      var start := if g.disconnectedAt.Some? then g.disconnectedAt.value else e.now;
      if e.now - start >= window { WarnEnter(window, g.(disconnectedAt := Some(start)), e.now, e.snap.err); }
    }
  }

  lemma WarnFire(window: int, g: Grace, e: Event)
    requires WarnInv(window, g) && Enabled(g, e) && e.Fire?
    ensures WarnInv(window, Step(window, g, e))
  {
    var h := g.(pending := g.pending - {e.timer});
    if OnTimer(window, h, e.now) != h { WarnEnter(window, h, e.now, None); }
  }

  lemma WarnStep(window: int, g: Grace, e: Event)
    requires WarnInv(window, g) && Enabled(g, e)
    ensures WarnInv(window, Step(window, g, e))
  {
    if e.Snap? { WarnSnap(window, g, e); }
    if e.Fire? { WarnFire(window, g, e); }
  }

  /** In every run any two warnings are a window apart, reconnects or not. */
  lemma {:induction false} WarningsAreSpaced(window: int, clock: int, es: seq<Event>)
    requires Legal(window, Initial(clock), es)
    ensures WarnInv(window, After(window, Initial(clock), es))
    ensures Spaced(window, After(window, Initial(clock), es).warns)
  {
    if es != [] {
      WarningsAreSpaced(window, clock, Init(es));
      WarnStep(window, After(window, Initial(clock), Init(es)), Last(es));
    }
  }

  lemma {:induction false} SpacedSpan(window: int, times: seq<int>, i: nat, j: nat)
    requires Spaced(window, times) && i <= j < |times|
    ensures times[j] - times[i] >= (j - i) * window
    decreases j
  {
    if i < j {
      SpacedSpan(window, times, i, j - 1);
      assert (j - i) * window == (j - 1 - i) * window + window;
    }
  }

  /** At most length / window + 1 warnings fall into an interval of that length. */
  lemma WarningRate(window: int, clock: int, es: seq<Event>, i: nat, j: nat, length: nat)
    requires window > 0 && Legal(window, Initial(clock), es)
    requires i <= j < |After(window, Initial(clock), es).warns|
    requires var ws := After(window, Initial(clock), es).warns; ws[j] - ws[i] <= length
    ensures j - i + 1 <= length / window + 1
  {
    WarningsAreSpaced(window, clock, es);
    var ws := After(window, Initial(clock), es).warns;
    SpacedSpan(window, ws, i, j);
    QuotientBound(j - i, window, length);
  }

  // ---------------------------------------------------------------------
  // Fields and emissions, from the events alone
  // ---------------------------------------------------------------------

  predicate Reports(e: Event, mode: Mode) { e.Snap? && e.snap.mode == mode }

  /** The endpoints of the latest Connected snapshot of the inner resolver that had any. */
  function RememberedIn(es: seq<Event>): seq<Endpoint> {
    if es == [] then []
    else if Reports(Last(es), Connected) && Last(es).snap.endpoints != [] then Last(es).snap.endpoints
    else RememberedIn(Init(es))
  }

  /** When the outage under way began: at the first Disconnected snapshot since the latest Connected one. */
  function OutageSince(es: seq<Event>): Option<int> {
    if es == [] || Reports(Last(es), Connected) then None
    else if OutageSince(Init(es)).None? && Reports(Last(es), Disconnected) then Some(Last(es).now)
    else OutageSince(Init(es))
  }

  predicate Outlasted(window: int, es: seq<Event>, now: int) {
    OutageSince(es).Some? && now - OutageSince(es).value >= window
  }

  function StateAfter(out: seq<Snapshot>): Mode { if out == [] then Connected else Last(out).mode }

  /**
   What the last event makes the machine pass on: a snapshot as it came, or
   the remembered endpoints once the outage has lasted the window. A re-check
   passes something on only if the last snapshot was a Disconnected one.
   */
  function SaidBy(window: int, es: seq<Event>): Option<Snapshot>
    requires es != []
    decreases |es|, 0
  {
    match Last(es)
    case Snap(snap, now) =>
      if snap.mode == Disconnected && Outlasted(window, es, now)
      then Some(Snapshot(RememberedIn(es), InGraceWindow, snap.err))
      else Some(snap)
    case Fire(_, now) =>
      if StateAfter(Said(window, Init(es))) == Disconnected && Outlasted(window, es, now)
      then Some(Snapshot(RememberedIn(es), InGraceWindow, None))
      else None
    case Cancel => None
    case Quit(_) => None
  }

  /** Everything passed on. */
  function Said(window: int, es: seq<Event>): seq<Snapshot>
    decreases |es|, 1
  {
    if es == [] then []
    else Said(window, Init(es)) + (match SaidBy(window, es) case None => [] case Some(s) => [s])
  }

  /** The last event made the machine itself go over to, or stay in, the grace window. */
  predicate EntersGrace(window: int, es: seq<Event>) {
    es != [] && !Reports(Last(es), InGraceWindow)
    && SaidBy(window, es).Some? && SaidBy(window, es).value.mode == InGraceWindow
  }

  /** The latest warning since the latest Connected snapshot. */
  function WarnedSince(window: int, es: seq<Event>): Option<int>
    decreases |es|, 1
  {
    if es == [] || Reports(Last(es), Connected) then None
    else if WarnsNow(window, es) then Some(Last(es).now)
    else WarnedSince(window, Init(es))
  }

  /** The last event brings a warning: none was given in this outage, or only a window ago. */
  predicate WarnsNow(window: int, es: seq<Event>)
    decreases |es|, 0
  {
    && EntersGrace(window, es)
    && (WarnedSince(window, Init(es)).None? || Last(es).now - WarnedSince(window, Init(es)).value >= window)
  }

  function Warned(window: int, es: seq<Event>): seq<int> {
    if es == [] then [] else Warned(window, Init(es)) + (if WarnsNow(window, es) then [Last(es).now] else [])
  }

  /** The Disconnected snapshots of the inner resolver that came before their outage had lasted the window. */
  function TimelyIn(window: int, es: seq<Event>): seq<Snapshot> {
    if es == [] then []
    else TimelyIn(window, Init(es)) +
         (if Reports(Last(es), Disconnected) && !Outlasted(window, es, Last(es).now) then [Last(es).snap] else [])
  }

  /** The fields are what the events say. */
  ghost predicate Told(window: int, g: Grace, es: seq<Event>) {
    && g.emitted == Said(window, es) && g.mode == StateAfter(g.emitted)
    && g.lastEndpoints == RememberedIn(es) && g.disconnectedAt == OutageSince(es)
    && g.warns == Warned(window, es) && g.lastWarnAt == WarnedSince(window, es)
    && g.armed == |TimelyIn(window, es)|
  }

  lemma ToldStep(window: int, g: Grace, es: seq<Event>)
    requires es != [] && Told(window, g, Init(es)) && Enabled(g, Last(es))
    ensures Told(window, Step(window, g, Last(es)), es)
  {
    match Last(es) {
      case Snap(snap, _) =>
        match snap.mode {
          case Connected => ToldConnected(window, g, es);
          case Disconnected => ToldDisconnected(window, g, es);
          case InGraceWindow => ToldGrace(window, g, es);
        }
      case Fire(_, _) => ToldFire(window, g, es);
      case Cancel =>
      case Quit(_) =>
    }
  }

  lemma ToldConnected(window: int, g: Grace, es: seq<Event>)
    requires es != [] && Told(window, g, Init(es)) && Enabled(g, Last(es)) && Reports(Last(es), Connected)
    ensures Told(window, Step(window, g, Last(es)), es)
  {
    assert !EntersGrace(window, es);
  }

  lemma ToldDisconnected(window: int, g: Grace, es: seq<Event>)
    requires es != [] && Told(window, g, Init(es)) && Enabled(g, Last(es)) && Reports(Last(es), Disconnected)
    ensures Told(window, Step(window, g, Last(es)), es)
  {
    assert EntersGrace(window, es) <==> Outlasted(window, es, Last(es).now);
  }

  lemma ToldGrace(window: int, g: Grace, es: seq<Event>)
    requires es != [] && Told(window, g, Init(es)) && Enabled(g, Last(es)) && Reports(Last(es), InGraceWindow)
    ensures Told(window, Step(window, g, Last(es)), es)
  {
    assert !EntersGrace(window, es);
  }

  lemma ToldFire(window: int, g: Grace, es: seq<Event>)
    requires es != [] && Told(window, g, Init(es)) && Enabled(g, Last(es)) && Last(es).Fire?
    ensures Told(window, Step(window, g, Last(es)), es)
  {
  }

  /**
   In every run the machine has passed on, remembers, and has warned of
   exactly what the events so far call for, and it has armed one re-check for
   each Disconnected snapshot that it passed on.
   */
  lemma {:induction false} HistoryInEveryRun(window: int, clock: int, es: seq<Event>)
    requires Legal(window, Initial(clock), es)
    ensures Told(window, After(window, Initial(clock), es), es)
  {
    if es != [] {
      HistoryInEveryRun(window, clock, Init(es));
      ToldStep(window, After(window, Initial(clock), Init(es)), es);
    }
  }

  /** The snapshots with this state, in order. */
  function Only(out: seq<Snapshot>, mode: Mode): seq<Snapshot> {
    if out == [] then [] else Only(Init(out), mode) + (if Last(out).mode == mode then [Last(out)] else [])
  }

  /** The Connected snapshots of the inner resolver, in order. */
  function ConnectedIn(es: seq<Event>): seq<Snapshot> {
    if es == [] then [] else ConnectedIn(Init(es)) + (if Reports(Last(es), Connected) then [Last(es).snap] else [])
  }

  lemma OnlySnoc(out: seq<Snapshot>, s: Snapshot, mode: Mode)
    ensures Only(out + [s], mode) == Only(out, mode) + (if s.mode == mode then [s] else [])
  {
    assert Init(out + [s]) == out && Last(out + [s]) == s;
  }

  /** Connected snapshots pass unchanged, all of them; Disconnected ones until the window has passed. */
  lemma {:induction false} PassesUnchanged(window: int, es: seq<Event>)
    ensures Only(Said(window, es), Connected) == ConnectedIn(es)
    ensures Only(Said(window, es), Disconnected) == TimelyIn(window, es)
  {
    if es != [] {
      PassesUnchanged(window, Init(es));
      if SaidBy(window, es).Some? {
        OnlySnoc(Said(window, Init(es)), SaidBy(window, es).value, Connected);
        OnlySnoc(Said(window, Init(es)), SaidBy(window, es).value, Disconnected);
      } else {
        assert Said(window, es) == Said(window, Init(es));
      }
    }
  }

  /**
   In every run, an event that takes the machine into the grace window or
   keeps it there finds a warning less than a window old, or brings one.
   */
  lemma {:induction false} GraceIsWarnedOf(window: int, clock: int, es: seq<Event>)
    requires Legal(window, Initial(clock), es) && EntersGrace(window, es)
    ensures var ws := After(window, Initial(clock), es).warns;
      ws != [] && (Last(ws) == Last(es).now || Last(es).now - Last(ws) < window)
  {
    HistoryInEveryRun(window, clock, es);
    WarningsAreSpaced(window, clock, es);
  }

  // ---------------------------------------------------------------------
  // The shape of what is passed on
  // ---------------------------------------------------------------------

  /** The inner resolver reports only Connected and Disconnected. */
  predicate InnerReports(es: seq<Event>) {
    forall i :: 0 <= i < |es| && es[i].Snap? ==> es[i].snap.mode != InGraceWindow
  }

  /** Endpoints of the latest Connected snapshot that had any. */
  function LatestNonEmpty(out: seq<Snapshot>): seq<Endpoint> {
    if out == [] then []
    else if Last(out).mode == Connected && Last(out).endpoints != [] then Last(out).endpoints
    else LatestNonEmpty(Init(out))
  }

  /** InGraceWindow is never directly followed by Disconnected. */
  ghost predicate NoStepBack(out: seq<Snapshot>) {
    forall i :: 0 < i < |out| && out[i].mode == Disconnected ==> out[i - 1].mode != InGraceWindow
  }

  /** Every InGraceWindow snapshot carries the endpoints of the latest Connected one that had any. */
  ghost predicate CarriesLatest(out: seq<Snapshot>) {
    forall i :: 0 <= i < |out| && out[i].mode == InGraceWindow ==> out[i].endpoints == LatestNonEmpty(out[..i])
  }

  /** No InGraceWindow snapshot comes first or directly after a Connected one. */
  ghost predicate OnlyAfterOutage(out: seq<Snapshot>) {
    forall i :: 0 <= i < |out| && out[i].mode == InGraceWindow ==> i > 0 && out[i - 1].mode != Connected
  }

  /** What may come after what, and with which endpoints. */
  ghost predicate Shape(window: int, out: seq<Snapshot>) {
    NoStepBack(out) && CarriesLatest(out) && (window > 0 ==> OnlyAfterOutage(out))
  }

  ghost predicate ShapeInv(window: int, g: Grace) {
    && Shape(window, g.emitted)
    && g.mode == (if g.emitted == [] then Connected else Last(g.emitted).mode)
    && g.lastEndpoints == LatestNonEmpty(g.emitted)
    && FieldsFit(window, g)
  }

  lemma RememberedSnoc(out: seq<Snapshot>, s: Snapshot)
    ensures LatestNonEmpty(out + [s]) == Remembered(LatestNonEmpty(out), s)
  {
    assert Init(out + [s]) == out && Last(out + [s]) == s;
  }

  lemma CarriesLatestSnoc(out: seq<Snapshot>, s: Snapshot)
    requires CarriesLatest(out)
    requires s.mode == InGraceWindow ==> s.endpoints == LatestNonEmpty(out)
    ensures CarriesLatest(out + [s])
  {
    var now := out + [s];
    forall i | 0 <= i < |now| && now[i].mode == InGraceWindow
      ensures now[i].endpoints == LatestNonEmpty(now[..i])
    {
      assert now[..i] == if i == |out| then out else out[..i];
    }
  }

  lemma NoStepBackSnoc(out: seq<Snapshot>, s: Snapshot)
    requires NoStepBack(out)
    requires out != [] && Last(out).mode == InGraceWindow ==> s.mode != Disconnected
    ensures NoStepBack(out + [s])
  {
  }

  lemma OnlyAfterOutageSnoc(out: seq<Snapshot>, s: Snapshot)
    requires OnlyAfterOutage(out)
    requires s.mode == InGraceWindow ==> out != [] && Last(out).mode != Connected
    ensures OnlyAfterOutage(out + [s])
  {
  }

  lemma ShapeSnoc(window: int, out: seq<Snapshot>, s: Snapshot)
    requires Shape(window, out)
    requires out != [] && Last(out).mode == InGraceWindow ==> s.mode != Disconnected
    requires s.mode == InGraceWindow ==> s.endpoints == LatestNonEmpty(out)
    requires s.mode == InGraceWindow && window > 0 ==> out != [] && Last(out).mode != Connected
    ensures Shape(window, out + [s])
  {
    CarriesLatestSnoc(out, s);
    NoStepBackSnoc(out, s);
    if window > 0 { OnlyAfterOutageSnoc(out, s); }
  }

  /** The part of the shape invariant that looks at the fields, not the trace. */
  ghost predicate FieldsFit(window: int, g: Grace) {
    && (g.mode == Connected ==> g.disconnectedAt.None?)
    && (g.mode == InGraceWindow ==>
          g.disconnectedAt.Some? && g.clock >= g.disconnectedAt.value + window)
  }

  lemma FieldsStep(window: int, g: Grace, e: Event)
    requires FieldsFit(window, g) && Enabled(g, e)
    requires e.Snap? ==> e.snap.mode != InGraceWindow
    ensures FieldsFit(window, Step(window, g, e))
  {
  }

  /** A step passes on at most one snapshot, and only what may follow. */
  lemma StepEmits(window: int, g: Grace, e: Event)
    requires FieldsFit(window, g) && Enabled(g, e)
    requires e.Snap? ==> e.snap.mode != InGraceWindow
    ensures var s := Step(window, g, e);
      || (s.emitted == g.emitted && s.mode == g.mode && s.lastEndpoints == g.lastEndpoints)
      || (&& s.emitted == g.emitted + [Last(s.emitted)]
          && Follows(window, g, Last(s.emitted))
          && s.mode == Last(s.emitted).mode
          && s.lastEndpoints == Remembered(g.lastEndpoints, Last(s.emitted)))
  {
    var s := Step(window, g, e);
    if s.emitted != g.emitted { assert s.emitted == g.emitted + [Last(s.emitted)]; }
  }

  predicate Follows(window: int, g: Grace, s: Snapshot) {
    && (g.mode == InGraceWindow ==> s.mode != Disconnected)
    && (s.mode == InGraceWindow ==> s.endpoints == g.lastEndpoints)
    && (s.mode == InGraceWindow && window > 0 ==> g.mode != Connected)
  }

  function Remembered(last: seq<Endpoint>, s: Snapshot): seq<Endpoint> {
    if s.mode == Connected && s.endpoints != [] then s.endpoints else last
  }

  lemma ShapeStep(window: int, g: Grace, e: Event)
    requires ShapeInv(window, g) && Enabled(g, e)
    requires e.Snap? ==> e.snap.mode != InGraceWindow
    ensures ShapeInv(window, Step(window, g, e))
  {
    var s := Step(window, g, e);
    FieldsStep(window, g, e);
    StepEmits(window, g, e);
    if s.emitted != g.emitted {
      ShapeSnoc(window, g.emitted, Last(s.emitted));
      RememberedSnoc(g.emitted, Last(s.emitted));
    }
  }

  /**
   In every run: the last snapshot passed on has the machine's state;
   InGraceWindow is never directly followed by Disconnected; with a positive
   window every run of InGraceWindow snapshots starts right after a
   Disconnected one; and each carries the endpoints of the latest Connected
   snapshot that had any. The Connected snapshots passed on are those of the
   inner resolver, and the Disconnected ones are those that came in time.
   */
  lemma {:induction false} ShapeInEveryRun(window: int, clock: int, es: seq<Event>)
    requires Legal(window, Initial(clock), es) && InnerReports(es)
    ensures ShapeInv(window, After(window, Initial(clock), es))
    ensures var g := After(window, Initial(clock), es);
      && Only(g.emitted, Connected) == ConnectedIn(es) && Only(g.emitted, Disconnected) == TimelyIn(window, es)
      && LatestNonEmpty(g.emitted) == RememberedIn(es)
  {
    HistoryInEveryRun(window, clock, es);
    PassesUnchanged(window, es);
    if es != [] {
      assert InnerReports(Init(es));
      ShapeInEveryRun(window, clock, Init(es));
      ShapeStep(window, After(window, Initial(clock), Init(es)), Last(es));
    }
  }
}
