/**
 The resolver's grace window as a step machine over values: snapshots from
 the inner resolver and expiries of re-check timers, on a monotone clock.
 Unset times of the source (the zero time.Time) are None here.
 */
module GraceState {
  import opened Wrappers
  import opened Endpoints

  datatype Mode = Connected | Disconnected | InGraceWindow

  datatype Snapshot = Snapshot(endpoints: seq<Endpoint>, mode: Mode, err: Option<string>)

  /** The `id`-th re-check goroutine: not before `due`, armed in the outage that began at `outage`. */
  datatype Timer = Timer(id: nat, due: int, outage: int)

  datatype Grace = Grace(
    mode: Mode,
    disconnectedAt: Option<int>,
    lastWarnAt: Option<int>,
    lastEndpoints: seq<Endpoint>,
    armed: nat,                 // re-check goroutines started
    pending: set<Timer>,        // those still waiting
    emitted: seq<Snapshot>,     // snapshots passed on, in order
    warns: seq<int>,            // times of the WARN records
    clock: int,
    live: bool                  // the context is not cancelled
  )

  datatype Event =
    | Snap(snap: Snapshot, now: int)
    | Fire(timer: Timer, now: int)
    | Cancel
    | Quit(timer: Timer)

  function Initial(clock: int): Grace {
    Grace(Connected, None, None, [], 0, {}, [], [], clock, true)
  }

  // ---------------------------------------------------------------------
  // Steps
  // ---------------------------------------------------------------------

  /** A warning, unless one was given less than a window ago in this outage. */
  function MaybeWarn(window: int, g: Grace, now: int): Grace {
    if g.lastWarnAt.None? || now - g.lastWarnAt.value >= window then
      g.(warns := g.warns + [now], lastWarnAt := Some(now))
    else g
  }

  function EnterGrace(window: int, g: Grace, now: int, err: Option<string>): Grace {
    var w := MaybeWarn(window, g, now);
    w.(mode := InGraceWindow,
       emitted := w.emitted + [Snapshot(w.lastEndpoints, InGraceWindow, err)])
  }

  function OnConnected(g: Grace, snap: Snapshot): Grace {
    g.(disconnectedAt := None, lastWarnAt := None, mode := Connected,
       lastEndpoints := if snap.endpoints != [] then snap.endpoints else g.lastEndpoints,
       emitted := g.emitted + [snap])
  }

  function OnDisconnected(window: int, g: Grace, snap: Snapshot, now: int): Grace {
    var start := if g.disconnectedAt.Some? then g.disconnectedAt.value else now;
    var h := g.(disconnectedAt := Some(start));
    if now - start >= window then EnterGrace(window, h, now, snap.err)
    else
      h.(mode := Disconnected,
         armed := h.armed + 1,
         pending := h.pending + {Timer(h.armed, now + (window - (now - start)), start)},
         emitted := h.emitted + [snap])
  }

  function OnSnapshot(window: int, g: Grace, snap: Snapshot, now: int): Grace {
    match snap.mode
    case Connected => OnConnected(g, snap)
    case Disconnected => OnDisconnected(window, g, snap, now)
    case InGraceWindow => g.(mode := InGraceWindow, emitted := g.emitted + [snap])
  }

  function OnTimer(window: int, g: Grace, now: int): Grace {
    if g.mode != Disconnected || g.disconnectedAt.None? || now - g.disconnectedAt.value < window then g
    else EnterGrace(window, g, now, None)
  }

  /** The clock never runs back; a timer fires at its time or later, unless cancelled first. */
  predicate Enabled(g: Grace, e: Event) {
    match e
    case Snap(_, now) => now >= g.clock
    case Fire(t, now) => t in g.pending && now >= g.clock && now >= t.due
    case Cancel => true
    case Quit(t) => !g.live && t in g.pending
  }

  function Step(window: int, g: Grace, e: Event): Grace
    requires Enabled(g, e)
  {
    match e
    case Snap(snap, now) => OnSnapshot(window, g, snap, now).(clock := now)
    case Fire(t, now) => OnTimer(window, g.(pending := g.pending - {t}), now).(clock := now)
    case Cancel => g.(live := false)
    case Quit(t) => g.(pending := g.pending - {t})
  }
}
