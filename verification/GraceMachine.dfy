/** The grace-window machine with its fields updated in place. */
module GraceMachine {
  import opened Wrappers
  import opened Endpoints
  import opened GraceState

  class StateMachine {
    const graceWindow: int

    var mode: Mode
    var disconnectedAt: Option<int>
    var lastWarnAt: Option<int>
    var lastEndpoints: seq<Endpoint>

    var emitted: seq<Snapshot>    // calls of the snapshot callback
    var warns: seq<int>           // WARN records logged
    var armed: nat                // re-check goroutines started
    var pending: set<Timer>       // those still waiting

    ghost var clock: int
    ghost var live: bool

    ghost function View(): Grace
      reads this
    {
      Grace(mode, disconnectedAt, lastWarnAt, lastEndpoints, armed, pending, emitted, warns, clock, live)
    }

    constructor (graceWindow: int, ghost clock: int)
      ensures this.graceWindow == graceWindow && View() == Initial(clock)
    {
      this.graceWindow := graceWindow;
      mode, disconnectedAt, lastWarnAt, lastEndpoints := Connected, None, None, [];
      emitted, warns, armed, pending := [], [], 0, {};
      this.clock, live := clock, true;
    }

    method MaybeLogWarn(now: int)
      modifies this`warns, this`lastWarnAt
      ensures View() == MaybeWarn(graceWindow, old(View()), now)
    {
      if lastWarnAt.None? || now - lastWarnAt.value >= graceWindow {
        warns := warns + [now];
        lastWarnAt := Some(now);
      }
    }

    /** The wrapped snapshot callback. */
    method Wrapped(snap: Snapshot, now: int)
      requires now >= clock
      modifies this
      ensures View() == Step(graceWindow, old(View()), Snap(snap, now))
    {
      clock := now;
      match snap.mode
      case Connected =>
        disconnectedAt := None;
        lastWarnAt := None;
        mode := Connected;
        if |snap.endpoints| > 0 {
          lastEndpoints := snap.endpoints;
        }
        emitted := emitted + [snap];
      case Disconnected =>
        WrappedDisconnected(snap, now);
      case InGraceWindow =>
        mode := InGraceWindow;
        emitted := emitted + [snap];
    }

    /** The callback's case for a Disconnected snapshot. */
    method WrappedDisconnected(snap: Snapshot, now: int)
      modifies this
      ensures View() == OnDisconnected(graceWindow, old(View()), snap, now)
    {
      if disconnectedAt.None? {
        disconnectedAt := Some(now);
      }
      var elapsed := now - disconnectedAt.value;
      if elapsed >= graceWindow {
        mode := InGraceWindow;
        MaybeLogWarn(now);
        emitted := emitted + [Snapshot(lastEndpoints, InGraceWindow, snap.err)];
      } else {
        mode := Disconnected;
        var remaining := graceWindow - elapsed;
        pending := pending + {Timer(armed, now + remaining, disconnectedAt.value)};
        armed := armed + 1;
        emitted := emitted + [snap];
      }
    }

    /** A re-check goroutine past its wait. */
    method GraceCheck(timer: Timer, now: int)
      requires timer in pending && now >= clock && now >= timer.due
      modifies this
      ensures View() == Step(graceWindow, old(View()), Fire(timer, now))
    {
      pending := pending - {timer};
      clock := now;
      if mode != Disconnected {
        return;
      }
      if disconnectedAt.None? || now - disconnectedAt.value < graceWindow {
        return;
      }
      mode := InGraceWindow;
      MaybeLogWarn(now);
      emitted := emitted + [Snapshot(lastEndpoints, InGraceWindow, None)];
    }

    /** A re-check goroutine that sees its context cancelled while it waits. */
    method GraceCheckCancelled(timer: Timer)
      requires timer in pending && !live
      modifies this`pending
      ensures View() == Step(graceWindow, old(View()), Quit(timer))
    {
      pending := pending - {timer};
    }
  }
}
