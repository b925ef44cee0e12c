/**
 * The frame scheduler: the state the event handler keeps between callbacks
 * and the decision each callback leaves for the event loop. `Dispatch` is the
 * specification of one callback; `Replay` runs a sequence of them.
 */
module Frame {
  import P = Platform

  datatype FlowMode = Wait | WaitUntil | Poll

  /** The state kept between frames; timestamps are abstract milliseconds. */
  datatype FrameState = FrameState(
    /** Whether the application is active rather than suspended. */
    active: bool,
    /** Whether a redraw was requested (set by the `Poll` mode). */
    redrawRequest: bool,
    /** Whether a `WaitUntil` timeout woke the loop. */
    timeoutReached: bool,
    waitCancelled: bool,
    lastUpdate: nat,
    mode: FlowMode,
    /** Whether cursor moves arrived since the last mouse-move event. */
    cursorMoved: bool)

  /** `WinitPersistentState::default()`, stamped at `now`. */
  function DefaultState(now: nat): (s: FrameState)
    ensures !s.active && !s.redrawRequest && !s.timeoutReached && !s.waitCancelled && !s.cursorMoved
    ensures s.mode == FlowMode.Wait && s.lastUpdate == now
  {
    FrameState(false, false, false, false, now, FlowMode.Wait, false)
  }

  /** What the event loop does after a callback. */
  datatype ControlFlow = Wait | WaitUntil(deadline: nat) | Poll | Exit

  /** The wait after which a `WaitUntil` frame wakes the loop again, in milliseconds. */
  const WaitUntilDelay: nat := 100

  /**
   * A callback's notification, reduced to what the scheduler reads: window
   * notifications for unknown ids, whether closing emptied the registry,
   * whether a render failed. Every other notification is `Passthrough`.
   */
  datatype Signal =
    | NewEvents(cause: P.StartCause)
    | UnknownWindow
    | CloseRequested(emptied: bool)
    | CursorMoved
    | Passthrough
    | Suspended
    | Resumed
    | MainEventsCleared
    | RedrawRequested(renderFailed: bool)
    | RedrawEventsCleared

  /**
   * The result of one callback: the new state, the control flow, whether a
   * mouse-move event was handed on, whether the application update ran, and
   * whether the menu was polled at the end.
   */
  datatype Step = Step(state: FrameState, flow: ControlFlow, emitMove: bool, runUpdate: bool, listen: bool)

  /** The state change of a loop wake-up. */
  function StartEffect(s: FrameState, cause: P.StartCause): (t: FrameState)
    ensures cause.WaitCancelled? ==> t == s.(waitCancelled := s.mode == FlowMode.WaitUntil)
    ensures cause.ResumeTimeReached? ==> t == s.(timeoutReached := true, waitCancelled := false)
    ensures cause.Init? || cause.Poll? ==> t == s.(waitCancelled := false)
  {
    match cause
    case Init => s.(waitCancelled := false)
    case WaitCancelled => s.(waitCancelled := s.mode == FlowMode.WaitUntil)
    case ResumeTimeReached => s.(timeoutReached := true, waitCancelled := false)
    case Poll => s.(waitCancelled := false)
  }

  /** Whether the application update runs at the end of the main events. */
  predicate UpdateDue(s: FrameState)
  {
    s.active && (s.redrawRequest || s.timeoutReached)
  }

  /**
   * One callback. The control flow starts as `Wait` every time; the mode is
   * never written; the redraw and timeout flags are never cleared.
   */
  function Dispatch(s: FrameState, sig: Signal, now: nat): (r: Step)
    ensures r.state.mode == s.mode
    ensures s.redrawRequest ==> r.state.redrawRequest
    ensures s.timeoutReached ==> r.state.timeoutReached
    ensures r.flow.Exit? <==> sig == CloseRequested(true) || sig == RedrawRequested(true)
    ensures r.flow.Poll? <==> sig.RedrawEventsCleared? && s.mode == FlowMode.Poll
    ensures r.flow.WaitUntil? <==> sig.RedrawEventsCleared? && s.mode == FlowMode.WaitUntil && !s.waitCancelled
    ensures r.flow.WaitUntil? ==> r.flow.deadline == now + WaitUntilDelay
    ensures r.runUpdate <==> sig.MainEventsCleared? && UpdateDue(s)
    ensures r.runUpdate ==> r.state.lastUpdate == now
    ensures !r.runUpdate ==> r.state.lastUpdate == s.lastUpdate
    ensures r.emitMove <==> sig.MainEventsCleared? && s.active && s.cursorMoved
    ensures !r.listen <==> sig.UnknownWindow? || (sig.MainEventsCleared? && !UpdateDue(s))
    ensures sig.UnknownWindow? ==> r.state == s
    ensures r.state.active == (if sig.Suspended? then false else if sig.Resumed? then true else s.active)
    ensures r.state.cursorMoved == (if sig.CursorMoved? then true
                                    else if sig.MainEventsCleared? && s.active then false
                                    else s.cursorMoved)
  {
    match sig
    case NewEvents(cause) => Step(StartEffect(s, cause), ControlFlow.Wait, false, false, true)
    case UnknownWindow => Step(s, ControlFlow.Wait, false, false, false)
    case CloseRequested(emptied) => Step(s, if emptied then Exit else ControlFlow.Wait, false, false, true)
    case CursorMoved => Step(s.(cursorMoved := true), ControlFlow.Wait, false, false, true)
    case Passthrough => Step(s, ControlFlow.Wait, false, false, true)
    case Suspended => Step(s.(active := false), ControlFlow.Wait, false, false, true)
    case Resumed => Step(s.(active := true), ControlFlow.Wait, false, false, true)
    case MainEventsCleared => MainEventsStep(s, now)
    case RedrawRequested(failed) => Step(s, if failed then Exit else ControlFlow.Wait, false, false, true)
    case RedrawEventsCleared => FrameEndStep(s, now)
  }

  /**
   * The end of the main events: nothing while inactive; otherwise the
   * pending mouse move is handed on, and the update runs when due.
   */
  function MainEventsStep(s: FrameState, now: nat): (r: Step)
    ensures r.flow == ControlFlow.Wait
    ensures r.state.mode == s.mode && r.state.active == s.active
    ensures r.state.redrawRequest == s.redrawRequest && r.state.timeoutReached == s.timeoutReached
    ensures r.runUpdate == r.listen == UpdateDue(s)
    ensures r.state.lastUpdate == if r.runUpdate then now else s.lastUpdate
    ensures r.emitMove <==> s.active && s.cursorMoved
    ensures r.state.cursorMoved == (s.cursorMoved && !s.active)
  {
    if !s.active then Step(s, ControlFlow.Wait, false, false, false)
    else
      var t := s.(cursorMoved := false);
      if !s.redrawRequest && !s.timeoutReached then Step(t, ControlFlow.Wait, s.cursorMoved, false, false)
      else Step(t.(lastUpdate := now), ControlFlow.Wait, s.cursorMoved, true, true)
  }

  /** The end of the redraw events: the mode decides how the loop waits for the next frame. */
  function FrameEndStep(s: FrameState, now: nat): (r: Step)
    ensures r.state == (if s.mode == FlowMode.Poll then s.(redrawRequest := true) else s)
    ensures r.flow == match s.mode
                      case Wait => ControlFlow.Wait
                      case WaitUntil => if s.waitCancelled then ControlFlow.Wait else ControlFlow.WaitUntil(now + WaitUntilDelay)
                      case Poll => ControlFlow.Poll
    ensures !r.emitMove && !r.runUpdate && r.listen
  {
    match s.mode
    case Wait => Step(s, ControlFlow.Wait, false, false, true)
    case WaitUntil =>
      Step(s, if s.waitCancelled then ControlFlow.Wait else ControlFlow.WaitUntil(now + WaitUntilDelay), false, false, true)
    case Poll => Step(s.(redrawRequest := true), ControlFlow.Poll, false, false, true)
  }

  /** The outcome of a run of callbacks: final state, moves handed on, updates run, control flows. */
  datatype Trace = Trace(state: FrameState, moves: nat, updates: nat, flows: seq<ControlFlow>)

  /** Runs the callbacks for `sigs` in order, all at time `now`. */
  function Replay(s: FrameState, sigs: seq<Signal>, now: nat): (t: Trace)
    ensures |t.flows| == |sigs|
    ensures t.updates <= |sigs| && t.moves <= |sigs|
    decreases |sigs|
  {
    if sigs == [] then Trace(s, 0, 0, [])
    else
      var step := Dispatch(s, sigs[0], now);
      var rest := Replay(step.state, sigs[1..], now);
      Trace(rest.state,
            rest.moves + (if step.emitMove then 1 else 0),
            rest.updates + (if step.runUpdate then 1 else 0),
            [step.flow] + rest.flows)
  }

  /** Replaying two runs back to back is replaying their concatenation. */
  lemma {:induction false} ReplayAppend(s: FrameState, a: seq<Signal>, b: seq<Signal>, now: nat)
    ensures var ta := Replay(s, a, now); var tb := Replay(ta.state, b, now);
            Replay(s, a + b, now) == Trace(tb.state, ta.moves + tb.moves, ta.updates + tb.updates, ta.flows + tb.flows)
    decreases |a|
  {
    if a == [] {
      assert a + b == b;
    } else {
      var step := Dispatch(s, a[0], now);
      assert (a + b)[0] == a[0] && (a + b)[1..] == a[1..] + b;
      ReplayAppend(step.state, a[1..], b, now);
      var ra := Replay(step.state, a[1..], now);
      var tb := Replay(ra.state, b, now);
      assert [step.flow] + (ra.flows + tb.flows) == ([step.flow] + ra.flows) + tb.flows;
    }
  }

  /** The mode is fixed for the whole run. */
  lemma {:induction false} ModeInvariant(s: FrameState, sigs: seq<Signal>, now: nat)
    ensures Replay(s, sigs, now).state.mode == s.mode
    decreases |sigs|
  {
    if sigs != [] {
      ModeInvariant(Dispatch(s, sigs[0], now).state, sigs[1..], now);
    }
  }

  /** Once set, the redraw request and the timeout flag stay set. */
  lemma {:induction false} RequestsSticky(s: FrameState, sigs: seq<Signal>, now: nat)
    ensures s.redrawRequest ==> Replay(s, sigs, now).state.redrawRequest
    ensures s.timeoutReached ==> Replay(s, sigs, now).state.timeoutReached
    decreases |sigs|
  {
    if sigs != [] {
      RequestsSticky(Dispatch(s, sigs[0], now).state, sigs[1..], now);
    }
  }

  /** `n` copies of `x`. */
  function Repeat<T>(x: T, n: nat): (xs: seq<T>)
    ensures |xs| == n && forall i | 0 <= i < n :: xs[i] == x
  {
    if n == 0 then [] else [x] + Repeat(x, n - 1)
  }

  /** Any number of cursor moves only raise the flag: nothing is handed on yet. */
  lemma {:induction false} CursorMovesOnlyFlag(s: FrameState, n: nat, now: nat)
    requires n >= 1
    ensures Replay(s, Repeat(CursorMoved, n), now) == Trace(s.(cursorMoved := true), 0, 0, Repeat(ControlFlow.Wait, n))
    decreases n
  {
    if n > 1 {
      CursorMovesOnlyFlag(s.(cursorMoved := true), n - 1, now);
    }
  }

  /**
   * Cursor moves are coalesced: `n >= 1` moves followed by the main events of
   * an active frame hand on exactly one mouse-move event and clear the flag.
   */
  lemma {:induction false} CoalescedMoves(s: FrameState, n: nat, now: nat)
    requires s.active && n >= 1
    ensures var t := Replay(s, Repeat(CursorMoved, n) + [MainEventsCleared], now);
            t.moves == 1 && !t.state.cursorMoved
  {
    CursorMovesOnlyFlag(s, n, now);
    ReplayAppend(s, Repeat(CursorMoved, n), [MainEventsCleared], now);
  }

  /** Whether a run holds a signal that makes the application active. */
  predicate Resumes(sigs: seq<Signal>)
  {
    exists i | 0 <= i < |sigs| :: sigs[i].Resumed?
  }

  /**
   * A suspended application stays idle until it is resumed: no update runs,
   * no mouse-move event is handed on, and a pending cursor move stays pending.
   */
  lemma {:induction false} InactiveIdle(s: FrameState, sigs: seq<Signal>, now: nat)
    requires !s.active && !Resumes(sigs)
    ensures var t := Replay(s, sigs, now);
            t.updates == 0 && t.moves == 0 && !t.state.active && (s.cursorMoved ==> t.state.cursorMoved)
    decreases |sigs|
  {
    if sigs != [] {
      assert !Resumes(sigs[1..]) by {
        forall i | 0 <= i < |sigs[1..]|
          ensures !sigs[1..][i].Resumed?
        {
          assert sigs[1..][i] == sigs[i + 1];
        }
      }
      InactiveIdle(Dispatch(s, sigs[0], now).state, sigs[1..], now);
    }
  }

  /** Whether a run holds a wake-up by a reached `WaitUntil` deadline. */
  predicate TimesOut(sigs: seq<Signal>)
  {
    exists i | 0 <= i < |sigs| :: sigs[i] == NewEvents(P.ResumeTimeReached)
  }

  /**
   * In `Wait` mode with nothing requested, the application update never runs
   * until a deadline wakes the loop: the default state only reacts to input.
   */
  lemma {:induction false} WaitModeNeverUpdates(s: FrameState, sigs: seq<Signal>, now: nat)
    requires s.mode == FlowMode.Wait && !s.redrawRequest && !s.timeoutReached && !TimesOut(sigs)
    ensures var t := Replay(s, sigs, now);
            t.updates == 0 && !t.state.redrawRequest && !t.state.timeoutReached
    decreases |sigs|
  {
    if sigs != [] {
      assert !TimesOut(sigs[1..]) by {
        forall i | 0 <= i < |sigs[1..]|
          ensures sigs[1..][i] != NewEvents(P.ResumeTimeReached)
        {
          assert sigs[1..][i] == sigs[i + 1];
        }
      }
      WaitModeNeverUpdates(Dispatch(s, sigs[0], now).state, sigs[1..], now);
    }
  }

  /** The default state is idle: it never updates without a deadline, whatever input arrives. */
  lemma DefaultIsIdle(sigs: seq<Signal>, now: nat, start: nat)
    requires !TimesOut(sigs)
    ensures Replay(DefaultState(start), sigs, now).updates == 0
  {
    WaitModeNeverUpdates(DefaultState(start), sigs, now);
  }

  /** Whether a signal makes its callback request exit. */
  predicate Exits(sig: Signal)
  {
    sig == CloseRequested(true) || sig == RedrawRequested(true)
  }

  /** A run requests exit exactly at the callbacks that empty the registry or fail to render. */
  lemma {:induction false} ExitOnlyOnCloseOrRenderFailure(s: FrameState, sigs: seq<Signal>, now: nat)
    ensures var flows := Replay(s, sigs, now).flows;
            forall i | 0 <= i < |sigs| :: flows[i].Exit? <==> Exits(sigs[i])
    decreases |sigs|
  {
    if sigs != [] {
      var step := Dispatch(s, sigs[0], now);
      ExitOnlyOnCloseOrRenderFailure(step.state, sigs[1..], now);
      var flows := Replay(s, sigs, now).flows;
      forall i | 0 <= i < |sigs|
        ensures flows[i].Exit? <==> Exits(sigs[i])
      {
        if i > 0 {
          assert flows[i] == Replay(step.state, sigs[1..], now).flows[i - 1];
          assert sigs[i] == sigs[1..][i - 1];
        }
      }
    }
  }

  /**
   * In `Poll` mode, the end of one frame requests a redraw, so the next active
   * frame runs the application update.
   */
  lemma PollForcesUpdate(s: FrameState, now: nat, later: nat)
    requires s.mode == FlowMode.Poll && s.active
    ensures var t := Dispatch(s, RedrawEventsCleared, now);
            t.flow == ControlFlow.Poll && Dispatch(t.state, MainEventsCleared, later).runUpdate
  {
  }

  /**
   * In `WaitUntil` mode, the frame's end schedules the next wake-up 100 ms on
   * unless the last wake-up was a cancelled wait, in which case it waits.
   */
  lemma WaitUntilSchedule(s: FrameState, cause: P.StartCause, now: nat, later: nat)
    requires s.mode == FlowMode.WaitUntil
    ensures var t := Dispatch(Dispatch(s, NewEvents(cause), now).state, RedrawEventsCleared, later);
            t.flow == (if cause.WaitCancelled? then ControlFlow.Wait else ControlFlow.WaitUntil(later + WaitUntilDelay))
  {
  }

  /** Outside `WaitUntil` mode a cancelled wait is not recorded. */
  lemma WaitCancelledOnlyInWaitUntil(s: FrameState, now: nat)
    requires s.mode != FlowMode.WaitUntil
    ensures !Dispatch(s, NewEvents(P.WaitCancelled), now).state.waitCancelled
  {
  }
}
