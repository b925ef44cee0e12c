/**
 * The application shell: builds the registry with its main window and the
 * renderer, runs the start-up checks, prepares the main window, and handles
 * every notification of the event loop, keeping the frame state that
 * `Frame.Dispatch` specifies.
 */
module Runner {
  import opened Platform
  import opened Errors
  import opened KeyCodes
  import opened Events
  import opened WindowRegistry
  import opened Rendering
  import opened InputContext
  import F = Frame

  /** How the native menu answers: whether the application menu builds, and on which windows it installs. */
  datatype Menu = Menu(setupSucceeds: bool, installs: WindowId -> bool)

  /** The reduction of a notification to what the scheduler reads. */
  function SignalOf(ev: Event, windows: map<WindowId, Window>, renderSucceeds: bool): (sig: F.Signal)
    ensures ev.WindowEvent? && ev.windowId !in windows <==> sig.UnknownWindow?
    ensures sig.CloseRequested? <==> ev.WindowEvent? && ev.windowId in windows && ev.event.CloseRequested?
    ensures sig.CloseRequested? ==> (sig.emptied <==> windows.Keys <= {ev.windowId})
    ensures sig.CursorMoved? <==> ev.WindowEvent? && ev.windowId in windows && ev.event.CursorMoved?
    ensures sig.RedrawRequested? <==> ev.RedrawRequested?
    ensures sig.RedrawRequested? ==> sig.renderFailed == !renderSucceeds
  {
    match ev
    case NewEvents(cause) => F.NewEvents(cause)
    case WindowEvent(id, event) =>
      if id !in windows then F.UnknownWindow
      else if event.CloseRequested? then
        assert (windows - {id} == map[]) <==> windows.Keys <= {id} by {
          var rest := windows - {id};
          assert rest.Keys == windows.Keys - {id};
          if windows.Keys <= {id} {
            assert rest.Keys == {};
            assert rest == map[];
          }
          if rest == map[] {
            forall k | k in windows.Keys
              ensures k == id
            {
              assert k !in rest.Keys;
            }
          }
        }
        F.CloseRequested(windows - {id} == map[])
      else if event.CursorMoved? then F.CursorMoved
      else F.Passthrough
    case MouseMotion(_, _) => F.Passthrough
    case Suspended => F.Suspended
    case Resumed => F.Resumed
    case MainEventsCleared => F.MainEventsCleared
    case RedrawRequested(_) => F.RedrawRequested(!renderSucceeds)
    case RedrawEventsCleared => F.RedrawEventsCleared
    case OtherEvent => F.Passthrough
  }

  /** The shell's mouse button of a platform button. */
  function ToMouseButton(b: Button): (m: MouseButton)
    ensures b.Left? <==> m.Left?
    ensures b.Right? <==> m.Right?
    ensures b.Middle? <==> m.Middle?
    ensures b.Back? <==> m.Back?
    ensures b.Forward? <==> m.Forward?
    ensures b.Other? <==> m.Other?
    ensures b.Other? ==> m.code == b.code
  {
    match b
    case Left => MouseButton.Left
    case Right => MouseButton.Right
    case Middle => MouseButton.Middle
    case Back => MouseButton.Back
    case Forward => MouseButton.Forward
    case Other(code) => MouseButton.Other(code)
  }

  /** The shell's button conversion loses nothing. */
  lemma ToMouseButtonInjective(a: Button, b: Button)
    requires ToMouseButton(a) == ToMouseButton(b)
    ensures a == b
  {
  }

  /** What routing a notification leaves behind: its effect, the registry's focus and the held modifiers. */
  datatype Routing = Routing(effect: Effect, focus: Option<WindowId>, keyMods: KeyboardModifiers)

  /**
   * The notifications of a registered window that the scheduler does not
   * see, each handed to its input-context handler: `window`, `focus`,
   * `mousePos`, `keyMods` and `buffers` are the state before it.
   */
  function Route(id: WindowId, event: WindowEvent, window: Window, focus: Option<WindowId>, mousePos: Vec2,
                 keyMods: KeyboardModifiers, gpu: Gpu, buffers: map<WindowId, Pixels>): (r: Routing)
    requires !event.CloseRequested? && !event.CursorMoved?
    ensures r.focus == focus || (event.Focused? && event.focus && r.focus == Some(id))
    ensures !event.ModifiersChanged? ==> r.keyMods == keyMods
    ensures r.effect.buffers.Keys == buffers.Keys
    ensures !event.Resized? && !event.ScaleFactorChanged? ==> r.effect.buffers == buffers
    ensures event.Destroyed? || event.OtherWindowEvent? ==> r == Routing(Effect([], buffers, false), focus, keyMods)
    ensures event.Touch? || event.KeyboardInput? || event.MouseWheel? ==> |r.effect.entries| == 1 && r.effect.rendered
    ensures event.Focused? ==> r.effect.rendered && (r.focus != focus <==> r.effect.entries == [Native(id, FocusWindow)])
    ensures |r.effect.entries| <= 2
  {
    var none := Effect([], buffers, false);
    match event
    case Resized(size) => Routing(ResizeEffect(gpu, buffers, id, size), focus, keyMods)
    case ScaleFactorChanged(scale, size) =>
      if window.innerSize.width as real == Unscale(size.width as real, scale)
         || window.innerSize.height as real == Unscale(size.height as real, scale)
      then Routing(none, focus, keyMods)
      else Routing(ResizeEffect(gpu, buffers, id, LogicalSize(size, scale)), focus, keyMods)
    case Focused(gained) =>
      var moves := gained && focus != Some(id) && !window.hasFocus;
      Routing(Effect(if moves then [Native(id, FocusWindow)] else [], buffers, true),
              if moves then Some(id) else focus, keyMods)
    case Touch(phase, location) =>
      Routing(Effect([TouchOut(TouchEvent(phase, Logical(location, window.scaleFactor)))], buffers, true), focus, keyMods)
    case KeyboardInput(key) => Routing(Effect([KeyOut(KeyEventOf(key, keyMods))], buffers, true), focus, keyMods)
    case ModifiersChanged(m) => Routing(none, focus, KeyboardModifiers(m.shift, m.control, m.alt, m.superKey))
    case MouseWheel(delta) => Routing(Effect([MouseOut(Scroll(ScrollDelta(delta)))], buffers, true), focus, keyMods)
    case MouseInput(buttonState, button) =>
      var touch := if buttonState == Pressed then MouseTouchEvent.Down(ToMouseButton(button))
                   else MouseTouchEvent.Up(ToMouseButton(button));
      Routing(Effect([Native(id, ShowContextMenu(mousePos)), TouchOut(MouseTouch(touch, mousePos))], buffers, true),
              focus, keyMods)
    case Destroyed => Routing(none, focus, keyMods)
    case OtherWindowEvent => Routing(none, focus, keyMods)
  }

  class Windows {
    const wm: WindowManager
    const menu: Menu
    const ctx: Context
    const renderer: Renderer
    const log: Log
    var state: F.FrameState
    /** The control flow the last callback left for the event loop. */
    var controlFlow: F.ControlFlow

    ghost predicate Valid()
      reads this, wm
    {
      wm.Valid()
    }

    constructor (wm: WindowManager, menu: Menu, ctx: Context, renderer: Renderer, log: Log, state: F.FrameState)
      ensures this.wm == wm && this.menu == menu && this.ctx == ctx && this.renderer == renderer && this.log == log
      ensures this.state == state && controlFlow == F.ControlFlow.Wait
    {
      this.wm := wm;
      this.menu := menu;
      this.ctx := ctx;
      this.renderer := renderer;
      this.log := log;
      this.state := state;
      controlFlow := F.ControlFlow.Wait;
    }

    /**
     * `Windows::new`: the registry and its main window first, then the
     * renderer; fails with the first failure. The context and the frame
     * state start at their defaults.
     */
    static method New(eventLoop: EventLoop, gpu: Gpu, menu: Menu, now: nat) returns (r: Result<Windows>)
      ensures r.Ok? <==> eventLoop.monitors != [] && eventLoop.build.Built? && gpu.deviceAvailable
      ensures eventLoop.monitors == [] ==> r == Err(External(NoMonitor))
      ensures eventLoop.monitors != [] && eventLoop.build.BuildFailed? ==> r == Err(External(WindowBuild))
      ensures eventLoop.monitors != [] && eventLoop.build.Built? && !gpu.deviceAvailable ==>
                r == Err(Renderer(RendererDevice))
      ensures r.Ok? ==> var w := r.value;
                && fresh(w) && fresh(w.wm) && fresh(w.ctx) && fresh(w.renderer) && fresh(w.log)
                && w.Valid() && w.menu == menu
                && w.wm.mainWindow == Some(eventLoop.build.id) && w.wm.focusWindow == None
                && w.wm.windows.Keys == {eventLoop.build.id}
                && w.renderer.gpu == gpu && w.renderer.pixelBuffers == map[]
                && w.state == F.DefaultState(now) && w.log.entries == []
                && w.ctx.mousePos == Vec2(0.0, 0.0) && !w.ctx.hasRendered && w.ctx.windowSize == ZeroSize
                && !w.ctx.grabCursor && !w.ctx.prevGrabCursor && w.ctx.keyMods == NoModifiers
    {
      var wm := new WindowManager();
      var created := wm.WithMainWindow(eventLoop);
      if created.Fail? {
        return Err(created.error);
      }
      var renderer := Renderer.New(gpu);
      if renderer.Err? {
        return Err(renderer.error);
      }
      var ctx := new Context();
      var log := new Log();
      var windows := new Windows(wm, menu, ctx, renderer.value, log, F.DefaultState(now));
      r := Ok(windows);
    }

    /**
     * The steps before the event loop: resolve the main window, install the
     * menu on it, make it visible and give it a pixel buffer of its inner
     * size. Stops at the first failure; `started` says whether the loop
     * would be entered.
     */
    method RunnerInit() returns (started: bool)
      requires Valid()
      modifies renderer, log
      ensures wm.MainWindow().Err? ==> !started && unchanged(renderer, log)
      ensures wm.MainWindow().Ok? ==>
                var w := wm.MainWindow().value;
                && (!menu.installs(w.id) ==>
                      !started && unchanged(renderer) && log.entries == old(log.entries) + [Output.MenuInstall(w.id)])
                && (menu.installs(w.id) ==>
                      && log.entries == old(log.entries) + [Output.MenuInstall(w.id), Native(w.id, SetVisible(true))]
                      && (started <==> renderer.gpu.createsPixels(w.id, w.innerSize))
                      && renderer.pixelBuffers
                         == if started then old(renderer.pixelBuffers)[w.id := Pixels(w.innerSize, w.innerSize, 0)]
                            else old(renderer.pixelBuffers))
    {
      var main := wm.MainWindow();
      if main.Err? {
        return false;
      }
      var window := main.value;
      log.Append(Output.MenuInstall(window.id));
      if !menu.installs(window.id) {
        return false;
      }
      log.Append(Native(window.id, SetVisible(true)));
      var size := window.innerSize;
      var setup := renderer.Setup(window.id, size.width, size.height);
      started := setup.Pass?;
    }

    /**
     * `Windows::run`: the registry's start-up check, then the menu setup,
     * then the steps before the loop. A failure of those last steps is
     * logged by the source and not returned, so the result is then `Pass`.
     */
    method Run() returns (r: Outcome, started: bool)
      requires Valid()
      modifies renderer, log
      ensures wm.Run().Fail? ==> r == wm.Run() && !started && unchanged(renderer, log)
      ensures wm.Run().Pass? && !menu.setupSucceeds ==>
                r == Fail(External(ExternalError.MenuSetup)) && !started && unchanged(renderer)
                && log.entries == old(log.entries) + [Output.MenuSetup]
      ensures started ==> r == Pass && wm.Run().Pass? && menu.setupSucceeds
      ensures r.Pass? <==> wm.Run().Pass? && menu.setupSucceeds
      ensures r.Pass? ==>
                var w := wm.MainWindow().value;
                && (started <==> menu.installs(w.id) && renderer.gpu.createsPixels(w.id, w.innerSize))
                && log.entries == old(log.entries) + [Output.MenuSetup, Output.MenuInstall(w.id)]
                                  + (if menu.installs(w.id) then [Native(w.id, SetVisible(true))] else [])
                && renderer.pixelBuffers
                   == if started then old(renderer.pixelBuffers)[w.id := Pixels(w.innerSize, w.innerSize, 0)]
                      else old(renderer.pixelBuffers)
    {
      r := wm.Run();
      if r.Fail? {
        return r, false;
      }
      log.Append(Output.MenuSetup);
      if !menu.setupSucceeds {
        return Fail(External(ExternalError.MenuSetup)), false;
      }
      started := RunnerInit();
      r := Pass;
    }

    /** Whether rendering the window a redraw notification names would succeed. */
    predicate RenderSucceedsFor(ev: Event)
      reads wm, renderer
    {
      ev.RedrawRequested? && RenderSucceeds(wm, renderer, ev.windowId)
    }

    /** The notification as the scheduler sees it, in the current state. */
    function Signal(ev: Event): F.Signal
      reads wm, renderer
    {
      SignalOf(ev, wm.windows, RenderSucceedsFor(ev))
    }

    /**
     * One callback of the event loop. The frame state and the control flow
     * become those `Frame.Dispatch` gives; a notification for an unknown
     * window changes nothing at all; the menu is polled last exactly when
     * the dispatcher says so, and otherwise the only effect is the coalesced
     * mouse move.
     */
    method HandleEvent(ev: Event, now: nat)
      requires Valid()
      modifies this`state, this`controlFlow, wm, ctx`hasRendered, ctx`windowSize, ctx`mousePos, ctx`keyMods,
               ctx`prevGrabCursor, renderer, log
      ensures Valid()
      ensures var step := F.Dispatch(old(state), old(Signal(ev)), now);
              && state == step.state && controlFlow == step.flow
              && (step.listen ==> |log.entries| > 0 && log.entries[|log.entries| - 1] == MenuListen)
      ensures wm.mainWindow == old(wm.mainWindow)
      ensures ev.NewEvents? || ev.Suspended? || ev.Resumed? || ev.RedrawEventsCleared? || ev.OtherEvent? ==>
                && unchanged(wm, ctx, renderer) && log.entries == old(log.entries) + [MenuListen]
      ensures ev.WindowEvent? && ev.windowId !in old(wm.windows) ==>
                && unchanged(wm, ctx, renderer, log) && state == old(state)
      ensures ev.WindowEvent? && ev.windowId in old(wm.windows) && ev.event.CloseRequested? ==>
                && wm.windows == old(wm.windows) - {ev.windowId} && wm.focusWindow == old(wm.focusWindow)
                && renderer.pixelBuffers == old(renderer.pixelBuffers) - {ev.windowId}
                && ctx.Fields() == old(ctx.Fields()).(hasRendered := false, windowSize := ZeroSize)
                && log.entries == old(log.entries) + [MenuListen]
      ensures ev.WindowEvent? && ev.windowId in old(wm.windows) && ev.event.CursorMoved? ==>
                && unchanged(wm, renderer)
                && ctx.Fields()
                   == old(ctx.Fields()).(mousePos := Logical(ev.event.position, old(wm.windows[ev.windowId]).scaleFactor))
                && log.entries == old(log.entries) + [MenuListen]
      ensures ev.WindowEvent? && ev.windowId in old(wm.windows) && !ev.event.CloseRequested? && !ev.event.CursorMoved? ==>
                var r := Route(ev.windowId, ev.event, old(wm.windows[ev.windowId]), old(wm.focusWindow),
                               old(ctx.mousePos), old(ctx.keyMods), renderer.gpu, old(renderer.pixelBuffers));
                && log.entries == old(log.entries) + r.effect.entries + [MenuListen]
                && renderer.pixelBuffers == r.effect.buffers
                && ctx.Fields() == old(ctx.Fields()).(hasRendered := old(ctx.hasRendered) || r.effect.rendered,
                                                      keyMods := r.keyMods)
                && wm.windows == old(wm.windows) && wm.focusWindow == r.focus
      ensures ev.MouseMotion? ==>
                var entries := MotionEntries(wm.CurrentWindow(), old(ctx.mousePos), Vec2(ev.dx, ev.dy),
                                             ctx.grabCursor, old(ctx.prevGrabCursor));
                && unchanged(wm, renderer)
                && log.entries == old(log.entries) + entries + [MenuListen]
                && ctx.Fields() == old(ctx.Fields()).(hasRendered := old(ctx.hasRendered) || entries != [],
                                                      prevGrabCursor := if entries != [] then ctx.grabCursor
                                                                        else old(ctx.prevGrabCursor))
      ensures ev.MainEventsCleared? ==>
                var step := F.Dispatch(old(state), F.MainEventsCleared, now);
                var update := UpdateEffect(wm.CurrentWindow(), renderer.gpu, old(renderer.pixelBuffers));
                var updated := step.runUpdate && wm.CurrentWindow().Ok?;
                && unchanged(wm)
                && log.entries == old(log.entries)
                                  + (if step.emitMove then [MouseOut(MouseEvent.Move(old(ctx.mousePos)))] else [])
                                  + (if step.runUpdate then update.entries + [MenuListen] else [])
                && renderer.pixelBuffers == (if step.runUpdate then update.buffers else old(renderer.pixelBuffers))
                && ctx.Fields()
                   == old(ctx.Fields()).(hasRendered := old(ctx.hasRendered) || step.emitMove || (step.runUpdate && update.rendered),
                                         windowSize := if updated then wm.CurrentWindow().value.innerSize
                                                       else old(ctx.windowSize))
      ensures ev.RedrawRequested? ==>
                var rendered := old(RenderSucceeds(wm, renderer, ev.windowId));
                && unchanged(wm) && log.entries == old(log.entries) + [MenuListen]
                && ctx.Fields() == old(ctx.Fields()).(hasRendered := old(ctx.hasRendered) || rendered)
                && (rendered ==>
                      && ev.windowId in old(renderer.pixelBuffers)
                      && var p := old(renderer.pixelBuffers)[ev.windowId];
                         renderer.pixelBuffers == old(renderer.pixelBuffers)[ev.windowId := p.(presented := p.presented + 1)])
                && (!rendered ==> renderer.pixelBuffers == old(renderer.pixelBuffers))
    {
      var listen;
      if ev.WindowEvent? {
        listen := WindowNotification(ev, now);
      } else {
        listen := LoopNotification(ev, now);
      }
      if listen {
        log.Append(MenuListen);
      }
    }

    /**
     * A notification for a window: ignored without any effect when the id
     * is unknown; otherwise handled by `HandleWindowEvent`. The time plays
     * no part; it only names the dispatcher step.
     */
    method WindowNotification(ev: Event, now: nat) returns (listen: bool)
      requires Valid() && ev.WindowEvent?
      modifies this`state, this`controlFlow, wm, ctx`hasRendered, ctx`windowSize, ctx`mousePos, ctx`keyMods,
               renderer, log
      ensures Valid()
      ensures var step := F.Dispatch(old(state), old(Signal(ev)), now);
              && state == step.state && controlFlow == step.flow && listen == step.listen
      ensures listen <==> ev.windowId in old(wm.windows)
      ensures wm.mainWindow == old(wm.mainWindow)
      ensures !listen ==> unchanged(wm, ctx, renderer, log)
      ensures listen && ev.event.CloseRequested? ==>
                && wm.windows == old(wm.windows) - {ev.windowId} && wm.focusWindow == old(wm.focusWindow)
                && renderer.pixelBuffers == old(renderer.pixelBuffers) - {ev.windowId}
                && ctx.Fields() == old(ctx.Fields()).(hasRendered := false, windowSize := ZeroSize)
      ensures listen && (ev.event.CloseRequested? || ev.event.CursorMoved?) ==> log.entries == old(log.entries)
      ensures listen && ev.event.CursorMoved? ==>
                && unchanged(wm, renderer)
                && ctx.Fields()
                   == old(ctx.Fields()).(mousePos := Logical(ev.event.position, old(wm.windows[ev.windowId]).scaleFactor))
      ensures listen && !ev.event.CloseRequested? && !ev.event.CursorMoved? ==>
                var r := Route(ev.windowId, ev.event, old(wm.windows[ev.windowId]), old(wm.focusWindow),
                               old(ctx.mousePos), old(ctx.keyMods), renderer.gpu, old(renderer.pixelBuffers));
                && log.entries == old(log.entries) + r.effect.entries
                && renderer.pixelBuffers == r.effect.buffers
                && ctx.Fields() == old(ctx.Fields()).(hasRendered := old(ctx.hasRendered) || r.effect.rendered,
                                                      keyMods := r.keyMods)
                && wm.windows == old(wm.windows) && wm.focusWindow == r.focus
    {
      controlFlow := F.ControlFlow.Wait;
      var id := ev.windowId;
      if wm.Lookup(id).None? {
        return false;
      }
      HandleWindowEvent(id, ev.event);
      listen := true;
    }
    /**
     * A notification of the loop itself or of a device: the frame state and
     * the control flow are the dispatcher's, and each kind reaches its
     * context or renderer operation; `listen` is false when the source
     * returns before polling the menu.
     */
    method LoopNotification(ev: Event, now: nat) returns (listen: bool)
      requires Valid() && !ev.WindowEvent?
      modifies this`state, this`controlFlow, ctx`hasRendered, ctx`windowSize, ctx`prevGrabCursor, renderer, log
      ensures var step := F.Dispatch(old(state), old(Signal(ev)), now);
              && state == step.state && controlFlow == step.flow && listen == step.listen
      ensures ev.NewEvents? || ev.Suspended? || ev.Resumed? || ev.RedrawEventsCleared? || ev.OtherEvent? ==>
                unchanged(ctx, renderer, log)
      ensures ev.MouseMotion? ==>
                var entries := MotionEntries(wm.CurrentWindow(), old(ctx.mousePos), Vec2(ev.dx, ev.dy),
                                             ctx.grabCursor, old(ctx.prevGrabCursor));
                && unchanged(renderer)
                && log.entries == old(log.entries) + entries
                && ctx.Fields() == old(ctx.Fields()).(hasRendered := old(ctx.hasRendered) || entries != [],
                                                      prevGrabCursor := if entries != [] then ctx.grabCursor
                                                                        else old(ctx.prevGrabCursor))
      ensures ev.MainEventsCleared? ==>
                var step := F.Dispatch(old(state), F.MainEventsCleared, now);
                var update := UpdateEffect(wm.CurrentWindow(), renderer.gpu, old(renderer.pixelBuffers));
                var updated := step.runUpdate && wm.CurrentWindow().Ok?;
                && log.entries == old(log.entries)
                                  + (if step.emitMove then [MouseOut(MouseEvent.Move(old(ctx.mousePos)))] else [])
                                  + (if step.runUpdate then update.entries else [])
                && renderer.pixelBuffers == (if step.runUpdate then update.buffers else old(renderer.pixelBuffers))
                && ctx.Fields()
                   == old(ctx.Fields()).(hasRendered := old(ctx.hasRendered) || step.emitMove || (step.runUpdate && update.rendered),
                                         windowSize := if updated then wm.CurrentWindow().value.innerSize
                                                       else old(ctx.windowSize))
      ensures ev.RedrawRequested? ==>
                var rendered := old(RenderSucceeds(wm, renderer, ev.windowId));
                && unchanged(log)
                && ctx.Fields() == old(ctx.Fields()).(hasRendered := old(ctx.hasRendered) || rendered)
                && (rendered ==>
                      && ev.windowId in old(renderer.pixelBuffers)
                      && var p := old(renderer.pixelBuffers)[ev.windowId];
                         renderer.pixelBuffers == old(renderer.pixelBuffers)[ev.windowId := p.(presented := p.presented + 1)])
                && (!rendered ==> renderer.pixelBuffers == old(renderer.pixelBuffers))
    {
      controlFlow := F.ControlFlow.Wait;
      listen := true;
      match ev {
        case NewEvents(cause) =>
          Wake(cause);
        case MouseMotion(dx, dy) =>
          Motion(Vec2(dx, dy));
        case Suspended =>
          state := state.(active := false);
        case Resumed =>
          state := state.(active := true);
        case MainEventsCleared =>
          listen := ClearMainEvents(now);
        case RedrawRequested(id) =>
          Redraw(id);
        case RedrawEventsCleared =>
          ScheduleNextFrame(now);
        case OtherEvent =>
      }
    }

    /**
     * Raw device motion: the context turns it into a touch move and a cursor
     * grab transition; a rejection by the context ends nothing.
     */
    method Motion(delta: Vec2)
      modifies ctx`hasRendered, ctx`prevGrabCursor, log
      ensures var entries := MotionEntries(wm.CurrentWindow(), ctx.mousePos, delta, ctx.grabCursor,
                                           old(ctx.prevGrabCursor));
              && log.entries == old(log.entries) + entries
              && ctx.Fields() == old(ctx.Fields()).(hasRendered := old(ctx.hasRendered) || entries != [],
                                                    prevGrabCursor := if entries != [] then ctx.grabCursor
                                                                      else old(ctx.prevGrabCursor))
    {
      var moved := ctx.MouseMove(wm, delta, log);
    }

    /** A loop wake-up: records why the loop woke. */
    method Wake(cause: StartCause)
      modifies this`state
      ensures state == F.StartEffect(old(state), cause)
    {
      match cause {
        case Init => state := state.(waitCancelled := false);
        case WaitCancelled => state := state.(waitCancelled := state.mode == F.FlowMode.WaitUntil);
        case ResumeTimeReached => state := state.(timeoutReached := true, waitCancelled := false);
        case Poll => state := state.(waitCancelled := false);
      }
    }

    /**
     * The main events are cleared: an inactive application does nothing; an
     * active one hands on the coalesced mouse move, then runs the update if
     * a redraw was requested or a deadline reached. `listen` is false when
     * the source returns early.
     */
    method ClearMainEvents(now: nat) returns (listen: bool)
      requires Valid()
      modifies this`state, ctx`hasRendered, ctx`windowSize, renderer, log
      ensures var step := F.Dispatch(old(state), F.MainEventsCleared, now);
              var update := UpdateEffect(wm.CurrentWindow(), renderer.gpu, old(renderer.pixelBuffers));
              && state == step.state && listen == step.runUpdate
              && log.entries == old(log.entries)
                                + (if step.emitMove then [MouseOut(MouseEvent.Move(ctx.mousePos))] else [])
                                + (if step.runUpdate then update.entries else [])
              && renderer.pixelBuffers == (if step.runUpdate then update.buffers else old(renderer.pixelBuffers))
              && ctx.Fields()
                 == old(ctx.Fields()).(hasRendered := old(ctx.hasRendered) || step.emitMove || (step.runUpdate && update.rendered),
                                       windowSize := if step.runUpdate && wm.CurrentWindow().Ok?
                                                     then wm.CurrentWindow().value.innerSize
                                                     else old(ctx.windowSize))
    {
      if !state.active {
        return false;
      }
      if state.cursorMoved {
        ctx.ProcessMouseEvent(MouseEvent.Move(ctx.mousePos), log);
        state := state.(cursorMoved := false);
      }
      if !state.redrawRequest && !state.timeoutReached {
        return false;
      }
      state := state.(lastUpdate := now);
      var updated := ctx.Update(wm, renderer, log);
      listen := true;
    }

    /** A redraw notification: renders the window and requests exit when that fails. */
    method Redraw(id: WindowId)
      requires controlFlow == F.ControlFlow.Wait
      modifies this`controlFlow, ctx`hasRendered, renderer
      ensures controlFlow == if old(RenderSucceeds(wm, renderer, id)) then F.ControlFlow.Wait else F.Exit
      ensures ctx.Fields() == old(ctx.Fields()).(hasRendered := old(ctx.hasRendered) || old(RenderSucceeds(wm, renderer, id)))
      ensures old(RenderSucceeds(wm, renderer, id)) ==>
                && id in old(renderer.pixelBuffers)
                && var p := old(renderer.pixelBuffers)[id];
                   renderer.pixelBuffers == old(renderer.pixelBuffers)[id := p.(presented := p.presented + 1)]
      ensures !old(RenderSucceeds(wm, renderer, id)) ==>
                renderer.pixelBuffers == old(renderer.pixelBuffers)
    {
      var rendered := ctx.Render(wm, renderer, id);
      if rendered.Fail? {
        controlFlow := F.Exit;
      }
    }

    /** The redraw events are cleared: the mode decides how the loop waits for the next frame. */
    method ScheduleNextFrame(now: nat)
      requires controlFlow == F.ControlFlow.Wait
      modifies this`state, this`controlFlow
      ensures var step := F.Dispatch(old(state), F.RedrawEventsCleared, now);
              state == step.state && controlFlow == step.flow
    {
      match state.mode {
        case Wait =>
          controlFlow := F.ControlFlow.Wait;
        case WaitUntil =>
          if !state.waitCancelled {
            controlFlow := F.ControlFlow.WaitUntil(now + F.WaitUntilDelay);
          }
        case Poll =>
          controlFlow := F.ControlFlow.Poll;
          state := state.(redrawRequest := true);
      }
    }

    /**
     * A notification for the registered window `id`: closing and cursor
     * moves are the only ones the scheduler sees; every other one goes to
     * its input-context handler.
     */
    method HandleWindowEvent(id: WindowId, event: WindowEvent)
      requires Valid() && id in wm.windows
      requires controlFlow == F.ControlFlow.Wait
      modifies this`state, this`controlFlow, wm, ctx`hasRendered, ctx`windowSize, ctx`mousePos, ctx`keyMods,
               renderer, log
      ensures Valid()
      ensures state == (if event.CursorMoved? then old(state).(cursorMoved := true) else old(state))
      ensures controlFlow == (if event.CloseRequested? && old(wm.windows) - {id} == map[] then F.Exit
                              else F.ControlFlow.Wait)
      ensures wm.mainWindow == old(wm.mainWindow)
      ensures event.CloseRequested? ==>
                && wm.windows == old(wm.windows) - {id} && wm.focusWindow == old(wm.focusWindow)
                && renderer.pixelBuffers == old(renderer.pixelBuffers) - {id}
                && ctx.Fields() == old(ctx.Fields()).(hasRendered := false, windowSize := ZeroSize)
      ensures event.CloseRequested? || event.CursorMoved? ==> log.entries == old(log.entries)
      ensures event.CursorMoved? ==>
                && unchanged(wm, renderer)
                && ctx.Fields() == old(ctx.Fields()).(mousePos := Logical(event.position, old(wm.windows[id]).scaleFactor))
      ensures !event.CloseRequested? && !event.CursorMoved? ==>
                var r := Route(id, event, old(wm.windows[id]), old(wm.focusWindow), old(ctx.mousePos), old(ctx.keyMods),
                               renderer.gpu, old(renderer.pixelBuffers));
                && log.entries == old(log.entries) + r.effect.entries
                && renderer.pixelBuffers == r.effect.buffers
                && ctx.Fields() == old(ctx.Fields()).(hasRendered := old(ctx.hasRendered) || r.effect.rendered,
                                                      keyMods := r.keyMods)
                && wm.windows == old(wm.windows) && wm.focusWindow == r.focus
    {
      match event {
        case CloseRequested =>
          CloseWindow(id);
        case CursorMoved(position) =>
          RecordCursorMove(id, position);
        case _ =>
          RouteInput(id, event);
      }
    }

    /** Closing a window releases its resources and exits once no window is left. */
    method CloseWindow(id: WindowId)
      requires Valid()
      requires controlFlow == F.ControlFlow.Wait
      modifies this`controlFlow, wm, ctx`hasRendered, ctx`windowSize, renderer
      ensures Valid()
      ensures wm.windows == old(wm.windows) - {id}
      ensures wm.mainWindow == old(wm.mainWindow) && wm.focusWindow == old(wm.focusWindow)
      ensures !ctx.hasRendered && ctx.windowSize == ZeroSize
      ensures renderer.pixelBuffers == old(renderer.pixelBuffers) - {id}
      ensures controlFlow == if old(wm.windows) - {id} == map[] then F.Exit else F.ControlFlow.Wait
    {
      var removed := ctx.Remove(wm, renderer, id);
      if wm.IsEmpty() {
        controlFlow := F.Exit;
      }
    }

    /** A cursor move raises the frame's flag, even when the context rejects it, and records the position. */
    method RecordCursorMove(id: WindowId, position: PhysicalPosition)
      requires id in wm.windows
      modifies this`state, ctx`mousePos
      ensures state == old(state).(cursorMoved := true)
      ensures ctx.mousePos == Logical(position, wm.windows[id].scaleFactor)
    {
      if !state.cursorMoved {
        state := state.(cursorMoved := true);
      }
      var moved := ctx.CursorMove(wm, id, position);
    }

    /**
     * Routes a notification the scheduler does not see to its handler; the
     * registry changes only by the focus move of `Focused`.
     */
    method RouteInput(id: WindowId, event: WindowEvent)
      requires Valid() && id in wm.windows
      requires !event.CloseRequested? && !event.CursorMoved?
      modifies wm`focusWindow, ctx`hasRendered, ctx`keyMods, renderer, log
      ensures var r := Route(id, event, old(wm.windows[id]), old(wm.focusWindow), ctx.mousePos, old(ctx.keyMods),
                             renderer.gpu, old(renderer.pixelBuffers));
              && log.entries == old(log.entries) + r.effect.entries
              && renderer.pixelBuffers == r.effect.buffers
              && ctx.hasRendered == (old(ctx.hasRendered) || r.effect.rendered)
              && wm.focusWindow == r.focus && ctx.keyMods == r.keyMods
    {
      match event {
        case Resized(size) =>
          var resized := ctx.Resize(wm, renderer, id, size, log);
        case ScaleFactorChanged(scale, newInnerSize) =>
          var scaled := ctx.ScaleFactor(wm, renderer, id, scale, newInnerSize, log);
        case Focused(focus) =>
          var focused := ctx.Focused(wm, id, focus, log);
        case Touch(phase, location) =>
          var touched := ctx.Touch(wm, id, phase, location, log);
        case KeyboardInput(key) =>
          var keyed := ctx.KeyInput(wm, id, key, log);
        case ModifiersChanged(modifiers) =>
          var changed := ctx.KeyModifier(wm, id, modifiers);
        case MouseWheel(delta) =>
          var scrolled := ctx.MouseWheel(wm, id, delta, log);
        case MouseInput(buttonState, button) =>
          var b := ToMouseButton(button);
          var touch := match buttonState
            case Pressed => MouseTouchEvent.Down(b)
            case Released => MouseTouchEvent.Up(b);
          var pressed := ctx.MouseInput(wm, id, touch, log);
        case Destroyed =>
        case OtherWindowEvent =>
      }
    }
  }
}
