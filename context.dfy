/**
 * The input context: turns the notifications of one window into semantic
 * events, keeps the last mouse position, the modifier keys and the cursor
 * grab flags, and forwards size and focus changes to the registry and the
 * renderer. Every per-window operation first resolves the window id.
 */
module InputContext {
  import opened Platform
  import opened Errors
  import opened KeyCodes
  import opened Events
  import opened WindowRegistry
  import R = Rendering

  /** A raw position divided by the window's scale factor, in logical units. */
  function Logical(p: PhysicalPosition, scale: ScaleFactor): (v: Vec2)
    ensures v.x * scale == p.x && v.y * scale == p.y
    ensures scale == 1.0 ==> v == Vec2(p.x, p.y)
  {
    Vec2(Unscale(p.x, scale), Unscale(p.y, scale))
  }

  /** A physical size divided by the scale factor and cast to `u32`. */
  function LogicalSize(size: PhysicalSize, scale: ScaleFactor): (s: PhysicalSize)
    ensures s.width as real <= size.width as real / scale < s.width as real + 1.0 || s.width == U32Max
    ensures s.height as real <= size.height as real / scale < s.height as real + 1.0 || s.height == U32Max
    ensures scale >= 1.0 ==> s.width <= size.width && s.height <= size.height
  {
    PhysicalSize(AsU32(Unscale(size.width as real, scale)), AsU32(Unscale(size.height as real, scale)))
  }

  /**
   * The calls a cursor-grab transition makes: on a rising edge, lock (falling
   * back to confine when locking is unsupported) and hide the cursor; on a
   * falling edge, release and show it; nothing without an edge.
   */
  function GrabCalls(grab: bool, prevGrab: bool, lockSupported: bool): (calls: seq<NativeCall>)
    ensures calls == [] <==> grab == prevGrab
    ensures grab && !prevGrab ==> calls[0] == SetCursorGrab(Locked) && calls[|calls| - 1] == SetCursorVisible(false)
    ensures grab && !prevGrab ==> |calls| == (if lockSupported then 2 else 3)
    ensures grab && !prevGrab && !lockSupported ==> calls[1] == SetCursorGrab(Confined)
    ensures grab && !prevGrab ==> (SetCursorGrab(Confined) in calls <==> !lockSupported)
    ensures !grab && prevGrab ==> calls == [SetCursorGrab(Unlocked), SetCursorVisible(true)]
  {
    if grab && !prevGrab then
      [SetCursorGrab(Locked)] + (if lockSupported then [] else [SetCursorGrab(Confined)]) + [SetCursorVisible(false)]
    else if !grab && prevGrab then
      [SetCursorGrab(Unlocked), SetCursorVisible(true)]
    else
      []
  }

  /** The log entries for a sequence of calls on one window. */
  function NativeEntries(window: WindowId, calls: seq<NativeCall>): (entries: seq<Output>)
    ensures |entries| == |calls|
    ensures forall i | 0 <= i < |calls| :: entries[i] == Native(window, calls[i])
  {
    if calls == [] then [] else [Native(window, calls[0])] + NativeEntries(window, calls[1..])
  }

  /** The touch event of a touch notification: always finger 0, Ended and Cancelled both end. */
  function TouchEvent(phase: TouchPhase, position: Vec2): (e: TouchInputEvent)
    ensures e.id == 0 && e.position == position
    ensures e.Begin? <==> phase == Started
    ensures e.Move? <==> phase == Moved
    ensures e.End? <==> phase == Ended || phase == Cancelled
  {
    match phase
    case Started => TouchInputEvent.Begin(0, position)
    case Moved => TouchInputEvent.Move(0, position, position)
    case Ended => TouchInputEvent.End(0, position)
    case Cancelled => TouchInputEvent.End(0, position)
  }

  /** The touch a mouse button becomes: press begins, release ends, at the mouse position. */
  function MouseTouch(event: MouseTouchEvent, mousePos: Vec2): (e: TouchInputEvent)
    ensures e.id == 0 && e.position == mousePos
    ensures e.Begin? <==> event.Down?
    ensures e.End? <==> event.Up?
  {
    match event
    case Down(_) => TouchInputEvent.Begin(0, mousePos)
    case Up(_) => TouchInputEvent.End(0, mousePos)
  }

  /** The key event of a keyboard notification, translated under the held modifiers. */
  function KeyEventOf(key: RawKeyEvent, mods: KeyboardModifiers): (e: KeyEvent)
    ensures e.code == KeyEventToCode(key.key, mods)
    ensures e.Down? <==> key.state == Pressed
    ensures e.Down? ==> e.repeat == key.repeat
  {
    var code := KeyEventToCode(key.key, mods);
    match key.state
    case Pressed => KeyEvent.Down(code, key.repeat)
    case Released => KeyEvent.Up(code)
  }

  /** The scroll delta of a wheel notification, lines or pixels alike. */
  function ScrollDelta(delta: MouseScrollDelta): (v: Vec2)
    ensures delta.LineDelta? ==> v == Vec2(delta.x, delta.y)
    ensures delta.PixelDelta? ==> v == Vec2(delta.position.x, delta.position.y)
  {
    match delta
    case LineDelta(x, y) => Vec2(x, y)
    case PixelDelta(p) => Vec2(p.x, p.y)
  }

  /** Lines and pixels are not told apart: a scroll of n lines is a scroll of n pixels. */
  lemma ScrollUnitsIgnored(x: real, y: real)
    ensures ScrollDelta(LineDelta(x, y)) == ScrollDelta(PixelDelta(PhysicalPosition(x, y)))
  {
  }

  /** Whether rendering `id` succeeds: its window is registered, it has a buffer and presenting works. */
  predicate RenderSucceeds(wm: WindowManager, renderer: R.Renderer, id: WindowId)
    reads wm, renderer
  {
    id in wm.windows && R.RenderOutcome(renderer.gpu, renderer.pixelBuffers, id).Pass?
  }

  /**
   * What a handler leaves behind: the log entries it adds, the renderer's
   * buffer table after it, and whether it marks the context rendered.
   */
  datatype Effect = Effect(entries: seq<Output>, buffers: map<WindowId, R.Pixels>, rendered: bool)

  /**
   * Resizing the buffer of window `id` and, when that succeeds, asking the
   * window to redraw. An unknown buffer leaves everything as it was.
   */
  function ResizeEffect(gpu: R.Gpu, buffers: map<WindowId, R.Pixels>, id: WindowId, size: PhysicalSize): (e: Effect)
    ensures e.buffers.Keys == buffers.Keys
    ensures forall k | k in buffers && k != id :: e.buffers[k] == buffers[k]
    ensures id !in buffers ==> e == Effect([], buffers, false)
    ensures e.rendered <==> e.entries != []
    ensures e.rendered <==> id in buffers && gpu.resizesSurface(id, size) && gpu.resizesBuffer(id, size)
    ensures e.rendered ==> && e.entries == [Native(id, RequestRedraw)]
                           && id in buffers && e.buffers[id] == buffers[id].(surface := size, buffer := size)
  {
    var (resized, outcome) := R.Resize(gpu, buffers, id, size);
    Effect(if outcome.Pass? then [Native(id, RequestRedraw)] else [], resized, outcome.Pass?)
  }

  /**
   * The per-frame update: the current window's buffer resized to its
   * logical size; nothing at all when there is no current window.
   */
  function UpdateEffect(current: Result<Window>, gpu: R.Gpu, buffers: map<WindowId, R.Pixels>): (e: Effect)
    ensures current.Err? ==> e == Effect([], buffers, false)
    ensures e.buffers.Keys == buffers.Keys
    ensures e.entries == [] || (current.Ok? && e.entries == [Native(current.value.id, RequestRedraw)])
    ensures current.Ok? ==> forall k | k in buffers && k != current.value.id :: e.buffers[k] == buffers[k]
  {
    match current
    case Err(_) => Effect([], buffers, false)
    case Ok(w) => ResizeEffect(gpu, buffers, w.id, LogicalSize(w.innerSize, w.scaleFactor))
  }

  /**
   * The log entries of a raw mouse motion: none without a current window
   * or when the motion equals the mouse position; otherwise the move of
   * finger 0 followed by the calls of the grab transition.
   */
  function MotionEntries(current: Result<Window>, mousePos: Vec2, delta: Vec2, grab: bool, prevGrab: bool)
    : (entries: seq<Output>)
    ensures entries == [] <==> current.Err? || mousePos == delta
    ensures entries != [] ==> entries[0] == TouchOut(TouchInputEvent.Move(0, mousePos, delta))
    ensures |entries| <= 4
    ensures grab == prevGrab ==> |entries| <= 1
  {
    if current.Err? || mousePos == delta then []
    else [TouchOut(TouchInputEvent.Move(0, mousePos, delta))]
         + NativeEntries(current.value.id, GrabCalls(grab, prevGrab, current.value.lockSupported))
  }

  /** The fields of a context, as one value. */
  datatype ContextFields = ContextFields(mousePos: Vec2, hasRendered: bool, windowSize: PhysicalSize,
                                         grabCursor: bool, prevGrabCursor: bool, keyMods: KeyboardModifiers)

  class Context {
    var mousePos: Vec2
    var hasRendered: bool
    var windowSize: PhysicalSize
    /** Lock the cursor in place (for dragging knobs). */
    var grabCursor: bool
    /** `grabCursor` as of the last grab transition. */
    var prevGrabCursor: bool
    var keyMods: KeyboardModifiers

    function Fields(): ContextFields
      reads this
    {
      ContextFields(mousePos, hasRendered, windowSize, grabCursor, prevGrabCursor, keyMods)
    }

    /** `Context::default()`. */
    constructor ()
      ensures mousePos == Vec2(0.0, 0.0) && !hasRendered && windowSize == ZeroSize
      ensures !grabCursor && !prevGrabCursor && keyMods == NoModifiers
    {
      mousePos := Vec2(0.0, 0.0);
      hasRendered := false;
      windowSize := ZeroSize;
      grabCursor := false;
      prevGrabCursor := false;
      keyMods := NoModifiers;
    }

    /** Hands a touch event to the consumer. */
    method ProcessTouch(event: TouchInputEvent, log: Log)
      modifies this`hasRendered, log
      ensures hasRendered && log.entries == old(log.entries) + [TouchOut(event)]
    {
      log.Append(TouchOut(event));
      hasRendered := true;
    }

    /** Hands a mouse event to the consumer. */
    method ProcessMouseEvent(event: MouseEvent, log: Log)
      modifies this`hasRendered, log
      ensures hasRendered && log.entries == old(log.entries) + [MouseOut(event)]
    {
      log.Append(MouseOut(event));
      hasRendered := true;
    }

    /** Hands a key event to the consumer. */
    method ProcessKeyEvent(event: KeyEvent, log: Log)
      modifies this`hasRendered, log
      ensures hasRendered && log.entries == old(log.entries) + [KeyOut(event)]
    {
      log.Append(KeyOut(event));
      hasRendered := true;
    }

    /** Renders window `id` at its inner size; fails for an unknown id or a failed render. */
    method Render(wm: WindowManager, renderer: R.Renderer, id: WindowId) returns (r: Outcome)
      modifies this`hasRendered, renderer
      ensures id !in wm.windows ==> r == Fail(Windows(WindowStore(id)))
      ensures id in wm.windows ==> r == R.RenderOutcome(renderer.gpu, old(renderer.pixelBuffers), id)
      ensures r.Pass? <==> old(RenderSucceeds(wm, renderer, id))
      ensures hasRendered == (old(hasRendered) || r.Pass?)
      ensures r.Fail? ==> renderer.pixelBuffers == old(renderer.pixelBuffers)
      ensures r.Pass? ==> var p := old(renderer.pixelBuffers)[id];
                          renderer.pixelBuffers == old(renderer.pixelBuffers)[id := p.(presented := p.presented + 1)]
    {
      var window := wm.Lookup(id);
      if window.None? {
        return Fail(Windows(WindowStore(id)));
      }
      var size := window.value.innerSize;
      r := renderer.Render(id, size.width, size.height, window.value.scaleFactor);
      if r.Fail? {
        return;
      }
      hasRendered := true;
    }

    /** Resizes the renderer's buffer for window `id` and asks the window to redraw. */
    method Resize(wm: WindowManager, renderer: R.Renderer, id: WindowId, size: PhysicalSize, log: Log)
      returns (r: Outcome)
      requires wm.Valid()
      modifies this`hasRendered, renderer, log
      ensures id !in wm.windows ==>
                r == Fail(Windows(WindowStore(id))) && unchanged(this, renderer, log)
      ensures id in wm.windows ==>
                && (renderer.pixelBuffers, r) == R.Resize(renderer.gpu, old(renderer.pixelBuffers), id, size)
                && log.entries == old(log.entries) + (if r.Pass? then [Native(id, RequestRedraw)] else [])
                && hasRendered == (old(hasRendered) || r.Pass?)
    {
      var window := wm.Lookup(id);
      if window.None? {
        return Fail(Windows(WindowStore(id)));
      }
      r := renderer.Update(window.value.id, size.width, size.height);
      if r.Fail? {
        return;
      }
      log.Append(Native(id, RequestRedraw));
      hasRendered := true;
    }

    /**
     * Reacts to a scale-factor change: the proposed size divided by the scale
     * factor is compared with the window's inner size, and a match in width
     * or in height is a no-op; otherwise the renderer is resized to it and
     * the window asked to redraw.
     */
    method ScaleFactor(wm: WindowManager, renderer: R.Renderer, id: WindowId, scale: ScaleFactor,
                       size: PhysicalSize, log: Log)
      returns (r: Outcome)
      requires wm.Valid()
      modifies this`hasRendered, renderer, log
      ensures id !in wm.windows ==>
                r == Fail(Windows(WindowStore(id))) && unchanged(this, renderer, log)
      ensures id in wm.windows ==>
                var inner := wm.windows[id].innerSize;
                var newWidth, newHeight := Unscale(size.width as real, scale), Unscale(size.height as real, scale);
                if inner.width as real == newWidth || inner.height as real == newHeight then
                  r == Pass && unchanged(this, renderer, log)
                else
                  && (renderer.pixelBuffers, r)
                     == R.Resize(renderer.gpu, old(renderer.pixelBuffers), id, LogicalSize(size, scale))
                  && log.entries == old(log.entries) + (if r.Pass? then [Native(id, RequestRedraw)] else [])
                  && hasRendered == (old(hasRendered) || r.Pass?)
    {
      var window := wm.Lookup(id);
      if window.None? {
        return Fail(Windows(WindowStore(id)));
      }
      var inner := window.value.innerSize;
      var newWidth := Unscale(size.width as real, scale);
      var newHeight := Unscale(size.height as real, scale);
      if inner.width as real == newWidth || inner.height as real == newHeight {
        return Pass;
      }
      r := renderer.Update(window.value.id, AsU32(newWidth), AsU32(newHeight));
      if r.Fail? {
        return;
      }
      log.Append(Native(id, RequestRedraw));
      hasRendered := true;
    }

    /**
     * Moves registry focus to `id` when the window gains focus, is not
     * already current and does not already report focus.
     */
    method Focused(wm: WindowManager, id: WindowId, focus: bool, log: Log) returns (r: Outcome)
      modifies this`hasRendered, wm`focusWindow, log
      ensures id !in wm.windows ==>
                r == Fail(Windows(Focus(id))) && unchanged(this, log) && wm.focusWindow == old(wm.focusWindow)
      ensures id in wm.windows ==>
                var moves := focus && !old(wm.IsCurrentWindow(id)) && !wm.windows[id].hasFocus;
                && r == Pass && hasRendered
                && wm.focusWindow == (if moves then Some(id) else old(wm.focusWindow))
                && log.entries == old(log.entries) + (if moves then [Native(id, FocusWindow)] else [])
    {
      var window := wm.Lookup(id);
      if window.None? {
        return Fail(Windows(Focus(id)));
      }
      if !wm.IsCurrentWindow(id) && !window.value.hasFocus && focus {
        log.Append(Native(id, FocusWindow));
        wm.FocusWindow(id);
      }
      hasRendered := true;
      r := Pass;
    }

    /** Translates a key press or release under the held modifiers and hands it on. */
    method KeyInput(wm: WindowManager, id: WindowId, key: RawKeyEvent, log: Log) returns (r: Outcome)
      modifies this`hasRendered, log
      ensures id !in wm.windows ==> r == Fail(Windows(WindowStore(id))) && unchanged(this, log)
      ensures id in wm.windows ==>
                r == Pass && hasRendered && log.entries == old(log.entries) + [KeyOut(KeyEventOf(key, keyMods))]
    {
      if wm.Lookup(id).None? {
        return Fail(Windows(WindowStore(id)));
      }
      var code := KeyEventToCode(key.key, keyMods);
      var event := match key.state
        case Pressed => KeyEvent.Down(code, key.repeat)
        case Released => KeyEvent.Up(code);
      ProcessKeyEvent(event, log);
      r := Pass;
    }

    /** Replaces the held modifiers; the platform's super key is the command flag. */
    method KeyModifier(wm: WindowManager, id: WindowId, state: ModifiersState) returns (r: Outcome)
      modifies this`keyMods
      ensures id !in wm.windows ==> r == Fail(Windows(WindowStore(id))) && keyMods == old(keyMods)
      ensures id in wm.windows ==>
                r == Pass && keyMods == KeyboardModifiers(state.shift, state.control, state.alt, state.superKey)
    {
      if wm.Lookup(id).None? {
        return Fail(Windows(WindowStore(id)));
      }
      keyMods := KeyboardModifiers(state.shift, state.control, state.alt, state.superKey);
      r := Pass;
    }

    /** Hands on a touch at the location divided by the window's scale factor. */
    method Touch(wm: WindowManager, id: WindowId, phase: TouchPhase, location: PhysicalPosition, log: Log)
      returns (r: Outcome)
      modifies this`hasRendered, log
      ensures id !in wm.windows ==> r == Fail(Windows(WindowStore(id))) && unchanged(this, log)
      ensures id in wm.windows ==>
                var position := Logical(location, wm.windows[id].scaleFactor);
                r == Pass && hasRendered && log.entries == old(log.entries) + [TouchOut(TouchEvent(phase, position))]
    {
      var window := wm.Lookup(id);
      if window.None? {
        return Fail(Windows(WindowStore(id)));
      }
      var position := Logical(location, window.value.scaleFactor);
      var delta := position;
      var event := match phase
        case Started => TouchInputEvent.Begin(0, position)
        case Moved => TouchInputEvent.Move(0, position, delta)
        case Ended => TouchInputEvent.End(0, position)
        case Cancelled => TouchInputEvent.End(0, position);
      ProcessTouch(event, log);
      r := Pass;
    }

    /** Records the cursor position, divided by the window's scale factor. */
    method CursorMove(wm: WindowManager, id: WindowId, position: PhysicalPosition) returns (r: Outcome)
      modifies this`mousePos
      ensures id !in wm.windows ==> r == Fail(Windows(WindowStore(id))) && mousePos == old(mousePos)
      ensures id in wm.windows ==> r == Pass && mousePos == Logical(position, wm.windows[id].scaleFactor)
    {
      var window := wm.Lookup(id);
      if window.None? {
        return Fail(Windows(WindowStore(id)));
      }
      mousePos := Logical(position, window.value.scaleFactor);
      r := Pass;
    }

    /** Hands on a scroll by the wheel's delta. */
    method MouseWheel(wm: WindowManager, id: WindowId, delta: MouseScrollDelta, log: Log) returns (r: Outcome)
      modifies this`hasRendered, log
      ensures id !in wm.windows ==> r == Fail(Windows(WindowStore(id))) && unchanged(this, log)
      ensures id in wm.windows ==>
                r == Pass && hasRendered && log.entries == old(log.entries) + [MouseOut(Scroll(ScrollDelta(delta)))]
    {
      if wm.Lookup(id).None? {
        return Fail(Windows(WindowStore(id)));
      }
      var event := match delta
        case LineDelta(x, y) => Scroll(Vec2(x, y))
        case PixelDelta(p) => Scroll(Vec2(p.x, p.y));
      ProcessMouseEvent(event, log);
      r := Pass;
    }

    /**
     * A mouse button becomes a touch at the mouse position (press begins,
     * release ends), after the window's context menu is shown there.
     */
    method MouseInput(wm: WindowManager, id: WindowId, event: MouseTouchEvent, log: Log) returns (r: Outcome)
      requires wm.Valid()
      modifies this`hasRendered, log
      ensures id !in wm.windows ==> r == Fail(Windows(WindowStore(id))) && unchanged(this, log)
      ensures id in wm.windows ==>
                && r == Pass && hasRendered
                && log.entries == old(log.entries) + [Native(id, ShowContextMenu(mousePos)),
                                                      TouchOut(MouseTouch(event, mousePos))]
    {
      var window := wm.Lookup(id);
      if window.None? {
        return Fail(Windows(WindowStore(id)));
      }
      var touch := match event
        case Down(_) => TouchInputEvent.Begin(0, mousePos)
        case Up(_) => TouchInputEvent.End(0, mousePos);
      log.Append(Native(window.value.id, ShowContextMenu(mousePos)));
      ProcessTouch(touch, log);
      r := Pass;
    }

    /**
     * Raw mouse motion: fails when there is no current window; does nothing
     * when the motion equals the mouse position; otherwise hands on a move
     * of finger 0 and performs the cursor-grab transition, after which
     * `prevGrabCursor` equals `grabCursor`.
     */
    method MouseMove(wm: WindowManager, delta: Vec2, log: Log) returns (r: Outcome)
      modifies this`hasRendered, this`prevGrabCursor, log
      ensures wm.CurrentWindow().Err? ==> r == Fail(wm.CurrentWindow().error) && unchanged(this, log)
      ensures wm.CurrentWindow().Ok? && mousePos == delta ==> r == Pass && unchanged(this, log)
      ensures wm.CurrentWindow().Ok? && mousePos != delta ==>
                var w := wm.CurrentWindow().value;
                && r == Pass && hasRendered && prevGrabCursor == grabCursor
                && log.entries == old(log.entries) + [TouchOut(TouchInputEvent.Move(0, mousePos, delta))]
                                  + NativeEntries(w.id, GrabCalls(grabCursor, old(prevGrabCursor), w.lockSupported))
      ensures log.entries
              == old(log.entries) + MotionEntries(wm.CurrentWindow(), mousePos, delta, grabCursor, old(prevGrabCursor))
    {
      var current := wm.CurrentWindow();
      if current.Err? {
        return Fail(current.error);
      }
      var window := current.value;
      if mousePos == delta {
        return Pass;
      }
      ProcessTouch(TouchInputEvent.Move(0, mousePos, delta), log);
      GrabTransition(window, log);
      r := Pass;
    }

    /**
     * The edge-triggered cursor grab on `window`: the calls of `GrabCalls`,
     * after which the previous grab flag equals the grab flag.
     */
    method GrabTransition(window: Window, log: Log)
      modifies this`prevGrabCursor, log
      ensures prevGrabCursor == grabCursor
      ensures log.entries == old(log.entries) + NativeEntries(window.id, GrabCalls(grabCursor, old(prevGrabCursor), window.lockSupported))
    {
      var calls := GrabCalls(grabCursor, prevGrabCursor, window.lockSupported);
      if grabCursor && !prevGrabCursor {
        log.Append(Native(window.id, SetCursorGrab(Locked)));
        if !window.lockSupported {
          log.Append(Native(window.id, SetCursorGrab(Confined)));
        }
        log.Append(Native(window.id, SetCursorVisible(false)));
      }
      if !grabCursor && prevGrabCursor {
        log.Append(Native(window.id, SetCursorGrab(Unlocked)));
        log.Append(Native(window.id, SetCursorVisible(true)));
      }
      assert log.entries == old(log.entries) + NativeEntries(window.id, calls);
      prevGrabCursor := grabCursor;
    }

    /**
     * Two grab transitions in a row with the grab flag unchanged: the second
     * issues no call, so the log holds the first one's calls only.
     */
    method GrabTransitionIdempotent(window: Window, log: Log)
      modifies this`prevGrabCursor, log
      ensures prevGrabCursor == grabCursor
      ensures log.entries
              == old(log.entries) + NativeEntries(window.id, GrabCalls(grabCursor, old(prevGrabCursor), window.lockSupported))
    {
      GrabTransition(window, log);
      GrabTransition(window, log);
    }

    /**
     * The per-frame update: records the current window's inner size, resizes
     * its buffer to the logical size and asks it to redraw.
     */
    method Update(wm: WindowManager, renderer: R.Renderer, log: Log) returns (r: Outcome)
      requires wm.Valid()
      modifies this`hasRendered, this`windowSize, renderer, log
      ensures wm.CurrentWindow().Err? ==> r == Fail(wm.CurrentWindow().error) && unchanged(this, renderer, log)
      ensures wm.CurrentWindow().Ok? ==>
                var w := wm.CurrentWindow().value;
                && windowSize == w.innerSize
                && (renderer.pixelBuffers, r)
                   == R.Resize(renderer.gpu, old(renderer.pixelBuffers), w.id, LogicalSize(w.innerSize, w.scaleFactor))
                && log.entries == old(log.entries) + (if r.Pass? then [Native(w.id, RequestRedraw)] else [])
                && hasRendered == (old(hasRendered) || r.Pass?)
    {
      var current := wm.CurrentWindow();
      if current.Err? {
        return Fail(current.error);
      }
      var window := current.value;
      var size := LogicalSize(window.innerSize, window.scaleFactor);
      if window.innerSize != windowSize {
        windowSize := window.innerSize;
      }
      r := renderer.Update(window.id, size.width, size.height);
      if r.Fail? {
        return;
      }
      log.Append(Native(window.id, RequestRedraw));
      hasRendered := true;
    }

    /**
     * Drops window `id` from the registry and its buffer from the renderer,
     * whether or not they exist, and resets the render bookkeeping.
     */
    method Remove(wm: WindowManager, renderer: R.Renderer, id: WindowId) returns (r: Outcome)
      requires wm.Valid()
      modifies this`hasRendered, this`windowSize, wm, renderer
      ensures wm.Valid()
      ensures r == Pass
      ensures wm.windows == old(wm.windows) - {id}
      ensures wm.mainWindow == old(wm.mainWindow) && wm.focusWindow == old(wm.focusWindow)
      ensures renderer.pixelBuffers == old(renderer.pixelBuffers) - {id}
      ensures !hasRendered && windowSize == ZeroSize
    {
      wm.Remove(id);
      r := renderer.Remove(id);
      if r.Fail? {
        return;
      }
      hasRendered := false;
      windowSize := ZeroSize;
    }
  }
}
