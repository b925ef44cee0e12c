/**
 * The window registry: the live native windows keyed by id, the designated
 * main window and the window that has focus.
 */
module WindowRegistry {
  import opened Platform
  import opened Errors

  /** The attributes a window is created with. */
  datatype WindowOptions = WindowOptions(title: string, fullScreen: bool, resizable: bool, size: PhysicalSize)

  /** `WindowOptions::default()`. */
  const DefaultOptions := WindowOptions("oxdraw window", false, true, PhysicalSize(400, 400))

  /** Half of a monitor's size, truncated (the source scales by 0.5 in `f32`). */
  function HalfSize(s: PhysicalSize): (h: PhysicalSize)
    ensures 2 * h.width <= s.width < 2 * h.width + 2
    ensures 2 * h.height <= s.height < 2 * h.height + 2
  {
    PhysicalSize(s.width / 2, s.height / 2)
  }

  /** The options of the application's main window on a monitor of the given size. */
  function MainWindowOptions(monitorSize: PhysicalSize): (o: WindowOptions)
    ensures o.title == "Oxdraw" && !o.fullScreen && o.resizable
    ensures 2 * o.size.width <= monitorSize.width < 2 * o.size.width + 2
    ensures 2 * o.size.height <= monitorSize.height < 2 * o.size.height + 2
  {
    DefaultOptions.(title := "Oxdraw", size := HalfSize(monitorSize))
  }

  /**
   * The fullscreen attribute a window builder gets: exclusive on the first
   * video mode of the first monitor, or an error when either is missing.
   */
  function FullscreenFor(options: WindowOptions, monitors: seq<Monitor>): (r: Result<Fullscreen>)
    ensures !options.fullScreen ==> r == Ok(Windowed)
    ensures options.fullScreen && monitors == [] ==> r == Err(External(NoMonitor))
    ensures options.fullScreen && monitors != [] && monitors[0].videoModes == [] ==> r == Err(External(NoVideoMode))
    ensures r.Ok? && options.fullScreen ==> r.value == Exclusive(monitors[0].videoModes[0])
  {
    if !options.fullScreen then Ok(Windowed)
    else if monitors == [] then Err(External(NoMonitor))
    else if monitors[0].videoModes == [] then Err(External(NoVideoMode))
    else Ok(Exclusive(monitors[0].videoModes[0]))
  }

  class WindowManager {
    var windows: map<WindowId, Window>
    var mainWindow: Option<WindowId>
    var focusWindow: Option<WindowId>

    /** Every window is stored under its own id. */
    ghost predicate Valid()
      reads this
    {
      forall id | id in windows :: windows[id].id == id
    }

    /** `WindowManager::default()`: no windows, no main window, no focus. */
    constructor ()
      ensures Valid()
      ensures windows == map[] && mainWindow == None && focusWindow == None
    {
      windows := map[];
      mainWindow := None;
      focusWindow := None;
    }

    /** `window(id)`: the window stored under `id`, if any. */
    function Lookup(id: WindowId): (r: Option<Window>)
      reads this
      ensures r.Some? <==> id in windows
      ensures r.Some? ==> r.value == windows[id]
    {
      if id in windows then Some(windows[id]) else None
    }

    /** The main window; fails when no main id is set or its window is gone. */
    function MainWindow(): (r: Result<Window>)
      reads this
      ensures r.Ok? <==> mainWindow.Some? && mainWindow.value in windows
      ensures r.Ok? ==> r.value == windows[mainWindow.value]
      ensures mainWindow.None? ==> r == Err(Windows(MainWindowId))
      ensures mainWindow.Some? && mainWindow.value !in windows ==> r == Err(Windows(WindowStore(mainWindow.value)))
    {
      match mainWindow
      case None => Err(Windows(MainWindowId))
      case Some(id) =>
        match Lookup(id)
        case None => Err(Windows(WindowStore(id)))
        case Some(w) => Ok(w)
    }

    /** Whether `id` is the focused window; false while focus is unset. */
    predicate IsCurrentWindow(id: WindowId)
      reads this
      ensures IsCurrentWindow(id) <==> focusWindow == Some(id)
      ensures focusWindow.None? ==> !IsCurrentWindow(id)
    {
      match focusWindow
      case None => false
      case Some(f) => f == id
    }

    predicate IsEmpty()
      reads this
      ensures IsEmpty() <==> windows == map[]
    {
      |windows| == 0
    }

    /**
     * The focused window; the main window only while focus is unset. A focus
     * id whose window is gone is an error, not a fallback to the main window.
     */
    function CurrentWindow(): (r: Result<Window>)
      reads this
      ensures focusWindow.None? ==> r == MainWindow()
      ensures focusWindow.Some? && focusWindow.value in windows ==> r == Ok(windows[focusWindow.value])
      ensures focusWindow.Some? && focusWindow.value !in windows ==> r == Err(Windows(WindowStore(focusWindow.value)))
    {
      if focusWindow.Some? then
        match Lookup(focusWindow.value)
        case None => Err(Windows(WindowStore(focusWindow.value)))
        case Some(w) => Ok(w)
      else
        MainWindow()
    }

    /** The start-up check: succeeds exactly when the main window resolves. */
    function Run(): (r: Outcome)
      reads this
      ensures r.Pass? <==> MainWindow().Ok?
      ensures r.Fail? ==> r.error == MainWindow().error
    {
      match MainWindow()
      case Err(e) => Fail(e)
      case Ok(_) => Pass
    }

    /** Sets focus to `id`, whether or not a window with that id exists. */
    method FocusWindow(id: WindowId)
      modifies this`focusWindow
      ensures focusWindow == Some(id)
      ensures windows == old(windows) && mainWindow == old(mainWindow)
    {
      focusWindow := Some(id);
    }

    /**
     * The platform's live attributes of window `id` (its inner size, scale
     * factor and focus) reach its record; an unknown id changes nothing.
     */
    method Refresh(id: WindowId, innerSize: PhysicalSize, scaleFactor: ScaleFactor, hasFocus: bool)
      requires Valid()
      modifies this`windows
      ensures Valid()
      ensures id !in old(windows) ==> windows == old(windows)
      ensures id in old(windows) ==>
                windows == old(windows)[id := old(windows)[id].(innerSize := innerSize, scaleFactor := scaleFactor,
                                                                hasFocus := hasFocus)]
      ensures id in old(windows) && focusWindow == Some(id) ==>
                && CurrentWindow().Ok? && CurrentWindow().value.innerSize == innerSize
                && CurrentWindow().value.scaleFactor == scaleFactor
    {
      if id in windows {
        windows := windows[id := windows[id].(innerSize := innerSize, scaleFactor := scaleFactor, hasFocus := hasFocus)];
      }
    }

    /** Drops the window `id` if present; the main and focus ids are left as they are. */
    method Remove(id: WindowId)
      requires Valid()
      modifies this
      ensures Valid()
      ensures windows == old(windows) - {id}
      ensures mainWindow == old(mainWindow) && focusWindow == old(focusWindow)
    {
      windows := windows - {id};
    }

    /**
     * Builds an invisible window with the given options and stores it under
     * the id the platform gives it. Fails, storing nothing, when fullscreen is
     * asked for without a monitor or video mode, or when the build fails.
     */
    method CreateWindow(options: WindowOptions, eventLoop: EventLoop) returns (r: Result<WindowId>)
      requires Valid()
      modifies this
      ensures Valid()
      ensures mainWindow == old(mainWindow) && focusWindow == old(focusWindow)
      ensures r.Ok? <==> FullscreenFor(options, eventLoop.monitors).Ok? && eventLoop.build.Built?
      ensures r.Err? ==> windows == old(windows)
      ensures r.Err? ==> r.error == (if FullscreenFor(options, eventLoop.monitors).Err?
                                     then FullscreenFor(options, eventLoop.monitors).error
                                     else External(WindowBuild))
      ensures r.Ok? ==> r.value == eventLoop.build.id && windows.Keys == old(windows).Keys + {r.value}
      ensures r.Ok? ==> forall id | id in old(windows) && id != r.value :: windows[id] == old(windows)[id]
      ensures r.Ok? ==> var w := windows[r.value];
                        !w.visible && !w.hasFocus && w.title == options.title && w.innerSize == options.size
                        && w.resizable == options.resizable
                        && w.scaleFactor == eventLoop.build.scaleFactor && w.lockSupported == eventLoop.build.lockSupported
                        && w.fullscreen == FullscreenFor(options, eventLoop.monitors).value
    {
      var fullscreen := FullscreenFor(options, eventLoop.monitors);
      if fullscreen.Err? {
        return Err(fullscreen.error);
      }
      match eventLoop.build
      case BuildFailed =>
        r := Err(External(WindowBuild));
      case Built(id, scale, lock) =>
        var window := Window(id, options.title, options.size, scale, false, false,
                             options.resizable, fullscreen.value, lock);
        windows := windows[id := window];
        r := Ok(id);
    }

    /**
     * Creates the main window at half the size of the first monitor and
     * designates it main. Fails when there is no monitor or the build fails.
     */
    method WithMainWindow(eventLoop: EventLoop) returns (r: Outcome)
      requires Valid()
      modifies this
      ensures Valid()
      ensures focusWindow == old(focusWindow)
      ensures r.Pass? <==> eventLoop.monitors != [] && eventLoop.build.Built?
      ensures eventLoop.monitors == [] ==> r == Fail(External(NoMonitor))
      ensures eventLoop.monitors != [] && eventLoop.build.BuildFailed? ==> r == Fail(External(WindowBuild))
      ensures r.Fail? ==> windows == old(windows) && mainWindow == old(mainWindow)
      ensures r.Pass? ==> mainWindow == Some(eventLoop.build.id)
                          && windows.Keys == old(windows).Keys + {eventLoop.build.id}
      ensures r.Pass? ==> var w := windows[eventLoop.build.id];
                          && !w.visible && !w.hasFocus && w.title == "Oxdraw"
                          && w.innerSize == HalfSize(eventLoop.monitors[0].size)
                          && w.resizable && w.fullscreen == Windowed
                          && w.scaleFactor == eventLoop.build.scaleFactor && w.lockSupported == eventLoop.build.lockSupported
      ensures r.Pass? ==> forall id | id in old(windows) && id != eventLoop.build.id :: windows[id] == old(windows)[id]
    {
      if eventLoop.monitors == [] {
        return Fail(External(NoMonitor));
      }
      var options := MainWindowOptions(eventLoop.monitors[0].size);
      var created := CreateWindow(options, eventLoop);
      match created
      case Err(e) =>
        r := Fail(e);
      case Ok(id) =>
        mainWindow := Some(id);
        r := Pass;
    }
  }

  /**
   * With focus set, the registry's current window is the focused one or an
   * error; the main window plays no part, even when it resolves.
   */
  lemma {:induction false} FocusedNeverFallsBack(wm: WindowManager)
    requires wm.focusWindow.Some? && wm.focusWindow.value !in wm.windows
    requires wm.MainWindow().Ok?
    ensures wm.CurrentWindow().Err? && wm.CurrentWindow() != wm.MainWindow()
  {
  }
}
