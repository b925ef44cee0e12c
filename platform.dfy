/**
 * The platform the window shell sits on (winit, glam), reduced to what the
 * shell reads or produces: window identifiers, physical sizes and positions,
 * monitors, the native window as an opaque record, the calls the shell makes
 * on a native window, and the raw notifications the event loop delivers.
 */
module Platform {

  /** Opaque window identifier; `u64::from(WindowId)` is the identity in this model. */
  type WindowId = nat

  type u16 = x: int | 0 <= x < 0x1_0000

  /** The largest `u32`, where a float-to-`u32` cast saturates. */
  const U32Max: nat := 0xFFFF_FFFF

  /** A scale factor reported by the platform: always positive. */
  type ScaleFactor = r: real | r > 0.0 witness 1.0

  datatype PhysicalSize = PhysicalSize(width: nat, height: nat)

  /** `PhysicalSize::default()`. */
  const ZeroSize := PhysicalSize(0, 0)

  datatype PhysicalPosition = PhysicalPosition(x: real, y: real)

  /** `glam::Vec2`, in logical units. */
  datatype Vec2 = Vec2(x: real, y: real)

  datatype VideoMode = VideoMode(size: PhysicalSize, refreshRateMillihertz: nat)

  datatype Monitor = Monitor(size: PhysicalSize, videoModes: seq<VideoMode>)

  datatype Fullscreen = Windowed | Exclusive(mode: VideoMode)

  /**
   * A native window as the shell sees it. `lockSupported` says whether the
   * platform can lock the cursor in this window; confining it always works.
   */
  datatype Window = Window(
    id: WindowId,
    title: string,
    innerSize: PhysicalSize,
    scaleFactor: ScaleFactor,
    visible: bool,
    hasFocus: bool,
    resizable: bool,
    fullscreen: Fullscreen,
    lockSupported: bool)

  /** What the platform answers when the shell asks it to build a window. */
  datatype BuildAnswer =
    | Built(id: WindowId, scaleFactor: ScaleFactor, lockSupported: bool)
    | BuildFailed

  /** The event loop as a window factory: its monitors and how it answers a build. */
  datatype EventLoop = EventLoop(monitors: seq<Monitor>, build: BuildAnswer)

  /** `winit::window::CursorGrabMode`; `Unlocked` is winit's `None`. */
  datatype CursorGrabMode = Unlocked | Confined | Locked

  /** Calls the shell makes on a native window; the model records them. */
  datatype NativeCall =
    | RequestRedraw
    | SetVisible(visible: bool)
    | SetCursorGrab(mode: CursorGrabMode)
    | SetCursorVisible(visible: bool)
    | FocusWindow
    | ShowContextMenu(position: Vec2)

  /** `winit::keyboard::Key`, reduced to the keys the translator tells apart. */
  datatype Key =
    | Character(text: string)
    | Alt | CapsLock | Control | Shift | Meta | Super | Enter | Tab | Space
    | ArrowDown | ArrowLeft | ArrowRight | ArrowUp | End | Home | PageDown | PageUp
    | Backspace | Delete | Escape
    /** Every other named, dead or unidentified key. */
    | Unrecognized(name: string)

  datatype ElementState = Pressed | Released

  /** A keyboard notification; `key` is the key without modifiers applied. */
  datatype RawKeyEvent = RawKeyEvent(key: Key, state: ElementState, repeat: bool)

  datatype ModifiersState = ModifiersState(shift: bool, control: bool, alt: bool, superKey: bool)

  datatype TouchPhase = Started | Moved | Ended | Cancelled

  datatype MouseScrollDelta = LineDelta(x: real, y: real) | PixelDelta(position: PhysicalPosition)

  /** `winit::event::MouseButton`. */
  datatype Button = Left | Right | Middle | Back | Forward | Other(code: u16)

  datatype StartCause = Init | WaitCancelled | ResumeTimeReached | Poll

  /** Notifications addressed to one window. */
  datatype WindowEvent =
    | Destroyed
    | CloseRequested
    | Resized(size: PhysicalSize)
    | ScaleFactorChanged(scaleFactor: ScaleFactor, newInnerSize: PhysicalSize)
    | Focused(focus: bool)
    | Touch(phase: TouchPhase, location: PhysicalPosition)
    | KeyboardInput(key: RawKeyEvent)
    | ModifiersChanged(modifiers: ModifiersState)
    | CursorMoved(position: PhysicalPosition)
    | MouseWheel(delta: MouseScrollDelta)
    | MouseInput(state: ElementState, button: Button)
    /** Any window notification the shell does not handle. */
    | OtherWindowEvent

  /** Everything the event loop hands to the shell's callback. */
  datatype Event =
    | NewEvents(cause: StartCause)
    | WindowEvent(windowId: WindowId, event: WindowEvent)
    | MouseMotion(dx: real, dy: real)
    | Suspended
    | Resumed
    | MainEventsCleared
    | RedrawRequested(windowId: WindowId)
    | RedrawEventsCleared
    /** Any other notification (other device events, user events, loop destroyed). */
    | OtherEvent

  /** The quotient `v / scale`: the source's float division, taken exactly. */
  function Unscale(v: real, scale: ScaleFactor): real
  {
    v / scale
  }

  /** Rust's saturating `as u32` cast of a float (exact reals, no NaN). */
  function AsU32(v: real): (n: nat)
    ensures n <= U32Max
    ensures v <= 0.0 ==> n == 0
    ensures v >= U32Max as real ==> n == U32Max
    ensures 0.0 <= v < U32Max as real ==> n as real <= v < n as real + 1.0
  {
    if v <= 0.0 then 0 else if v >= U32Max as real then U32Max else v.Floor
  }
}
