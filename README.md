# oxdraw window shell — a Dafny model

oxdraw's desktop shell wraps the winit event loop. Around the platform it
keeps four pieces of sequential logic, and this project models each of
them and proves what the code promises:

- **The window registry** (`WindowManager`): a map from window id to native
  window, an optional main-window id and an optional focus id.
- **The key translator**: logical keys become the shell's `KeyCode`, and each
  code has a text rendering.
- **The input context** (`Context`): it validates the window id of each
  notification, keeps the mouse position, the modifier keys and the
  cursor-grab flags, and turns notifications into touch, mouse and key
  events.
- **The frame scheduler**: the event-handler closure over
  `WinitPersistentState`. It decides after every callback whether the loop
  waits, waits until a deadline, polls or exits, and when the application
  update runs.

The renderer's table of pixel buffers, one per window, and the gradient
image it fills are modelled as well.

Module layout:

| module | file | models |
|---|---|---|
| `Platform` | platform.dfy | winit/glam types, the native window as a record, raw notifications |
| `Errors` | errors.dfy | `WindowsError`, `RendererError`, result types |
| `KeyCodes` | key_code.dfy | `KeyCode`, `key_event_to_code`, `Display for KeyCode` (pure) |
| `Events` | events.dfy | the shell's event types and `Log`, the record of effects |
| `WindowRegistry` | window.dfy | `WindowManager` as a class over a map |
| `Rendering` | renderer.dfy | `Renderer` as a class over its buffer table, `make_image_data` on an array |
| `InputContext` | context.dfy | `Context` as a class whose methods update its fields |
| `Frame` | frame.dfy | `FlowMode`, `WinitPersistentState`, and `Dispatch`, the specification of one callback |
| `Runner` | runner.dfy | `Windows::new`, `Windows::run`, the steps before the loop, and the handler proved against `Dispatch` |

Effects on the outside world are appended, in order, to one `Log` object:

- the events the `process_*` stubs print;
- the calls made on native windows (redraw, visibility, cursor grab, focus, context menu);
- the menu calls.

Foreign calls that can fail are answered by oracle values fixed in advance:

- `EventLoop` answers the window build;
- `Gpu` answers device creation, buffer creation, resizes and presenting;
- `Menu` answers menu setup and installation.

The code is followed where the method names alone would suggest otherwise:

- `current_window` fails with `WindowStore(id)` when the focused window was
  removed. It does not fall back to the main window.
- Removing a window never clears the main or focus id.

## Model

| member | source | states |
|---|---|---|
| Platform.AsU32 | crates/window/src/context.rs:120 | the float-to-`u32` cast gives 0 at or below zero, `u32::MAX` at or above it, and the floor of values in between |
| WindowRegistry.HalfSize | crates/window/src/window.rs:57-60 | the main window is half the monitor size, rounded down in each dimension |
| WindowRegistry.MainWindowOptions | crates/window/src/window.rs:55-66 | the main window is titled "Oxdraw", windowed and resizable, at half the monitor size rounded down |
| WindowRegistry.FullscreenFor | crates/window/src/window.rs:141-151 | windowed unless fullscreen is asked for; then the first video mode of the first monitor, else `NoMonitor`/`NoVideoMode` |
| WindowRegistry.WindowManager.constructor | crates/window/src/window.rs:37-43 | the default registry has no windows, no main id, no focus id |
| WindowRegistry.WindowManager.Lookup | crates/window/src/window.rs:77-79 | returns a window exactly when the id is a key, and then the stored window |
| WindowRegistry.WindowManager.MainWindow | crates/window/src/window.rs:82-92 | `MainWindowId` without a main id, `WindowStore(id)` when the main id is absent, else that window |
| WindowRegistry.WindowManager.IsCurrentWindow | crates/window/src/window.rs:95-98 | true iff the focus id is set and equals the id; false while focus is unset |
| WindowRegistry.WindowManager.IsEmpty | crates/window/src/window.rs:100-102 | true iff the map is empty |
| WindowRegistry.WindowManager.CurrentWindow | crates/window/src/window.rs:105-113 | focus unset: the main-window result; focus set: the focused window or `WindowStore(focus id)` |
| WindowRegistry.FocusedNeverFallsBack | crates/window/src/window.rs:105-113 | with a dangling focus id, the current window is an error even when the main window resolves |
| WindowRegistry.WindowManager.Run | crates/window/src/window.rs:175-180 | succeeds iff the main window resolves, with the same error otherwise |
| WindowRegistry.WindowManager.FocusWindow | crates/window/src/window.rs:118-120 | focus becomes the id unconditionally; the map and main id are unchanged |
| WindowRegistry.WindowManager.Refresh | crates/window/src/context.rs:326-327 | the inner size, scale factor and focus the platform reports for a registered window replace those of its record, and nothing else changes; when that window has focus, the current window the per-frame update reads has the new size and scale; an unknown id changes nothing |
| WindowRegistry.WindowManager.Remove | crates/window/src/window.rs:122-124 | deletes only that key (no-op when absent); main and focus ids untouched |
| WindowRegistry.WindowManager.CreateWindow | crates/window/src/window.rs:127-172 | on success the key set gains the built id (an entry already under that id is replaced, as `HashMap::insert` does) and every other entry stays; the new record is an invisible window with the options' attributes and the scale factor and lock support the platform reported when building it; on a fullscreen or build failure the map is unchanged; main and focus never change |
| WindowRegistry.WindowManager.WithMainWindow | crates/window/src/window.rs:50-71 | `NoMonitor` without a monitor; otherwise creates the half-size "Oxdraw" window (invisible, unfocused, resizable, windowed), records the scale factor and lock support the platform reported, makes its id the main id and keeps the other windows as they were |
| KeyCodes.KeyEventToCode | crates/window/src/key_code.rs:98-122 | characters keep their text and take the shift flag; unrecognized keys and only they become `NonConvert` |
| KeyCodes.Aliases | crates/window/src/key_code.rs:105-118 | Meta and Super both give `Command`; Backspace gives `BackspaceOrDelete`, Delete gives `FDelete` |
| KeyCodes.ModifiersOnlyTagCharacters | crates/window/src/key_code.rs:100-120 | only the shift flag is read, and only for character keys |
| KeyCodes.TranslationInjective | crates/window/src/key_code.rs:98-122 | two keys with the same code other than `NonConvert` are equal or are Meta/Super |
| KeyCodes.Display | crates/window/src/key_code.rs:65-96 | a character code's rendering starts with its text; named codes render to 1 to 13 characters |
| KeyCodes.DisplayNames | crates/window/src/key_code.rs:73-83 | `"{c} with shift {s}"`, `" "` for Space, `"Alt"`, `"Backspace"`, `"ForwardDelete"` |
| KeyCodes.DisplayInjective | crates/window/src/key_code.rs:72-94 | distinct codes never render to the same text (the 20 names are pairwise distinct) |
| Rendering.Renderer.New | crates/renderer/src/lib.rs:32-42 | fails with `RendererDevice` without a device; otherwise an empty buffer table |
| Rendering.Renderer.Setup | crates/renderer/src/lib.rs:48-60 | on success maps the id to a fresh buffer of that size, replacing any old one; inserts nothing on failure |
| Rendering.Renderer.Update | crates/renderer/src/lib.rs:62-72 | the table and the outcome are those `Resize` describes |
| Rendering.Resize | crates/renderer/src/lib.rs:62-72 | `MissingPixelBuffer(id)` for an unknown id; passes iff both resizes succeed; key set and other buffers unchanged |
| Rendering.Renderer.Remove | crates/renderer/src/lib.rs:74-77 | always passes and leaves the id absent, a no-op for unknown ids |
| Rendering.Renderer.Render | crates/renderer/src/lib.rs:79-105 | the outcome is `RenderOutcome`; a failure changes nothing; a success counts one presentation |
| Rendering.RenderOutcome | crates/renderer/src/lib.rs:86-103 | passes iff the id has a buffer and presenting succeeds; `MissingPixelBuffer(id)` before drawing, else `FailedRender` |
| Rendering.MakeImageData | crates/renderer/src/lib.rs:162-174 | returns exactly `w*h*4` bytes, each the gradient byte of its index |
| Rendering.FillPixel | crates/renderer/src/lib.rs:164-171 | writing one pixel extends the correctly filled prefix of the image by its four bytes |
| Rendering.FillRow | crates/renderer/src/lib.rs:163-172 | writing one row extends the correctly filled prefix by a whole row |
| Rendering.PixelBytes | crates/renderer/src/lib.rs:164-171 | pixel (x, y) lies in the image at `(y*w+x)*4` and its bytes are x mod 256, y mod 256, 255 - x mod 256, 127 |
| Rendering.Channel | crates/renderer/src/lib.rs:167-170 | red is the column and green the row, both mod 256; blue complements red to 255; alpha is 127 |
| Rendering.ImageByte | crates/renderer/src/lib.rs:164-170 | every fourth byte of a non-empty image is the alpha value 127; which pixel and channel the other bytes hold is what `PixelBytes` and `ByteOwner` state |
| Rendering.ByteOwner | crates/renderer/src/lib.rs:163-171 | every byte index of the image belongs to a pixel (x, y) and channel k inside it |
| Rendering.ByteOwnerUnique | crates/renderer/src/lib.rs:164-171 | a byte index determines its pixel and channel, so each byte is written by exactly one (x, y) |
| Rendering.AlphaChannel | crates/renderer/src/lib.rs:170 | every fourth byte is 127 |
| InputContext.Context.constructor | crates/window/src/context.rs:21-34 | the default context: origin, nothing rendered, zero size, no grab, no modifiers |
| InputContext.Context.ProcessTouch | crates/window/src/context.rs:38-41 | hands the touch on and marks rendered |
| InputContext.Context.ProcessMouseEvent | crates/window/src/context.rs:43-49 | hands the mouse event on and marks rendered |
| InputContext.Context.ProcessKeyEvent | crates/window/src/context.rs:51-55 | hands the key event on and marks rendered |
| InputContext.Context.Render | crates/window/src/context.rs:58-73 | `WindowStore(id)` for an unknown id; otherwise the renderer's outcome, which passes iff `RenderSucceeds`; marks rendered only on success |
| InputContext.Context.Resize | crates/window/src/context.rs:76-92 | `WindowStore(id)` changing nothing; otherwise the buffer resize of `Resize`, and a redraw request only on success |
| InputContext.Context.ScaleFactor | crates/window/src/context.rs:95-124 | `WindowStore(id)`; a no-op when width or height already matches the unscaled size; otherwise the buffer is resized to the unscaled size and a redraw requested on success |
| InputContext.Context.Focused | crates/window/src/context.rs:127-144 | `Focus(id)` changing nothing; otherwise focus moves to the id only when focus is gained, it is not current and the window does not report focus |
| InputContext.Context.KeyInput | crates/window/src/context.rs:147-166 | `WindowStore(id)` changing nothing; otherwise emits `KeyEventOf` under the held modifiers |
| InputContext.KeyEventOf | crates/window/src/context.rs:157-162 | `Down(code, repeat)` on press, `Up(code)` on release, with the translated code |
| InputContext.Context.KeyModifier | crates/window/src/context.rs:169-185 | `WindowStore(id)`; otherwise the modifiers become shift, control, alt and command := super, and nothing else changes |
| InputContext.Context.Touch | crates/window/src/context.rs:189-217 | `WindowStore(id)`; otherwise emits `TouchEvent` at the unscaled location |
| InputContext.TouchEvent | crates/window/src/context.rs:205-213 | id 0; Started gives Begin, Moved gives Move, Ended and Cancelled give End |
| InputContext.Context.CursorMove | crates/window/src/context.rs:220-236 | `WindowStore(id)`; otherwise the mouse position becomes the unscaled position |
| InputContext.Context.MouseWheel | crates/window/src/context.rs:238-259 | `WindowStore(id)`; otherwise emits a scroll by the line or pixel delta |
| InputContext.Context.MouseInput | crates/window/src/context.rs:261-285 | `WindowStore(id)`; otherwise shows the context menu at the mouse position, then emits `MouseTouch` |
| InputContext.MouseTouch | crates/window/src/context.rs:270-279 | Down gives Begin and Up gives End, id 0, at the mouse position |
| InputContext.Context.MouseMove | crates/window/src/context.rs:287-319 | fails as the current window does; no effect when the position equals the delta; otherwise a Move touch, the grab calls of `GrabCalls` (together `MotionEntries`), and afterwards the previous grab flag equals the grab flag |
| InputContext.Context.GrabTransition | crates/window/src/context.rs:300-317 | issues exactly the native calls `GrabCalls` gives for the old and new grab flags, and records the new flag as the previous one |
| InputContext.Context.GrabTransitionIdempotent | crates/window/src/context.rs:300-317 | a second transition with the grab flag unchanged issues nothing: two transitions log exactly the calls of one |
| InputContext.GrabCalls | crates/window/src/context.rs:300-315 | no calls without an edge; rising edge: Locked, then Confined exactly where locking is unsupported, then hide, and nothing else; falling edge: Unlocked, then show |
| InputContext.MotionEntries | crates/window/src/context.rs:287-317 | no entries without a current window or when the motion equals the position; otherwise the finger-0 move first, at most four entries, one without a grab edge |
| InputContext.ResizeEffect | crates/window/src/context.rs:82-91 | the buffer of the window takes the new size and a redraw is requested exactly when both resizes succeed; other buffers and the id set stay; an unknown buffer changes nothing |
| InputContext.UpdateEffect | crates/window/src/context.rs:323-345 | without a current window nothing changes; otherwise only the current window's buffer may change and the only entry is its redraw request |
| InputContext.Logical | crates/window/src/context.rs:230-231 | scaling the logical position back by the scale factor gives the physical one |
| InputContext.LogicalSize | crates/window/src/context.rs:327-336 | each side is the floor of the physical side over the scale factor, or `u32::MAX`; never larger than the physical size when the scale is at least 1 |
| InputContext.ScrollDelta | crates/window/src/context.rs:249-254 | line and pixel deltas both become the scroll vector of their two components |
| InputContext.ScrollUnitsIgnored | crates/window/src/context.rs:249-254 | a scroll of n lines and a scroll of n pixels are the same event |
| InputContext.Context.Update | crates/window/src/context.rs:323-345 | fails as the current window does; records the inner size, resizes the buffer to the logical size, requests a redraw on success |
| InputContext.Context.Remove | crates/window/src/context.rs:348-363 | drops the id from the registry and the buffer table even when absent, passes, and resets rendered and size |
| Frame.DefaultState | crates/window/src/lib.rs:84-95 | all five flags false and mode `Wait` |
| Frame.StartEffect | crates/window/src/run.rs:75-94 | Init and Poll clear the cancelled flag; WaitCancelled sets it to mode = WaitUntil; ResumeTimeReached sets the timeout and clears it |
| Frame.Dispatch | crates/window/src/run.rs:62-295 | mode never written; redraw and timeout never cleared; Exit iff closing empties the registry or a render fails; update iff main events of an active frame with a request or timeout; menu polled unless the callback returned early |
| Frame.MainEventsStep | crates/window/src/run.rs:234-259 | nothing while inactive; otherwise the pending move is handed on and cleared, and the update runs (stamping the time) exactly when a redraw or timeout is pending |
| Frame.FrameEndStep | crates/window/src/run.rs:274-290 | Wait waits; WaitUntil waits for 100 ms unless cancelled; Poll polls and requests a redraw |
| Frame.Replay | crates/window/src/run.rs:20-25 | one control flow per callback, and at most one update and one move each |
| Frame.ModeInvariant | crates/window/src/run.rs:277-289 | the mode is the same after any run of callbacks |
| Frame.RequestsSticky | crates/window/src/run.rs:251-288 | once set, the redraw request and the timeout stay set |
| Frame.CursorMovesOnlyFlag | crates/window/src/run.rs:179-189 | cursor moves only raise the flag, emit nothing and leave the flow `Wait` |
| Frame.CoalescedMoves | crates/window/src/run.rs:246-249 | n >= 1 cursor moves then an active main-events callback hand on exactly one move and clear the flag |
| Frame.InactiveIdle | crates/window/src/run.rs:243-245 | until resumed, no update and no move, and a pending cursor move stays pending |
| Frame.WaitModeNeverUpdates | crates/window/src/run.rs:251-253 | in `Wait` mode with nothing requested, no update runs without a deadline wake-up |
| Frame.DefaultIsIdle | crates/window/src/lib.rs:84-95 | from the default state no update runs without a deadline wake-up |
| Frame.ExitOnlyOnCloseOrRenderFailure | crates/window/src/run.rs:108-272 | in any run, a callback exits exactly when it empties the registry or fails to render |
| Frame.PollForcesUpdate | crates/window/src/run.rs:284-288 | in `Poll` mode the frame's end polls and the next active main events update |
| Frame.WaitUntilSchedule | crates/window/src/run.rs:279-283 | in `WaitUntil` mode the frame's end waits 100 ms unless the wake-up was a cancelled wait |
| Frame.WaitCancelledOnlyInWaitUntil | crates/window/src/run.rs:80-82 | outside `WaitUntil` a cancelled wait is not recorded |
| Runner.SignalOf | crates/window/src/run.rs:74-291 | unknown window ids, closing that empties the registry, cursor moves and render failures are what the scheduler sees |
| Runner.ToMouseButton | crates/window/src/run.rs:196-203 | each platform button maps to the shell button of the same name, `Other` keeping its code |
| Runner.ToMouseButtonInjective | crates/window/src/run.rs:196-203 | the button conversion loses nothing |
| Runner.Route | crates/window/src/run.rs:120-216 | each notification reaches its context handler: resizes and scale changes alone touch the buffers (keeping their ids), a focus gain alone moves focus (logging `FocusWindow`), modifier changes alone replace the modifiers, touches, keys and wheel hand on one event, a mouse button logs `ShowContextMenu` and then its `MouseTouch`, and `Destroyed` and unhandled notifications do nothing |
| Runner.Windows.constructor | crates/window/src/lib.rs:40-47 | assembles the shell from its parts |
| Runner.Windows.New | crates/window/src/lib.rs:28-48 | main window before renderer, failing with the first error; then default context and default frame state |
| Runner.Windows.Run | crates/window/src/lib.rs:54-59 | the registry's error comes before menu setup; a menu setup failure is returned; a failure before the loop is not; once set up, the loop starts exactly when the menu installs on the main window and its pixel buffer can be created, the log holds the menu setup, the install and (after a successful install) the show call, and the buffer table gains that window's buffer exactly when the loop starts |
| Runner.Windows.RunnerInit | crates/window/src/run.rs:35-53 | stops at the main window, menu install or buffer setup; the window is made visible only after the install succeeds |
| Runner.Windows.HandleEvent | crates/window/src/run.rs:62-295 | frame state and control flow are `Dispatch`'s; the main window never changes; per notification kind, the whole new context, the log, buffer table, registry and focus become those of its handler (close: the window and its buffer leave, the context is reset to unrendered with a zero size; cursor move: only the position changes; otherwise `Route`, `MotionEntries`, `UpdateEffect`, the render outcome), followed by the menu poll when `Dispatch` says so; an unknown window changes nothing |
| Runner.Windows.HandleWindowEvent | crates/window/src/run.rs:95-216 | the main window never changes; close removes the window and its buffer, keeps the focus and resets the context's rendered flag and size; a cursor move changes only the context's position; neither logs anything; every other notification has exactly the effect `Route` gives on the context, registry, buffers and log; only an emptying close exits |
| Runner.Windows.WindowNotification | crates/window/src/run.rs:95-104 | an unknown window id changes nothing and skips the menu poll; a known one is handled as `HandleWindowEvent` states (whole new context, registry, buffers and log per kind), with frame state and control flow from `Dispatch` |
| Runner.Windows.LoopNotification | crates/window/src/run.rs:74-290 | wake-ups, suspend/resume and frame ends touch only the frame state; raw motion logs `MotionEntries` and, when it logs anything, marks the context rendered and records the grab flag; cleared main events and redraws have the effects on the whole context, buffers and log that `ClearMainEvents` and `Redraw` state |
| Runner.Windows.Wake | crates/window/src/run.rs:75-94 | the frame state after a wake-up is `StartEffect`'s for its cause |
| Runner.Windows.ClearMainEvents | crates/window/src/run.rs:234-259 | frame state and menu polling are `Dispatch`'s; the log gains the pending mouse move when `Dispatch` emits it, then the update's entries when it runs; buffers, window size and the rendered flag are the update's (`UpdateEffect`) exactly when it runs; no other context field changes |
| Runner.Windows.Redraw | crates/window/src/run.rs:260-273 | renders the window: on success it counts one more presentation and marks the context rendered; otherwise nothing changes and the loop exits; no other context field changes |
| Runner.Windows.Motion | crates/window/src/run.rs:217-225 | raw motion logs `MotionEntries`; it marks the context rendered and records the grab flag exactly when it logs something, and changes no other context field |
| Runner.Windows.ScheduleNextFrame | crates/window/src/run.rs:274-290 | state and control flow are those `Dispatch` gives for the end of the redraw events |
| Runner.Windows.CloseWindow | crates/window/src/run.rs:108-119 | the window leaves the registry and the buffer table; main and focused window stay; the context is left unrendered with a zero size; the loop exits exactly when no window is left |
| Runner.Windows.RecordCursorMove | crates/window/src/run.rs:179-189 | marks a pending move and stores the position in logical units of that window |
| Runner.Windows.RouteInput | crates/window/src/run.rs:120-216 | the log, buffer table, rendered flag, focus and modifiers become exactly those `Route` gives for the notification |

## Left out

- Floating point: positions, scale factors and sizes are exact reals. The
  `f32`/`f64` rounding is not modelled, and neither are NaN and infinities.
- `InputContext.Context.ScaleFactor`: the `relative_eq!` tolerance is replaced by exact
  equality.
- `WindowRegistry.HalfSize`: this is integer halving. It equals the `f32`
  computation for sizes below 2^24 pixels.
- The `.unwrap()` on `set_cursor_grab` is not modelled as a panic. The
  model takes confining and releasing the cursor to always succeed, and
  whether locking succeeds is a per-window flag.
- `bitmap_target(..).unwrap()` in `render` is not modelled as a panic.
- The GPU is reduced to yes/no answers: device creation, buffer creation,
  surface and buffer resizes, and presenting. `draw_canvas`,
  `copy_raw_pixels` and the pixel contents are not modelled. A successful
  render is counted, not drawn.
- Logging (`info!`, `error!`) is not modelled. The `println!` stubs of the
  `process_*` methods become log entries. Errors of context calls inside the
  handler are dropped, as the source only logs them.
- Time: `Instant::now()` is an abstract `now` parameter, in milliseconds.
  The `thread::sleep` of `Poll` mode is not modelled. `Frame.Replay`
  delivers all its callbacks at one instant.
- The real event loop is not modelled: `event_loop.run`, `Rc::try_unwrap`,
  `proxy_handler`, and the way winit keeps an `Exit` once set. Each
  callback's control flow is the value the handler leaves.
  `Runner.Windows.Run` reports in `started` whether the loop would be
  entered. The source never returns from the loop.
- Native-window calls are recorded in the log, not applied to the
  registry's window records. `set_visible` does not flip `visible`, and
  `focus_window` does not flip `hasFocus`.
- The source reads a window's live `inner_size()`, `scale_factor()` and
  `has_focus()` in every handler. In the model, a record holds the values
  it was created with (focus false) until
  `WindowRegistry.WindowManager.Refresh` writes the platform's current
  ones. The notifications themselves never write a record: `Resized`,
  `ScaleFactorChanged` and `Focused` leave `innerSize`, `scaleFactor` and
  `hasFocus` as they were. A driver has to call `Refresh` before it
  delivers the notification that reports a change. The model does not
  force that order. Without it, `Context.Update` resizes the buffer to
  the record's stale size, and positions are divided by the stale scale
  factor.
- crates/window/src/menu.rs is not part of this model. The menu is an
  oracle for `setup` and `install`. `listen` and `show_context_menu` are
  log entries.
- crates/oxdraw/src/main.rs (logger and process start) is not part of this
  model.
- Keys: the platform's `Key` keeps the keys the translator tells apart. All
  other named, dead or unidentified keys are one `Unrecognized` case.
  `key_without_modifiers` is taken as given.
- Window ids are natural numbers, and `u64::from(WindowId)` is the
  identity.
- Rendering.Renderer.Setup: the native window handle passed for the surface
  is dropped. Only the id and the size matter to the table.
