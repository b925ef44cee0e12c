/**
 * The semantic events the input context hands to the application, and the
 * log that records everything the shell does to the outside world: events
 * handed to the (logging) consumer, calls on native windows, menu calls.
 */
module Events {
  import P = Platform
  import opened KeyCodes

  datatype MouseButton = Left | Right | Middle | Back | Forward | Other(code: P.u16)

  datatype MouseEvent =
    | Move(position: P.Vec2)
    | Scroll(delta: P.Vec2)

  datatype MouseTouchEvent =
    | Down(button: MouseButton)
    | Up(button: MouseButton)

  datatype TouchInputEvent =
    | Begin(id: nat, position: P.Vec2)
    | Move(id: nat, position: P.Vec2, delta: P.Vec2)
    | End(id: nat, position: P.Vec2)

  datatype KeyEvent =
    | Down(code: KeyCode, repeat: bool)
    | Up(code: KeyCode)

  /** One observable effect of the shell. */
  datatype Output =
    /** A touch event handed to the consumer. */
    | TouchOut(touch: TouchInputEvent)
    /** A mouse event handed to the consumer. */
    | MouseOut(mouse: MouseEvent)
    /** A key event handed to the consumer. */
    | KeyOut(key: KeyEvent)
    /** A call on a native window. */
    | Native(window: P.WindowId, call: P.NativeCall)
    /** The menu collaborator was asked to install its menu on a window. */
    | MenuInstall(window: P.WindowId)
    /** The menu collaborator was asked to build the application menu. */
    | MenuSetup
    /** The menu collaborator was polled for a pending selection. */
    | MenuListen

  /** The record of effects, in the order they happened. */
  class Log {
    var entries: seq<Output>

    constructor ()
      ensures entries == []
    {
      entries := [];
    }

    method Append(o: Output)
      modifies this
      ensures entries == old(entries) + [o]
    {
      entries := entries + [o];
    }
  }
}
