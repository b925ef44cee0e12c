/**
 * Error types of the window shell and of the renderer, and the result types
 * every fallible operation returns.
 */
module Errors {
  import opened Platform

  datatype Option<T> = None | Some(value: T)

  /** The window crate's errors that the core raises. */
  datatype WindowsError =
    | Focus(id: WindowId)
    | MainWindowId
    | WindowStore(id: WindowId)

  /** The renderer crate's errors. */
  datatype RendererError =
    | RendererDevice
    | MissingPixelBuffer(id: nat)
    | FailedRender

  /** Failures reported by foreign libraries and passed on with context. */
  datatype ExternalError =
    | NoMonitor
    | NoVideoMode
    | WindowBuild
    | PixelsFailure
    | MenuSetup

  /** An `anyhow::Error` as the core produces it: one of the typed errors above. */
  datatype Error =
    | Windows(windows: WindowsError)
    | Renderer(renderer: RendererError)
    | External(external: ExternalError)

  datatype Result<T> = Ok(value: T) | Err(error: Error)

  datatype Outcome = Pass | Fail(error: Error)
}
