/**
 * What the dispatcher exchanges with the outside: the reply it returns, the
 * camera driver calls it makes (recorded, not executed) and the answers the
 * driver gives back (taken as inputs, since the driver is not modelled).
 */
module Protocol {
  import opened Options

  /** A value of C's `uint32_t`. */
  type u32 = x: int | 0 <= x < 0x1_0000_0000

  /** The reply message `CamStatus`: a status code and a text. */
  datatype CamStatus = CamStatus(status: int, msg: string)

  /** An open driver session, `pslr_handle_t` when it is not NULL. */
  datatype Handle = Handle(id: nat)

  /** The buffer encodings the dispatcher asks for. */
  datatype BufferKind = Preview | Dng

  /** A call into the camera driver or the C library, in the order made. */
  datatype DriverCall =
    | Init                                            // pslr_init(NULL, NULL)
    | SleepSec(seconds: int)                          // sleep_sec between init attempts
    | ConnectCall(h: Handle)                          // pslr_connect
    | DisconnectCall(h: Handle)                       // pslr_disconnect
    | ShutdownCall(h: Handle)                         // pslr_shutdown
    | UsleepCall(micros: u32)                         // usleep
    | GetStatus(h: Handle)                            // pslr_get_status
    | CameraName(h: Handle)                           // pslr_camera_name
    | LensName(id1: int, id2: int)                    // get_lens_name
    | FocusCall(h: Handle)                            // pslr_focus
    | ShutterCall(h: Handle)                          // pslr_shutter
    | DeleteBufferCall(h: Handle, bufno: int)         // pslr_delete_buffer
    | GetBufferCall(h: Handle, bufno: int, kind: BufferKind, quality: int)  // pslr_get_buffer
    | BufferOpen(h: Handle, bufno: int, kind: BufferKind, quality: int)     // pslr_buffer_open
    | BufferGetSize(h: Handle)                        // pslr_buffer_get_size
    | BufferRead(h: Handle, size: int)                // pslr_buffer_read
    | BufferClose(h: Handle)                          // pslr_buffer_close
    | SetShutter(h: Handle, nom: int, denom: int)     // pslr_set_shutter
    | SetIsoCall(h: Handle, iso: u32, min: u32, max: u32)  // pslr_set_iso

  /**
   * One call of `pslr_init`: the handle it returned (None for NULL) and the
   * time, in microseconds since the polling started, read right after it.
   */
  datatype InitAttempt = InitAttempt(handle: Option<Handle>, elapsedMicros: nat)

  /**
   * The fields of the `pslr_status` local that the reporting commands print.
   * The local is never filled in by the command that prints it, so these are
   * arbitrary values.
   */
  datatype Snapshot = Snapshot(
    lensId1: int, lensId2: int,
    shutterNom: int, shutterDenom: int,
    iso: int, bufmask: int,
    autoBracketMode: int, autoBracketPictureCount: int)

  /** Everything the driver answers during one command. */
  datatype Answers = Answers(
    init: InitAttempt,          // the pslr_init attempt of `connect`
    connectResult: int,         // pslr_connect
    getStatusResult: int,       // pslr_get_status
    cameraName: string,         // pslr_camera_name
    lensName: string,           // get_lens_name
    snapshot: Snapshot,         // the uninitialised pslr_status
    apertureText: string,       // format_rational(current_aperture, "%.1f")
    previewResult: int,         // pslr_get_buffer
    previewSize: int,           // the imageSize it reports
    openResult: int,            // pslr_buffer_open
    chunks: seq<u32>)           // successive pslr_buffer_read results
}
