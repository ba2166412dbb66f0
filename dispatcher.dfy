/**
 * `PkCameraImpl::GetCamStatus`: one text command in, one `CamStatus` reply
 * out, with the camera session `camhandle` as the only state kept between
 * commands.
 *
 * `Dispatch` states what a command does; the class `PkCameraServer` performs
 * it step by step and is proved to agree with it.
 */
module Dispatcher {
  import opened Options
  import opened CText
  import opened Protocol
  import opened Commands
  import opened Codecs
  import opened Connection
  import opened BufferTransfer

  /** `check_camera`: a camera session is open exactly when the handle is not NULL. */
  predicate CheckCamera(handle: Option<Handle>) {
    handle.Some?
  }

  /** The reply as created: status 0 and an empty message. */
  const Blank: CamStatus := CamStatus(0, "")
  const Disconnected: CamStatus := CamStatus(101, "Camera Disconnected")
  const InvalidCommand: CamStatus := CamStatus(101, "INVALID CMD")

  /**
   * The effect of one command: the reply, the handle kept afterwards, the
   * driver calls made, and whether the server exits.
   */
  datatype Outcome = Outcome(reply: CamStatus, handle: Option<Handle>, calls: seq<DriverCall>, stopped: bool)

  /** A camera command with a session open: its reply and its driver calls. */
  datatype Action = Action(reply: CamStatus, calls: seq<DriverCall>)

  /** `pslr_set_shutter` with the decoded speed, when there is one to send. */
  function ShutterCalls(h: Handle, send: Option<Rational>): seq<DriverCall> {
    match send
    case Some(r) => [SetShutter(h, r.nom, r.denom)]
    case None => []
  }

  /** `pslr_set_iso` with the decoded values converted to `uint32_t`, when there are values to send. */
  function IsoCalls(h: Handle, send: Option<Iso>): seq<DriverCall> {
    match send
    case Some(s) => [SetIsoCall(h, U32(s.iso), U32(s.min), U32(s.max))]
    case None => []
  }

  /** What each camera command does once `check_camera` has passed. */
  function CameraAction(h: Handle, op: CameraOp, ans: Answers): Action {
    var snap := ans.snapshot;
    match op
    case UpdateStatus =>
      Action(CamStatus(if ans.getStatusResult == 0 then 0 else 1, "update status"), [GetStatus(h)])
    case GetCameraName => Action(CamStatus(0, "0 " + CString(ans.cameraName)), [CameraName(h)])
    case GetLensName => Action(CamStatus(0, CString(ans.lensName)), [LensName(snap.lensId1, snap.lensId2)])
    case GetCurrentShutterSpeed =>
      Action(CamStatus(0, "0 " + IntToString(snap.shutterNom) + "/" + IntToString(snap.shutterDenom)), [])
    case GetCurrentAperture => Action(CamStatus(0, CString(ans.apertureText)), [])
    case GetCurrentIso => Action(CamStatus(0, "0 " + IntToString(snap.iso)), [])
    case GetBufmask => Action(CamStatus(0, "0 " + IntToString(snap.bufmask)), [])
    case GetAutoBracketMode => Action(CamStatus(0, "0 " + IntToString(snap.autoBracketMode)), [])
    case GetAutoBracketPictureCount => Action(CamStatus(0, "0 " + IntToString(snap.autoBracketPictureCount)), [])
    case Focus => Action(CamStatus(0, "Focusing"), [FocusCall(h)])
    case Shutter => Action(CamStatus(0, "Shutter!"), [ShutterCall(h)])
    case DeleteBuffer(arg) => Action(CamStatus(0, "deleted buffer"), [DeleteBufferCall(h, Atoi(arg))])
    case GetPreviewBuffer(arg) =>
      var call := GetBufferCall(h, Atoi(arg), Preview, 4);
      if ans.previewResult != 0 then Action(CamStatus(1, "imageSize : " + IntToString(ans.previewSize)), [call])
      else Action(CamStatus(0, "TBD: " + IntToString(ans.previewSize)), [call])
    case GetBuffer(arg) =>
      var t := TransferSpec(h, Atoi(arg), ans.openResult, ans.chunks);
      Action(CamStatus(t.status, t.msg), t.calls)
    case SetShutterSpeed(arg) =>
      var s := ShutterSetting(arg);
      Action(CamStatus(s.status, s.msg), ShutterCalls(h, s.send))
    case SetIso(arg) =>
      var s := IsoSetting(arg);
      Action(CamStatus(s.status, s.msg), IsoCalls(h, s.send))
  }

  /** `camera_close` when a handle is held, nothing otherwise. */
  function CloseIfOpen(handle: Option<Handle>): seq<DriverCall> {
    match handle
    case Some(h) => CloseCalls(h)
    case None => []
  }

  /** The branch of the chain a command takes, before the empty-message fallback. */
  function Respond(handle: Option<Handle>, cmd: Command, ans: Answers): Outcome {
    match cmd
    case StopServer => Outcome(CamStatus(0, "END"), handle, CloseIfOpen(handle), true)
    case Disconnect => Outcome(CamStatus(0, "disconnect"), handle, CloseIfOpen(handle), false)
    case Echo(arg) => Outcome(CamStatus(0, Precision(arg, 100) + "\n"), handle, [], false)
    case Usleep(arg) => Outcome(CamStatus(0, "Sleeping"), handle, [UsleepCall(U32(Atoi(arg)))], false)
    case Connect =>
      if handle.Some? then Outcome(CamStatus(0, "connected"), handle, [], false)
      else
        var run := ConnectSpec(-1, [ans.init], ans.connectResult);
        if run.outcome.Connected? then Outcome(CamStatus(0, "connected"), Some(run.outcome.h), run.calls, false)
        else Outcome(CamStatus(1, "NOT connected"), None, run.calls, false)
    case Camera(op) =>
      if CheckCamera(handle) then
        var a := CameraAction(handle.value, op, ans);
        Outcome(a.reply, handle, a.calls, false)
      else Outcome(Blank, handle, [], false)
    case Unknown => Outcome(InvalidCommand, handle, [], false)
  }

  /** A reply left without a message reports a disconnected camera. */
  function Fallback(reply: CamStatus): CamStatus {
    if reply.msg == "" then Disconnected else reply
  }

  /**
   * `GetCamStatus` on the command `name` (read as a C string) with the session
   * `handle`, the driver answering `ans`.
   */
  function Dispatch(handle: Option<Handle>, name: string, ans: Answers): Outcome {
    DispatchCommand(handle, Parse(CString(name)), ans)
  }

  /** A recognised command, its reply passed through the fallback. */
  function DispatchCommand(handle: Option<Handle>, cmd: Command, ans: Answers): Outcome {
    var o := Respond(handle, cmd, ans);
    o.(reply := Fallback(o.reply))
  }

  /** A camera command, performed as the source does it. */
  method CameraCommand(h: Handle, op: CameraOp, ans: Answers)
    returns (status: int, msg: string, calls: seq<DriverCall>)
    ensures Action(CamStatus(status, msg), calls) == CameraAction(h, op, ans)
  {
    var snap := ans.snapshot;
    calls := [];
    match op {
      case UpdateStatus =>
        calls := [GetStatus(h)];
        status := if ans.getStatusResult == 0 then 0 else 1;
        msg := "update status";
      case GetCameraName =>
        calls := [CameraName(h)];
        status, msg := 0, "0 " + CString(ans.cameraName);
      case GetLensName =>
        calls := [LensName(snap.lensId1, snap.lensId2)];
        status, msg := 0, CString(ans.lensName);
      case GetCurrentShutterSpeed =>
        status, msg := 0, "0 " + IntToString(snap.shutterNom) + "/" + IntToString(snap.shutterDenom);
      case GetCurrentAperture =>
        status, msg := 0, CString(ans.apertureText);
      case GetCurrentIso =>
        status, msg := 0, "0 " + IntToString(snap.iso);
      case GetBufmask =>
        status, msg := 0, "0 " + IntToString(snap.bufmask);
      case GetAutoBracketMode =>
        status, msg := 0, "0 " + IntToString(snap.autoBracketMode);
      case GetAutoBracketPictureCount =>
        status, msg := 0, "0 " + IntToString(snap.autoBracketPictureCount);
      case Focus =>
        calls := [FocusCall(h)];
        status, msg := 0, "Focusing";
      case Shutter =>
        calls := [ShutterCall(h)];
        status, msg := 0, "Shutter!";
      case DeleteBuffer(arg) =>
        var bufno := Atoi(arg);
        calls := [DeleteBufferCall(h, bufno)];
        status, msg := 0, "deleted buffer";
      case GetPreviewBuffer(arg) =>
        var bufno := Atoi(arg);
        calls := [GetBufferCall(h, bufno, Preview, 4)];
        if ans.previewResult != 0 {
          status, msg := 1, "imageSize : " + IntToString(ans.previewSize);
        } else {
          status, msg := 0, "TBD: " + IntToString(ans.previewSize);
        }
      case GetBuffer(arg) =>
        var bufno := Atoi(arg);
        status, msg, calls := TransferBuffer(h, bufno, ans.openResult, ans.chunks);
      case SetShutterSpeed(arg) =>
        var s := ShutterSetting(arg);
        status := s.status;
        if s.send.Some? {
          calls := [SetShutter(h, s.send.value.nom, s.send.value.denom)];
        }
        msg := s.msg;
      case SetIso(arg) =>
        var s := IsoSetting(arg);
        status := s.status;
        if s.send.Some? {
          var iso := s.send.value;
          calls := [SetIsoCall(h, U32(iso.iso), U32(iso.min), U32(iso.max))];
        }
        msg := s.msg;
    }
  }

  /** The service object: the camera session it keeps and the calls it has made. */
  class PkCameraServer {
    var camhandle: Option<Handle>
    /** Set by `stopserver`, after which the process has exited. */
    var stopped: bool
    ghost var log: seq<DriverCall>

    constructor ()
      ensures camhandle == None && !stopped && log == []
    {
      camhandle := None;
      stopped := false;
      log := [];
    }

    method GetCamStatus(name: string, ans: Answers) returns (status: int, msg: string)
      requires !stopped
      modifies this
      ensures var o := Dispatch(old(camhandle), name, ans);
        && CamStatus(status, msg) == o.reply
        && camhandle == o.handle
        && stopped == o.stopped
        && log == old(log) + o.calls
    {
      var clientMessage := CString(name);
      status, msg := Perform(Parse(clientMessage), ans);
    }

    /** The `if`/`else if` chain once the command is recognised, and the fallback. */
    method Perform(cmd: Command, ans: Answers) returns (status: int, msg: string)
      requires !stopped
      modifies this
      ensures var o := DispatchCommand(old(camhandle), cmd, ans);
        && CamStatus(status, msg) == o.reply
        && camhandle == o.handle
        && stopped == o.stopped
        && log == old(log) + o.calls
    {
      status, msg := 0, "";
      match cmd {
        case StopServer =>
          if camhandle.Some? {
            log := log + CloseCalls(camhandle.value);
          }
          status, msg := 0, "END";
          stopped := true;
          return;
        case Disconnect =>
          if camhandle.Some? {
            log := log + CloseCalls(camhandle.value);
          }
          status, msg := 0, "disconnect";
        case Echo(arg) =>
          status, msg := 0, Precision(arg, 100) + "\n";
        case Usleep(arg) =>
          var microseconds := Atoi(arg);
          log := log + [UsleepCall(U32(microseconds))];
          status, msg := 0, "Sleeping";
        case Connect =>
          if camhandle.Some? {
            status, msg := 0, "connected";
          } else {
            var outcome, calls := CameraConnect(-1, [ans.init], ans.connectResult);
            log := log + calls;
            camhandle := if outcome.Connected? then Some(outcome.h) else None;
            if camhandle.Some? {
              status, msg := 0, "connected";
            } else {
              status, msg := 1, "NOT connected";
            }
          }
        case Camera(op) =>
          if CheckCamera(camhandle) {
            var calls;
            status, msg, calls := CameraCommand(camhandle.value, op, ans);
            log := log + calls;
          }
        case Unknown =>
          status, msg := 101, "INVALID CMD";
      }
      if msg == "" {
        status, msg := 101, "Camera Disconnected";
      }
    }
  }
}
