/**
 * What `GetCamStatus` does with particular commands, stated on `Dispatch`
 * for every name whose C string is the command.
 */
module DispatchProperties {
  import opened Options
  import opened CText
  import opened Protocol
  import opened Commands
  import opened Codecs
  import opened CodecExamples
  import opened Connection
  import opened BufferTransfer
  import opened Dispatcher

  /** A name whose C string parses as `cmd` is dispatched as `cmd`. */
  lemma DispatchOf(handle: Option<Handle>, name: string, cmd: Command, ans: Answers)
    requires Parse(CString(name)) == cmd
    ensures Dispatch(handle, name, ans) == DispatchCommand(handle, cmd, ans)
  {
  }

  /** A name whose C string is the i-th exact name is dispatched as the i-th exact command. */
  lemma DispatchExact(handle: Option<Handle>, name: string, i: nat, ans: Answers)
    requires i < |ExactNames| && CString(name) == ExactNames[i]
    ensures Dispatch(handle, name, ans) == DispatchCommand(handle, ExactCommands[i], ans)
  {
    ExactNameParses(i);
    DispatchOf(handle, name, ExactCommands[i], ans);
  }

  /** A camera command with a session open: the action's reply, after the fallback, and its calls. */
  lemma CameraCommandWithSession(h: Handle, op: CameraOp, ans: Answers)
    ensures var a := CameraAction(h, op, ans);
      DispatchCommand(Some(h), Camera(op), ans) == Outcome(Fallback(a.reply), Some(h), a.calls, false)
  {
  }

  /** The reply always carries a message: an empty one is replaced by "Camera Disconnected". */
  lemma ReplyNeverEmpty(handle: Option<Handle>, name: string, ans: Answers)
    ensures Dispatch(handle, name, ans).reply.msg != ""
    ensures Dispatch(handle, name, ans).reply == Respond(handle, Parse(CString(name)), ans).reply ||
      Dispatch(handle, name, ans).reply == Disconnected
  {
  }

  /**
   * Without a session every camera command reports a disconnected camera,
   * makes no driver call and leaves the session as it was.
   */
  lemma DisconnectedCameraCommand(name: string, ans: Answers)
    requires Parse(CString(name)).Camera?
    ensures Dispatch(None, name, ans) == Outcome(Disconnected, None, [], false)
  {
    var cmd := Parse(CString(name));
    DispatchOf(None, name, cmd, ans);
    CameraCommandWithoutSession(cmd.op, ans);
  }

  lemma CameraCommandWithoutSession(op: CameraOp, ans: Answers)
    ensures DispatchCommand(None, Camera(op), ans) == Outcome(Disconnected, None, [], false)
  {
  }

  /** An unrecognised command: status 101, "INVALID CMD", no call, the session kept. */
  lemma UnknownCommand(handle: Option<Handle>, name: string, ans: Answers)
    requires forall i :: 0 <= i < |ExactNames| ==> CString(name) != ExactNames[i]
    requires forall i :: 0 <= i < |PrefixNames| ==> !(PrefixNames[i] <= CString(name))
    ensures Dispatch(handle, name, ans) == Outcome(InvalidCommand, handle, [], false)
  {
    UnknownIff(CString(name));
  }

  /** No command clears the session, and only `connect` opens one. */
  lemma HandleNeverCleared(handle: Option<Handle>, name: string, ans: Answers)
    ensures handle.Some? ==> Dispatch(handle, name, ans).handle == handle
    ensures handle.None? && Dispatch(handle, name, ans).handle.Some? ==> Parse(CString(name)) == Connect
  {
    var cmd := Parse(CString(name));
    DispatchOf(handle, name, cmd, ans);
    CommandKeepsHandle(handle, cmd, ans);
  }

  lemma CommandKeepsHandle(handle: Option<Handle>, cmd: Command, ans: Answers)
    ensures handle.Some? ==> DispatchCommand(handle, cmd, ans).handle == handle
    ensures handle.None? && DispatchCommand(handle, cmd, ans).handle.Some? ==> cmd == Connect
  {
  }

  /** `echo` answers in any state with at most 100 characters of its argument and a newline. */
  lemma EchoInAnyState(handle: Option<Handle>, name: string, sep: char, arg: string, ans: Answers)
    requires arg != [] && CString(name) == "echo" + [sep] + arg
    ensures Dispatch(handle, name, ans) ==
      Outcome(CamStatus(0, Precision(arg, 100) + "\n"), handle, [], false)
  {
    ArgumentCommands(sep, arg);
    DispatchOf(handle, name, Echo(arg), ans);
  }

  /** `usleep` sleeps in any state for `atoi(arg)` microseconds, taken as `useconds_t`. */
  lemma UsleepInAnyState(handle: Option<Handle>, name: string, sep: char, arg: string, ans: Answers)
    requires arg != [] && CString(name) == "usleep" + [sep] + arg
    ensures Dispatch(handle, name, ans) ==
      Outcome(CamStatus(0, "Sleeping"), handle, [UsleepCall(U32(Atoi(arg)))], false)
  {
    ArgumentCommands(sep, arg);
    DispatchOf(handle, name, Usleep(arg), ans);
  }

  /** `stopserver` closes an open session and ends the server with status 0, "END". */
  lemma StopServerCloses(handle: Option<Handle>, name: string, ans: Answers)
    requires CString(name) == "stopserver"
    ensures Dispatch(handle, name, ans) == Outcome(CamStatus(0, "END"), handle, CloseIfOpen(handle), true)
  {
    DispatchExact(handle, name, 0, ans);
  }

  /** `disconnect` closes an open session but keeps its handle. */
  lemma DisconnectKeepsHandle(handle: Option<Handle>, name: string, ans: Answers)
    requires CString(name) == "disconnect"
    ensures Dispatch(handle, name, ans) ==
      Outcome(CamStatus(0, "disconnect"), handle, CloseIfOpen(handle), false)
  {
    ExactNameParses(1);
    DispatchOf(handle, name, Disconnect, ans);
  }

  /** `focus` with a session open: one `pslr_focus` on its handle. */
  lemma FocusUsesHandle(h: Handle, name: string, ans: Answers)
    requires CString(name) == "focus"
    ensures Dispatch(Some(h), name, ans) == Outcome(CamStatus(0, "Focusing"), Some(h), [FocusCall(h)], false)
  {
    ExactNameParses(12);
    DispatchOf(Some(h), name, Camera(Focus), ans);
    CameraCommandWithSession(h, Focus, ans);
  }

  /**
   * After `disconnect` the closed handle still passes `check_camera`: a
   * following `focus` calls `pslr_focus` on the handle that was shut down.
   */
  lemma ClosedHandleStillUsed(h: Handle, disconnect: string, focus: string, ans1: Answers, ans2: Answers)
    requires CString(disconnect) == "disconnect" && CString(focus) == "focus"
    ensures var after := Dispatch(Some(h), disconnect, ans1);
      && after.calls == [DisconnectCall(h), ShutdownCall(h)]
      && Dispatch(after.handle, focus, ans2) == Outcome(CamStatus(0, "Focusing"), Some(h), [FocusCall(h)], false)
  {
    DisconnectKeepsHandle(Some(h), disconnect, ans1);
    FocusUsesHandle(h, focus, ans2);
  }

  /** With a session open, `connect` answers "connected" and calls nothing. */
  lemma ConnectIdempotent(h: Handle, name: string, ans: Answers)
    requires CString(name) == "connect"
    ensures Dispatch(Some(h), name, ans) == Outcome(CamStatus(0, "connected"), Some(h), [], false)
  {
    ExactNameParses(2);
    DispatchOf(Some(h), name, Connect, ans);
    ConnectCommandWithSession(h, ans);
  }

  lemma ConnectCommandWithSession(h: Handle, ans: Answers)
    ensures DispatchCommand(Some(h), Connect, ans) == Outcome(CamStatus(0, "connected"), Some(h), [], false)
  {
  }

  /**
   * Without a session, `connect` makes one `pslr_init` and, when that gives a
   * handle, one `pslr_connect`; the handle is kept exactly when both succeed.
   */
  lemma ConnectWithoutSession(name: string, ans: Answers)
    requires CString(name) == "connect"
    ensures var o := Dispatch(None, name, ans);
      && (o.handle.Some? <==> ans.init.handle.Some? && ans.connectResult == 0)
      && (o.handle.Some? ==> o.handle == ans.init.handle && o.reply == CamStatus(0, "connected"))
      && (o.handle.None? ==> o.reply == CamStatus(1, "NOT connected"))
      && o.calls == (if ans.init.handle.Some? then [Init, ConnectCall(ans.init.handle.value)] else [Init])
      && !o.stopped
  {
    ExactNameParses(2);
    DispatchOf(None, name, Connect, ans);
    ConnectCommandWithoutSession(ans);
  }

  lemma ConnectCommandWithoutSession(ans: Answers)
    ensures var o := DispatchCommand(None, Connect, ans);
      && (o.handle.Some? <==> ans.init.handle.Some? && ans.connectResult == 0)
      && (o.handle.Some? ==> o.handle == ans.init.handle && o.reply == CamStatus(0, "connected"))
      && (o.handle.None? ==> o.reply == CamStatus(1, "NOT connected"))
      && o.calls == (if ans.init.handle.Some? then [Init, ConnectCall(ans.init.handle.value)] else [Init])
      && !o.stopped
  {
    if ans.init.handle.None? {
      NegativeTimeoutSingleAttempt(-1, [ans.init], ans.connectResult);
    } else {
      assert Poll(-1, [ans.init]) == GotHandle(ans.init.handle.value, 1);
    }
  }


  /** Two `connect` commands in a row make one `pslr_init` between them when the first succeeds. */
  lemma ConnectTwice(name: string, ans1: Answers, ans2: Answers)
    requires CString(name) == "connect"
    ensures var first := Dispatch(None, name, ans1);
      var second := Dispatch(first.handle, name, ans2);
      first.handle.Some? ==> second.calls == [] && multiset(first.calls + second.calls)[Init] == 1
  {
    ConnectWithoutSession(name, ans1);
    var first := Dispatch(None, name, ans1);
    if first.handle.Some? {
      ConnectIdempotent(first.handle.value, name, ans2);
      assert first.calls + [] == first.calls;
      assert first.calls == [Init, ConnectCall(ans1.init.handle.value)];
    }
  }

  /** An empty lens name leaves the message empty, so the reply says the camera is disconnected. */
  lemma EmptyLensNameReportsDisconnected(h: Handle, name: string, ans: Answers)
    requires CString(name) == "get_lens_name" && CString(ans.lensName) == ""
    ensures Dispatch(Some(h), name, ans) ==
      Outcome(Disconnected, Some(h), [LensName(ans.snapshot.lensId1, ans.snapshot.lensId2)], false)
  {
    DispatchExact(Some(h), name, 5, ans);
    LensNameAction(h, GetLensName, ans);
    CameraCommandWithSession(h, GetLensName, ans);
  }

  lemma LensNameAction(h: Handle, op: CameraOp, ans: Answers)
    requires op.GetLensName?
    ensures CameraAction(h, op, ans) ==
      Action(CamStatus(0, CString(ans.lensName)), [LensName(ans.snapshot.lensId1, ans.snapshot.lensId2)])
  {
  }

  /**
   * `get_buffer <arg>` with a session open performs the transfer of buffer
   * `atoi(arg)` and replies what the transfer gives.
   */
  lemma GetBufferTransfers(h: Handle, name: string, sep: char, arg: string, ans: Answers)
    requires arg != [] && CString(name) == "get_buffer" + [sep] + arg
    ensures var t := TransferSpec(h, Atoi(arg), ans.openResult, ans.chunks);
      Dispatch(Some(h), name, ans) == Outcome(CamStatus(t.status, t.msg), Some(h), t.calls, false)
  {
    GetBufferCommand(sep, arg);
    DispatchOf(Some(h), name, Camera(GetBuffer(arg)), ans);
    BufferCommand(h, arg, ans);
  }

  /** `get_buffer` with a session open: the transfer of buffer `atoi(arg)`, with its reply. */
  lemma BufferCommand(h: Handle, arg: string, ans: Answers)
    ensures var t := TransferSpec(h, Atoi(arg), ans.openResult, ans.chunks);
      DispatchCommand(Some(h), Camera(GetBuffer(arg)), ans) == Outcome(CamStatus(t.status, t.msg), Some(h), t.calls, false)
  {
    var t := TransferSpec(h, Atoi(arg), ans.openResult, ans.chunks);
    assert t.msg != "";
    BufferAction(h, GetBuffer(arg), ans);
    CameraCommandWithSession(h, GetBuffer(arg), ans);
  }

  lemma BufferAction(h: Handle, op: CameraOp, ans: Answers)
    requires op.GetBuffer?
    ensures var t := TransferSpec(h, Atoi(op.arg), ans.openResult, ans.chunks);
      CameraAction(h, op, ans) == Action(CamStatus(t.status, t.msg), t.calls)
  {
  }

  /** `get_buffer` with no argument reads `atoi("get_buffer")`, that is buffer 0. */
  lemma BareGetBufferOpensBufferZero(h: Handle, name: string, ans: Answers)
    requires CString(name) == "get_buffer"
    ensures var t := TransferSpec(h, 0, ans.openResult, ans.chunks);
      Dispatch(Some(h), name, ans) == Outcome(CamStatus(t.status, t.msg), Some(h), t.calls, false)
  {
    BareGetBuffer();
    DispatchOf(Some(h), name, Camera(GetBuffer("get_buffer")), ans);
    var s := "get_buffer";
    SkipSpacesNone(s);
    assert SplitSign(s) == (false, s);
    assert DigitRun(s) == 0;
    assert Atoi(s) == 0;
    BufferCommand(h, s, ans);
  }

  /**
   * `set_shutter_speed <arg>` calls `pslr_set_shutter` exactly when the
   * decoded numerator is not zero, and replies what the decoder gives.
   */
  lemma ShutterSentUnlessZero(h: Handle, name: string, sep: char, arg: string, ans: Answers)
    requires arg != [] && CString(name) == "set_shutter_speed" + [sep] + arg
    ensures var o := Dispatch(Some(h), name, ans);
      var d := DecodeShutter(arg);
      && (o.calls != [] <==> d.Some? && d.value.nom != 0)
      && (o.calls != [] ==> o.calls == [SetShutter(h, d.value.nom, d.value.denom)])
      && o.reply == CamStatus(ShutterSetting(arg).status, ShutterSetting(arg).msg)
      && o.handle == Some(h)
  {
    SetShutterSpeedCommand(sep, arg);
    DispatchOf(Some(h), name, Camera(SetShutterSpeed(arg)), ans);
    ShutterCommand(h, arg, ans);
  }

  lemma ShutterCommand(h: Handle, arg: string, ans: Answers)
    ensures var o := DispatchCommand(Some(h), Camera(SetShutterSpeed(arg)), ans);
      var d := DecodeShutter(arg);
      && (o.calls != [] <==> d.Some? && d.value.nom != 0)
      && (o.calls != [] ==> o.calls == [SetShutter(h, d.value.nom, d.value.denom)])
      && o.reply == CamStatus(ShutterSetting(arg).status, ShutterSetting(arg).msg)
      && o.handle == Some(h)
  {
    ShutterAction(h, SetShutterSpeed(arg), ans);
    CameraCommandWithSession(h, SetShutterSpeed(arg), ans);
  }

  lemma ShutterAction(h: Handle, op: CameraOp, ans: Answers)
    requires op.SetShutterSpeed?
    ensures var s := ShutterSetting(op.arg);
      CameraAction(h, op, ans) == Action(CamStatus(s.status, s.msg), ShutterCalls(h, s.send))
  {
  }

  /**
   * `set_iso <arg>` replies what the ISO decoder gives and calls
   * `pslr_set_iso` once, unless the decoded ISO and lower bound are both 0.
   */
  lemma IsoSentUnlessInvalid(h: Handle, name: string, sep: char, arg: string, ans: Answers)
    requires arg != [] && CString(name) == "set_iso" + [sep] + arg
    ensures var o := Dispatch(Some(h), name, ans);
      var s := DecodeIso(arg);
      && (o.calls != [] <==> !(s.iso == 0 && s.min == 0))
      && (o.calls != [] ==> o.calls == [SetIsoCall(h, U32(s.iso), U32(s.min), U32(s.max))])
      && o.reply == CamStatus(IsoSetting(arg).status, IsoSetting(arg).msg)
      && o.handle == Some(h)
  {
    SetIsoCommand(sep, arg);
    DispatchOf(Some(h), name, Camera(SetIso(arg)), ans);
    IsoCommand(h, arg, ans);
  }

  /** A bare `set_iso` is rejected as an invalid ISO value and sends nothing. */
  lemma BareSetIsoRejected(h: Handle, name: string, ans: Answers)
    requires CString(name) == "set_iso"
    ensures Dispatch(Some(h), name, ans) == Outcome(CamStatus(2, InvalidIso), Some(h), [], false)
  {
    BareSetIso();
    DispatchOf(Some(h), name, Camera(SetIso("set_iso")), ans);
    IsoBareNameExample();
    IsoRejected(h, "set_iso", ans);
  }

  lemma IsoRejected(h: Handle, arg: string, ans: Answers)
    requires IsoSetting(arg).status == 2
    ensures DispatchCommand(Some(h), Camera(SetIso(arg)), ans) == Outcome(CamStatus(2, InvalidIso), Some(h), [], false)
  {
    IsoAction(h, SetIso(arg), ans);
    CameraCommandWithSession(h, SetIso(arg), ans);
  }

  lemma IsoCommand(h: Handle, arg: string, ans: Answers)
    ensures var o := DispatchCommand(Some(h), Camera(SetIso(arg)), ans);
      var s := DecodeIso(arg);
      && (o.calls != [] <==> !(s.iso == 0 && s.min == 0))
      && (o.calls != [] ==> o.calls == [SetIsoCall(h, U32(s.iso), U32(s.min), U32(s.max))])
      && o.reply == CamStatus(IsoSetting(arg).status, IsoSetting(arg).msg)
      && o.handle == Some(h)
  {
    IsoAction(h, SetIso(arg), ans);
    CameraCommandWithSession(h, SetIso(arg), ans);
  }

  lemma IsoAction(h: Handle, op: CameraOp, ans: Answers)
    requires op.SetIso?
    ensures var i := IsoSetting(op.arg);
      CameraAction(h, op, ans) == Action(CamStatus(i.status, i.msg), IsoCalls(h, i.send))
  {
  }
}
