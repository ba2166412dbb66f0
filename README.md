# pktriggercord gRPC server: the command dispatcher

`pktriggercord-grpc-server.cc` serves a Pentax camera over gRPC. Its one RPC,
`PkCameraImpl::GetCamStatus`, takes a text command (`connect`, `focus`,
`set_iso 400`, `echo hello`, ...) and answers with a `CamStatus`: an integer
status and a message. Between commands the service keeps only the camera
session `camhandle`, which is either NULL or a driver handle.

This project models that dispatcher and proves what it does:

- `Commands` models `is_string_prefix` and the `if`/`else if` chain that picks
  a command. The chain tries, in this order:
  - the exact names `stopserver` and `disconnect`, with `strcmp`;
  - the prefixes `echo` and `usleep`, with `is_string_prefix`;
  - `connect` and the eleven other exact names;
  - the prefixes `delete_buffer`, `get_preview_buffer`, `get_buffer`,
    `set_shutter_speed` and `set_iso`.
- `CText` models the C library pieces the dispatcher relies on:
  - reading a `std::string` as a C string (up to the first NUL);
  - `%.100s`;
  - `atoi`, and the `%d`, `%f` and `%d-%d` conversions of `sscanf`;
  - `%d` printing;
  - conversion to `uint32_t`.
- `Codecs` models the `set_shutter_speed` and `set_iso` argument decoders. For
  each it gives the reply and the value sent to the camera, if any.
  `CodecExamples` works through typical arguments and the edge cases.
- `Connection` models the `camera_connect` polling loop and `camera_close`.
  `CameraConnect` is an imperative method, proved equal to the function
  `ConnectSpec`.
- `BufferTransfer` models the `get_buffer` transfer. Its `while (1)` read loop
  is the method `ReadToEnd`, proved against `ReadCount` and `Sum`.
- `Dispatcher` holds two things:
  - the function `Dispatch`, which gives the reply, the new session, the driver
    calls and whether the server exits;
  - the class `PkCameraServer`, whose field `camhandle` its method
    `GetCamStatus` updates step by step. The method is proved to agree with
    `Dispatch`.
- `DispatchProperties` states what particular commands do, for every name
  whose C string is that command.

The camera driver is not modelled. Each call of `pslr_*` is recorded as a
`DriverCall`, and its result is read from an `Answers` value supplied with the
command. The class keeps the calls it has made in a ghost `log`.

## Model

| member | source | states |
|---|---|---|
| Commands.IsStringPrefix | pktriggercord-grpc-server.cc:116-126 | NULL exactly when `str` does not begin with `prefix`. If `str` is at most one character longer than `prefix`, the whole of `str`. Otherwise everything after `prefix` and one more character, which is never examined. |
| Commands.PrefixArgument | pktriggercord-grpc-server.cc:116-126 | A prefix, any separator and a non-empty argument yield exactly that argument. |
| Commands.PrefixWithoutArgument | pktriggercord-grpc-server.cc:118-119 | With at most one character after the prefix, the result is the whole command, prefix included. |
| Commands.UnknownIff | pktriggercord-grpc-server.cc:157-361 | A command falls through to the final `else` exactly when it equals none of the 14 exact names and begins with none of the 7 prefixes. |
| Commands.PrefixUnknownIff | pktriggercord-grpc-server.cc:170-339 | The prefix tests of the chain find nothing exactly when no prefix matches. |
| Commands.ExactNameParses | pktriggercord-grpc-server.cc:157-258 | Each exact name on its own selects its own branch. No earlier prefix test (`echo`, `usleep`) intercepts it. |
| Commands.ArgumentCommands | pktriggercord-grpc-server.cc:170-178 | `echo` and `usleep`, followed by a separator and an argument, receive that argument. |
| Commands.BareEcho | pktriggercord-grpc-server.cc:170-173 | `echo` alone echoes its own name. |
| Commands.BareDeleteBuffer | pktriggercord-grpc-server.cc:259-260 | `delete_buffer` alone reaches its branch with the argument `delete_buffer`. |
| Commands.BareGetBuffer | pktriggercord-grpc-server.cc:284-285 | `get_buffer` alone reaches its branch with the argument `get_buffer`, past the `delete_buffer` and `get_preview_buffer` tests. |
| Commands.Parse | pktriggercord-grpc-server.cc:157-362 | The command the chain selects for a C string. Its properties are stated by `UnknownIff`, `PrefixUnknownIff`, `ExactNameParses` and the per-command lemmas below. |
| Commands.DeleteBufferCommand | pktriggercord-grpc-server.cc:259-260 | `delete_buffer <arg>`, for any separator and non-empty `arg`, reaches the `delete_buffer` branch with `arg`. |
| Commands.GetPreviewBufferCommand | pktriggercord-grpc-server.cc:266-267 | `get_preview_buffer <arg>` reaches its branch with `arg`. It is not caught by the `delete_buffer` test before it. |
| Commands.GetBufferCommand | pktriggercord-grpc-server.cc:284-285 | `get_buffer <arg>` reaches the `get_buffer` branch with `arg`, past the two buffer tests before it. |
| Commands.SetShutterSpeedCommand | pktriggercord-grpc-server.cc:311 | `set_shutter_speed <arg>` reaches the shutter branch with `arg`. |
| Commands.SetIsoCommand | pktriggercord-grpc-server.cc:339 | `set_iso <arg>` reaches the ISO branch with `arg`. It is not caught by the `set_shutter_speed` test before it. |
| Commands.BareSetIso | pktriggercord-grpc-server.cc:339 | `set_iso` alone reaches the ISO branch with the argument `set_iso`. |
| CText.CString | pktriggercord-grpc-server.cc:146 | The C string read from a `std::string` is a prefix of it, holds no NUL, and stops at the first NUL. |
| CText.CStringOfNulFree | pktriggercord-grpc-server.cc:146 | A string without NUL reads as itself. |
| CText.Precision | pktriggercord-grpc-server.cc:171 | `%.100s` gives a prefix of the argument of length min(length, 100). |
| CText.SkipSpacesDropsSpaces | pktriggercord-grpc-server.cc:342 | Everything the white-space skip in front of a `%d` or `%f` conversion (and `atoi`) drops is white space. |
| CText.ScanInt | pktriggercord-grpc-server.cc:342 | `%d` fails exactly when, after leading blanks and an optional sign, no digit follows. A successful conversion consumes at least one character, and what it leaves does not start with a digit. |
| CText.ScanSignedDigits | pktriggercord-grpc-server.cc:342-345 | Blanks, an optional `+` or `-`, a digit run and a rest that does not start with a digit: `%d` reads the signed value of the digits and leaves exactly the rest, and `atoi` gives the same value. |
| CText.Atoi | pktriggercord-grpc-server.cc:345 | `atoi` is the value `%d` reads, or 0 when it reads nothing. Its values are stated by `ScanSignedDigits` and `AtoiFormatted`. |
| CText.ScanFormattedInt | pktriggercord-grpc-server.cc:342 | Any `int` printed with `%d` and followed by a non-digit scans back as itself, leaving exactly what follows. |
| CText.AtoiFormatted | pktriggercord-grpc-server.cc:345 | `atoi` of a printed `int` followed by a non-digit is that `int`. |
| CText.ScanDecimal | pktriggercord-grpc-server.cc:317 | A successful `%f` conversion consumes at least one character, and what it leaves does not start with a digit. |
| CText.ScanPointNumber | pktriggercord-grpc-server.cc:317 | `<w>.<f>`, with at least one digit in all, reads as w plus f divided by 10 to the length of f, with nothing left over. |
| CText.ScanSignedDecimal | pktriggercord-grpc-server.cc:317 | Blanks and an optional `+` or `-` in front of any text the unsigned number reader accepts: `%f` reads the signed value and leaves exactly what that reader leaves. |
| CText.UnsignedFraction | pktriggercord-grpc-server.cc:317 | `<w>.<f>`, with at least one digit in all, followed by a non-digit, reads as w plus f divided by 10 to the length of f, leaving exactly what follows. |
| CText.UnsignedWhole | pktriggercord-grpc-server.cc:317 | A digit run followed by neither a digit nor `.` reads as that whole number, leaving exactly what follows. |
| CText.Trunc | pktriggercord-grpc-server.cc:321-324 | The conversion of a `float` to `int` rounds toward zero: the result lies within 1 of the value, on the side of zero. |
| CText.ScanDecimalFormattedInt | pktriggercord-grpc-server.cc:317 | `%f` reads a printed `int` as that number, with nothing left over. |
| CText.NatToString | pktriggercord-grpc-server.cc:316 | The digits `%d` prints for a non-negative number: a non-empty digit string whose value is the number, with no leading zero unless it is `0` itself. `ScanFormattedInt` and `AtoiFormatted` read it back. |
| CText.IntToString | pktriggercord-grpc-server.cc:316-354 | What `%d` prints in the replies: it starts with `-` exactly for a negative number. `IntToStringShape` gives its sign and digits, and `ScanFormattedInt` reads it back as the number. |
| CText.U32 | pktriggercord-grpc-server.cc:150-152 | Conversion to `uint32_t` gives a value below 2^32 and keeps values already in range. |
| CText.U32Wraps | pktriggercord-grpc-server.cc:150-152 | The conversion is periodic modulo 2^32. A negative value down to -2^32 becomes itself plus 2^32. |
| Codecs.ShutterSetting | pktriggercord-grpc-server.cc:311-338 | Status 2, the invalid-value text and no camera call exactly when the argument does not decode. Otherwise status 0 and the message `0 <nom> <denom>\n`. The speed is sent only when its numerator is nonzero. |
| Codecs.ScanFraction | pktriggercord-grpc-server.cc:314 | The `1/%d%c` test. It is stated by `ShutterFraction`, `PrintedNotFraction` and `PointNotFraction`. |
| Codecs.ScanLoneDecimal | pktriggercord-grpc-server.cc:317 | The `%f%c` test. It is stated by `DecodeLoneDecimal`, `ShutterWholeSeconds` and `ShutterDecimalFraction`. |
| Codecs.DecodeShutter | pktriggercord-grpc-server.cc:314-333 | The speed the shutter branch decodes, if any. It is stated by `ShutterFraction`, `DecodeLoneDecimal`, `ShutterWholeSeconds`, `ShutterDecimalFraction` and `ShutterSetting`. |
| Codecs.ShutterFraction | pktriggercord-grpc-server.cc:314-316 | `1/<n>` with nothing after it decodes to {1, n}, for every `int` n. |
| Codecs.ShutterWholeSeconds | pktriggercord-grpc-server.cc:317-325 | A whole number F decodes to {10F, 10} below 2 and to {F, 1} from 2 upwards. |
| Codecs.DecodeLoneDecimal | pktriggercord-grpc-server.cc:317-325 | An argument that is not `1/<n>` but a lone decimal F decodes to {trunc(F*10), 10} when F < 2, and to {trunc(F), 1} otherwise. |
| Codecs.ShutterDecimalFraction | pktriggercord-grpc-server.cc:314-325 | `<w>.<f>` decodes, with v its value, to {trunc(v*10), 10} when v < 2 and to {trunc(v), 1} otherwise. |
| Codecs.PointNotFraction | pktriggercord-grpc-server.cc:314 | `<w>.<f>` never satisfies the `1/%d` test. |
| Codecs.PrintedNotFraction | pktriggercord-grpc-server.cc:314 | A printed number never satisfies the `1/%d` test. |
| Codecs.IsoSetting | pktriggercord-grpc-server.cc:339-358 | Status 2, the invalid-ISO text and no call exactly when ISO and the lower bound are both 0. Otherwise status 0, one `pslr_set_iso` with the decoded values, and the message `0 <iso> <min>-<max>\n`. |
| Codecs.ScanRange | pktriggercord-grpc-server.cc:342 | The `%d-%d%c` test. It is stated by `IsoRange` and `IsoFixed`. |
| Codecs.DecodeIso | pktriggercord-grpc-server.cc:342-348 | The ISO and range the branch decodes. It is stated by `IsoRange`, `IsoFixed` and `IsoExclusive`. |
| Codecs.IsoRange | pktriggercord-grpc-server.cc:342-348 | A printed `<a>-<b>` decodes to ISO 0 with the range {a, b}. |
| Codecs.IsoFixed | pktriggercord-grpc-server.cc:342-345 | A printed `<n>` decodes to ISO n with the range 0-0. |
| Codecs.IsoExclusive | pktriggercord-grpc-server.cc:342-348 | A range forces ISO 0, and a fixed ISO forces the range 0-0. |
| CodecExamples.ShutterFractionExample | pktriggercord-grpc-server.cc:314-316 | `1/250` decodes to {1, 250}. |
| CodecExamples.ShutterWholeExample | pktriggercord-grpc-server.cc:317-325 | `4` decodes to {4, 1}. |
| CodecExamples.OnePointFive | pktriggercord-grpc-server.cc:318-321 | `1.5` decodes to {15, 10}. |
| CodecExamples.ShutterInvalidExample | pktriggercord-grpc-server.cc:328-331 | `abc` does not decode and gives status 2 with the invalid-value text and no call. |
| CodecExamples.ShutterZeroExample | pktriggercord-grpc-server.cc:317-336 | `0` gives status 0 and `0 0 10\n`, but no `pslr_set_shutter`. |
| CodecExamples.IsoFixedExample | pktriggercord-grpc-server.cc:342-345 | `400` is ISO 400 with the range 0-0. |
| CodecExamples.IsoRangeExample | pktriggercord-grpc-server.cc:342-348 | `100-800` is ISO 0 with the range 100-800. |
| CodecExamples.IsoEmptyExample | pktriggercord-grpc-server.cc:342-351 | An empty argument is rejected with status 2 and nothing is sent. |
| CodecExamples.IsoBareNameExample | pktriggercord-grpc-server.cc:339-351 | The argument `set_iso`, which bare `set_iso` receives, reads as 0 and is rejected with status 2 and no call. |
| CodecExamples.IsoZeroLowerBoundExample | pktriggercord-grpc-server.cc:349-351 | `0-800` is rejected although its upper bound is set. |
| CodecExamples.IsoZeroUpperBoundExample | pktriggercord-grpc-server.cc:349-355 | `5-0` is sent as ISO 0 with the range 5-0, and its message is `0 0 5-0\n`. |
| Connection.KeepPolling | pktriggercord-grpc-server.cc:93 | The timeout test: another try when the timeout is 0 or exceeds the elapsed seconds. It is stated by `PollStep`, `NegativeTimeoutSingleAttempt` and `ZeroTimeoutNeverTimesOut`. |
| Connection.ConnectSpec | pktriggercord-grpc-server.cc:83-114 | The outcome and driver calls of `camera_connect`. It is stated by `ConnectTriedOnce`, `ConnectResultMessages` and `CameraConnect`. |
| Connection.CloseCalls | pktriggercord-grpc-server.cc:78-81 | `camera_close` calls `pslr_disconnect` and then `pslr_shutdown` on the handle. It is used by `StopServerCloses` and `DisconnectKeepsHandle`. |
| Connection.TimeoutMessage | pktriggercord-grpc-server.cc:97 | The text `1 <timeout>s timeout exceeded\n`. `NegativeTimeoutSingleAttempt` states when `camera_connect` gives it. |
| Connection.ConnectError | pktriggercord-grpc-server.cc:105-109 | The run-as-root text for any nonzero result but -1, and the unknown-camera text for -1. `ConnectResultMessages` states when `camera_connect` gives each. |
| Connection.Poll | pktriggercord-grpc-server.cc:90-100 | The polling over the `pslr_init` attempts ends for one of three reasons: with the handle of the first attempt that gives one, with a timeout at the first failed attempt the timeout test refuses, or not at all within the attempts given. Every earlier attempt failed and allowed another try. |
| Connection.CameraConnect | pktriggercord-grpc-server.cc:83-114 | The polling loop and the single connection attempt give the outcome and the driver calls of `ConnectSpec`. |
| Connection.PollAfterRetries | pktriggercord-grpc-server.cc:90-100 | After k retried attempts the polling continues as if it had started at attempt k. |
| Connection.PollStep | pktriggercord-grpc-server.cc:93-95 | A failed attempt that the timeout test allows hands over to the next attempt. |
| Connection.NegativeTimeoutSingleAttempt | pktriggercord-grpc-server.cc:93-98 | With a negative timeout, the first failed `pslr_init` ends the loop with the timeout message. There is one `pslr_init` and no sleep. |
| Connection.ZeroTimeoutNeverTimesOut | pktriggercord-grpc-server.cc:93 | A timeout of 0 never ends in failure without a handle from `pslr_init`. |
| Connection.RetryCallsOnly | pktriggercord-grpc-server.cc:90-95 | The retries call only `pslr_init` and `sleep_sec(1)`. |
| Connection.RetryInitCount | pktriggercord-grpc-server.cc:90-95 | k retries make k `pslr_init` calls. |
| Connection.ConnectTriedOnce | pktriggercord-grpc-server.cc:103-104 | Once `pslr_init` has given a handle, `pslr_connect` is called exactly once, last, and on that handle. `pslr_init` has then been called once per attempt. |
| Connection.ConnectResultMessages | pktriggercord-grpc-server.cc:104-113 | `pslr_connect` returning 0 connects. -1 fails with the unknown-camera text, and any other nonzero value fails with the run-as-root text. |
| BufferTransfer.ChunkAt | pktriggercord-grpc-server.cc:301 | The size read number i returns. `ReadCount` and `ReadToEnd` state how the loop uses it. |
| BufferTransfer.ReadCount | pktriggercord-grpc-server.cc:298-304 | The loop makes at most one read more than the listed sizes. Its last read returns 0 and every earlier one a nonzero size. |
| BufferTransfer.ReadToEnd | pktriggercord-grpc-server.cc:297-307 | The read loop makes `ReadCount` reads, totals the nonzero sizes modulo 2^32 in `current`, and calls only `pslr_buffer_read(h, buf, 65536)`. |
| BufferTransfer.ReadsBeforeZero | pktriggercord-grpc-server.cc:301-304 | When read k is the first to return 0, the loop makes k + 1 reads. |
| BufferTransfer.SumStep | pktriggercord-grpc-server.cc:306 | `current += bytes` on a `uint32_t` adds the size modulo 2^32. |
| BufferTransfer.TransferSpec | pktriggercord-grpc-server.cc:288-309 | The reply and calls of the transfer. It is stated by `OpenFailureNeverCloses`, `OpenedBufferClosedOnce` and `TransferBuffer`. |
| BufferTransfer.TransferBuffer | pktriggercord-grpc-server.cc:288-309 | The transfer's reply and calls are those of `TransferSpec`. |
| BufferTransfer.OpenFailureNeverCloses | pktriggercord-grpc-server.cc:288-292 | A failed `pslr_buffer_open` gives (1, "can't open buffer"), and `pslr_buffer_close` is never called. |
| BufferTransfer.OpenedBufferClosedOnce | pktriggercord-grpc-server.cc:293-308 | An opened buffer gives (0, "open buffer"). `pslr_buffer_close` is called exactly once, as the last call, after exactly `ReadCount` reads. |
| BufferTransfer.EndsWithZero | pktriggercord-grpc-server.cc:298-307 | For sizes ending in their only 0, the loop reads each size once, and `current` totals all the sizes. |
| Dispatcher.CheckCamera | pktriggercord-grpc-server.cc:135-141 | `check_camera` holds exactly when the session is not NULL. It is stated by `DisconnectedCameraCommand` and `CameraCommandWithSession`. |
| Dispatcher.Respond | pktriggercord-grpc-server.cc:157-362 | The reply of the selected branch, before the fallback. It is stated by the `DispatchProperties` lemmas. |
| Dispatcher.Fallback | pktriggercord-grpc-server.cc:363-366 | An empty message becomes (101, "Camera Disconnected"). It is stated by `ReplyNeverEmpty`. |
| Dispatcher.Dispatch | pktriggercord-grpc-server.cc:143-366 | The reply, new session, driver calls and exit flag of one `GetCamStatus` call. It is stated by `GetCamStatus` and the `DispatchProperties` lemmas. |
| Dispatcher.CloseIfOpen | pktriggercord-grpc-server.cc:158-167 | `camera_close` when a handle is held, and no call otherwise. `StopServerCloses` and `DisconnectKeepsHandle` state its use. |
| Dispatcher.ShutterCalls | pktriggercord-grpc-server.cc:334-336 | One `pslr_set_shutter` with the decoded speed when there is one to send, and no call otherwise. `ShutterSentUnlessZero` states when that is. |
| Dispatcher.IsoCalls | pktriggercord-grpc-server.cc:353 | One `pslr_set_iso` with the decoded values as `uint32_t` when there are values to send, and no call otherwise. `IsoSentUnlessInvalid` states when that is. |
| Dispatcher.CameraAction | pktriggercord-grpc-server.cc:190-358 | The reply and calls of each camera branch once `check_camera` has passed. The method `CameraCommand` is proved equal to it. `LensNameAction`, `BufferAction`, `ShutterAction` and `IsoAction` state particular branches. |
| Dispatcher.DispatchCommand | pktriggercord-grpc-server.cc:157-366 | A parsed command's branch followed by the empty-message fallback. The method `Perform` is proved equal to it. `CameraCommandWithSession`, `CameraCommandWithoutSession` and `CommandKeepsHandle` state its cases. |
| Dispatcher.CameraCommand | pktriggercord-grpc-server.cc:190-358 | The camera commands, performed with a session open, give the reply and calls of `CameraAction`. |
| Dispatcher.PkCameraServer.constructor | pktriggercord-grpc-server.cc:372 | The service starts without a session, not stopped, with no calls made. |
| Dispatcher.PkCameraServer.GetCamStatus | pktriggercord-grpc-server.cc:143-368 | The reply is that of `Dispatch` on the previous session. `camhandle` becomes the session `Dispatch` leaves, and the log grows by exactly the calls `Dispatch` makes. |
| Dispatcher.PkCameraServer.Perform | pktriggercord-grpc-server.cc:157-366 | Each branch of the chain, followed by the empty-message fallback, agrees with `DispatchCommand`. |
| DispatchProperties.ReplyNeverEmpty | pktriggercord-grpc-server.cc:363-366 | The reply's message is never empty. It is either the branch's own reply or (101, "Camera Disconnected"). |
| DispatchProperties.DisconnectedCameraCommand | pktriggercord-grpc-server.cc:135-141 | Without a session every camera command makes no driver call, keeps the session NULL and replies (101, "Camera Disconnected"). |
| DispatchProperties.UnknownCommand | pktriggercord-grpc-server.cc:359-362 | A command that matches no name replies (101, "INVALID CMD"), makes no call and keeps the session. |
| DispatchProperties.HandleNeverCleared | pktriggercord-grpc-server.cc:157-189 | No command sets an open session back to NULL, and only `connect` opens one. |
| DispatchProperties.EchoInAnyState | pktriggercord-grpc-server.cc:170-173 | For every name whose C string is `echo <arg>`, in any session state, it replies 0 with the first 100 characters of `arg` and a newline. It makes no call. |
| DispatchProperties.UsleepInAnyState | pktriggercord-grpc-server.cc:174-178 | For every name whose C string is `usleep <arg>`, in any session state, it sleeps for `atoi(arg)` microseconds as `useconds_t`, and replies (0, "Sleeping"). |
| DispatchProperties.StopServerCloses | pktriggercord-grpc-server.cc:157-163 | `stopserver` closes an open session with `pslr_disconnect` then `pslr_shutdown`, replies (0, "END") and ends the server. |
| DispatchProperties.DisconnectKeepsHandle | pktriggercord-grpc-server.cc:164-169 | `disconnect` closes an open session but keeps its handle, and replies (0, "disconnect"). |
| DispatchProperties.FocusUsesHandle | pktriggercord-grpc-server.cc:247-252 | With a session open, `focus` calls `pslr_focus` once on its handle and replies (0, "Focusing"). |
| DispatchProperties.ClosedHandleStillUsed | pktriggercord-grpc-server.cc:164-169 | After `disconnect` has shut the handle down, a following `focus` still passes `check_camera` and calls `pslr_focus` on the same handle. |
| DispatchProperties.ConnectIdempotent | pktriggercord-grpc-server.cc:180-182 | With a session open, `connect` replies (0, "connected") and calls nothing. |
| DispatchProperties.ConnectWithoutSession | pktriggercord-grpc-server.cc:183-189 | Without a session, `connect` makes one `pslr_init`, then one `pslr_connect` if that gives a handle. The handle is stored, with (0, "connected"), exactly when both succeed. Otherwise the reply is (1, "NOT connected") and the session stays NULL. |
| DispatchProperties.ConnectTwice | pktriggercord-grpc-server.cc:179-189 | When a first `connect` succeeds, a second one makes no call, so the pair makes exactly one `pslr_init`. |
| DispatchProperties.EmptyLensNameReportsDisconnected | pktriggercord-grpc-server.cc:205-210 | An empty lens name from the driver, with a session open, leaves the message empty. The fallback then reports (101, "Camera Disconnected"). |
| DispatchProperties.GetBufferTransfers | pktriggercord-grpc-server.cc:284-309 | With a session open, a command whose C string is `get_buffer <arg>` performs the transfer of buffer `atoi(arg)` and replies, and calls, what the transfer gives. |
| DispatchProperties.BareGetBufferOpensBufferZero | pktriggercord-grpc-server.cc:284-288 | `get_buffer` with no argument transfers buffer `atoi("get_buffer")`, that is 0. |
| DispatchProperties.ShutterSentUnlessZero | pktriggercord-grpc-server.cc:311-338 | `set_shutter_speed <arg>` with a session open replies what the decoder gives. It calls `pslr_set_shutter` once, with the decoded speed, exactly when the numerator is nonzero. |
| DispatchProperties.BareSetIsoRejected | pktriggercord-grpc-server.cc:339-351 | With a session open, bare `set_iso` replies (2, "1 Invalid iso value.\n"), calls nothing and keeps the session. |
| DispatchProperties.IsoSentUnlessInvalid | pktriggercord-grpc-server.cc:339-358 | `set_iso <arg>` with a session open replies what the decoder gives. It calls `pslr_set_iso` once with the values as `uint32_t`, exactly unless ISO and the lower bound are both 0. |

## Left out

- `RunServer` and `main` set up gRPC and listen on the network. They are not modelled.
- Time:
  - `gettimeofday` and `timeval_diff_sec` are not modelled. Each failed `pslr_init` attempt comes with the time elapsed so far, in whole microseconds.
  - Elapsed time is a natural number, so a clock that runs backwards is not modelled.
  - The floating-point comparison at line 93 is taken as exact.
- Calls of `GetCamStatus` are taken one at a time. gRPC's synchronous server may run overlapping calls on different threads, and these race on the unguarded `camhandle`. That is not modelled, so `ConnectIdempotent`, `ConnectTwice` and `HandleNeverCleared` hold only for calls that do not overlap.
- `sleep_sec(1)` and `usleep` cause no delay. They are only recorded as driver calls.
- `exit(0)` in `stopserver` becomes the `stopped` flag. The model gives `stopserver` the reply (0, "END") it sets, although the process exits before sending it. `GetCamStatus` requires a server that has not stopped.
- Connection.CameraConnect: the attempt sequence is finite, so the model has a third outcome, `Polling`, for a run that never ends within the attempts given.
- The driver (`pslr_*`, `get_lens_name`, `format_rational`) is not modelled:
  - its results, and the strings it returns, come from `Answers`;
  - the preview image payload is not modelled; its sending is commented out in the source.
- `get_current_aperture` uses `format_rational` with `"%.1f"`. That text is a driver string.
- `pslrstatus` is an uninitialised local in each call. Its fields are arbitrary values in `Answers.snapshot`, and nothing carries over from `update_status`.
- CText.ScanDecimal: `%f` accepts only an optional sign, digits and an optional fraction. It does not accept exponents, `inf`, `nan` or hexadecimal forms.
- CText.ScanDecimal: the value is an exact real. The rounding of a `float` is not modelled, so `F * 10` and its truncation are exact.
- CText.Atoi: the value is an exact integer. Overflow of `int` in `atoi` and `%d` is undefined in C and is not modelled.
- Codecs.DecodeShutter: the conversion of the `float` F to the `int` fields of the shutter speed (lines 321 and 324) is undefined in C when F is outside the range of `int`. The model keeps the exact truncated value.
- BufferTransfer.ReadCount: every read after the listed sizes returns 0, so every modelled transfer ends. With a driver whose `pslr_buffer_read` never returns 0, the `while (1)` loop at lines 298-307 never ends. `TransferSpec` and `OpenedBufferClosedOnce` therefore describe only transfers that end.
- Printing a `uint32_t` with `%d` is modelled as printing the signed value that was read. This holds for every value that fits in an `int`.
- CText.ScanInt: the contract does not say that the rest is a suffix of the input. `ScanSignedDigits` and `ScanFormattedInt` give the exact rest for blanks, a sign and digits.
- CText.ScanDecimal: the contract does not say when `%f` fails or that the rest is a suffix of the input. `ScanSignedDecimal` with `UnsignedFraction` or `UnsignedWhole`, and `ScanPointNumber` and `ScanDecimalFormattedInt`, give the value and the exact rest for blanks, a sign, digits and an optional fraction.
- Messages longer than `buf[2100]` would overflow the buffer. This is not modelled.
- Strings are sequences of `char`, one per byte of the C string. No encoding is modelled.
- `camera_connect` is always called with `model` and `device` NULL. Those arguments are not modelled.
- The text `camera_connect` writes into `buf` on failure is not kept, because the `connect` branch replaces it with "NOT connected".
- `_currentStatus` and the constructor's `db` argument are never used. They are not modelled.
