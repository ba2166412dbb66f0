/**
 * Recognising a raw command: `is_string_prefix` and the order in which
 * `GetCamStatus` tries the exact command names and the argument-taking
 * prefixes.
 */
module Commands {
  import opened Options

  /**
   * `is_string_prefix(str, prefix)` on C strings: NULL (None) unless `str`
   * begins with `prefix`; otherwise everything after `prefix` and one more
   * character, or the whole of `str` when nothing would be left. The character
   * after `prefix` is skipped without being looked at.
   */
  function IsStringPrefix(str: string, prefix: string): (r: Option<string>)
    ensures r.None? <==> !(prefix <= str)
    ensures r.Some? && |str| <= |prefix| + 1 ==> r.value == str
    ensures r.Some? && |str| > |prefix| + 1 ==> str == prefix + [str[|prefix|]] + r.value
  {
    if |prefix| <= |str| && str[..|prefix|] == prefix then
      if |str| <= |prefix| + 1 then Some(str) else Some(str[|prefix| + 1..])
    else None
  }

  /** A prefix, any one separator character and a non-empty argument give back that argument. */
  lemma PrefixArgument(prefix: string, sep: char, arg: string)
    requires arg != []
    ensures IsStringPrefix(prefix + [sep] + arg, prefix) == Some(arg)
  {
    var str := prefix + [sep] + arg;
    assert str[..|prefix|] == prefix;
    assert str[|prefix| + 1..] == arg;
  }

  /** With nothing after the separator, the "argument" is the whole command, prefix included. */
  lemma PrefixWithoutArgument(prefix: string, str: string)
    requires prefix <= str && |str| <= |prefix| + 1
    ensures IsStringPrefix(str, prefix) == Some(str)
  {
  }

  /** Commands that need an open camera session (`check_camera` guards them). */
  datatype CameraOp =
    | UpdateStatus
    | GetCameraName
    | GetLensName
    | GetCurrentShutterSpeed
    | GetCurrentAperture
    | GetCurrentIso
    | GetBufmask
    | GetAutoBracketMode
    | GetAutoBracketPictureCount
    | Focus
    | Shutter
    | DeleteBuffer(arg: string)
    | GetPreviewBuffer(arg: string)
    | GetBuffer(arg: string)
    | SetShutterSpeed(arg: string)
    | SetIso(arg: string)

  datatype Command =
    | StopServer
    | Disconnect
    | Echo(arg: string)
    | Usleep(arg: string)
    | Connect
    | Camera(op: CameraOp)
    | Unknown

  /** The command names compared with `strcmp`, in the order they are tried. */
  const ExactNames: seq<string> := [
    "stopserver", "disconnect", "connect", "update_status", "get_camera_name",
    "get_lens_name", "get_current_shutter_speed", "get_current_aperture",
    "get_current_iso", "get_bufmask", "get_auto_bracket_mode",
    "get_auto_bracket_picture_count", "focus", "shutter"]

  /** The command names matched with `is_string_prefix`, in the order they are tried. */
  const PrefixNames: seq<string> := [
    "echo", "usleep", "delete_buffer", "get_preview_buffer", "get_buffer",
    "set_shutter_speed", "set_iso"]

  /** The `if`/`else if` chain of `GetCamStatus`, first match wins. */
  function Parse(raw: string): Command {
    if raw == "stopserver" then StopServer
    else if raw == "disconnect" then Disconnect
    else if IsStringPrefix(raw, "echo").Some? then Echo(IsStringPrefix(raw, "echo").value)
    else if IsStringPrefix(raw, "usleep").Some? then Usleep(IsStringPrefix(raw, "usleep").value)
    else if raw == "connect" then Connect
    else if raw == "update_status" then Camera(UpdateStatus)
    else if raw == "get_camera_name" then Camera(GetCameraName)
    else if raw == "get_lens_name" then Camera(GetLensName)
    else if raw == "get_current_shutter_speed" then Camera(GetCurrentShutterSpeed)
    else if raw == "get_current_aperture" then Camera(GetCurrentAperture)
    else if raw == "get_current_iso" then Camera(GetCurrentIso)
    else if raw == "get_bufmask" then Camera(GetBufmask)
    else if raw == "get_auto_bracket_mode" then Camera(GetAutoBracketMode)
    else if raw == "get_auto_bracket_picture_count" then Camera(GetAutoBracketPictureCount)
    else if raw == "focus" then Camera(Focus)
    else if raw == "shutter" then Camera(Shutter)
    else if IsStringPrefix(raw, "delete_buffer").Some? then
      Camera(DeleteBuffer(IsStringPrefix(raw, "delete_buffer").value))
    else if IsStringPrefix(raw, "get_preview_buffer").Some? then
      Camera(GetPreviewBuffer(IsStringPrefix(raw, "get_preview_buffer").value))
    else if IsStringPrefix(raw, "get_buffer").Some? then
      Camera(GetBuffer(IsStringPrefix(raw, "get_buffer").value))
    else if IsStringPrefix(raw, "set_shutter_speed").Some? then
      Camera(SetShutterSpeed(IsStringPrefix(raw, "set_shutter_speed").value))
    else if IsStringPrefix(raw, "set_iso").Some? then
      Camera(SetIso(IsStringPrefix(raw, "set_iso").value))
    else Unknown
  }

  /**
   * A command is unknown exactly when it is none of the exact names and
   * starts with none of the prefixes.
   */
  lemma UnknownIff(raw: string)
    ensures Parse(raw) == Unknown <==>
      (forall i :: 0 <= i < |ExactNames| ==> raw != ExactNames[i]) &&
      (forall i :: 0 <= i < |PrefixNames| ==> !(PrefixNames[i] <= raw))
  {
    if forall i :: 0 <= i < |ExactNames| ==> raw != ExactNames[i] {
      ParseNonExact(raw);
      PrefixUnknownIff(raw);
    } else {
      ExactNameKnown(raw);
    }
  }

  /** An exact name is never unknown. */
  lemma ExactNameKnown(raw: string)
    requires exists i :: 0 <= i < |ExactNames| && raw == ExactNames[i]
    ensures Parse(raw) != Unknown
  {
    var i :| 0 <= i < |ExactNames| && raw == ExactNames[i];
    if i < 2 {
      assert raw == "stopserver" || raw == "disconnect";
    } else {
      assert !("echo" <= raw) by { assert raw[0] != 'e'; }
      assert !("usleep" <= raw) by { assert raw[0] != 'u' || raw[1] != 's'; }
    }
  }

  /** The prefix tests find nothing exactly when no prefix matches. */
  lemma PrefixUnknownIff(raw: string)
    ensures PrefixCommand(raw) == Unknown <==>
      forall i :: 0 <= i < |PrefixNames| ==> !(PrefixNames[i] <= raw)
  {
    if PrefixCommand(raw) == Unknown {
      forall i | 0 <= i < |PrefixNames| ensures !(PrefixNames[i] <= raw) {
        assert IsStringPrefix(raw, PrefixNames[i]).None?;
      }
    } else {
      var k := if IsStringPrefix(raw, "echo").Some? then 0
        else if IsStringPrefix(raw, "usleep").Some? then 1
        else if IsStringPrefix(raw, "delete_buffer").Some? then 2
        else if IsStringPrefix(raw, "get_preview_buffer").Some? then 3
        else if IsStringPrefix(raw, "get_buffer").Some? then 4
        else if IsStringPrefix(raw, "set_shutter_speed").Some? then 5
        else 6;
      assert IsStringPrefix(raw, PrefixNames[k]).Some?;
    }
  }

  /** Every argument-taking command hands over what follows its name and one separator. */
  lemma ArgumentCommands(sep: char, arg: string)
    requires arg != []
    ensures Parse("echo" + [sep] + arg) == Echo(arg)
    ensures Parse("usleep" + [sep] + arg) == Usleep(arg)
  {
    var e := "echo" + [sep] + arg;
    var u := "usleep" + [sep] + arg;
    assert e[0] == 'e' && u[0] == 'u';
    assert !("echo" <= u) by { assert u[0] != "echo"[0]; }
    PrefixArgument("echo", sep, arg);
    PrefixArgument("usleep", sep, arg);
  }

  /** `echo` alone echoes its own name. */
  lemma BareEcho()
    ensures Parse("echo") == Echo("echo")
  {
  }

  /**
   * A camera command that takes an argument receives, when given none, its own
   * name as the argument, so `delete_buffer` alone deletes buffer `atoi("delete_buffer")`.
   */
  lemma BareDeleteBuffer()
    ensures Parse("delete_buffer") == Camera(DeleteBuffer("delete_buffer"))
  {
    NotPrefixAt("echo", "delete_buffer", 0);
    NotPrefixAt("usleep", "delete_buffer", 0);
  }

  lemma BareGetBuffer()
    ensures Parse("get_buffer") == Camera(GetBuffer("get_buffer"))
  {
    NotPrefixAt("echo", "get_buffer", 0);
    NotPrefixAt("usleep", "get_buffer", 0);
    NotPrefixAt("delete_buffer", "get_buffer", 0);
    NotPrefixAt("get_preview_buffer", "get_buffer", 4);
  }

  /** The prefix tests of the chain alone, in their order. */
  function PrefixCommand(raw: string): Command {
    if IsStringPrefix(raw, "echo").Some? then Echo(IsStringPrefix(raw, "echo").value)
    else if IsStringPrefix(raw, "usleep").Some? then Usleep(IsStringPrefix(raw, "usleep").value)
    else if IsStringPrefix(raw, "delete_buffer").Some? then
      Camera(DeleteBuffer(IsStringPrefix(raw, "delete_buffer").value))
    else if IsStringPrefix(raw, "get_preview_buffer").Some? then
      Camera(GetPreviewBuffer(IsStringPrefix(raw, "get_preview_buffer").value))
    else if IsStringPrefix(raw, "get_buffer").Some? then
      Camera(GetBuffer(IsStringPrefix(raw, "get_buffer").value))
    else if IsStringPrefix(raw, "set_shutter_speed").Some? then
      Camera(SetShutterSpeed(IsStringPrefix(raw, "set_shutter_speed").value))
    else if IsStringPrefix(raw, "set_iso").Some? then
      Camera(SetIso(IsStringPrefix(raw, "set_iso").value))
    else Unknown
  }

  /** A command that is none of the exact names is decided by the prefix tests alone. */
  lemma ParseNonExact(raw: string)
    requires forall i :: 0 <= i < |ExactNames| ==> raw != ExactNames[i]
    ensures Parse(raw) == PrefixCommand(raw)
  {
    assert raw != ExactNames[0] && raw != ExactNames[1] && raw != ExactNames[2];
    assert raw != ExactNames[3] && raw != ExactNames[4] && raw != ExactNames[5];
    assert raw != ExactNames[6] && raw != ExactNames[7] && raw != ExactNames[8];
    assert raw != ExactNames[9] && raw != ExactNames[10] && raw != ExactNames[11];
    assert raw != ExactNames[12] && raw != ExactNames[13];
  }

  /** No exact name begins with "se", so the `set_` commands only meet the prefix tests. */
  lemma NoExactNameStartsSe(raw: string)
    requires |raw| >= 2 && raw[0] == 's' && raw[1] == 'e'
    ensures forall i :: 0 <= i < |ExactNames| ==> raw != ExactNames[i]
  {
    forall i | 0 <= i < |ExactNames| ensures raw != ExactNames[i] {
      assert ExactNames[i][0] != 's' || ExactNames[i][1] != 'e';
    }
  }

  /** `set_shutter_speed <arg>` reaches the shutter decoder with `arg`. */
  lemma SetShutterSpeedCommand(sep: char, arg: string)
    requires arg != []
    ensures Parse("set_shutter_speed" + [sep] + arg) == Camera(SetShutterSpeed(arg))
  {
    var raw := "set_shutter_speed" + [sep] + arg;
    assert raw[0] == 's' && raw[1] == 'e' && raw[4] == 's';
    NoExactNameStartsSe(raw);
    ParseNonExact(raw);
    NotPrefixAt("echo", raw, 0);
    NotPrefixAt("usleep", raw, 0);
    NotPrefixAt("delete_buffer", raw, 0);
    NotPrefixAt("get_preview_buffer", raw, 0);
    NotPrefixAt("get_buffer", raw, 0);
    PrefixArgument("set_shutter_speed", sep, arg);
  }

  /** `set_iso <arg>` reaches the ISO decoder with `arg`. */
  lemma SetIsoCommand(sep: char, arg: string)
    requires arg != []
    ensures Parse("set_iso" + [sep] + arg) == Camera(SetIso(arg))
  {
    var raw := "set_iso" + [sep] + arg;
    assert raw[0] == 's' && raw[1] == 'e' && raw[4] == 'i';
    NoExactNameStartsSe(raw);
    ParseNonExact(raw);
    NotPrefixAt("echo", raw, 0);
    NotPrefixAt("usleep", raw, 0);
    NotPrefixAt("delete_buffer", raw, 0);
    NotPrefixAt("get_preview_buffer", raw, 0);
    NotPrefixAt("get_buffer", raw, 0);
    NotPrefixAt("set_shutter_speed", raw, 4);
    PrefixArgument("set_iso", sep, arg);
  }

  /** `set_iso` alone reaches the ISO branch with its own name as the argument. */
  lemma BareSetIso()
    ensures Parse("set_iso") == Camera(SetIso("set_iso"))
  {
    var raw := "set_iso";
    NoExactNameStartsSe(raw);
    ParseNonExact(raw);
    NotPrefixAt("echo", raw, 0);
    NotPrefixAt("usleep", raw, 0);
    NotPrefixAt("delete_buffer", raw, 0);
    NotPrefixAt("get_preview_buffer", raw, 0);
    NotPrefixAt("get_buffer", raw, 0);
    NotPrefixAt("set_shutter_speed", raw, 4);
  }

  /** `delete_buffer <arg>` reaches its branch with `arg`. */
  lemma DeleteBufferCommand(sep: char, arg: string)
    requires arg != []
    ensures Parse("delete_buffer" + [sep] + arg) == Camera(DeleteBuffer(arg))
  {
    var raw := "delete_buffer" + [sep] + arg;
    assert raw[0] == 'd' && raw[1] == 'e';
    forall i | 0 <= i < |ExactNames| ensures raw != ExactNames[i] {
      assert ExactNames[i][0] != 'd' || ExactNames[i][1] != 'e';
    }
    ParseNonExact(raw);
    NotPrefixAt("echo", raw, 0);
    NotPrefixAt("usleep", raw, 0);
    PrefixArgument("delete_buffer", sep, arg);
  }

  /** `get_preview_buffer <arg>` reaches its branch with `arg`. */
  lemma GetPreviewBufferCommand(sep: char, arg: string)
    requires arg != []
    ensures Parse("get_preview_buffer" + [sep] + arg) == Camera(GetPreviewBuffer(arg))
  {
    var raw := "get_preview_buffer" + [sep] + arg;
    assert raw[0] == 'g' && raw[4] == 'p';
    forall i | 0 <= i < |ExactNames| ensures raw != ExactNames[i] {
      assert ExactNames[i][4] != 'p';
    }
    ParseNonExact(raw);
    NotPrefixAt("echo", raw, 0);
    NotPrefixAt("usleep", raw, 0);
    NotPrefixAt("delete_buffer", raw, 0);
    PrefixArgument("get_preview_buffer", sep, arg);
  }

  /** `get_buffer <arg>` reaches its branch with `arg`, past the `delete_buffer` and `get_preview_buffer` tests. */
  lemma GetBufferCommand(sep: char, arg: string)
    requires arg != []
    ensures Parse("get_buffer" + [sep] + arg) == Camera(GetBuffer(arg))
  {
    var raw := "get_buffer" + [sep] + arg;
    assert raw[0] == 'g' && raw[4] == 'b' && raw[7] == 'f';
    forall i | 0 <= i < |ExactNames| ensures raw != ExactNames[i] {
      assert ExactNames[i][4] != 'b' || ExactNames[i][7] != 'f';
    }
    ParseNonExact(raw);
    NotPrefixAt("echo", raw, 0);
    NotPrefixAt("usleep", raw, 0);
    NotPrefixAt("delete_buffer", raw, 0);
    NotPrefixAt("get_preview_buffer", raw, 4);
    PrefixArgument("get_buffer", sep, arg);
  }

  /** The commands the exact names stand for, in the order of `ExactNames`. */
  const ExactCommands: seq<Command> := [
    StopServer, Disconnect, Connect, Camera(UpdateStatus), Camera(GetCameraName),
    Camera(GetLensName), Camera(GetCurrentShutterSpeed), Camera(GetCurrentAperture),
    Camera(GetCurrentIso), Camera(GetBufmask), Camera(GetAutoBracketMode),
    Camera(GetAutoBracketPictureCount), Camera(Focus), Camera(Shutter)]

  /** Each exact name, given alone, selects its own command. */
  lemma ExactNameParses(i: nat)
    requires i < |ExactNames|
    ensures Parse(ExactNames[i]) == ExactCommands[i]
  {
    if i < 8 {
      ExactNameParsesBefore(i);
    } else {
      ExactNameParsesFrom(i);
    }
  }

  lemma ExactNameParsesBefore(i: nat)
    requires i < 8
    ensures Parse(ExactNames[i]) == ExactCommands[i]
  {
    var raw := ExactNames[i];
    if i >= 2 {
      NotPrefixAt("echo", raw, 0);
      NotPrefixAt("usleep", raw, 1);
    }
  }

  lemma ExactNameParsesFrom(i: nat)
    requires 8 <= i < |ExactNames|
    ensures Parse(ExactNames[i]) == ExactCommands[i]
  {
    var raw := ExactNames[i];
    NotPrefixAt("echo", raw, 0);
    NotPrefixAt("usleep", raw, 1);
  }

  lemma NotPrefixAt(p: string, s: string, i: nat)
    requires i < |p| && i < |s| && p[i] != s[i]
    ensures !(p <= s)
  {
  }
}
