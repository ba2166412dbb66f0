/**
 * The argument decoders of `set_shutter_speed` and `set_iso`, and what each
 * command then replies and sends to the camera.
 */
module Codecs {
  import opened Options
  import opened CText

  /** `pslr_rational_t`. */
  datatype Rational = Rational(nom: int, denom: int)

  /** `sscanf(arg, "1/%d%c", ...) == 1`: "1/", a number, and nothing after it. */
  function ScanFraction(arg: string): Option<int> {
    if |arg| >= 2 && arg[..2] == "1/" then
      match ScanInt(arg[2..])
      case Some((d, rest)) => if rest == [] then Some(d) else None
      case None => None
    else None
  }

  /** `sscanf(arg, "%f%c", ...) == 1`: a number and nothing after it. */
  function ScanLoneDecimal(arg: string): Option<real> {
    match ScanDecimal(arg)
    case Some((f, rest)) => if rest == [] then Some(f) else None
    case None => None
  }

  /**
   * The shutter speed `set_shutter_speed` reads: `1/<n>` is {1, n}; a lone
   * number F below 2 is {F*10, 10}, any other lone number {F, 1}, both
   * truncated toward zero; anything else is None (invalid).
   */
  function DecodeShutter(arg: string): Option<Rational> {
    match ScanFraction(arg)
    case Some(d) => Some(Rational(1, d))
    case None =>
      match ScanLoneDecimal(arg)
      case Some(f) => if f < 2.0 then Some(Rational(Trunc(f * 10.0), 10)) else Some(Rational(Trunc(f), 1))
      case None => None
  }

  /** The reply text of a command and the setting it sends, if any. */
  datatype Setting<T> = Setting(status: int, msg: string, send: Option<T>)

  const InvalidShutter: string := "1 Invalid shutter speed value.\n"
  const InvalidIso: string := "1 Invalid iso value.\n"

  /**
   * What `set_shutter_speed <arg>` replies and sends with a camera connected.
   * The `1/<n>` branch never sets the status, which keeps the reply's initial 0.
   */
  function ShutterSetting(arg: string): (r: Setting<Rational>)
    ensures r.msg != []
    ensures r.status == 2 <==> DecodeShutter(arg).None?
    ensures r.status == 2 ==> r.msg == InvalidShutter && r.send.None?
    ensures r.status != 2 ==>
      var s := DecodeShutter(arg).value;
      && r.status == 0
      && r.msg == "0 " + IntToString(s.nom) + " " + IntToString(s.denom) + "\n"
      && r.send == (if s.nom != 0 then Some(s) else None)
  {
    match DecodeShutter(arg)
    case None => Setting(2, InvalidShutter, None)
    case Some(s) =>
      Setting(0, "0 " + IntToString(s.nom) + " " + IntToString(s.denom) + "\n",
              if s.nom != 0 then Some(s) else None)
  }

  /** `1/<n>` with nothing after it decodes to {1, n}. */
  lemma ShutterFraction(n: int)
    ensures DecodeShutter("1/" + IntToString(n)) == Some(Rational(1, n))
  {
    var arg := "1/" + IntToString(n);
    assert arg[..2] == "1/";
    assert arg[2..] == IntToString(n) + "";
    ScanFormattedInt(n, "");
  }

  /** A whole number F reads as {10F, 10} below 2 and as {F, 1} from 2 on. */
  lemma ShutterWholeSeconds(n: int)
    ensures DecodeShutter(IntToString(n)) ==
      if n < 2 then Some(Rational(10 * n, 10)) else Some(Rational(n, 1))
  {
    ScanDecimalFormattedInt(n);
    PrintedNotFraction(n);
    DecodeLoneDecimal(IntToString(n), n as real);
    WholeTrunc(n);
  }

  /**
   * A number written with a decimal point, such as `0.5` or `1.25`, reads by
   * the lone-number rule with its exact value: {trunc(F*10), 10} below 2 and
   * {trunc(F), 1} from 2 on.
   */
  lemma {:induction false} ShutterDecimalFraction(w: string, f: string)
    requires AllDigits(w) && AllDigits(f) && |w| + |f| > 0
    ensures var v := DigitsValue(w) as real + FractionValue(f);
      DecodeShutter(w + "." + f) ==
        if v < 2.0 then Some(Rational(Trunc(v * 10.0), 10)) else Some(Rational(Trunc(v), 1))
  {
    ScanPointNumber(w, f);
    PointNotFraction(w, f);
    DecodeLoneDecimal(w + "." + f, DigitsValue(w) as real + FractionValue(f));
  }

  /** A number with a decimal point has a digit or '.' where "1/" has its '/'. */
  lemma {:induction false} PointNotFraction(w: string, f: string)
    requires AllDigits(w) && AllDigits(f) && |w| + |f| > 0
    ensures ScanFraction(w + "." + f).None?
  {
    var arg := w + "." + f;
    assert |arg| < 2 || arg[0] != '1' || arg[1] != '/' by {
      if |arg| >= 2 {
        if w == [] { assert arg[0] == '.'; }
        else if |w| == 1 { assert arg[1] == '.'; }
        else { assert arg[1] == w[1]; }
      }
    }
    NotFraction(arg);
  }

  /** A printed number is a '-' or digits, so it never opens with "1/". */
  lemma PrintedNotFraction(n: int)
    ensures ScanFraction(IntToString(n)).None?
  {
    var arg := IntToString(n);
    var d := NatToString(if n < 0 then -n else n);
    IntToStringShape(n);
    assert |arg| < 2 || arg[0] != '1' || arg[1] != '/' by {
      if n >= 0 && |arg| >= 2 { assert arg[1] == d[1]; }
    }
    NotFraction(arg);
  }

  /** The two truncations of a whole number. */
  lemma WholeTrunc(n: int)
    ensures (if n as real < 2.0 then Some(Rational(Trunc(n as real * 10.0), 10))
             else Some(Rational(Trunc(n as real), 1))) ==
            (if n < 2 then Some(Rational(10 * n, 10)) else Some(Rational(n, 1)))
  {
    if n < 2 {
      assert n as real * 10.0 == (10 * n) as real;
      TruncOfInt(10 * n);
    } else {
      TruncOfInt(n);
    }
  }

  /** An argument that is not `1/<n>` but a lone decimal `f` decodes by the second rule. */
  lemma DecodeLoneDecimal(arg: string, f: real)
    requires ScanFraction(arg).None? && ScanDecimal(arg) == Some((f, ""))
    ensures DecodeShutter(arg) ==
      if f < 2.0 then Some(Rational(Trunc(f * 10.0), 10)) else Some(Rational(Trunc(f), 1))
  {
    assert ScanLoneDecimal(arg) == Some(f);
  }

  lemma TruncOfInt(m: int)
    ensures Trunc(m as real) == m
  {
  }

  /** Without "1/" at its head an argument is not a fraction. */
  lemma NotFraction(arg: string)
    requires |arg| < 2 || arg[0] != '1' || arg[1] != '/'
    ensures ScanFraction(arg).None?
  {
    if |arg| >= 2 {
      assert arg[..2][0] == arg[0] && arg[..2][1] == arg[1];
    }
  }

  /** The ISO setting `set_iso` reads. */
  datatype Iso = Iso(iso: int, min: int, max: int)

  /** `sscanf(arg, "%d-%d%c", ...) == 2`: a number, '-', a number and nothing after. */
  function ScanRange(arg: string): Option<(int, int)> {
    match ScanInt(arg)
    case Some((a, rest)) =>
      if rest != [] && rest[0] == '-' then
        match ScanInt(rest[1..])
        case Some((b, rest2)) => if rest2 == [] then Some((a, b)) else None
        case None => None
      else None
    case None => None
  }

  /** `<min>-<max>` is an auto-ISO range with ISO 0; anything else is `atoi(arg)` with range 0-0. */
  function DecodeIso(arg: string): Iso {
    match ScanRange(arg)
    case Some((a, b)) => Iso(0, a, b)
    case None => Iso(Atoi(arg), 0, 0)
  }

  /**
   * What `set_iso <arg>` replies and sends with a camera connected. The values
   * are `uint32_t`, printed with `%d` (so as the signed number read) and passed
   * to `pslr_set_iso` as unsigned.
   */
  function IsoSetting(arg: string): (r: Setting<Iso>)
    ensures r.msg != []
    ensures var s := DecodeIso(arg);
      r.status == 2 <==> s.iso == 0 && s.min == 0
    ensures r.status == 2 ==> r.msg == InvalidIso && r.send.None?
    ensures r.status != 2 ==>
      var s := DecodeIso(arg);
      && r.status == 0
      && r.send == Some(s)
      && r.msg == "0 " + IntToString(s.iso) + " " + IntToString(s.min) + "-" + IntToString(s.max) + "\n"
  {
    var s := DecodeIso(arg);
    if s.iso == 0 && s.min == 0 then Setting(2, InvalidIso, None)
    else Setting(0, "0 " + IntToString(s.iso) + " " + IntToString(s.min) + "-" + IntToString(s.max) + "\n", Some(s))
  }

  /** A printed range `<a>-<b>` reads back as the auto-ISO range {a, b}. */
  lemma IsoRange(a: int, b: int)
    ensures DecodeIso(IntToString(a) + "-" + IntToString(b)) == Iso(0, a, b)
  {
    var bs := IntToString(b);
    var rest := "-" + bs;
    assert rest[1..] == bs;
    assert bs + "" == bs;
    ScanFormattedInt(b, "");
    var arg := IntToString(a) + rest;
    assert arg == IntToString(a) + "-" + bs;
    ScanFormattedInt(a, rest);
    ScanRangeOf(arg, a, rest, b);
  }

  lemma ScanRangeOf(arg: string, a: int, rest: string, b: int)
    requires ScanInt(arg) == Some((a, rest))
    requires rest != [] && rest[0] == '-' && ScanInt(rest[1..]) == Some((b, ""))
    ensures ScanRange(arg) == Some((a, b))
  {
  }

  /** A printed number `<n>` reads back as the fixed ISO n with range 0-0. */
  lemma IsoFixed(n: int)
    ensures DecodeIso(IntToString(n)) == Iso(n, 0, 0)
  {
    assert IntToString(n) == IntToString(n) + "";
    ScanFormattedInt(n, "");
    AtoiFormatted(n, "");
  }

  /**
   * The range and the fixed value never both hold: a range forces ISO 0 and
   * a fixed value forces the range 0-0.
   */
  lemma IsoExclusive(arg: string)
    ensures DecodeIso(arg).iso == 0 || (DecodeIso(arg).min == 0 && DecodeIso(arg).max == 0)
  {
  }

}
