/**
 * Typical `set_shutter_speed` and `set_iso` arguments, and the edge cases
 * that the tests `shutter_speed.nom` and `iso == 0 && auto_iso_min == 0`
 * lead to.
 */
module CodecExamples {
  import opened Options
  import opened CText
  import opened Codecs

  /** `1/250` decodes to {1, 250}. */
  lemma ShutterFractionExample()
    ensures DecodeShutter("1/250") == Some(Rational(1, 250))
  {
    ShutterFraction(250);
    OneOver250();
  }

  /** The printed argument `1/250`, kept apart so the example stays cheap to check. */
  lemma OneOver250() ensures "1/" + IntToString(250) == "1/250" {
    Printed250();
  }

  /** `4` decodes to {4, 1}. */
  lemma ShutterWholeExample()
    ensures DecodeShutter("4") == Some(Rational(4, 1))
  {
    ShutterWholeSeconds(4);
  }

  /** `abc` is invalid: status 2, the invalid-value text, nothing sent. */
  lemma ShutterInvalidExample()
    ensures DecodeShutter("abc") == None
    ensures ShutterSetting("abc") == Setting(2, InvalidShutter, None)
  {
    var arg := "abc";
    assert SkipSpaces(arg) == arg;
    assert SplitSign(arg) == (false, arg);
    assert DigitRun(arg) == 0;
    assert UnsignedDecimal(arg) == None;
    ScanDecimalUnfold(arg, false, arg);
    NotFraction(arg);
  }

  /** `0` decodes to {0, 10}: status 0, text "0 0 10", and `pslr_set_shutter` is not called. */
  lemma ShutterZeroExample()
    ensures ShutterSetting("0") == Setting(0, "0 0 10\n", None)
  {
    ZeroDecodes();
    ZeroReply();
  }

  lemma ZeroDecodes()
    ensures DecodeShutter("0") == Some(Rational(0, 10))
  {
    ShutterWholeSeconds(0);
    assert IntToString(0) == "0";
  }

  lemma ZeroReply()
    ensures "0 " + IntToString(0) + " " + IntToString(10) + "\n" == "0 0 10\n"
  {
    Printed10();
    Joined5("0 ", IntToString(0), " ", IntToString(10), "\n", "0", "10", "0 0 10\n");
  }

  lemma OnePointFive()
    ensures DecodeShutter("1.5") == Some(Rational(15, 10))
  {
    var arg := "1.5";
    assert SkipSpaces(arg) == arg;
    assert SplitSign(arg) == (false, arg);
    OnePointFiveDigits();
    ScanDecimalUnfold(arg, false, arg);
    NotFraction(arg);
    DecodeLoneDecimal(arg, 1.5);
    assert Trunc(1.5 * 10.0) == 15;
  }

  lemma OnePointFiveDigits()
    ensures UnsignedDecimal("1.5") == Some((1.5, ""))
  {
    var u := "1.5";
    assert DigitRun(u) == 1 by { assert DigitRun(u[1..]) == 0; }
    assert u[..1] == "1" && u[2..] == "5";
    assert DigitRun("5") == 1;
    assert DigitsValue("1") == 1 && DigitsValue("5") == 5;
  }

  /** `400` is the fixed ISO 400 with range 0-0. */
  lemma IsoFixedExample()
    ensures DecodeIso("400") == Iso(400, 0, 0)
  {
    IsoFixed(400);
    Printed400();
  }

  /** `100-800` is ISO 0 with the auto range 100-800. */
  lemma IsoRangeExample()
    ensures DecodeIso("100-800") == Iso(0, 100, 800)
  {
    IsoRange(100, 800);
    Range100To800();
  }

  /** The empty argument is invalid and nothing is sent. */
  lemma IsoEmptyExample()
    ensures IsoSetting("") == Setting(2, InvalidIso, None)
  {
    assert ScanInt("") == None;
  }

  /**
   * A bare `set_iso` hands the decoder its own name, which `atoi` reads as 0:
   * the command is rejected and nothing is sent.
   */
  lemma IsoBareNameExample()
    ensures IsoSetting("set_iso") == Setting(2, InvalidIso, None)
  {
    var s := "set_iso";
    SkipSpacesNone(s);
    assert SplitSign(s) == (false, s);
    assert DigitRun(s) == 0;
    assert ScanInt(s) == None;
  }

  /**
   * Only ISO and the lower bound are tested: `0-800` is rejected although its
   * upper bound is set ...
   */
  lemma IsoZeroLowerBoundExample()
    ensures IsoSetting("0-800").status == 2
  {
    IsoRange(0, 800);
    Range0To800();
  }

  /** ... while `5-0` is sent as it is. */
  lemma IsoZeroUpperBoundExample()
    ensures IsoSetting("5-0") == Setting(0, "0 0 5-0\n", Some(Iso(0, 5, 0)))
  {
    IsoRange(5, 0);
    Range5To0();
    Reply0To5To0();
  }

  // The lemmas from here on only spell out the printed forms of the numbers
  // above (`%d` of 10, 100, 250, 400, 800, and the joined replies), one small
  // step each, so that the examples never ask the solver to evaluate
  // `IntToString` on a literal in a larger context.

  lemma Range0To800()
    ensures IntToString(0) + "-" + IntToString(800) == "0-800"
  {
    Printed800();
    Joined3(IntToString(0), "-", IntToString(800), "0", "800", "0-800");
  }

  lemma Range5To0()
    ensures IntToString(5) + "-" + IntToString(0) == "5-0"
  {
  }

  lemma Reply0To5To0()
    ensures "0 " + IntToString(0) + " " + IntToString(5) + "-" + IntToString(0) + "\n" == "0 0 5-0\n"
  {
  }

  lemma Printed10() ensures IntToString(10) == "10" {
    assert NatToString(10) == NatToString(1) + "0";
  }

  lemma Printed100() ensures IntToString(100) == "100" {
    Printed10();
    assert NatToString(100) == NatToString(10) + "0";
  }

  lemma Printed250() ensures IntToString(250) == "250" {
    assert NatToString(25) == NatToString(2) + "5";
    assert NatToString(250) == NatToString(25) + "0";
  }

  lemma Printed400() ensures IntToString(400) == "400" {
    assert NatToString(40) == NatToString(4) + "0";
    assert NatToString(400) == NatToString(40) + "0";
  }

  lemma Printed800() ensures IntToString(800) == "800" {
    assert NatToString(80) == NatToString(8) + "0";
    assert NatToString(800) == NatToString(80) + "0";
  }

  // Joining printed pieces, kept apart so that the literals stay small.
  lemma Range100To800()
    ensures IntToString(100) + "-" + IntToString(800) == "100-800"
  {
    Printed100();
    Printed800();
    Joined3(IntToString(100), "-", IntToString(800), "100", "800", "100-800");
  }

  lemma Joined3(a: string, b: string, c: string, a': string, c': string, r: string)
    requires a == a' && c == c' && a' + b + c' == r
    ensures a + b + c == r
  {
  }

  lemma Joined5(a: string, b: string, c: string, d: string, e: string, b': string, d': string, r: string)
    requires b == b' && d == d' && a + b' + c + d' + e == r
    ensures a + b + c + d + e == r
  {
  }
}
