/**
 * The pieces of the C library the dispatcher leans on, stated over strings:
 * the NUL-terminated view of a std::string, `atoi`, the `%d` and `%f`
 * conversions of `sscanf`, the `%d` and `%.Ns` conversions of `sprintf`,
 * and the truncation of a float to an int.
 *
 * One `char` of a Dafny string stands for one byte of the C string.
 */
module CText {
  import opened Options

  /** `isspace` in the "C" locale: space, \t, \n, \v, \f and \r. */
  predicate IsSpace(c: char) {
    c == ' ' || '\t' <= c <= '\r'
  }

  predicate IsDigit(c: char) {
    '0' <= c <= '9'
  }

  predicate AllDigits(s: string) {
    forall i :: 0 <= i < |s| ==> IsDigit(s[i])
  }

  function DigitValue(c: char): nat
    requires IsDigit(c)
  {
    c as int - '0' as int
  }

  function DigitChar(d: nat): (c: char)
    requires d < 10
    ensures IsDigit(c) && DigitValue(c) == d
  {
    ('0' as int + d) as char
  }

  /**
   * The C string that `&s[0]` denotes: the characters before the first NUL
   * (all of `s` when it holds none).
   */
  function CString(s: string): (r: string)
    ensures r <= s
    ensures '\0' !in r
    ensures |r| < |s| ==> s[|r|] == '\0'
  {
    if s == [] || s[0] == '\0' then [] else [s[0]] + CString(s[1..])
  }

  /** A string without a NUL is its own C string. */
  lemma {:induction false} CStringOfNulFree(s: string)
    requires '\0' !in s
    ensures CString(s) == s
  {
    if s != [] {
      assert '\0' !in s[1..];
      CStringOfNulFree(s[1..]);
    }
  }

  /** `%.Ns`: at most the first `n` characters of `s`. */
  function Precision(s: string, n: nat): (r: string)
    ensures r <= s
    ensures |r| == if |s| < n then |s| else n
  {
    if |s| <= n then s else s[..n]
  }

  /** Drops leading white space, as `strtol` and the `%d`/`%f` conversions do. */
  function SkipSpaces(s: string): (r: string)
    ensures |r| <= |s| && r == s[|s| - |r|..]
    ensures r == [] || !IsSpace(r[0])
  {
    if s != [] && IsSpace(s[0]) then SkipSpaces(s[1..]) else s
  }

  /** Everything `SkipSpaces` drops is white space. */
  lemma {:induction false} SkipSpacesDropsSpaces(s: string)
    ensures forall i :: 0 <= i < |s| - |SkipSpaces(s)| ==> IsSpace(s[i])
  {
    if s != [] && IsSpace(s[0]) {
      SkipSpacesDropsSpaces(s[1..]);
      forall i | 0 <= i < |s| - |SkipSpaces(s)| ensures IsSpace(s[i]) {
        if i > 0 { assert s[i] == s[1..][i - 1]; }
      }
    }
  }

  /** The number of leading decimal digits of `s`. */
  function DigitRun(s: string): (n: nat)
    ensures n <= |s|
    ensures AllDigits(s[..n])
    ensures n == |s| || !IsDigit(s[n])
  {
    if s != [] && IsDigit(s[0]) then
      assert s[..1 + DigitRun(s[1..])] == [s[0]] + s[1..][..DigitRun(s[1..])];
      1 + DigitRun(s[1..])
    else 0
  }

  /** The value of a string of decimal digits, most significant first. */
  function DigitsValue(d: string): nat
    requires AllDigits(d)
  {
    if d == [] then 0
    else
      assert AllDigits(d[..|d| - 1]);
      DigitsValue(d[..|d| - 1]) * 10 + DigitValue(d[|d| - 1])
  }

  /** Splits an optional leading sign off `t`: (negative?, the rest). */
  function SplitSign(t: string): (r: (bool, string))
    ensures r.1 == if t != [] && (t[0] == '-' || t[0] == '+') then t[1..] else t
    ensures r.0 <==> t != [] && t[0] == '-'
  {
    if t != [] && (t[0] == '-' || t[0] == '+') then (t[0] == '-', t[1..]) else (false, t)
  }

  /**
   * One `%d` conversion of `sscanf` (and the grammar `strtol` accepts in
   * base 10): white space, an optional sign, at least one digit. On success
   * the value and the unread rest of the input; None is a matching failure.
   */
  function ScanInt(s: string): (r: Option<(int, string)>)
    ensures r.None? <==> var u := SplitSign(SkipSpaces(s)).1; u == [] || !IsDigit(u[0])
    ensures r.Some? ==> |r.value.1| < |s|
    ensures r.Some? ==> r.value.1 == [] || !IsDigit(r.value.1[0])
  {
    var t := SkipSpaces(s);
    var (neg, u) := SplitSign(t);
    var k := DigitRun(u);
    if k == 0 then None
    else
      var m: int := DigitsValue(u[..k]);
      Some((if neg then -m else m, u[k..]))
  }

  /** `atoi`: the value `strtol` reads, or 0 when the input holds no number. */
  function Atoi(s: string): int {
    match ScanInt(s)
    case Some((v, _)) => v
    case None => 0
  }

  function Pow10(k: nat): (p: nat)
    ensures p >= 1
  {
    if k == 0 then 1 else 10 * Pow10(k - 1)
  }

  /**
   * One `%f` conversion of `sscanf`, restricted to plain decimal notation:
   * white space, an optional sign, digits with an optional fraction, at least
   * one digit in all. The value is exact (a `real`, not a `float`).
   */
  function ScanDecimal(s: string): (r: Option<(real, string)>)
    ensures r.Some? ==> |r.value.1| < |s|
    ensures r.Some? ==> r.value.1 == [] || !IsDigit(r.value.1[0])
  {
    var t := SkipSpaces(s);
    var (neg, u) := SplitSign(t);
    match UnsignedDecimal(u)
    case None => None
    case Some((v, rest)) => Some((if neg then -v else v, rest))
  }

  /** The value of the digits after a decimal point: `d` / 10^|d|. */
  function FractionValue(d: string): real
    requires AllDigits(d)
  {
    DigitsValue(d) as real / Pow10(|d|) as real
  }

  /** Digits with an optional fraction, at least one digit in all, and what follows them. */
  function UnsignedDecimal(u: string): (r: Option<(real, string)>)
    ensures r.Some? ==> |r.value.1| < |u|
    ensures r.Some? ==> r.value.1 == [] || !IsDigit(r.value.1[0])
  {
    var k := DigitRun(u);
    var whole := DigitsValue(u[..k]) as real;
    if k < |u| && u[k] == '.' then
      var w := u[k + 1..];
      var f := DigitRun(w);
      if k + f == 0 then None
      else
        Some((whole + FractionValue(w[..f]), w[f..]))
    else if k == 0 then None
    else Some((whole, u[k..]))
  }

  /** Conversion of a floating value to `int` in C: truncation toward zero. */
  function Trunc(x: real): (r: int)
    ensures x >= 0.0 ==> r >= 0 && r as real <= x < r as real + 1.0
    ensures x < 0.0 ==> r <= 0 && r as real - 1.0 < x <= r as real
  {
    if x >= 0.0 then x.Floor else -((-x).Floor)
  }

  /** Conversion of an `int` to a 32-bit unsigned value, as C does it (modulo 2^32). */
  function U32(x: int): (r: nat)
    ensures r < 0x1_0000_0000
    ensures 0 <= x < 0x1_0000_0000 ==> r == x
  {
    x % 0x1_0000_0000
  }

  /** The conversion keeps a value's residue modulo 2^32: -1 becomes 4294967295. */
  lemma U32Wraps(x: int)
    ensures U32(x) == U32(x + 0x1_0000_0000)
    ensures x < 0 && -0x1_0000_0000 <= x ==> U32(x) == x + 0x1_0000_0000
  {
    var m := 0x1_0000_0000;
    var q := x / m;
    assert x == q * m + x % m;
    assert x + m == (q + 1) * m + x % m;
  }

  /** The digits `%d` prints for a non-negative number. */
  function NatToString(n: nat): (s: string)
    ensures s != [] && AllDigits(s)
    ensures DigitsValue(s) == n
    ensures |s| == 1 || s[0] != '0'
    decreases n
  {
    if n < 10 then [DigitChar(n)]
    else
      var s := NatToString(n / 10) + [DigitChar(n % 10)];
      assert s[..|s| - 1] == NatToString(n / 10);
      s
  }

  /** What `%d` prints for an `int`. */
  function IntToString(n: int): (s: string)
    ensures s != []
    ensures s[0] == '-' <==> n < 0
  {
    if n < 0 then "-" + NatToString(-n) else NatToString(n)
  }

  lemma {:induction false} DigitRunOfDigits(d: string, rest: string)
    requires AllDigits(d)
    requires rest == [] || !IsDigit(rest[0])
    ensures DigitRun(d + rest) == |d|
  {
    if d == [] {
    } else {
      assert (d + rest)[1..] == d[1..] + rest;
      DigitRunOfDigits(d[1..], rest);
    }
  }

  /** A string that opens with a sign or a digit is unaffected by the white-space skip. */
  lemma SkipSpacesNone(s: string)
    requires s != [] && !IsSpace(s[0])
    ensures SkipSpaces(s) == s
  {
  }

  /** The printed form of `n`: its sign and its digits. */
  lemma IntToStringShape(n: int)
    ensures var d := NatToString(if n < 0 then -n else n);
      IntToString(n) == if n < 0 then "-" + d else d
    ensures !IsSpace(IntToString(n)[0])
    ensures SplitSign(IntToString(n)) == (n < 0, NatToString(if n < 0 then -n else n))
  {
    var d := NatToString(if n < 0 then -n else n);
    assert IsDigit(d[0]);
  }

  /** A run of digits followed by a non-digit scans as its value. */
  lemma ScanDigits(u: string, d: string, rest: string)
    requires d != [] && AllDigits(d)
    requires rest == [] || !IsDigit(rest[0])
    requires u == d + rest
    ensures DigitRun(u) == |d| && u[..|d|] == d && u[|d|..] == rest
  {
    DigitRunOfDigits(d, rest);
  }

  /** ScanInt on an input with no leading white space, in terms of its sign and digits. */
  lemma ScanIntUnfold(s: string, neg: bool, u: string, d: string, rest: string)
    requires SkipSpaces(s) == s && SplitSign(s) == (neg, u)
    requires d != [] && AllDigits(d) && DigitRun(u) == |d| && u[..|d|] == d && u[|d|..] == rest
    ensures var m: int := DigitsValue(d);
      ScanInt(s) == Some((if neg then -m else m, rest))
  {
  }

  /** A run of digits followed by a non-digit scans as its value. */
  lemma ScanUnsignedDigits(d: string, rest: string)
    requires d != [] && AllDigits(d)
    requires rest == [] || !IsDigit(rest[0])
    ensures ScanInt(d + rest) == Some((DigitsValue(d) as int, rest))
  {
    var u := d + rest;
    ScanDigits(u, d, rest);
    assert IsDigit(u[0]);
    assert SplitSign(u) == (false, u);
    SkipSpacesNone(u);
    ScanIntUnfold(u, false, u, d, rest);
  }

  /** A '-', a run of digits and a non-digit scan as the negated value. */
  lemma ScanNegativeDigits(d: string, rest: string)
    requires d != [] && AllDigits(d)
    requires rest == [] || !IsDigit(rest[0])
    ensures ScanInt("-" + d + rest) == Some((-(DigitsValue(d) as int), rest))
  {
    var u := d + rest;
    ScanDigits(u, d, rest);
    var s := "-" + d + rest;
    assert s == "-" + u;
    assert s[1..] == u;
    assert SplitSign(s) == (true, u);
    SkipSpacesNone(s);
    ScanIntUnfold(s, true, u, d, rest);
  }

  /** What `%d` prints, `%d` (and therefore `atoi`) reads back, up to the first non-digit. */
  lemma ScanFormattedInt(n: int, rest: string)
    requires rest == [] || !IsDigit(rest[0])
    ensures ScanInt(IntToString(n) + rest) == Some((n, rest))
  {
    var d := NatToString(if n < 0 then -n else n);
    IntToStringShape(n);
    if n < 0 {
      ScanNegativeDigits(d, rest);
    } else {
      ScanUnsignedDigits(d, rest);
    }
  }

  lemma AtoiFormatted(n: int, rest: string)
    requires rest == [] || !IsDigit(rest[0])
    ensures Atoi(IntToString(n) + rest) == n
  {
    ScanFormattedInt(n, rest);
  }

  /** What `%d` prints for an integer, `%f` reads back as that integer. */
  lemma ScanDecimalFormattedInt(n: int)
    ensures ScanDecimal(IntToString(n)) == Some((n as real, ""))
  {
    var d := NatToString(if n < 0 then -n else n);
    var s := IntToString(n);
    IntToStringShape(n);
    assert SplitSign(s) == (n < 0, d);
    SkipSpacesNone(s);
    UnsignedDecimalOfDigits(d);
    ScanDecimalUnfold(s, n < 0, d);
  }

  /** A whole run of digits is read by `%f` as its value, with nothing left. */
  lemma UnsignedDecimalOfDigits(d: string)
    requires d != [] && AllDigits(d)
    ensures UnsignedDecimal(d) == Some((DigitsValue(d) as real, ""))
  {
    DigitRunOfDigits(d, "");
    assert d + "" == d;
    assert d[..|d|] == d && d[|d|..] == "";
  }

  lemma ScanDecimalUnfold(s: string, neg: bool, u: string)
    requires SkipSpaces(s) == s && SplitSign(s) == (neg, u)
    ensures ScanDecimal(s) ==
      match UnsignedDecimal(u)
      case None => None
      case Some((v, rest)) => Some((if neg then -v else v, rest))
  {
  }

  /** The white space in front of anything that does not open with white space is all that is skipped. */
  lemma {:induction false} SkipBlanks(blanks: string, t: string)
    requires forall i :: 0 <= i < |blanks| ==> IsSpace(blanks[i])
    requires t == [] || !IsSpace(t[0])
    ensures SkipSpaces(blanks + t) == t
  {
    if blanks != [] {
      assert (blanks + t)[1..] == blanks[1..] + t;
      SkipBlanks(blanks[1..], t);
    }
  }

  lemma {:induction false} Associative(a: string, b: string, c: string)
    ensures a + b + c == a + (b + c)
  {
  }

  /** An optional sign as `strtol` and `sscanf` accept it. */
  predicate IsSign(sign: string) {
    sign == [] || (|sign| == 1 && (sign[0] == '-' || sign[0] == '+'))
  }

  /** Whether the sign is a minus. */
  predicate Minus(sign: string) {
    sign != [] && sign[0] == '-'
  }

  /** A sign in front of a digit or a '.' is split off as the sign it is, and the white-space skip leaves them alone. */
  lemma {:induction false} SplitSignOf(blanks: string, sign: string, u: string)
    requires forall i :: 0 <= i < |blanks| ==> IsSpace(blanks[i])
    requires IsSign(sign)
    requires u != [] && (IsDigit(u[0]) || u[0] == '.')
    ensures SplitSign(SkipSpaces(blanks + sign + u)) == (Minus(sign), u)
  {
    var t := sign + u;
    Associative(blanks, sign, u);
    if sign == [] {
      assert t == u;
      assert SplitSign(t) == (false, u);
    } else {
      assert t[0] == sign[0] && t[1..] == u;
      assert SplitSign(t) == (Minus(sign), u);
    }
    assert !IsSpace(t[0]);
    SkipBlanks(blanks, t);
    var r := SkipSpaces(blanks + sign + u);
    assert r == t;
  }

  lemma {:induction false} ScanIntAfter(s: string, neg: bool, u: string, d: string, rest: string)
    requires SplitSign(SkipSpaces(s)) == (neg, u)
    requires d != [] && AllDigits(d) && DigitRun(u) == |d| && u[..|d|] == d && u[|d|..] == rest
    ensures var m: int := DigitsValue(d);
      ScanInt(s) == Some((if neg then -m else m, rest))
  {
  }

  lemma {:induction false} ScanDecimalAfter(s: string, neg: bool, u: string, v: real, rest: string)
    requires SplitSign(SkipSpaces(s)) == (neg, u)
    requires UnsignedDecimal(u) == Some((v, rest))
    ensures ScanDecimal(s) == Some((if neg then -v else v, rest))
  {
  }

  /** White space, an optional sign, a run of digits and a non-digit: `%d` and `atoi` read the signed value. */
  lemma {:induction false} ScanSignedDigits(blanks: string, sign: string, d: string, rest: string)
    requires forall i :: 0 <= i < |blanks| ==> IsSpace(blanks[i])
    requires IsSign(sign)
    requires d != [] && AllDigits(d)
    requires rest == [] || !IsDigit(rest[0])
    ensures var m: int := DigitsValue(d);
      ScanInt(blanks + sign + d + rest) == Some((if Minus(sign) then -m else m, rest))
    ensures var m: int := DigitsValue(d);
      Atoi(blanks + sign + d + rest) == if Minus(sign) then -m else m
  {
    var u := d + rest;
    var s := blanks + sign + d + rest;
    Associative(blanks + sign, d, rest);
    ScanDigits(u, d, rest);
    assert IsDigit(u[0]);
    SplitSignOf(blanks, sign, u);
    ScanIntAfter(s, Minus(sign), u, d, rest);
  }

  /** Digits, a '.', digits (at least one digit in all) and a non-digit, read as whole + fraction / 10^|fraction|. */
  lemma {:induction false} UnsignedFraction(w: string, f: string, rest: string)
    requires AllDigits(w) && AllDigits(f) && |w| + |f| > 0
    requires rest == [] || !IsDigit(rest[0])
    ensures UnsignedDecimal(w + "." + f + rest) ==
      Some((DigitsValue(w) as real + FractionValue(f), rest))
  {
    FractionParts(w, f, rest);
    UnsignedDecimalPoint(w + "." + f + rest, |w|, |f|);
  }

  /** Where the two digit runs of digits, a '.', digits and a non-digit end. */
  lemma {:induction false} FractionParts(w: string, f: string, rest: string)
    requires AllDigits(w) && AllDigits(f)
    requires rest == [] || !IsDigit(rest[0])
    ensures var u := w + "." + f + rest;
      && DigitRun(u) == |w| && |w| < |u| && u[|w|] == '.' && u[..|w|] == w
      && DigitRun(u[|w| + 1..]) == |f| && u[|w| + 1..][..|f|] == f && u[|w| + 1..][|f|..] == rest
  {
    var tail := f + rest;
    var u := w + "." + f + rest;
    Associative(w + ".", f, rest);
    Associative(w, ".", tail);
    DigitRunOfDigits(w, "." + tail);
    assert u[..|w|] == w && u[|w|] == '.' && u[|w| + 1..] == tail;
    DigitRunOfDigits(f, rest);
    assert tail[..|f|] == f && tail[|f|..] == rest;
  }

  /** `UnsignedDecimal` on digits, a '.' and digits, with the two digit runs given. */
  lemma {:induction false} UnsignedDecimalPoint(u: string, k: nat, f: nat)
    requires DigitRun(u) == k && k < |u| && u[k] == '.'
    requires DigitRun(u[k + 1..]) == f && k + f > 0
    ensures UnsignedDecimal(u) ==
      Some((DigitsValue(u[..k]) as real + FractionValue(u[k + 1..][..f]), u[k + 1..][f..]))
  {
    var w := u[k + 1..];
    var whole := DigitsValue(u[..k]) as real;
    var v := whole + FractionValue(w[..f]);
    assert k + f != 0;
    assert UnsignedDecimal(u) == Some((v, w[f..]));
  }

  /** `%f` reads digits, a '.' and digits (at least one digit in all) as whole + fraction / 10^|fraction|, with nothing left. */
  lemma {:induction false} ScanPointNumber(w: string, f: string)
    requires AllDigits(w) && AllDigits(f) && |w| + |f| > 0
    ensures ScanDecimal(w + "." + f) == Some((DigitsValue(w) as real + FractionValue(f), ""))
  {
    var u := w + "." + f;
    assert u == w + "." + f + [];
    FractionParts(w, f, []);
    UnsignedDecimalPoint(u, |w|, |f|);
    assert u[0] == '.' || IsDigit(u[0]) by {
      if w != [] { assert u[0] == w[0]; }
    }
    SkipSpacesNone(u);
    assert SplitSign(u) == (false, u);
    ScanDecimalAfter(u, false, u, DigitsValue(w) as real + FractionValue(f), "");
  }

  /** A run of digits followed by neither a digit nor a '.' is read as a whole number. */
  lemma {:induction false} UnsignedWhole(d: string, rest: string)
    requires d != [] && AllDigits(d)
    requires rest == [] || (!IsDigit(rest[0]) && rest[0] != '.')
    ensures UnsignedDecimal(d + rest) == Some((DigitsValue(d) as real, rest))
  {
    ScanDigits(d + rest, d, rest);
  }

  /** White space and an optional sign in front of what `UnsignedDecimal` reads: `%f` reads it, signed. */
  lemma {:induction false} ScanSignedDecimal(blanks: string, sign: string, u: string, v: real, rest: string)
    requires forall i :: 0 <= i < |blanks| ==> IsSpace(blanks[i])
    requires IsSign(sign)
    requires UnsignedDecimal(u) == Some((v, rest))
    ensures ScanDecimal(blanks + sign + u) == Some((if Minus(sign) then -v else v, rest))
  {
    assert u != [] && (IsDigit(u[0]) || u[0] == '.');
    SplitSignOf(blanks, sign, u);
    ScanDecimalAfter(blanks + sign + u, Minus(sign), u, v, rest);
  }
}
