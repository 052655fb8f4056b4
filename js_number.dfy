/** `Number.parseInt(string, radix)` as the ECMAScript algorithm defines it,
    over mathematical integers: `None` is the `NaN` it returns when no digit
    can be read. A radix of 0 is how an omitted radix arrives (ToInt32 of
    `undefined` is 0). */
module JsNumber {
  import opened Options
  import opened JsString

  /** The value of an alphanumeric character as a digit in any radix up to 36
      ('0'-'9', then 'a'-'z' or 'A'-'Z' for 10-35); 36 for every other
      character, which is a digit in no radix. */
  function DigitValue(c: char): (v: nat)
    ensures v <= 36
    ensures v < 10 <==> '0' <= c <= '9'
  {
    if '0' <= c <= '9' then c as nat - '0' as nat
    else if 'a' <= c <= 'z' then c as nat - 'a' as nat + 10
    else if 'A' <= c <= 'Z' then c as nat - 'A' as nat + 10
    else 36
  }

  predicate IsDigit(c: char, radix: nat) {
    DigitValue(c) < radix
  }

  predicate AllDecimalDigits(s: string) {
    forall i :: 0 <= i < |s| ==> '0' <= s[i] <= '9'
  }

  /** The length of the longest prefix of `s` made of radix-`radix` digits. */
  function DigitPrefixLength(s: string, radix: nat): (n: nat)
    ensures n <= |s|
  {
    if s != [] && IsDigit(s[0], radix) then 1 + DigitPrefixLength(s[1..], radix) else 0
  }

  /** DigitPrefixLength measures a run of digits that cannot be extended. */
  lemma {:induction false} DigitPrefixIsLongest(s: string, radix: nat)
    ensures var n := DigitPrefixLength(s, radix);
      && (forall i :: 0 <= i < n ==> IsDigit(s[i], radix))
      && (n == |s| || !IsDigit(s[n], radix))
  {
    if s != [] && IsDigit(s[0], radix) {
      DigitPrefixIsLongest(s[1..], radix);
      var n := DigitPrefixLength(s, radix);
      forall i | 1 <= i < n ensures IsDigit(s[i], radix) {
        assert s[i] == s[1..][i - 1];
      }
      if n < |s| { assert s[n] == s[1..][n - 1]; }
    }
  }

  /** A string of `n` digits followed by a non-digit or the end has a digit
      prefix of length exactly `n`. */
  lemma {:induction false} DigitPrefixLengthOf(s: string, n: nat, radix: nat)
    requires n <= |s|
    requires forall i :: 0 <= i < n ==> IsDigit(s[i], radix)
    requires n == |s| || !IsDigit(s[n], radix)
    ensures DigitPrefixLength(s, radix) == n
  {
    if n > 0 {
      DigitPrefixLengthOf(s[1..], n - 1, radix);
    }
  }

  /** The value of a digit string, read most significant digit first
      (Horner's rule: each further digit multiplies what was read by the radix). */
  function DigitsValue(z: string, radix: nat): nat {
    if z == [] then 0 else DigitsValue(z[..|z| - 1], radix) * radix + DigitValue(z[|z| - 1])
  }

  function Pow(b: nat, e: nat): nat {
    if e == 0 then 1 else b * Pow(b, e - 1)
  }

  /** The positional value of a digit string: the sum over its digits of the
      digit times the radix raised to the digit's place. */
  function PositionalValue(z: string, radix: nat): nat {
    if z == [] then 0 else DigitValue(z[0]) * Pow(radix, |z| - 1) + PositionalValue(z[1..], radix)
  }

  /** The `-1` or `1` that a leading minus sign selects. */
  function Sign(t: string): int {
    if |t| > 0 && t[0] == '-' then -1 else 1
  }

  /** The string without one leading `+` or `-`. */
  function DropSign(t: string): (u: string)
    ensures u == t || (|t| > 0 && u == t[1..])
  {
    if |t| > 0 && (t[0] == '+' || t[0] == '-') then t[1..] else t
  }

  predicate HasHexPrefix(u: string) {
    |u| >= 2 && u[0] == '0' && (u[1] == 'x' || u[1] == 'X')
  }

  /** `Number.parseInt(s, radix)`: skip leading white space, read an optional
      sign, drop a `0x`/`0X` prefix when the radix is omitted or 16 (and then
      read hexadecimal), and read the longest run of digits that follows; no
      digit gives `NaN`, and a radix outside 2..36 other than 0 gives `NaN`. */
  function ParseInt(s: string, radix: int): (r: Option<int>)
    ensures radix != 0 && (radix < 2 || radix > 36) ==> r == None
  {
    if radix != 0 && (radix < 2 || radix > 36) then None
    else ParseSigned(TrimStart(s), radix)
  }

  /** The parse of text that starts after the white space. */
  function ParseSigned(t: string, radix: nat): Option<int> {
    match ParseMagnitude(DropSign(t), radix)
    case None => None
    case Some(m) => Some(Sign(t) * m)
  }

  /** The parse of the digits after the sign. */
  function ParseMagnitude(u: string, radix: nat): Option<nat> {
    if (radix == 0 || radix == 16) && HasHexPrefix(u) then ReadDigits(u[2..], 16)
    else ReadDigits(u, if radix == 0 then 10 else radix)
  }

  /** The value of the longest run of digits at the start of `v`, or `None`
      when `v` does not start with a digit. */
  function ReadDigits(v: string, radix: nat): Option<nat> {
    var n := DigitPrefixLength(v, radix);
    if n == 0 then None else Some(DigitsValue(v[..n], radix))
  }

  /** The decimal numeral of a natural number, with no leading zero. */
  function ShowDecimal(n: nat): (s: string)
    ensures |s| >= 1 && AllDecimalDigits(s)
    ensures |s| > 1 ==> s[0] != '0'
  {
    if n < 10 then [('0' as nat + n) as char]
    else ShowDecimal(n / 10) + [('0' as nat + n % 10) as char]
  }

  // ---------------------------------------------------------------------------
  // Properties of the digit readers

  /** Appending a digit multiplies the positional value by the radix and adds
      the digit. */
  lemma {:induction false} PositionalValueSnoc(a: string, c: char, radix: nat)
    ensures PositionalValue(a + [c], radix) == PositionalValue(a, radix) * radix + DigitValue(c)
  {
    if a == [] {
      assert a + [c] == [c];
      assert [c][1..] == [];
    } else {
      var ac := a + [c];
      var k := |a| - 1;
      assert ac[0] == a[0] && ac[1..] == a[1..] + [c];
      PositionalValueSnoc(a[1..], c, radix);
      var d, p, rest := DigitValue(a[0]), Pow(radix, k), PositionalValue(a[1..], radix);
      assert Pow(radix, k + 1) == radix * p;
      assert PositionalValue(ac, radix) == d * (radix * p) + (rest * radix + DigitValue(c));
      Distribute(d, radix, p, rest);
    }
  }

  lemma Distribute(d: nat, r: nat, p: nat, rest: nat)
    ensures d * (r * p) + rest * r == (d * p + rest) * r
  {
    calc {
      (d * p + rest) * r;
      (d * p) * r + rest * r;
      d * (r * p) + rest * r;
    }
  }

  /** Reading digits with Horner's rule gives their positional value. */
  lemma {:induction false} DigitsValueIsPositional(z: string, radix: nat)
    ensures DigitsValue(z, radix) == PositionalValue(z, radix)
  {
    if z != [] {
      var init := z[..|z| - 1];
      DigitsValueIsPositional(init, radix);
      PositionalValueSnoc(init, z[|z| - 1], radix);
      assert init + [z[|z| - 1]] == z;
    }
  }

  /** Reading a numeral back gives the number. */
  lemma {:induction false} DigitsValueOfShowDecimal(n: nat)
    ensures DigitsValue(ShowDecimal(n), 10) == n
  {
    var s := ShowDecimal(n);
    if n >= 10 {
      DigitsValueOfShowDecimal(n / 10);
      assert s[..|s| - 1] == ShowDecimal(n / 10);
    }
  }

  // ---------------------------------------------------------------------------
  // Properties of ParseInt

  /** With no white space, sign or hexadecimal prefix in front, a decimal
      parse is a plain read of the leading digits. */
  lemma ParseIntUnsigned(s: string, radix: int)
    requires radix == 0 || radix == 10
    requires TrimStart(s) == s && DropSign(s) == s
    requires radix == 10 || !HasHexPrefix(s)
    ensures ParseInt(s, radix) == ReadDigits(s, 10)
  {
    assert ParseMagnitude(s, radix) == ReadDigits(s, 10);
    assert Sign(s) == 1;
  }

  /** A leading minus sign negates what the digits after it read. */
  lemma ParseIntNegated(s: string, radix: int)
    requires radix == 0 || radix == 10
    requires radix == 10 || !HasHexPrefix(s)
    requires ReadDigits(s, 10).Some?
    ensures ParseInt("-" + s, radix) == Some(-(ReadDigits(s, 10).value as int))
  {
    var t := "-" + s;
    assert t[0] == '-' && !IsWhiteSpace(t[0]);
    assert TrimStart(t) == t;
    assert t[1..] == s;
    assert DropSign(t) == s && Sign(t) == -1;
    assert ParseMagnitude(s, radix) == ReadDigits(s, 10);
  }

  /** A run of decimal digits reads as its Horner value. */
  lemma ReadAllDigits(s: string)
    requires |s| >= 1 && AllDecimalDigits(s)
    ensures ReadDigits(s, 10) == Some(DigitsValue(s, 10))
  {
    DigitPrefixLengthOf(s, |s|, 10);
    assert s[..|s|] == s;
  }

  /** A non-empty string of decimal digits parses, with radix 10 or with the
      radix omitted, to its positional base-10 value: for instance "481" gives
      481, and "08" gives 8 (no octal reading). */
  lemma ParseIntOfDigits(s: string, radix: int)
    requires radix == 0 || radix == 10
    requires |s| >= 1 && AllDecimalDigits(s)
    ensures ParseInt(s, radix) == Some(PositionalValue(s, 10))
  {
    assert !IsWhiteSpace(s[0]);
    ParseIntUnsigned(s, radix);
    ReadAllDigits(s);
    DigitsValueIsPositional(s, 10);
  }

  /** Parsing undoes printing, for both signs. */
  lemma ParseIntShowDecimal(n: nat, radix: int)
    requires radix == 0 || radix == 10
    ensures ParseInt(ShowDecimal(n), radix) == Some(n)
    ensures ParseInt("-" + ShowDecimal(n), radix) == Some(-(n as int))
  {
    var s := ShowDecimal(n);
    ShowDecimalReads(n);
    assert !HasHexPrefix(s) by {
      if |s| >= 2 { assert '0' <= s[1] <= '9'; }
    }
    assert !IsWhiteSpace(s[0]) && s[0] != '-' && s[0] != '+';
    ParseIntUnsigned(s, radix);
    ParseIntNegated(s, radix);
  }

  lemma ShowDecimalReads(n: nat)
    ensures ReadDigits(ShowDecimal(n), 10) == Some(n)
  {
    ReadAllDigits(ShowDecimal(n));
    DigitsValueOfShowDecimal(n);
  }

  /** Reading stops at the first character that is not a digit: what follows
      the digits does not matter. */
  lemma ParseIntStopsAtNonDigit(d: string, rest: string)
    requires |d| >= 1 && AllDecimalDigits(d)
    requires rest == [] || !('0' <= rest[0] <= '9')
    ensures ParseInt(d + rest, 10) == ParseInt(d, 10)
  {
    var s := d + rest;
    assert s[0] == d[0] && !IsWhiteSpace(d[0]);
    ParseIntUnsigned(s, 10);
    ParseIntUnsigned(d, 10);
    ReadAllDigits(d);
    assert forall i :: 0 <= i < |d| ==> s[i] == d[i];
    DigitPrefixLengthOf(s, |d|, 10);
    assert s[..|d|] == d;
  }

  /** Leading white space is skipped. */
  lemma ParseIntSkipsWhiteSpace(ws: string, s: string, radix: int)
    requires forall i :: 0 <= i < |ws| ==> IsWhiteSpace(ws[i])
    ensures ParseInt(ws + s, radix) == ParseInt(s, radix)
  {
    TrimStartSkipsWhiteSpace(ws, s);
  }

  /** A string without any decimal digit is `NaN` to a decimal parse. */
  lemma ParseIntWithoutDigits(s: string, radix: int)
    requires radix == 0 || radix == 10
    requires forall i :: 0 <= i < |s| ==> !('0' <= s[i] <= '9')
    ensures ParseInt(s, radix) == None
  {
    var t := TrimStart(s);
    TrimStartRemovesWhiteSpace(s);
    var u := DropSign(t);
    assert u == [] || u[0] in s;
    assert u != [] ==> !IsDigit(u[0], 10);
    assert !HasHexPrefix(u);
  }

  /** With the radix omitted, a `0x` prefix switches to hexadecimal. */
  lemma ParseIntHexPrefix()
    ensures ParseInt("0x1A", 0) == Some(26)
  {
    var s := "0x1A";
    assert s[0] == '0' && !IsWhiteSpace(s[0]);
    assert TrimStart(s) == s;
    assert DropSign(s) == s && Sign(s) == 1;
    assert HasHexPrefix(s);
    assert s[2..] == "1A";
    assert ReadDigits("1A", 16) == Some(26) by {
      assert DigitPrefixLength("1A", 16) == 2 by {
        assert "1A"[1..] == "A";
        assert "A"[1..] == [];
      }
      assert "1A"[..2] == "1A";
      assert "1A"[..1] == "1";
      assert "1"[..0] == [];
    }
    assert ParseMagnitude(s, 0) == Some(26);
    assert ParseSigned(s, 0) == Some(26);
  }

  /** With radix 10 the same text stops at the `x`. */
  lemma ParseIntDecimalIgnoresHexPrefix()
    ensures ParseInt("0x1A", 10) == Some(0)
  {
    var s := "0x1A";
    assert s[0] == '0' && !IsWhiteSpace(s[0]);
    assert TrimStart(s) == s;
    assert DropSign(s) == s && Sign(s) == 1;
    assert ReadDigits(s, 10) == Some(0) by {
      assert DigitPrefixLength(s, 10) == 1 by {
        assert s[1..] == "x1A";
      }
      assert s[..1] == "0";
      assert "0"[..0] == [];
    }
    assert ParseMagnitude(s, 10) == Some(0);
    assert ParseSigned(s, 10) == Some(0);
  }
}
