/** Integers as the library writes them (`printf`) and reads them back (`strtol`). */
module Numbers {

  const INT_MIN := -0x8000_0000
  const INT_MAX := 0x7fff_ffff
  const LONG_MIN := -0x8000_0000_0000_0000
  const LONG_MAX := 0x7fff_ffff_ffff_ffff

  predicate IsInt(n: int) { INT_MIN <= n <= INT_MAX }

  type Int = n: int | IsInt(n)

  /** Conversion of a `long` to `int`: wrap-around modulo 2^32. */
  function ToInt(n: int): (r: int)
    ensures IsInt(r)
    ensures IsInt(n) ==> r == n
  {
    (n - INT_MIN) % 0x1_0000_0000 + INT_MIN
  }

  /** The bit pattern of an `int` read as `unsigned`, which is what `%x` prints. */
  function ToUnsigned(n: int): nat
    requires IsInt(n)
  {
    if n < 0 then n + 0x1_0000_0000 else n
  }

  function Clamp(n: int): int {
    if n < LONG_MIN then LONG_MIN else if n > LONG_MAX then LONG_MAX else n
  }

  /** Multiplication and division by the base, kept linear for each of the two bases. */
  function Times(n: nat, base: nat): nat
    requires base == 10 || base == 16
  {
    if base == 10 then n * 10 else n * 16
  }

  function Quotient(n: nat, base: nat): (q: nat)
    requires base == 10 || base == 16
    ensures Times(q, base) <= n < Times(q, base) + base
    ensures n >= base ==> 0 < q < n
  {
    if base == 10 then n / 10 else n / 16
  }

  function DigitChar(d: nat): (c: char)
    requires d < 16
    ensures DigitValue(c) == d
  {
    if d < 10 then ('0' as int + d) as char else ('a' as int + d - 10) as char
  }

  function DigitValue(c: char): int {
    if '0' <= c <= '9' then c as int - '0' as int
    else if 'a' <= c <= 'f' then c as int - 'a' as int + 10
    else if 'A' <= c <= 'F' then c as int - 'A' as int + 10
    else -1
  }

  predicate IsDigit(c: char, base: nat) { 0 <= DigitValue(c) < base }

  predicate IsSpace(c: char) { c == ' ' || 9 <= c as int <= 13 }

  /** The digits of `n`, most significant first. */
  function Digits(n: nat, base: nat): (s: string)
    requires base == 10 || base == 16
    ensures s != [] && forall c <- s :: IsDigit(c, base)
    decreases n
  {
    if n < base then [DigitChar(n)]
    else
      var q := Quotient(n, base);
      Digits(q, base) + [DigitChar(n - Times(q, base))]
  }

  /** The number denoted by a string of digits. */
  function Value(s: string, base: nat): nat
    requires base == 10 || base == 16
    requires forall c <- s :: IsDigit(c, base)
  {
    if s == [] then 0 else 
      assert IsDigit(s[|s| - 1], base);
      Times(Value(s[..|s| - 1], base), base) + DigitValue(s[|s| - 1])
  }

  function LeadingDigits(s: string, base: nat): (n: nat)
    ensures n <= |s|
    ensures forall c <- s[..n] :: IsDigit(c, base)
    ensures n < |s| ==> !IsDigit(s[n], base)
  {
    if s == [] || !IsDigit(s[0], base) then 0
    else
      var n := 1 + LeadingDigits(s[1..], base);
      assert s[..n] == [s[0]] + s[1..][..n - 1];
      n
  }

  function SkipSpaces(s: string): string {
    if s != [] && IsSpace(s[0]) then SkipSpaces(s[1..]) else s
  }

  datatype Parsed = Parsed(value: nat, rest: string)

  /** What `strtol` reports: the value, the unread text, and whether `errno` is set to ERANGE. */
  datatype LongResult = LongResult(value: int, rest: string, overflow: bool)

  function Long(n: int, rest: string): LongResult {
    LongResult(Clamp(n), rest, !(LONG_MIN <= n <= LONG_MAX))
  }

  /** Digits after an optional `0x` when the base is 16. No digits: value 0, nothing consumed. */
  function ParseDigits(s: string, base: nat): Parsed
    requires base == 10 || base == 16
  {
    var body :=
      if base == 16 && |s| > 2 && s[0] == '0' && (s[1] == 'x' || s[1] == 'X') && IsDigit(s[2], 16) then s[2..] else s;
    var n := LeadingDigits(body, base);
    Parsed(Value(body[..n], base), body[n..])
  }

  /** `strtol`: leading space, a sign, digits; the value saturates at the limits of `long`. */
  function Strtol(s: string, base: nat): LongResult
    requires base == 10 || base == 16
  {
    var t := SkipSpaces(s);
    var negative := t != [] && t[0] == '-';
    var u := if negative || (t != [] && t[0] == '+') then t[1..] else t;
    var p := ParseDigits(u, base);
    if LeadingDigits(u, base) == 0 then Long(0, s)
    else Long(if negative then 0 - p.value else p.value, p.rest)
  }

  /** `%d` */
  function PrintDec(n: int): string {
    if n < 0 then "-" + Digits(-n, 10) else Digits(n, 10)
  }

  function Zeros(n: nat): (s: string)
    ensures |s| == n && forall c <- s :: c == '0'
  {
    if n == 0 then "" else "0" + Zeros(n - 1)
  }

  /** `0x%0<width>x` */
  function PrintHex(n: int, width: nat): string
    requires IsInt(n)
  {
    var d := Digits(ToUnsigned(n), 16);
    "0x" + Zeros(if |d| < width then width - |d| else 0) + d
  }

  lemma {:induction false} ValueOfDigits(n: nat, base: nat)
    requires base == 10 || base == 16
    ensures Value(Digits(n, base), base) == n
    decreases n
  {
    if n >= base {
      var q := Quotient(n, base);
      var s := Digits(n, base);
      assert s[..|s| - 1] == Digits(q, base);
      ValueOfDigits(q, base);
    }
  }

  lemma ZerosInit(k: nat)
    requires k > 0
    ensures Zeros(k)[..k - 1] == Zeros(k - 1)
    ensures Zeros(k)[k - 1] == '0'
  {
    if k > 1 {
      ZerosInit(k - 1);
      assert Zeros(k)[..k - 1] == "0" + Zeros(k - 1)[..k - 2];
    }
  }

  lemma {:induction false} ValueOfPadded(k: nat, s: string, base: nat)
    requires base == 10 || base == 16
    requires forall c <- s :: IsDigit(c, base)
    ensures forall c <- Zeros(k) + s :: IsDigit(c, base)
    ensures Value(Zeros(k) + s, base) == Value(s, base)
    decreases |s|, k
  {
    var t := Zeros(k) + s;
    if s != [] {
      assert t[..|t| - 1] == Zeros(k) + s[..|s| - 1];
      ValueOfPadded(k, s[..|s| - 1], base);
    } else if k > 0 {
      assert t == Zeros(k);
      ZerosInit(k);
      assert t[..|t| - 1] == Zeros(k - 1) + s;
      ValueOfPadded(k - 1, s, base);
    }
  }

  /** Digits end where the first other character stands. */
  lemma {:induction false} LeadingDigitsOf(d: string, tail: string, base: nat)
    requires forall c <- d :: IsDigit(c, base)
    requires tail == [] || !IsDigit(tail[0], base)
    ensures LeadingDigits(d + tail, base) == |d|
  {
    if d == [] {
      assert d + tail == tail;
    } else {
      assert (d + tail)[1..] == d[1..] + tail;
      LeadingDigitsOf(d[1..], tail, base);
    }
  }

  /** Digits followed by something else parse to their value. */
  lemma ParseDigitsOf(d: string, tail: string, base: nat)
    requires base == 10 || base == 16
    requires d != [] && forall c <- d :: IsDigit(c, base)
    requires tail == [] || !IsDigit(tail[0], base)
    requires base == 16 ==> !(|d + tail| > 2 && (d + tail)[0] == '0' && ((d + tail)[1] == 'x' || (d + tail)[1] == 'X'))
    ensures ParseDigits(d + tail, base) == Parsed(Value(d, base), tail)
    ensures LeadingDigits(d + tail, base) == |d|
  {
    LeadingDigitsOf(d, tail, base);
    assert (d + tail)[..|d|] == d && (d + tail)[|d|..] == tail;
  }

  /** Any `int` written with `%d` and a newline is read back unchanged, whatever bytes follow the newline. */
  lemma DecimalReadsBack(n: int, tail: string)
    requires IsInt(n)
    ensures Strtol(PrintDec(n) + "\n" + tail, 10) == LongResult(n, "\n" + tail, false)
  {
    hide Digits, Value, Strtol;
    var m := if n < 0 then -n else n;
    var d := Digits(m, 10);
    ValueOfDigits(m, 10);
    SignedDigits(n < 0, d, "\n" + tail);
    assert PrintDec(n) + "\n" + tail == (if n < 0 then "-" else "") + d + ("\n" + tail);
  }

  lemma SignedDigits(negative: bool, d: string, end: string)
    requires d != [] && forall c <- d :: IsDigit(c, 10)
    requires end == [] || !IsDigit(end[0], 10)
    ensures Strtol((if negative then "-" else "") + d + end, 10)
         == Long(if negative then 0 - Value(d, 10) else Value(d, 10), end)
  {
    hide Value, LeadingDigits;
    var s := (if negative then "-" else "") + d + end;
    ParseDigitsOf(d, end, 10);
    assert IsDigit(d[0], 10) && (d + end)[0] == d[0];
    if negative {
      assert s[0] == '-' && s[1..] == d + end;
    } else {
      assert s == d + end;
    }
    assert SkipSpaces(s) == s;
  }

  /** Any `int` written in hex at any width is read back unchanged: negative ones through their 32-bit pattern. */
  lemma HexReadsBack(n: int, width: nat, tail: string)
    requires IsInt(n)
    ensures ToInt(Strtol(PrintHex(n, width) + "\n" + tail, 16).value) == n
  {
    hide Digits, Value, LeadingDigits, Zeros, Strtol;
    var u := ToUnsigned(n);
    var d := Digits(u, 16);
    var k := if |d| < width then width - |d| else 0;
    var z := Zeros(k) + d;
    var end := "\n" + tail;
    var s := PrintHex(n, width) + "\n" + tail;
    ValueOfPadded(k, d, 16);
    ValueOfDigits(u, 16);
    LeadingDigitsOf(z, end, 16);
    HexPrefix(s, z, end);
  }

  lemma HexPrefix(s: string, z: string, end: string)
    requires z != [] && forall c <- z :: IsDigit(c, 16)
    requires s == "0x" + z + end
    requires LeadingDigits(z + end, 16) == |z|
    ensures Strtol(s, 16) == Long(Value(z, 16), end)
  {
    assert s[0] == '0' && s[1] == 'x' && s[2] == z[0] && s[2..] == z + end;
    assert (z + end)[..|z|] == z && (z + end)[|z|..] == end;
    assert IsDigit(s[0], 16) && IsDigit(s[2], 16);
    assert SkipSpaces(s) == s;
  }

  // ----- what printed numbers look like

  const HEX_DIGITS := "0123456789abcdef"

  /** The value of each digit, and that capital letters count the same. */
  lemma DigitValues(d: nat)
    requires d < 16
    ensures DigitValue(HEX_DIGITS[d]) == d && DigitChar(d) == HEX_DIGITS[d]
    ensures d >= 10 ==> DigitValue("ABCDEF"[d - 10]) == d
  {}

  lemma {:induction false} DigitsText(n: nat, base: nat)
    requires base == 10 || base == 16
    ensures forall c <- Digits(n, base) :: c in HEX_DIGITS[..base]
    ensures |Digits(n, base)| > 1 ==> Digits(n, base)[0] != '0'
    ensures n == 0 ==> Digits(n, base) == "0"
    ensures n > 0 ==> Digits(n, base)[0] != '0'
    decreases n
  {
    if n < base {
      DigitInTable(n, base);
    } else {
      var q := Quotient(n, base);
      DigitsText(q, base);
      DigitInTable(n - Times(q, base), base);
    }
  }

  lemma DigitInTable(d: nat, base: nat)
    requires (base == 10 || base == 16) && d < base
    ensures DigitChar(d) in HEX_DIGITS[..base] && (DigitChar(d) == '0' <==> d == 0)
  {
    DigitValues(d);
    assert HEX_DIGITS[..base][d] == HEX_DIGITS[d];
  }

  /** `%x` with a prefix and a least width: "0x", then that many lower-case hex digits at least, which denote the bit pattern;
      beyond the width the first digit is not 0. */
  lemma HexText(n: int, width: nat)
    requires IsInt(n)
    ensures var s := PrintHex(n, width); var d := s[2..];
      |s| > 2 && s[..2] == "0x" && |d| >= width && (forall c <- d :: c in HEX_DIGITS && IsDigit(c, 16)) &&
      Value(d, 16) == (if n < 0 then 0x1_0000_0000 + n else n) && (|d| > width && |d| > 1 ==> d[0] != '0')
  {
    hide Digits, Value, Zeros;
    var u := ToUnsigned(n);
    var digits := Digits(u, 16);
    var z := Zeros(if |digits| < width then width - |digits| else 0);
    DigitsText(u, 16);
    ValueOfDigits(u, 16);
    ValueOfPadded(|z|, digits, 16);
    assert PrintHex(n, width)[2..] == z + digits;
    assert HEX_DIGITS[0] == '0' && HEX_DIGITS[..16] == HEX_DIGITS;
  }

  function Power16(k: nat): nat { if k == 0 then 1 else 16 * Power16(k - 1) }

  lemma {:induction false} HexDigitsFit(n: nat, k: nat)
    requires k > 0 && n < Power16(k)
    ensures |Digits(n, 16)| <= k
    decreases k
  {
    if n >= 16 { HexDigitsFit(Quotient(n, 16), k - 1); }
  }

  /** A number that fits its width has exactly that many digits. */
  lemma HexTextFits(n: int, width: nat)
    requires IsInt(n) && width > 0 && 0 <= n < Power16(width)
    ensures |PrintHex(n, width)| == 2 + width
  {
    hide Digits, Power16;
    HexDigitsFit(n, width);
  }

  /** `%d`: a minus sign for negative numbers, then decimal digits without a leading 0, which denote the number. */
  lemma DecimalText(n: int)
    ensures PrintDec(n) != ""
    ensures var s := PrintDec(n); var d := if n < 0 then s[1..] else s;
      (n < 0 ==> s[0] == '-') && d != [] && (forall c <- d :: '0' <= c <= '9') && (|d| > 1 ==> d[0] != '0') &&
      Value(d, 10) == if n < 0 then -n else n
  {
    hide Digits, Value;
    var m := if n < 0 then -n else n;
    DigitsText(m, 10);
    ValueOfDigits(m, 10);
    assert PrintDec(n) == if n < 0 then "-" + Digits(m, 10) else Digits(m, 10);
    forall c | c in Digits(m, 10) ensures '0' <= c <= '9' { DecimalDigit(c); }
  }

  lemma DecimalDigit(c: char)
    requires c in HEX_DIGITS[..10]
    ensures '0' <= c <= '9' && IsDigit(c, 10)
  {
    var i :| 0 <= i < 10 && HEX_DIGITS[..10][i] == c;
  }

  // ----- what `strtol` makes of a text

  lemma {:induction false} SpacesSkipped(space: string, rest: string)
    requires (forall c <- space :: IsSpace(c)) && (rest != [] ==> !IsSpace(rest[0]))
    ensures SkipSpaces(space + rest) == rest
  {
    if space == [] {
      assert space + rest == rest;
    } else {
      assert (space + rest)[1..] == space[1..] + rest;
      SpacesSkipped(space[1..], rest);
    }
  }

  /** White space, a sign and digits, after "0x" too in base 16, are read as the number they denote, up to the limits of `long`;
      reading stops at the first other character. */
  lemma StrtolReads(space: string, sign: string, prefix: string, digits: string, tail: string, base: nat)
    requires (base == 10 || base == 16) && (forall c <- space :: IsSpace(c)) && sign in ["", "+", "-"]
    requires prefix == "" || (base == 16 && prefix in ["0x", "0X"])
    requires digits != [] && (forall c <- digits :: IsDigit(c, base)) && (tail == [] || !IsDigit(tail[0], base))
    requires base == 16 && prefix == "" && digits == "0" ==> tail == [] || (tail[0] != 'x' && tail[0] != 'X')
    ensures var m := Value(digits, base);
      Strtol(space + sign + prefix + digits + tail, base) == Long(if sign == "-" then 0 - m else m, tail)
  {
    hide Value, LeadingDigits, Strtol, ParseDigits, SkipSpaces;
    var u := prefix + digits + tail;
    assert space + sign + prefix + digits + tail == space + (sign + u);
    DigitsAfterPrefix(prefix, digits, tail, base);
    StrtolOf(space, sign, u, Value(digits, base), tail, base);
  }

  lemma DigitsAfterPrefix(prefix: string, digits: string, tail: string, base: nat)
    requires (base == 10 || base == 16) && (prefix == "" || (base == 16 && prefix in ["0x", "0X"]))
    requires digits != [] && (forall c <- digits :: IsDigit(c, base)) && (tail == [] || !IsDigit(tail[0], base))
    requires base == 16 && prefix == "" && digits == "0" ==> tail == [] || (tail[0] != 'x' && tail[0] != 'X')
    ensures var u := prefix + digits + tail;
      u != [] && IsDigit(u[0], base) && ParseDigits(u, base) == Parsed(Value(digits, base), tail)
  {
    hide Value, LeadingDigits;
    var body := digits + tail;
    var u := prefix + digits + tail;
    LeadingDigitsOf(digits, tail, base);
    assert body[..|digits|] == digits && body[|digits|..] == tail && body[0] == digits[0] && IsDigit(digits[0], base);
    if prefix == "" {
      assert u == body;
      NoPrefix(digits, tail, base);
    } else {
      assert u[2..] == body && u[0] == '0' && u[1] == prefix[1] && u[2] == digits[0];
    }
  }

  /** A sign and white space before a number. */
  lemma StrtolOf(space: string, sign: string, u: string, value: nat, tail: string, base: nat)
    requires (base == 10 || base == 16) && (forall c <- space :: IsSpace(c)) && sign in ["", "+", "-"]
    requires u != [] && IsDigit(u[0], base) && ParseDigits(u, base) == Parsed(value, tail)
    ensures Strtol(space + (sign + u), base) == Long(if sign == "-" then 0 - value else value, tail)
  {
    hide ParseDigits, SkipSpaces, LeadingDigits;
    var s := sign + u;
    FirstNotSpace(u, s, sign, base);
    SpacesSkipped(space, s);
    PrefixIsDigit(u, base);
    assert sign != "" ==> s[1..] == u;
    assert sign == "" ==> s == u;
  }

  lemma FirstNotSpace(u: string, s: string, sign: string, base: nat)
    requires u != [] && IsDigit(u[0], base) && sign in ["", "+", "-"] && s == sign + u && base <= 16
    ensures s != [] && !IsSpace(s[0]) && (s[0] == '-' <==> sign == "-") && (s[0] == '+' <==> sign == "+")
  {}

  lemma NoPrefix(digits: string, tail: string, base: nat)
    requires base == 10 || base == 16
    requires digits != [] && (forall c <- digits :: IsDigit(c, base)) && (tail == [] || !IsDigit(tail[0], base))
    requires base == 16 && digits == "0" ==> tail == [] || (tail[0] != 'x' && tail[0] != 'X')
    ensures var s := digits + tail; base == 16 && |s| > 2 && s[0] == '0' ==> s[1] != 'x' && s[1] != 'X'
  {
    if |digits| > 1 { assert IsDigit(digits[1], base); }
  }

  lemma PrefixIsDigit(u: string, base: nat)
    requires u != [] && IsDigit(u[0], base)
    ensures LeadingDigits(u, base) > 0
  {}

  /** A text that starts with no digit is read as 0, and none of it is used. */
  lemma StrtolNothing(space: string, sign: string, tail: string, base: nat)
    requires (base == 10 || base == 16) && (forall c <- space :: IsSpace(c)) && sign in ["", "+", "-"]
    requires tail == [] || (!IsDigit(tail[0], base) && !IsSpace(tail[0]) && (sign == "" ==> tail[0] != '+' && tail[0] != '-'))
    ensures Strtol(space + sign + tail, base) == LongResult(0, space + sign + tail, false)
  {
    var s := sign + tail;
    assert space + sign + tail == space + s;
    SpacesSkipped(space, s);
    assert sign != "" ==> s[1..] == tail;
  }
}
