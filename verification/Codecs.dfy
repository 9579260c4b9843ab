/** Text forms of attribute values: strings and numbers in attribute files, MAC addresses, GUIDs. */
module Codecs {
  import opened Errors
  import opened Numbers
  import opened Names

  type Byte = b: int | 0 <= b < 256

  const STR_LENGTH := 256
  const FILE_SIZE := 4096

  // ----- attribute files

  /** The part of a file a string getter returns: at most `len - 1` characters, cut at the first newline. */
  function ReadString(text: string, len: nat): string
    requires len > 0
  {
    var s := if |text| < len then text else text[..len - 1];
    s[..FirstIndex(s, '\n')]
  }

  /** What `usbg_read_int` makes of a file. */
  function ReadInt(text: string, base: nat): int
    requires base == 10 || base == 16
  {
    ToInt(Strtol(if |text| <= STR_LENGTH then text else text[..STR_LENGTH], base).value)
  }

  function WriteDec(n: int): string { PrintDec(n) + "\n" }

  lemma FlagDigits(b: bool)
    ensures WriteDec(if b then 1 else 0) == if b then "1\n" else "0\n"
  {
    assert Digits(1, 10) == "1" && Digits(0, 10) == "0";
  }

  function WriteHex(n: int, width: nat): string
    requires IsInt(n)
  {
    PrintHex(n, width) + "\n"
  }

  lemma {:induction false} DigitsLength(n: nat, base: nat, k: nat)
    requires base == 10 || base == 16
    requires k > 0 && n < Power10(k)
    ensures |Digits(n, base)| <= k
    decreases k
  {
    if n >= base { DigitsLength(Quotient(n, base), base, k - 1); }
  }

  function Power10(k: nat): nat { if k == 0 then 1 else 10 * Power10(k - 1) }

  /** Writing any `int` in decimal and reading the file gives the number back. */
  lemma DecFile(n: int)
    requires IsInt(n)
    ensures ReadInt(WriteDec(n), 10) == n
  {
    hide Digits, Value, Strtol;
    DecimalReadsBack(n, "");
    assert PrintDec(n) + "\n" + "" == WriteDec(n);
    assert Power10(12) == 1_000_000_000_000;
    DigitsLength(if n < 0 then -n else n, 10, 12);
  }

  /** The same for any `int` written in hex, at the library's widths. */
  lemma HexFile(n: int, width: nat)
    requires IsInt(n) && width <= 8
    ensures ReadInt(WriteHex(n, width), 16) == n
  {
    hide Digits, Value, Strtol;
    HexReadsBack(n, width, "");
    assert PrintHex(n, width) + "\n" + "" == WriteHex(n, width);
    assert Power10(12) == 1_000_000_000_000;
    DigitsLength(ToUnsigned(n), 16, 12);
  }

  /** A string without newline that fits is read back unchanged. */
  lemma StringFile(s: string, len: nat)
    requires |s| < len && '\n' !in s
    ensures ReadString(s, len) == s
  {
    assert FirstIndex(s, '\n') == |s|;
  }

  lemma ReadStringIsClean(text: string, len: nat)
    requires len > 0
    ensures '\n' !in ReadString(text, len) && |ReadString(text, len)| < len
  {}

  /** A string getter returns the longest beginning of the file that has no newline and fits its buffer. */
  lemma ReadStringMeans(text: string, len: nat)
    requires len > 0
    ensures var r := ReadString(text, len);
      |r| <= |text| && r == text[..|r|] && |r| < len && '\n' !in r &&
      (|r| == |text| || |r| == len - 1 || text[|r|] == '\n')
  {}

  /** A hex attribute is written as "0x", lower-case digits of at least that width, and a newline. */
  lemma HexFileText(n: int, width: nat)
    requires IsInt(n)
    ensures var s := WriteHex(n, width);
      |s| > 3 && s[..2] == "0x" && s[|s| - 1] == '\n' && |s| >= width + 3 &&
      var d := s[2..|s| - 1];
      (forall c <- d :: c in HEX_DIGITS && IsDigit(c, 16)) && (|d| > width && |d| > 1 ==> d[0] != '0') &&
      Value(d, 16) == (if n < 0 then 0x1_0000_0000 + n else n) &&
      (width > 0 && 0 <= n < Power16(width) ==> |d| == width)
  {
    hide PrintHex, Value, Power16, DigitValue;
    HexText(n, width);
    if width > 0 && 0 <= n < Power16(width) { HexTextFits(n, width); }
    var s := WriteHex(n, width);
    assert s[2..|s| - 1] == PrintHex(n, width)[2..];
  }

  // ----- bytes as two hex digits, with separators

  function HexByte(b: Byte): (s: string)
    ensures |s| == 2 && IsDigit(s[0], 16) && IsDigit(s[1], 16)
    ensures DigitValue(s[0]) * 16 + DigitValue(s[1]) == b
  {
    [DigitChar(b / 16), DigitChar(b % 16)]
  }

  /** One or two hex digits. */
  function ScanByte(s: string): Option<(Byte, string)> {
    if s == [] || !IsDigit(s[0], 16) then None
    else if |s| == 1 || !IsDigit(s[1], 16) then Some((DigitValue(s[0]), s[1..]))
    else Some((DigitValue(s[0]) * 16 + DigitValue(s[1]), s[2..]))
  }

  lemma ScanHexByte(b: Byte, tail: string)
    ensures ScanByte(HexByte(b) + tail) == Some((b, tail))
    ensures SkipSpaces(HexByte(b) + tail) == HexByte(b) + tail
  {
    var s := HexByte(b) + tail;
    assert s[0] == HexByte(b)[0] && s[1] == HexByte(b)[1] && s[2..] == tail;
  }

  // ----- MAC addresses: six bytes separated by colons

  type Mac = m: seq<Byte> | |m| == 6 witness [0, 0, 0, 0, 0, 0]

  function PrintBytes(m: seq<Byte>): (s: string)
    requires m != []
    ensures |s| == 3 * |m| - 1 && '\n' !in s
  {
    HexByte(m[0]) + if |m| == 1 then "" else ":" + PrintBytes(m[1..])
  }

  function PrintMac(m: Mac): string { PrintBytes(m) }

  /** Bytes with one colon after each; the last needs none and ignores what follows two digits,
      but a single last digit must end the text or precede white space. */
  function ScanMac(s: string, n: nat): (r: Option<seq<Byte>>)
    ensures r.Some? ==> |r.value| == n + 1
    decreases n
  {
    match ScanByte(s)
    case None => None
    case Some((b, rest)) =>
      if n == 0 then
        if |rest| + 1 == |s| && rest != [] && !IsSpace(rest[0]) then None else Some([b])
      else if rest == [] || rest[0] != ':' then None
      else match ScanMac(rest[1..], n - 1)
        case None => None
        case Some(more) => Some([b] + more)
  }

  function ParseMac(s: string): Option<Mac> {
    match ScanMac(s, 5)
    case None => None
    case Some(m) => Some(m)
  }

  lemma ScanMacNext(s: string, n: nat, b: Byte, rest: string)
    requires n > 0 && ScanByte(s) == Some((b, ":" + rest)) && ScanMac(rest, n - 1).Some?
    ensures ScanMac(s, n) == Some([b] + ScanMac(rest, n - 1).value)
  {
    hide ScanByte;
    assert (":" + rest)[1..] == rest;
  }

  lemma ScanMacEnd(s: string, b: Byte)
    requires ScanByte(s) == Some((b, ""))
    ensures ScanMac(s, 0) == Some([b])
  {
    hide ScanByte;
  }

  lemma {:induction false} ScanPrintedBytes(m: seq<Byte>)
    requires m != []
    ensures ScanMac(PrintBytes(m), |m| - 1) == Some(m)
  {
    hide HexByte, ScanByte, SkipSpaces, DigitValue, ScanMac;
    var tail := if |m| == 1 then "" else ":" + PrintBytes(m[1..]);
    assert PrintBytes(m) == HexByte(m[0]) + tail;
    ScanHexByte(m[0], tail);
    if |m| > 1 {
      ScanPrintedBytes(m[1..]);
      ScanMacNext(PrintBytes(m), |m| - 1, m[0], PrintBytes(m[1..]));
      assert [m[0]] + m[1..] == m;
    } else {
      ScanMacEnd(PrintBytes(m), m[0]);
      assert [m[0]] == m;
    }
  }

  /** One byte of an address: one or two hex digits. */
  predicate IsChunk(c: string) { 1 <= |c| <= 2 && forall x <- c :: IsDigit(x, 16) }

  function ChunkValue(c: string): (b: Byte)
    requires IsChunk(c)
  {
    assert IsDigit(c[0], 16) && IsDigit(c[|c| - 1], 16);
    if |c| == 1 then DigitValue(c[0]) else DigitValue(c[0]) * 16 + DigitValue(c[1])
  }

  function Joined(chunks: seq<string>): string
    requires chunks != []
  {
    chunks[0] + if |chunks| == 1 then "" else ":" + Joined(chunks[1..])
  }

  function ChunkValues(chunks: seq<string>): (m: seq<Byte>)
    requires chunks != [] && forall c <- chunks :: IsChunk(c)
    ensures |m| == |chunks| && forall i :: 0 <= i < |m| ==> m[i] == ChunkValue(chunks[i])
  {
    [ChunkValue(chunks[0])] + if |chunks| == 1 then [] else ChunkValues(chunks[1..])
  }

  /** What may follow the last byte: anything after two digits, nothing or white space after one. */
  predicate MacTail(last: string, tail: string) { |last| == 1 ==> tail == "" || IsSpace(tail[0]) }

  lemma ScanChunk(c: string, rest: string)
    requires IsChunk(c) && (|c| == 1 ==> rest == "" || !IsDigit(rest[0], 16))
    ensures ScanByte(c + rest) == Some((ChunkValue(c), rest))
  {
    var s := c + rest;
    assert s[0] == c[0] && IsDigit(c[0], 16);
    if |c| == 2 {
      assert s[1] == c[1] && IsDigit(c[1], 16) && s[2..] == rest;
    } else {
      assert s[1..] == rest;
    }
  }

  lemma NoHexSpace(x: char)
    requires IsSpace(x) || x == ':'
    ensures !IsDigit(x, 16)
  {}

  /** Bytes of one or two digits with a colon between are read. */
  lemma {:induction false} BytesRead(chunks: seq<string>, tail: string)
    requires chunks != [] && (forall c <- chunks :: IsChunk(c)) && MacTail(chunks[|chunks| - 1], tail)
    ensures ScanMac(Joined(chunks) + tail, |chunks| - 1) == Some(ChunkValues(chunks))
  {
    hide ScanByte, IsChunk, ChunkValue, ScanMac;
    var c := chunks[0];
    var rest := if |chunks| == 1 then tail else ":" + (Joined(chunks[1..]) + tail);
    assert Joined(chunks) + tail == c + rest;
    if rest != "" && (|chunks| > 1 || |c| == 1) { NoHexSpace(rest[0]); }
    ScanChunk(c, rest);
    if |chunks| > 1 {
      BytesRead(chunks[1..], tail);
      ScanMacNext(c + rest, |chunks| - 1, ChunkValue(c), Joined(chunks[1..]) + tail);
    } else {
      LastByte(c, tail);
      assert ChunkValues(chunks) == [ChunkValue(c)];
    }
  }

  lemma LastByte(c: string, tail: string)
    requires IsChunk(c) && MacTail(c, tail) && ScanByte(c + tail) == Some((ChunkValue(c), tail))
    ensures ScanMac(c + tail, 0) == Some([ChunkValue(c)])
  {
    hide ScanByte;
  }

  /** Nothing else is. */
  lemma {:induction false} BytesOnly(s: string, n: nat) returns (chunks: seq<string>, tail: string)
    requires ScanMac(s, n).Some?
    ensures |chunks| == n + 1 && (forall c <- chunks :: IsChunk(c)) && MacTail(chunks[n], tail) && s == Joined(chunks) + tail
    decreases n
  {
    var c, rest := ByteOnly(s);
    if n == 0 {
      chunks, tail := [c], rest;
    } else {
      var more;
      more, tail := BytesOnly(rest[1..], n - 1);
      chunks := [c] + more;
      assert chunks[1..] == more && rest == ":" + rest[1..];
    }
  }

  lemma ByteOnly(s: string) returns (c: string, rest: string)
    requires ScanByte(s).Some?
    ensures IsChunk(c) && s == c + rest && ScanByte(s) == Some((ChunkValue(c), rest))
  {
    rest := ScanByte(s).value.1;
    c := s[..|s| - |rest|];
  }

  /** A text is a MAC address exactly when it starts with six bytes of one or two hex digits with colons between. */
  lemma MacReads(s: string)
    ensures ParseMac(s).Some? <==>
      exists chunks: seq<string>, tail: string ::
        |chunks| == 6 && (forall c <- chunks :: IsChunk(c)) && MacTail(chunks[5], tail) && s == Joined(chunks) + tail
  {
    hide ScanMac, IsChunk, Joined, MacTail;
    if chunks: seq<string>, tail: string :|
        |chunks| == 6 && (forall c <- chunks :: IsChunk(c)) && MacTail(chunks[5], tail) && s == Joined(chunks) + tail {
      BytesRead(chunks, tail);
    }
    if ParseMac(s).Some? { var chunks, tail := BytesOnly(s, 5); }
  }

  lemma HexByteText(b: Byte)
    ensures HexByte(b) == [HEX_DIGITS[b / 16], HEX_DIGITS[b % 16]]
  {
    DigitValues(b / 16);
    DigitValues(b % 16);
  }

  lemma {:induction false} BytesAt(m: seq<Byte>, i: nat)
    requires i < |m|
    ensures var s := PrintBytes(m);
      |s| == 3 * |m| - 1 && s[3 * i] == HexByte(m[i])[0] && s[3 * i + 1] == HexByte(m[i])[1] && (i + 1 < |m| ==> s[3 * i + 2] == ':')
  {
    hide HexByte, DigitValue, IsDigit;
    var s := PrintBytes(m);
    var first := HexByte(m[0]);
    if |m| > 1 {
      var t := ":" + PrintBytes(m[1..]);
      assert s == first + t;
      if i > 0 {
        BytesAt(m[1..], i - 1);
        assert forall j :: 3 <= j < |s| ==> s[j] == PrintBytes(m[1..])[j - 3];
      }
    }
  }

  lemma BytesText(m: seq<Byte>, i: nat)
    requires i < |m|
    ensures var s := PrintBytes(m);
      |s| == 3 * |m| - 1 && s[3 * i] == HEX_DIGITS[m[i] / 16] && s[3 * i + 1] == HEX_DIGITS[m[i] % 16] &&
      (i + 1 < |m| ==> s[3 * i + 2] == ':')
  {
    hide PrintBytes;
    BytesAt(m, i);
    HexByteText(m[i]);
  }

  /** A MAC address is printed as six times two lower-case hex digits with colons between them, in the order of its bytes. */
  lemma MacText(m: Mac)
    ensures var s := PrintMac(m);
      |s| == 17 && (forall i :: 0 <= i < 6 ==> s[3 * i] == HEX_DIGITS[m[i] / 16] && s[3 * i + 1] == HEX_DIGITS[m[i] % 16]) &&
      forall i :: 0 <= i < 5 ==> s[3 * i + 2] == ':'
  {
    hide PrintBytes;
    forall i | 0 <= i < 6
      ensures PrintMac(m)[3 * i] == HEX_DIGITS[m[i] / 16] && PrintMac(m)[3 * i + 1] == HEX_DIGITS[m[i] % 16]
      ensures i < 5 ==> PrintMac(m)[3 * i + 2] == ':'
    {
      BytesText(m, i);
    }
  }

  lemma MacParses(m: Mac)
    ensures ParseMac(PrintMac(m)) == Some(m)
  {
    ScanPrintedBytes(m);
  }

  // ----- GUIDs: section 3 of RFC 4122

  type Guid = g: seq<Byte> | |g| == 16 witness [0, 0, 0, 0, 0, 0, 0, 0, 0, 0, 0, 0, 0, 0, 0, 0]

  /** A dash stands before the byte that has `n` bytes from it to the end. */
  predicate DashBefore(n: nat) { n == 12 || n == 10 || n == 8 || n == 6 }

  /** The last bytes of a GUID in text. */
  function PrintGuidTail(b: seq<Byte>): string {
    if b == [] then ""
    else
      var body := HexByte(b[0]) + PrintGuidTail(b[1..]);
      if DashBefore(|b|) then "-" + body else body
  }

  function PrintGuid(g: Guid): string { PrintGuidTail(g) }

  /** `sscanf` with sixteen `%02hhx`: white space may precede a byte, a byte may be a single digit,
      and what follows the last is not looked at. `n` bytes are still to come. */
  function ScanGuidTail(s: string, n: nat): (r: Option<seq<Byte>>)
    ensures r.Some? ==> |r.value| == n
    decreases n
  {
    if n == 0 then Some([])
    else if DashBefore(n) && (s == [] || s[0] != '-') then None
    else match ScanByte(SkipSpaces(if DashBefore(n) then s[1..] else s))
      case None => None
      case Some((b, rest)) =>
        match ScanGuidTail(rest, n - 1)
        case None => None
        case Some(more) => Some([b] + more)
  }

  function ParseGuid(s: string): Option<Guid> {
    if |s| != 36 then None
    else match ScanGuidTail(s, 16)
      case None => None
      case Some(g) => Some(g)
  }

  lemma {:induction false} ScanPrintedGuid(b: seq<Byte>)
    ensures ScanGuidTail(PrintGuidTail(b), |b|) == Some(b)
  {
    hide HexByte, ScanByte, SkipSpaces, DigitValue;
    if b != [] {
      ScanPrintedGuid(b[1..]);
      ScanHexByte(b[0], PrintGuidTail(b[1..]));
      if DashBefore(|b|) {
        assert PrintGuidTail(b)[1..] == HexByte(b[0]) + PrintGuidTail(b[1..]);
      }
      assert [b[0]] + b[1..] == b;
    }
  }

  /** Characters taken by the last `n` bytes. */
  function GuidLength(n: nat): nat {
    2 * n + if n >= 12 then 4 else if n >= 10 then 3 else if n >= 8 then 2 else if n >= 6 then 1 else 0
  }

  lemma PrintedGuidLength(b: seq<Byte>)
    ensures |PrintGuidTail(b)| == GuidLength(|b|)
  {}

  /** The dashes printed before the byte that has `r` bytes from it to the end, in a text of `k` bytes. */
  function DashesUpTo(k: nat, r: nat): nat {
    (if r <= 12 <= k then 1 else 0) + (if r <= 10 <= k then 1 else 0) + (if r <= 8 <= k then 1 else 0) + if r <= 6 <= k then 1 else 0
  }

  lemma DashesStep(k: nat, r: nat)
    requires r <= k
    ensures DashesUpTo(k, r) == (if r == k then 0 else if k == 0 then 0 else DashesUpTo(k - 1, r)) + if DashBefore(k) then 1 else 0
  {}

  lemma {:induction false} GuidTailAt(b: seq<Byte>, i: nat)
    requires i < |b|
    ensures var s := PrintGuidTail(b); var at := 2 * i + DashesUpTo(|b|, |b| - i);
      at + 1 < |s| && s[at] == HexByte(b[i])[0] && s[at + 1] == HexByte(b[i])[1] && (DashBefore(|b| - i) ==> at > 0 && s[at - 1] == '-')
  {
    hide HexByte, DigitValue, IsDigit, DashesUpTo, DashBefore;
    var s, rest := PrintGuidTail(b), PrintGuidTail(b[1..]);
    var lead := (if DashBefore(|b|) then "-" else "") + HexByte(b[0]);
    assert s == lead + rest;
    DashesStep(|b|, |b| - i);
    if i > 0 {
      GuidTailAt(b[1..], i - 1);
      assert forall j :: |lead| <= j < |s| ==> s[j] == rest[j - |lead|];
    }
  }

  lemma GuidTailText(b: seq<Byte>, i: nat)
    requires i < |b|
    ensures var s := PrintGuidTail(b); var at := 2 * i + DashesUpTo(|b|, |b| - i);
      at + 1 < |s| && s[at] == HEX_DIGITS[b[i] / 16] && s[at + 1] == HEX_DIGITS[b[i] % 16] && (DashBefore(|b| - i) ==> s[at - 1] == '-')
  {
    hide PrintGuidTail;
    GuidTailAt(b, i);
    HexByteText(b[i]);
  }

  /** The place of byte `i` in the text of a GUID. */
  function GuidPlace(i: nat): nat { 2 * i + if i < 4 then 0 else if i < 6 then 1 else if i < 8 then 2 else if i < 10 then 3 else 4 }

  /** A GUID is printed as its bytes in order, two lower-case hex digits each, with dashes after 4, 6, 8 and 10 bytes. */
  lemma GuidText(g: Guid)
    ensures var s := PrintGuid(g);
      |s| == 36 && s[8] == s[13] == s[18] == s[23] == '-' &&
      forall i :: 0 <= i < 16 ==> s[GuidPlace(i)] == HEX_DIGITS[g[i] / 16] && s[GuidPlace(i) + 1] == HEX_DIGITS[g[i] % 16]
  {
    hide PrintGuidTail;
    PrintedGuidLength(g);
    forall i | 0 <= i < 16
      ensures GuidPlace(i) < 35
      ensures PrintGuid(g)[GuidPlace(i)] == HEX_DIGITS[g[i] / 16] && PrintGuid(g)[GuidPlace(i) + 1] == HEX_DIGITS[g[i] % 16]
    {
      GuidTailText(g, i);
    }
    GuidTailText(g, 4);
    GuidTailText(g, 6);
    GuidTailText(g, 8);
    GuidTailText(g, 10);
  }

  /** Any 16 bytes printed as a GUID parse back. */
  lemma GuidParses(g: Guid)
    ensures ParseGuid(PrintGuid(g)) == Some(g)
  {
    ScanPrintedGuid(g);
    PrintedGuidLength(g);
  }

  /** The strict form of the last `n` bytes: two hex digits a byte, dashes where they belong. */
  predicate Strict(s: string, n: nat)
    decreases n
  {
    if n == 0 then s == ""
    else
      var t := if DashBefore(n) && s != [] then s[1..] else s;
      (DashBefore(n) ==> s != [] && s[0] == '-') &&
      |t| >= 2 && IsDigit(t[0], 16) && IsDigit(t[1], 16) && Strict(t[2..], n - 1)
  }

  function Lower(s: string): string {
    if s == [] then [] else [if 'A' <= s[0] <= 'F' then (s[0] as int + 32) as char else s[0]] + Lower(s[1..])
  }

  lemma LowerDigit(c: char)
    requires IsDigit(c, 16)
    ensures Lower([c]) == [DigitChar(DigitValue(c))]
  {}

  lemma HexByteOf(b: Byte, x: nat, y: nat)
    requires x < 16 && y < 16 && b == x * 16 + y
    ensures HexByte(b) == [DigitChar(x), DigitChar(y)]
  {
    assert b / 16 == x && b % 16 == y;
  }

  lemma LowerPair(t: string, b: Byte)
    requires |t| >= 2 && IsDigit(t[0], 16) && IsDigit(t[1], 16)
    requires b == DigitValue(t[0]) * 16 + DigitValue(t[1])
    ensures Lower(t) == HexByte(b) + Lower(t[2..])
  {
    hide HexByte, Lower, DigitValue;
    HexByteOf(b, DigitValue(t[0]), DigitValue(t[1]));
    LowerDigit(t[0]);
    LowerDigit(t[1]);
    LowerFirst(t);
    LowerFirst(t[1..]);
    assert t[1..][1..] == t[2..];
  }

  lemma LowerFirst(t: string)
    requires t != []
    ensures Lower(t) == Lower([t[0]]) + Lower(t[1..])
  {}

  lemma ScanStrictPair(t: string)
    requires |t| >= 2 && IsDigit(t[0], 16) && IsDigit(t[1], 16)
    ensures 0 <= DigitValue(t[0]) * 16 + DigitValue(t[1]) < 256
    ensures ScanByte(SkipSpaces(t)) == Some((DigitValue(t[0]) * 16 + DigitValue(t[1]), t[2..]))
  {}

  /** The first byte of a strict text, and the text after it. */
  function StrictHead(s: string, n: nat): (Byte, string)
    requires n > 0 && Strict(s, n)
  {
    var t := if DashBefore(n) then s[1..] else s;
    ScanStrictPair(t);
    (DigitValue(t[0]) * 16 + DigitValue(t[1]), t[2..])
  }

  lemma StrictParts(s: string, n: nat)
    requires n > 0 && Strict(s, n)
    ensures DashBefore(n) ==> s != [] && s[0] == '-'
    ensures var t := if DashBefore(n) then s[1..] else s;
      |t| >= 2 && IsDigit(t[0], 16) && IsDigit(t[1], 16) && Strict(t[2..], n - 1)
  {}

  lemma ScanStep(s: string, n: nat, b: Byte, rest: string)
    requires n > 0 && (DashBefore(n) ==> s != [] && s[0] == '-')
    requires ScanByte(SkipSpaces(if DashBefore(n) then s[1..] else s)) == Some((b, rest))
    ensures ScanGuidTail(rest, n - 1).Some? ==> ScanGuidTail(s, n) == Some([b] + ScanGuidTail(rest, n - 1).value)
  {
    hide ScanByte, SkipSpaces;
  }

  lemma StrictStep(s: string, n: nat)
    requires n > 0 && Strict(s, n)
    ensures var (b, rest) := StrictHead(s, n);
      Strict(rest, n - 1) && |s| == |rest| + (if DashBefore(n) then 3 else 2) &&
      (ScanGuidTail(rest, n - 1).Some? ==> ScanGuidTail(s, n) == Some([b] + ScanGuidTail(rest, n - 1).value))
  {
    hide ScanGuidTail, ScanByte, SkipSpaces, Strict, IsDigit, DigitValue;
    StrictParts(s, n);
    var t := if DashBefore(n) then s[1..] else s;
    ScanStrictPair(t);
    ScanStep(s, n, DigitValue(t[0]) * 16 + DigitValue(t[1]), t[2..]);
  }

  lemma LowerStep(s: string, n: nat)
    requires n > 0 && Strict(s, n)
    ensures var (b, rest) := StrictHead(s, n);
      Lower(s) == (if DashBefore(n) then "-" else "") + (HexByte(b) + Lower(rest))
  {
    hide ScanByte, DigitValue, Lower, HexByte;
    var t := if DashBefore(n) then s[1..] else s;
    LowerPair(t, StrictHead(s, n).0);
    if DashBefore(n) { LowerDash(s); }
  }

  lemma PrintStep(b: Byte, more: seq<Byte>)
    ensures PrintGuidTail([b] + more) ==
      (if DashBefore(|more| + 1) then "-" else "") + (HexByte(b) + PrintGuidTail(more))
  {
    assert ([b] + more)[1..] == more;
  }

  lemma {:induction false} StrictScans(s: string, n: nat)
    requires Strict(s, n)
    ensures ScanGuidTail(s, n).Some? && PrintGuidTail(ScanGuidTail(s, n).value) == Lower(s)
    ensures |s| == GuidLength(n)
    decreases n
  {
    if n > 0 {
      var (b, rest) := StrictHead(s, n);
      StrictStep(s, n);
      StrictScans(rest, n - 1);
      LowerStep(s, n);
      PrintStep(b, ScanGuidTail(rest, n - 1).value);
      hide Strict, ScanGuidTail, PrintGuidTail, Lower, HexByte, StrictHead;
    }
  }

  lemma LowerDash(s: string)
    requires s != [] && s[0] == '-'
    ensures Lower(s) == "-" + Lower(s[1..])
  {}

  /** Strict text parses, and prints back up to letter case. */
  lemma GuidPrintsBack(s: string)
    requires Strict(s, 16)
    ensures ParseGuid(s).Some? && PrintGuid(ParseGuid(s).value) == Lower(s)
  {
    StrictScans(s, 16);
    hide ScanGuidTail, PrintGuidTail, Strict, Lower;
  }
}
