/** Values a call reports: a result, or one of the library's negative error codes. */
module Errors {
  datatype Option<+T> = None | Some(value: T)

  type ErrorCode = c: int | c < 0 witness -1

  datatype Result<+T> = Ok(value: T) | Err(code: ErrorCode) {
    predicate IsFailure() { Err? }
    function PropagateFailure<U>(): Result<U>
      requires Err?
    {
      Err(code)
    }
    function Extract(): T
      requires Ok?
    {
      value
    }
  }

  /** What a C caller sees of a result: 0 or the error code. */
  function Code<T>(r: Result<T>): int {
    if r.Ok? then 0 else r.code
  }

  /** A list found so far, followed by the rest when that could be found too. */
  function Prefixed<T>(acc: seq<T>, r: Result<seq<T>>): Result<seq<T>> {
    match r
    case Ok(rest) => Ok(acc + rest)
    case Err(c) => Err(c)
  }

  lemma PrefixedNone<T>(r: Result<seq<T>>)
    ensures Prefixed([], r) == r
  {
    if r.Ok? { assert [] + r.value == r.value; }
  }

  lemma PrefixedStep<T>(acc: seq<T>, x: T, r: Result<seq<T>>)
    ensures Prefixed(acc, Prefixed([x], r)) == Prefixed(acc + [x], r)
  {
    if r.Ok? { assert acc + ([x] + r.value) == acc + [x] + r.value; }
  }

  lemma PrefixedEnd<T>(acc: seq<T>)
    ensures Prefixed(acc, Ok([])) == Ok(acc)
  {
    assert acc + [] == acc;
  }

  const SUCCESS := 0
  const NO_MEM := -1
  const NO_ACCESS := -2
  const INVALID_PARAM := -3
  const NOT_FOUND := -4
  const IO := -5
  const EXIST := -6
  const BUSY := -8
  const NOT_SUPPORTED := -9
  const MISSING_TAG := -12
  const INVALID_TYPE := -13
  const INVALID_VALUE := -14
  const NOT_EMPTY := -15
  const OTHER_ERROR := -99
}

/** Directory names of functions and configurations, and the labels of schemes. */
module Names {
  import opened Errors
  import opened Numbers

  /** Function types in the order of the enumeration. */
  datatype FunctionType =
    | Serial | Acm | Obex | Ecm | Subset | Ncm | Eem | Rndis | Phonet | Ffs
    | MassStorage | Midi | Loopback | Hid | Uac2 | Uvc | Printer | NinePfs

  function TypeName(t: FunctionType): string {
    match t
    case Serial => "gser"
    case Acm => "acm"
    case Obex => "obex"
    case Ecm => "ecm"
    case Subset => "geth"
    case Ncm => "ncm"
    case Eem => "eem"
    case Rndis => "rndis"
    case Phonet => "phonet"
    case Ffs => "ffs"
    case MassStorage => "mass_storage"
    case Midi => "midi"
    case Loopback => "Loopback"
    case Hid => "hid"
    case Uac2 => "uac2"
    case Uvc => "uvc"
    case Printer => "printer"
    case NinePfs => "usb9pfs"
  }

  const TYPE_TABLE := [Serial, Acm, Obex, Ecm, Subset, Ncm, Eem, Rndis, Phonet, Ffs,
                       MassStorage, Midi, Loopback, Hid, Uac2, Uvc, Printer, NinePfs]

  ghost predicate IsTypeName(name: string) { exists t :: TypeName(t) == name }

  lemma TypeNamesDistinct(t: FunctionType, u: FunctionType)
    requires TypeName(t) == TypeName(u)
    ensures t == u
  {
    assert TypeName(t)[0] == TypeName(u)[0] && |TypeName(t)| == |TypeName(u)|;
    assert TypeName(t)[1] == TypeName(u)[1];
  }

  ghost function TypeOf(name: string): (t: Option<FunctionType>)
    ensures t.Some? ==> TypeName(t.value) == name
    ensures t.None? ==> !IsTypeName(name)
  {
    if IsTypeName(name) then var t :| TypeName(t) == name; Some(t) else None
  }

  lemma TypeOfName(t: FunctionType)
    ensures TypeOf(TypeName(t)) == Some(t)
  {
    assert IsTypeName(TypeName(t));
    TypeNamesDistinct(TypeOf(TypeName(t)).value, t);
  }

  /** The names of the types. */
  lemma TypesByName()
    ensures TypeOf("gser") == Some(Serial) && TypeOf("acm") == Some(Acm) && TypeOf("obex") == Some(Obex) && TypeOf("ecm") == Some(Ecm)
    ensures TypeOf("geth") == Some(Subset) && TypeOf("ncm") == Some(Ncm) && TypeOf("eem") == Some(Eem) && TypeOf("rndis") == Some(Rndis)
    ensures TypeOf("phonet") == Some(Phonet) && TypeOf("ffs") == Some(Ffs) && TypeOf("mass_storage") == Some(MassStorage)
    ensures TypeOf("midi") == Some(Midi) && TypeOf("Loopback") == Some(Loopback) && TypeOf("hid") == Some(Hid)
    ensures TypeOf("uac2") == Some(Uac2) && TypeOf("uvc") == Some(Uvc) && TypeOf("printer") == Some(Printer) && TypeOf("usb9pfs") == Some(NinePfs)
  {
    hide TypeOf, IsTypeName;
    forall t ensures TypeOf(TypeName(t)) == Some(t) { TypeOfName(t); }
    assert TypeName(Serial) == "gser" && TypeName(Acm) == "acm" && TypeName(Obex) == "obex" && TypeName(Ecm) == "ecm";
    assert TypeName(Subset) == "geth" && TypeName(Ncm) == "ncm" && TypeName(Eem) == "eem" && TypeName(Rndis) == "rndis";
    assert TypeName(Phonet) == "phonet" && TypeName(Ffs) == "ffs" && TypeName(MassStorage) == "mass_storage" && TypeName(Midi) == "midi";
    assert TypeName(Loopback) == "Loopback" && TypeName(Hid) == "hid" && TypeName(Uac2) == "uac2" && TypeName(Uvc) == "uvc";
    assert TypeName(Printer) == "printer" && TypeName(NinePfs) == "usb9pfs";
  }

  /** The scan of the type table: the index of the type with that name, or NOT_FOUND. */
  method LookupFunctionType(name: string) returns (r: int)
    ensures r >= 0 ==> r < |TYPE_TABLE| && TypeOf(name) == Some(TYPE_TABLE[r])
    ensures r < 0 ==> r == NOT_FOUND && TypeOf(name) == None
  {
    var i := 0;
    while i < |TYPE_TABLE|
      invariant 0 <= i <= |TYPE_TABLE|
      invariant forall j :: 0 <= j < i ==> TypeName(TYPE_TABLE[j]) != name
    {
      if TypeName(TYPE_TABLE[i]) == name {
        TypeOfName(TYPE_TABLE[i]);
        return i;
      }
      i := i + 1;
    }
    forall t ensures TypeName(t) != name {
      EveryTypeListed(t);
    }
    r := NOT_FOUND;
  }

  lemma EveryTypeListed(t: FunctionType)
    ensures exists i :: 0 <= i < |TYPE_TABLE| && TYPE_TABLE[i] == t
  {
    var i := match t
      case Serial => 0 case Acm => 1 case Obex => 2 case Ecm => 3 case Subset => 4 case Ncm => 5
      case Eem => 6 case Rndis => 7 case Phonet => 8 case Ffs => 9 case MassStorage => 10 case Midi => 11
      case Loopback => 12 case Hid => 13 case Uac2 => 14 case Uvc => 15 case Printer => 16 case NinePfs => 17;
    assert TYPE_TABLE[i] == t;
  }

  /** `strchr` and `strrchr`: the first and the last position of a character, or the length when it is absent. */
  function FirstIndex(s: string, c: char): (k: nat)
    ensures k <= |s| && c !in s[..k] && (k < |s| ==> s[k] == c)
  {
    if s == [] || s[0] == c then 0
    else
      var k := 1 + FirstIndex(s[1..], c);
      assert s[..k] == [s[0]] + s[1..][..k - 1];
      k
  }

  function LastIndex(s: string, c: char): (k: nat)
    ensures k <= |s| && (k < |s| ==> s[k] == c && c !in s[k + 1..]) && (k == |s| ==> c !in s)
  {
    if s == [] then 0
    else if s[|s| - 1] == c then |s| - 1
    else
      var k := LastIndex(s[..|s| - 1], c);
      assert s == s[..|s| - 1] + [s[|s| - 1]];
      if k == |s| - 1 then |s| else
        assert s[k + 1..] == s[..|s| - 1][k + 1..] + [s[|s| - 1]];
        k
  }

  lemma FirstIndexOf(a: string, c: char, b: string)
    requires c !in a
    ensures FirstIndex(a + [c] + b, c) == |a|
  {
    var s := a + [c] + b;
    var k := FirstIndex(s, c);
    assert s[|a|] == c;
    assert forall i | 0 <= i < |a| :: s[i] in a;
    assert forall i | 0 <= i < k :: s[i] in s[..k];
  }

  lemma {:induction false} LastIndexOf(a: string, c: char, b: string)
    requires c !in b
    ensures LastIndex(a + [c] + b, c) == |a|
  {
    var s := a + [c] + b;
    if b != [] {
      assert s[..|s| - 1] == a + [c] + b[..|b| - 1];
      LastIndexOf(a, c, b[..|b| - 1]);
    }
  }

  // ----- functions: <type>.<instance>

  function FunctionName(t: FunctionType, instance: string): string {
    TypeName(t) + "." + instance
  }

  datatype FunctionKey = FunctionKey(ftype: FunctionType, instance: string)

  /** Cut at the first dot; both parts must be non-empty and the type known. */
  ghost function SplitFunctionName(name: string): Result<FunctionKey> {
    var dot := FirstIndex(name, '.');
    if dot == |name| || dot == 0 || dot + 1 == |name| then Err(INVALID_PARAM)
    else match TypeOf(name[..dot])
      case Some(t) => Ok(FunctionKey(t, name[dot + 1..]))
      case None => Err(NOT_SUPPORTED)
  }

  method SplitFunctionInstanceType(name: string) returns (r: Result<FunctionKey>)
    ensures r == SplitFunctionName(name)
  {
    var dot := FirstIndex(name, '.');
    if dot == |name| || dot == 0 || dot + 1 == |name| { return Err(INVALID_PARAM); }
    var t := LookupFunctionType(name[..dot]);
    if t >= 0 {
      r := Ok(FunctionKey(TYPE_TABLE[t], name[dot + 1..]));
    } else {
      r := Err(NOT_SUPPORTED);
    }
  }

  lemma TypeNameHasNoDot(t: FunctionType)
    ensures '.' !in TypeName(t) && TypeName(t) != ""
  {}

  /** The directory name of a function parses back, even when the instance contains dots. */
  lemma FunctionNameParses(t: FunctionType, instance: string)
    requires instance != ""
    ensures SplitFunctionName(FunctionName(t, instance)) == Ok(FunctionKey(t, instance))
  {
    var name := FunctionName(t, instance);
    TypeNameHasNoDot(t);
    FirstIndexOf(TypeName(t), '.', instance);
    TypeOfName(t);
    assert name[..|TypeName(t)|] == TypeName(t) && name[|TypeName(t)| + 1..] == instance;
  }

  /** Only such names parse. */
  lemma FunctionNameOnly(name: string, key: FunctionKey)
    ensures SplitFunctionName(name) == Ok(key) <==> key.instance != "" && name == FunctionName(key.ftype, key.instance)
  {
    hide TypeName;
    if SplitFunctionName(name) == Ok(key) {
      var dot := FirstIndex(name, '.');
      assert name == name[..dot] + [name[dot]] + name[dot + 1..];
    }
    if key.instance != "" { FunctionNameParses(key.ftype, key.instance); }
  }

  lemma FunctionNameInjective(t: FunctionType, i: string, u: FunctionType, j: string)
    requires FunctionName(t, i) == FunctionName(u, j)
    ensures t == u && i == j
  {
    TypeNameHasNoDot(t);
    TypeNameHasNoDot(u);
    FirstIndexOf(TypeName(t), '.', i);
    FirstIndexOf(TypeName(u), '.', j);
    assert FunctionName(t, i)[..|TypeName(t)|] == TypeName(t);
    assert FunctionName(u, j)[..|TypeName(u)|] == TypeName(u);
    TypeNamesDistinct(t, u);
    assert FunctionName(t, i)[|TypeName(t)| + 1..] == i;
    assert FunctionName(u, j)[|TypeName(u)| + 1..] == j;
  }

  // ----- configurations: <label>.<id>

  function ConfigName(lbl: string, id: int): string {
    lbl + "." + PrintDec(id)
  }

  datatype ConfigKey = ConfigKey(lbl: string, id: int)

  /** Cut at the last dot. The id goes through `strtol` into an `int`, so it wraps modulo 2^32
      before the range check; id 0 is a success the callers treat as "nothing to do". */
  function SplitConfigName(name: string): Result<ConfigKey> {
    var dot := LastIndex(name, '.');
    if dot == |name| || dot == 0 || dot + 1 == |name| || IsSpace(name[dot + 1]) then Err(INVALID_PARAM)
    else
      var n := Strtol(name[dot + 1..], 10);
      var id := ToInt(n.value);
      if n.overflow || n.rest != "" || id < 0 || id > 255 then Err(INVALID_PARAM)
      else Ok(ConfigKey(name[..dot], id))
  }

  lemma DecimalDigitsOnly(n: nat)
    ensures '.' !in PrintDec(n) && PrintDec(n) != "" && !IsSpace(PrintDec(n)[0])
    ensures LeadingDigits(PrintDec(n), 10) == |PrintDec(n)|
    ensures IsInt(n) ==> Strtol(PrintDec(n), 10) == LongResult(n, "", false)
  {
    var d := Digits(n, 10);
    hide Strtol, Value, Digits;
    assert forall c <- d :: IsDigit(c, 10);
    SignedDigits(false, d, "");
    assert "" + d + "" == d;
    ValueOfDigits(n, 10);
    LeadingDigitsOf(d, "", 10);
    assert d + "" == d;
  }

  /** The directory name of a configuration parses back, even when the label contains dots;
      an empty label is the one that does not. */
  lemma ConfigNameParses(lbl: string, id: int)
    requires 1 <= id <= 255
    ensures SplitConfigName(ConfigName(lbl, id)) ==
            if lbl != "" then Ok(ConfigKey(lbl, id)) else Err(INVALID_PARAM)
  {
    hide Strtol, PrintDec, LastIndex, IsSpace;
    var name := ConfigName(lbl, id);
    var d := PrintDec(id);
    DecimalDigitsOnly(id);
    LastIndexOf(lbl, '.', d);
    assert name[..|lbl|] == lbl && name[|lbl| + 1..] == d && name[|lbl| + 1] == d[0];
  }

  lemma CutAtLastDot(lbl: string, text: string)
    requires lbl != "" && text != "" && '.' !in text && !IsSpace(text[0])
    ensures var n := Strtol(text, 10); var id := ToInt(n.value);
      SplitConfigName(lbl + "." + text) ==
        if n.overflow || n.rest != "" || id < 0 || id > 255 then Err(INVALID_PARAM) else Ok(ConfigKey(lbl, id))
  {
    hide Strtol, LastIndex, IsSpace;
    var name := lbl + "." + text;
    LastIndexOf(lbl, '.', text);
    assert name[..|lbl|] == lbl && name[|lbl| + 1..] == text && name[|lbl| + 1] == text[0];
  }

  /** A label, a dot and a number in decimal, with or without a sign: the number must be an id after it was cut down to an `int`. */
  lemma ConfigNameReads(lbl: string, sign: string, digits: string)
    requires lbl != "" && sign in ["", "+", "-"] && digits != "" && forall c <- digits :: IsDigit(c, 10)
    ensures var m := Value(digits, 10); var n := if sign == "-" then 0 - m else m;
      SplitConfigName(lbl + "." + sign + digits) ==
        if LONG_MIN <= n <= LONG_MAX && 0 <= ToInt(n) <= 255 then Ok(ConfigKey(lbl, ToInt(n))) else Err(INVALID_PARAM)
  {
    hide Strtol, Value, SplitConfigName;
    var text := sign + digits;
    forall c | c in text ensures c != '.' && !IsSpace(c) { if c in digits { assert IsDigit(c, 10); } }
    CutAtLastDot(lbl, text);
    StrtolReads("", sign, "", digits, "", 10);
    assert lbl + "." + sign + digits == lbl + "." + text && "" + sign + "" + digits + "" == text;
  }

  lemma ConfigNameInjective(l: string, i: nat, m: string, j: nat)
    requires ConfigName(l, i) == ConfigName(m, j)
    requires IsInt(i) && IsInt(j)
    ensures l == m && i == j
  {
    DecimalDigitsOnly(i);
    DecimalDigitsOnly(j);
    LastIndexOf(l, '.', PrintDec(i));
    LastIndexOf(m, '.', PrintDec(j));
    var name := ConfigName(l, i);
    assert name[..|l|] == l && name[..|m|] == m;
    assert name[|l| + 1..] == PrintDec(i) && name[|m| + 1..] == PrintDec(j);
  }

  // ----- scheme labels: <type>_<instance>

  function GeneratedLabel(t: FunctionType, instance: string): string {
    TypeName(t) + "_" + instance
  }

  /** Cut at the first underscore, as if no type name contained one. */
  ghost function SplitLabel(lbl: string): Option<FunctionKey> {
    var bar := FirstIndex(lbl, '_');
    if bar == |lbl| || bar == 0 || bar >= 40 then None
    else match TypeOf(lbl[..bar])
      case Some(t) => Some(FunctionKey(t, lbl[bar + 1..]))
      case None => None
  }

  method SplitFunctionLabel(lbl: string) returns (r: Option<FunctionKey>)
    ensures r == SplitLabel(lbl)
  {
    var bar := FirstIndex(lbl, '_');
    if bar == |lbl| || bar == 0 || bar >= 40 { return None; }
    var t := LookupFunctionType(lbl[..bar]);
    if t >= 0 {
      r := Some(FunctionKey(TYPE_TABLE[t], lbl[bar + 1..]));
    } else {
      r := None;
    }
  }

  lemma TypeNameBar(t: FunctionType)
    ensures '_' in TypeName(t) <==> t == MassStorage
    ensures |TypeName(t)| < 40
  {}

  lemma MassIsNoType()
    ensures TypeOf("mass") == None
  {
    forall t ensures TypeName(t) != "mass" {
      assert |TypeName(t)| == 4 ==> TypeName(t)[0] != 'm' || TypeName(t)[1] != 'a';
    }
  }

  lemma MassStorageBar(instance: string)
    ensures FirstIndex(GeneratedLabel(MassStorage, instance), '_') == 4
    ensures GeneratedLabel(MassStorage, instance)[..4] == "mass"
  {
    assert GeneratedLabel(MassStorage, instance) == "mass" + ['_'] + ("storage_" + instance);
    FirstIndexOf("mass", '_', "storage_" + instance);
  }

  /** Splitting inverts generation for every type but mass storage, whose generated label never splits. */
  lemma GeneratedLabelSplits(t: FunctionType, instance: string)
    ensures SplitLabel(GeneratedLabel(t, instance)) ==
            if t == MassStorage then None else Some(FunctionKey(t, instance))
  {
    var lbl := GeneratedLabel(t, instance);
    TypeNameBar(t);
    TypeOfName(t);
    if t == MassStorage {
      MassStorageBar(instance);
      MassIsNoType();
    } else {
      FirstIndexOf(TypeName(t), '_', instance);
      assert lbl[..|TypeName(t)|] == TypeName(t) && lbl[|TypeName(t)| + 1..] == instance;
      TypeNameHasNoDot(t);
    }
  }

  /** Distinct functions have distinct generated labels, mass storage included. */
  lemma GeneratedLabelInjective(t: FunctionType, i: string, u: FunctionType, j: string)
    requires GeneratedLabel(t, i) == GeneratedLabel(u, j)
    ensures t == u && i == j
  {
    GeneratedLabelSplits(t, i);
    GeneratedLabelSplits(u, j);
    if t == MassStorage {
      assert GeneratedLabel(t, i)[13..] == i && GeneratedLabel(u, j)[13..] == j;
    }
  }

  // ----- language directories: 0x<lang in hex>

  function LangName(lang: int): string
    requires IsInt(lang)
  {
    PrintHex(lang, 0)
  }

  /** The directory of a language is named by its number in lower-case hex after "0x", without leading zeros. */
  lemma LangNameText(lang: int)
    requires IsInt(lang)
    ensures var s := LangName(lang); var d := s[2..];
      |s| > 2 && s[..2] == "0x" && (forall c <- d :: c in HEX_DIGITS && IsDigit(c, 16)) && (|d| > 1 ==> d[0] != '0') &&
      Value(d, 16) == if lang < 0 then 0x1_0000_0000 + lang else lang
  {
    hide PrintHex, Value, DigitValue;
    HexText(lang, 0);
  }

  /** `strtoul` in base 16 on the whole name, below 65535. */
  function ParseLang(name: string): Result<int> {
    var n := Strtol(name, 16);
    if n.rest == "" && 0 <= n.value < 65535 then Ok(n.value) else Err(OTHER_ERROR)
  }

  /** The name parses to its number below 65535 and is refused from there on, as those of negative numbers are. */
  lemma LangNameParses(lang: int)
    requires IsInt(lang)
    ensures ParseLang(LangName(lang)) == if 0 <= lang < 65535 then Ok(lang) else Err(OTHER_ERROR)
  {
    hide Digits, Value, LeadingDigits, Strtol;
    var d := Digits(ToUnsigned(lang), 16);
    ValueOfDigits(ToUnsigned(lang), 16);
    LeadingDigitsOf(d, "", 16);
    assert d + "" == d && LangName(lang) == "0x" + d + "";
    HexPrefix(LangName(lang), d, "");
  }

  /** Any other way to write the number in hex is read too: with capital letters, leading zeros, or without the prefix. */
  lemma LangDirReads(prefix: string, digits: string)
    requires prefix in ["", "0x", "0X"] && digits != "" && forall c <- digits :: IsDigit(c, 16)
    ensures ParseLang(prefix + digits) == if Value(digits, 16) < 65535 then Ok(Value(digits, 16)) else Err(OTHER_ERROR)
  {
    hide Strtol, Value;
    StrtolReads("", "", prefix, digits, "", 16);
    assert "" + "" + prefix + digits + "" == prefix + digits;
  }
}
