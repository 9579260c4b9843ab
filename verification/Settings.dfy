/** The tree of settings a scheme consists of. Names within a group are unique. */
module Settings {
  import opened Errors
  import opened Numbers

  datatype Setting =
    | SInt(i: Int)
    | SBool(b: bool)
    | SStr(s: string)
    | SGroup(members: seq<Member>)
    | SList(elems: seq<Setting>)
    | SOther  // a 64-bit integer, a float or an array: no importer accepts one

  datatype Member = Member(name: string, value: Setting)

  function Find(ms: seq<Member>, name: string): (r: Option<Setting>)
    ensures r.Some? <==> exists m <- ms :: m.name == name
  {
    if ms == [] then None
    else if ms[0].name == name then Some(ms[0].value)
    else Find(ms[1..], name)
  }

  /** `config_setting_get_member`: nothing when the setting is not a group. */
  function Get(root: Setting, name: string): Option<Setting> {
    if root.SGroup? then Find(root.members, name) else None
  }

  /** `config_setting_length` and `config_setting_get_elem`: the children of a group or a list. */
  function Children(root: Setting): seq<Setting> {
    match root
    case SGroup(ms) => seq(|ms|, i requires 0 <= i < |ms| => ms[i].value)
    case SList(es) => es
    case _ => []
  }

  /** `config_setting_add` to a group followed by setting the value: refused when the name is taken. */
  function Add(ms: seq<Member>, name: string, value: Setting): Result<seq<Member>> {
    if Find(ms, name).Some? then Err(NO_MEM) else Ok(ms + [Member(name, value)])
  }

  lemma {:induction false} FindAppend(ms: seq<Member>, ns: seq<Member>, name: string)
    ensures Find(ms + ns, name) == if Find(ms, name).Some? then Find(ms, name) else Find(ns, name)
  {
    if ms == [] {
      assert ms + ns == ns;
    } else {
      assert (ms + ns)[1..] == ms[1..] + ns;
      FindAppend(ms[1..], ns, name);
    }
  }

  /** Adding a member leaves the others where they are. */
  lemma AddFinds(ms: seq<Member>, name: string, value: Setting, other: string)
    requires Add(ms, name, value).Ok?
    ensures Find(Add(ms, name, value).value, other) == if other == name then Some(value) else Find(ms, other)
  {
    FindAppend(ms, [Member(name, value)], other);
  }
}

/** Attributes of functions: how each kind is read, written, exported and imported, and the tables
    that list the attributes of a function type. */
module Attributes {
  import opened Errors
  import opened Numbers
  import opened Names
  import opened Codecs
  import opened Settings
  import opened Kernel

  datatype AttrKind = Dec | Bool | Str | MacAddr | Report | Dev | Count

  datatype AttrVal =
    | IntVal(n: Int)
    | BoolVal(b: bool)
    | StrVal(s: string)
    | MacVal(m: Mac)
    | BytesVal(bytes: seq<Byte>)
    | DevVal(major: Int, minor: Int)

  predicate Fits(kind: AttrKind, v: AttrVal) {
    match kind
    case Dec => v.IntVal?
    case Count => v.IntVal?
    case Bool => v.BoolVal?
    case Str => v.StrVal?
    case MacAddr => v.MacVal?
    case Report => v.BytesVal?
    case Dev => v.DevVal?
  }

  function BytesOf(text: string): (r: seq<Byte>)
    ensures |r| == |text|
  {
    seq(|text|, i requires 0 <= i < |text| => text[i] as int % 256)
  }

  function TextOf(bytes: seq<Byte>): (r: string)
    ensures |r| == |bytes|
  {
    seq(|bytes|, i requires 0 <= i < |bytes| => bytes[i] as char)
  }

  lemma BytesOfText(bytes: seq<Byte>)
    ensures BytesOf(TextOf(bytes)) == bytes
  {}

  /** The getter of each kind, as a function of the file's contents. */
  function ReadVal(kind: AttrKind, text: string): (r: Result<AttrVal>)
    ensures r.Ok? ==> Fits(kind, r.value)
  {
    match kind
    case Dec => Ok(IntVal(ReadInt(text, 10)))
    case Count => Ok(IntVal(ReadInt(text, 10)))
    case Bool => Ok(BoolVal(ReadInt(text, 10) != 0))
    case Str => Ok(StrVal(ReadString(text, FILE_SIZE)))
    case MacAddr => (match ParseMac(ReadString(text, STR_LENGTH)) case Some(m) => Ok(MacVal(m)) case None => Err(IO))
    case Report => Ok(BytesVal(BytesOf(if |text| <= STR_LENGTH then text else text[..STR_LENGTH])))
    case Dev =>
      // "%d:%d"
      var s := ReadString(text, STR_LENGTH);
      var major := Strtol(s, 10);
      if major.rest == s || major.rest == "" || major.rest[0] != ':' then Err(INVALID_VALUE)
      else
        var minor := Strtol(major.rest[1..], 10);
        if minor.rest == major.rest[1..] then Err(INVALID_VALUE)
        else Ok(DevVal(ToInt(major.value), ToInt(minor.value)))
  }

  /** The setter of each kind: the text it writes. An empty report descriptor goes out as one zero byte. */
  function WriteVal(kind: AttrKind, v: AttrVal): string
    requires Fits(kind, v) && kind != Dev
  {
    match kind
    case Dec => WriteDec(v.n)
    case Count => WriteDec(v.n)
    case Bool => WriteDec(if v.b then 1 else 0)
    case Str => v.s
    case MacAddr => PrintMac(v.m)
    case Report => if v.bytes == [] then TextOf([0]) else TextOf(v.bytes)
  }

  /** A byte as a plain `char`, which is signed on the platforms the model follows. */
  function SignedChar(b: Byte): Int { if b < 128 then b else b - 256 }

  function ReportList(bytes: seq<Byte>): seq<Setting> {
    seq(|bytes|, i requires 0 <= i < |bytes| => SInt(SignedChar(bytes[i])))
  }

  /** The exporter of each kind: the node it adds. */
  function ExportVal(kind: AttrKind, v: AttrVal): Result<Setting>
    requires Fits(kind, v)
  {
    match kind
    case Dec => Ok(SInt(v.n))
    case Count => if v.n < 0 then Err(INVALID_VALUE) else Ok(SInt(v.n))
    case Bool => Ok(SBool(v.b))
    case Str => Ok(SStr(v.s))
    case MacAddr => Ok(SStr(PrintMac(v.m)))
    case Report => Ok(SList(ReportList(v.bytes)))
    case Dev => Ok(SGroup([Member("major", SInt(v.major)), Member("minor", SInt(v.minor))]))
  }

  /** The contract of an importer: 0 when nothing is found, negative on error, above 0 with a value. */
  datatype Imported = Absent | Found(v: AttrVal) | Bad(code: ErrorCode)

  function ImportBytes(es: seq<Setting>): (r: Imported)
    ensures r.Found? ==> Fits(Report, r.v)
    ensures !r.Absent?
  {
    if es == [] then Found(BytesVal([]))
    else if !es[0].SInt? then Bad(INVALID_TYPE)
    else if !(0 <= es[0].i <= 255) then Bad(INVALID_VALUE)
    else match ImportBytes(es[1..])
      case Found(v) => Found(BytesVal([es[0].i as Byte] + v.bytes))
      case r => r
  }

  /** The importer of each kind, literally: the one for booleans reports 0 also when it found a value,
      so its callers take every boolean for absent. */
  function ImportVal(kind: AttrKind, root: Setting, name: string): (r: Imported)
    requires kind != Dev
    ensures r.Found? ==> Fits(kind, r.v)
  {
    match Get(root, name)
    case None => Absent
    case Some(node) =>
      match kind
      case Dec => if node.SInt? then Found(IntVal(node.i)) else Bad(INVALID_TYPE)
      case Count =>
        var n := if node.SInt? then node.i else 0;
        if n < 0 then Bad(INVALID_PARAM) else Found(IntVal(n))
      case Bool => if node.SInt? || node.SBool? then Absent else Bad(INVALID_TYPE)
      case Str => if node.SStr? then Found(StrVal(node.s)) else Bad(INVALID_TYPE)
      case MacAddr =>
        if !node.SStr? then Bad(INVALID_TYPE)
        else (match ParseMac(node.s) case Some(m) => Found(MacVal(m)) case None => Bad(INVALID_VALUE))
      case Report => if node.SList? then ImportBytes(node.elems) else Bad(INVALID_TYPE)
  }

  datatype AttrDef = AttrDef(name: string, kind: AttrKind, ro: bool, exported: bool)

  function Writable(name: string, kind: AttrKind): AttrDef { AttrDef(name, kind, false, true) }

  const NET_TABLE := [
    Writable("dev_addr", MacAddr), Writable("host_addr", MacAddr), AttrDef("ifname", Str, true, false),
    Writable("qmult", Dec), Writable("class_", Dec), Writable("subclass", Dec), Writable("protocol", Dec)]

  const HID_TABLE := [
    AttrDef("dev", Dev, true, true), Writable("protocol", Dec), Writable("report_desc", Report),
    Writable("report_length", Dec), Writable("subclass", Dec)]

  const MIDI_TABLE := [
    Writable("index", Dec), Writable("id", Str), Writable("in_ports", Dec), Writable("out_ports", Dec),
    Writable("buflen", Dec), Writable("qlen", Dec)]

  const LOOPBACK_TABLE := [Writable("buflen", Count), Writable("qlen", Count)]

  /** No file other than these has changed. */
  ghost predicate OnlyNamed(names: set<string>, before: Files, after: Files) {
    after.Keys == before.Keys && forall n <- before | n !in names :: after[n] == before[n]
  }

  lemma NetOnly(files: Files, after: Files)
    requires after.Keys == files.Keys
    requires forall n <- files | (forall d <- NET_TABLE | !d.ro && d.kind != Bool :: d.name != n) :: after[n] == files[n]
    ensures OnlyNamed({"dev_addr", "host_addr", "qmult", "class_", "subclass", "protocol"}, files, after)
  {}

  lemma HidOnly(files: Files, after: Files)
    requires after.Keys == files.Keys
    requires forall n <- files | (forall d <- HID_TABLE | !d.ro && d.kind != Bool :: d.name != n) :: after[n] == files[n]
    ensures OnlyNamed({"protocol", "report_desc", "report_length", "subclass"}, files, after)
  {}

  lemma MidiOnly(files: Files, after: Files)
    requires after.Keys == files.Keys
    requires forall n <- files | (forall d <- MIDI_TABLE | !d.ro && d.kind != Bool :: d.name != n) :: after[n] == files[n]
    ensures OnlyNamed({"index", "id", "in_ports", "out_ports", "buflen", "qlen"}, files, after)
  {}

  predicate IsNet(t: FunctionType) { t in [Ecm, Subset, Ncm, Eem, Rndis] }

  /** The attribute table of a type; none for a type without import and export operations.
      `uac2` and `uvc` stand among the latter because their attributes are not part of this model. */
  function AttrTable(t: FunctionType): Option<seq<AttrDef>> {
    match t
    case Ecm => Some(NET_TABLE)
    case Subset => Some(NET_TABLE)
    case Ncm => Some(NET_TABLE)
    case Eem => Some(NET_TABLE)
    case Rndis => Some(NET_TABLE)
    case Hid => Some(HID_TABLE)
    case Midi => Some(MIDI_TABLE)
    case Loopback => Some(LOOPBACK_TABLE)
    case Uac2 => None
    case Uvc => None
    case Printer => None
    case _ => Some([])
  }

  ghost predicate WellFormed(table: seq<AttrDef>) {
    (forall i, j :: 0 <= i < j < |table| ==> table[i].name != table[j].name) &&
    (forall d <- table :: (!d.ro ==> d.exported && d.kind != Dev))
  }

  lemma NetWellFormed()
    ensures WellFormed(NET_TABLE)
  {}

  lemma HidWellFormed()
    ensures WellFormed(HID_TABLE)
  {}

  lemma MidiWellFormed()
    ensures WellFormed(MIDI_TABLE)
  {}

  lemma TablesWellFormed(t: FunctionType)
    ensures AttrTable(t).Some? ==> WellFormed(AttrTable(t).value)
  {
    NetWellFormed();
    HidWellFormed();
    MidiWellFormed();
    hide WellFormed;
    assert t == Loopback ==> WellFormed(LOOPBACK_TABLE) by { LoopbackWellFormed(); }
    assert WellFormed([]) by { EmptyWellFormed(); }
  }

  lemma LoopbackWellFormed()
    ensures WellFormed(LOOPBACK_TABLE)
  {}

  lemma EmptyWellFormed()
    ensures WellFormed([])
  {}

  // ----- the loops over a table, as functions of the directory's files

  /** Entries from `i` on, added to `ms`. */
  function ExportFrom(table: seq<AttrDef>, i: nat, ms: seq<Member>, files: Files): Result<seq<Member>>
    requires i <= |table|
    decreases |table| - i
  {
    if i == |table| then Ok(ms)
    else
      var d := table[i];
      if !d.exported then ExportFrom(table, i + 1, ms, files)
      else if d.name !in files then Err(NOT_FOUND)
      else
        var v :- ReadVal(d.kind, files[d.name]);
        var node :- ExportVal(d.kind, v);
        var more :- Add(ms, d.name, node);
        ExportFrom(table, i + 1, more, files)
  }

  function ImportFrom(table: seq<AttrDef>, i: nat, root: Setting, files: Files): Result<Files>
    requires i <= |table| && WellFormed(table)
    decreases |table| - i
  {
    if i == |table| then Ok(files)
    else
      var d := table[i];
      if d.ro then ImportFrom(table, i + 1, root, files)
      else match ImportVal(d.kind, root, d.name)
        case Absent => ImportFrom(table, i + 1, root, files)
        case Bad(code) => Err(code)
        case Found(v) =>
          if d.name !in files then Err(NOT_FOUND)
          else ImportFrom(table, i + 1, root, files[d.name := WriteVal(d.kind, v)])
  }

  // ----- exporting a table and importing it into a fresh directory

  /** The value a table entry has in `files`, if it can be read and exported. */
  ghost predicate Exports(d: AttrDef, files: Files) {
    d.name in files && ReadVal(d.kind, files[d.name]).Ok? &&
    ExportVal(d.kind, ReadVal(d.kind, files[d.name]).value).Ok?
  }

  ghost function ValueOf(d: AttrDef, files: Files): AttrVal
    requires Exports(d, files)
  {
    ReadVal(d.kind, files[d.name]).value
  }

  ghost function NodeOf(d: AttrDef, files: Files): Setting
    requires Exports(d, files)
  {
    ExportVal(d.kind, ValueOf(d, files)).value
  }

  lemma {:induction false} ExportedMembers(table: seq<AttrDef>, i: nat, ms: seq<Member>, files: Files)
    requires i <= |table|
    requires ExportFrom(table, i, ms, files).Ok?
    ensures var out := ExportFrom(table, i, ms, files).value;
      (forall n | Find(ms, n).Some? :: Find(out, n) == Find(ms, n)) &&
      (forall d <- table[i..] | d.exported :: Exports(d, files) && Find(out, d.name) == Some(NodeOf(d, files)))
    decreases |table| - i
  {
    hide ReadVal, ExportVal;
    if i < |table| {
      var d := table[i];
      assert table[i..] == [d] + table[i + 1..];
      if !d.exported {
        ExportedMembers(table, i + 1, ms, files);
      } else {
        var more := Add(ms, d.name, NodeOf(d, files)).value;
        ExportedMembers(table, i + 1, more, files);
        forall n ensures Find(more, n) == if n == d.name then Some(NodeOf(d, files)) else Find(ms, n) {
          AddFinds(ms, d.name, NodeOf(d, files), n);
        }
      }
    }
  }

  /** The only exported values an importer refuses: report bytes that are negative as plain `char`. */
  predicate Importable(kind: AttrKind, v: AttrVal) {
    kind == Report && v.BytesVal? ==> forall b <- v.bytes :: b < 128
  }

  lemma {:induction false} ImportReport(bytes: seq<Byte>)
    ensures ImportBytes(ReportList(bytes)) ==
      if Importable(Report, BytesVal(bytes)) then Found(BytesVal(bytes)) else Bad(INVALID_VALUE)
  {
    if bytes == [] {
      assert ReportList(bytes) == [];
    } else {
      var rest := bytes[1..];
      assert ReportList(bytes)[1..] == ReportList(rest);
      ImportReport(rest);
      assert bytes == [bytes[0]] + rest;
      assert forall b <- bytes :: b == bytes[0] || b in rest;
      assert bytes[0] in bytes && forall b <- rest :: b in bytes;
    }
  }

  /** What an importer makes of the node an exporter of the same kind added. */
  lemma ImportOfExport(kind: AttrKind, v: AttrVal, root: Setting, name: string)
    requires kind != Dev && Fits(kind, v) && ExportVal(kind, v).Ok?
    requires Get(root, name) == Some(ExportVal(kind, v).value)
    ensures ImportVal(kind, root, name) ==
      if kind == Bool then Absent else if Importable(kind, v) then Found(v) else Bad(INVALID_VALUE)
  {
    match kind
    case MacAddr => MacParses(v.m);
    case Report => ImportReport(v.bytes);
    case _ =>
  }

  /** Writing a value that was read gives that value again, an empty report descriptor excepted. */
  lemma ReadOfWrite(kind: AttrKind, text: string)
    requires kind != Dev && ReadVal(kind, text).Ok?
    ensures var v := ReadVal(kind, text).value;
      ReadVal(kind, WriteVal(kind, v)) == Ok(if kind == Report && v.bytes == [] then BytesVal([0]) else v)
  {
    var v := ReadVal(kind, text).value;
    match kind
    case Dec => DecFile(v.n);
    case Count => DecFile(v.n);
    case Bool => DecFile(if v.b then 1 else 0);
    case Str =>
      ReadStringIsClean(text, FILE_SIZE);
      StringFile(v.s, FILE_SIZE);
    case MacAddr =>
      MacParses(v.m);
      StringFile(PrintMac(v.m), STR_LENGTH);
    case Report =>
      BytesOfText(v.bytes);
      BytesOfText([0]);
  }

  /** The contents of an attribute after the import: booleans are skipped. */
  function Imported1(d: AttrDef, v: AttrVal, before: string): string
    requires Fits(d.kind, v) && d.kind != Dev
  {
    if d.kind == Bool then before else WriteVal(d.kind, v)
  }

  /** One step of the import of what was exported. */
  lemma ImportedOne(table: seq<AttrDef>, i: nat, root: Setting, files: Files, fresh0: Files)
    requires i < |table| && WellFormed(table) && !table[i].ro
    requires var d := table[i]; Exports(d, files) && d.name in fresh0 && Get(root, d.name) == Some(NodeOf(d, files))
    ensures var d := table[i]; var v := ValueOf(d, files);
      d.kind != Dev && Fits(d.kind, v) && (d.kind == Bool ==> Importable(d.kind, v)) &&
      ImportFrom(table, i, root, fresh0) ==
        if Importable(d.kind, v) then ImportFrom(table, i + 1, root, fresh0[d.name := Imported1(d, v, fresh0[d.name])])
        else Err(INVALID_VALUE)
  {
    hide ReadVal, ExportVal, WriteVal, ImportVal, Get, Importable;
    var d := table[i];
    var v := ValueOf(d, files);
    ImportOfExport(d.kind, v, root, d.name);
    if d.kind == Bool {
      NotReport(d.kind, v);
      assert fresh0[d.name := fresh0[d.name]] == fresh0;
    }
  }

  /** Importing what was exported: it succeeds exactly when every writable value is importable,
      and then writes exactly the writable attributes that are not boolean. */
  lemma {:induction false} ImportedFiles(table: seq<AttrDef>, i: nat, root: Setting, files: Files, fresh0: Files)
    requires i <= |table| && WellFormed(table)
    requires forall d <- table[i..] | !d.ro ::
      Exports(d, files) && d.name in fresh0 && Get(root, d.name) == Some(NodeOf(d, files))
    ensures var r := ImportFrom(table, i, root, fresh0);
      (r.Ok? <==> forall d <- table[i..] | !d.ro :: Importable(d.kind, ValueOf(d, files))) &&
      (r.Ok? ==>
        r.value.Keys == fresh0.Keys &&
        (forall d <- table[i..] | !d.ro :: r.value[d.name] == Imported1(d, ValueOf(d, files), fresh0[d.name])) &&
        (forall n <- fresh0.Keys :: (forall d <- table[i..] :: !d.ro ==> d.name != n) ==> r.value[n] == fresh0[n]))
    decreases |table| - i
  {
    hide ReadVal, ExportVal, ImportVal, Get, Importable, NodeOf, ValueOf, Exports, Imported1;
    if i < |table| {
      var d := table[i];
      assert table[i..] == [d] + table[i + 1..];
      if d.ro {
        ImportedFiles(table, i + 1, root, files, fresh0);
      } else {
        ImportedOne(table, i, root, files, fresh0);
        ImportedFiles(table, i + 1, root, files, fresh0[d.name := Imported1(d, ValueOf(d, files), fresh0[d.name])]);
        assert forall e <- table[i + 1..] :: e.name != d.name;
      }
    }
  }

  lemma NotReport(kind: AttrKind, v: AttrVal)
    requires kind != Report
    ensures Importable(kind, v)
  {}

  /** Does the attribute come back from an export followed by an import into `fresh0`? */
  ghost predicate Survives(d: AttrDef, files: Files, fresh0: Files)
    requires Exports(d, files) && d.name in fresh0
  {
    match d.kind
    case Bool => ReadVal(Bool, fresh0[d.name]) == Ok(ValueOf(d, files))
    case Report => ValueOf(d, files).bytes != [] && Importable(Report, ValueOf(d, files))
    case _ => true
  }

  /** Exporting the attributes of a function and importing them into a fresh function restores every
      writable attribute if and only if each report descriptor is non-empty with bytes below 128 and each
      boolean already has its default value; read-only attributes are left at their defaults. */
  lemma AttributesRoundTrip(table: seq<AttrDef>, files: Files, fresh0: Files)
    requires WellFormed(table)
    requires ExportFrom(table, 0, [], files).Ok?
    requires forall d <- table | !d.ro :: d.name in fresh0
    ensures forall d <- table | !d.ro :: Exports(d, files)
    ensures var r := ImportFrom(table, 0, SGroup(ExportFrom(table, 0, [], files).value), fresh0);
      r.Ok? ==> r.value.Keys == fresh0.Keys && forall d <- table | d.ro && d.name in fresh0 :: r.value[d.name] == fresh0[d.name]
    ensures var r := ImportFrom(table, 0, SGroup(ExportFrom(table, 0, [], files).value), fresh0);
      (r.Ok? && r.value.Keys == fresh0.Keys &&
       (forall d <- table | !d.ro :: ReadVal(d.kind, r.value[d.name]) == Ok(ValueOf(d, files))) &&
       (forall d <- table | d.ro && d.name in fresh0 :: r.value[d.name] == fresh0[d.name]))
      <==> (forall d <- table | !d.ro :: Survives(d, files, fresh0))
  {
    hide ExportFrom, ImportFrom, ReadVal, WriteVal;
    var out := ExportFrom(table, 0, [], files).value;
    var root := SGroup(out);
    ExportedMembers(table, 0, [], files);
    assert table[0..] == table;
    ImportedFiles(table, 0, root, files, fresh0);
    var r := ImportFrom(table, 0, root, fresh0);
    forall d | d in table && !d.ro && Importable(d.kind, ValueOf(d, files))
      ensures ReadVal(d.kind, Imported1(d, ValueOf(d, files), fresh0[d.name])) == Ok(ValueOf(d, files))
        <==> Survives(d, files, fresh0)
    {
      OneSurvives(d, files, fresh0);
    }
    assert forall d <- table, e <- table | d.ro && !e.ro :: d.name != e.name;
  }

  lemma OneSurvives(d: AttrDef, files: Files, fresh0: Files)
    requires Exports(d, files) && d.name in fresh0 && d.kind != Dev
    requires Importable(d.kind, ValueOf(d, files))
    ensures ReadVal(d.kind, Imported1(d, ValueOf(d, files), fresh0[d.name])) == Ok(ValueOf(d, files))
      <==> Survives(d, files, fresh0)
  {
    hide ReadVal, WriteVal, ExportVal;
    if d.kind != Bool { ReadOfWrite(d.kind, files[d.name]); }
  }

  // ----- what an export tells of a directory

  /** The number a file holds as a character device: major and minor with a colon between. */
  function DeviceText(major: Int, minor: Int): string { PrintDec(major) + ":" + PrintDec(minor) + "\n" }

  /** The setting tells what the file says. */
  ghost predicate Tells(kind: AttrKind, text: string, node: Setting) {
    match kind
    case Dec => node == SInt(ReadInt(text, 10))
    case Count => node == SInt(ReadInt(text, 10)) && ReadInt(text, 10) >= 0
    case Bool => node == SBool(ReadInt(text, 10) != 0)
    case Str => node == SStr(ReadString(text, 4096))
    case MacAddr => exists m :: ParseMac(ReadString(text, 256)) == Some(m) && node == SStr(PrintMac(m))
    case Report =>
      node.SList? && |node.elems| == (if |text| < 256 then |text| else 256) &&
      forall i :: 0 <= i < |node.elems| ==>
        var b := text[i] as int % 256; node.elems[i] == SInt(if b < 128 then b else b - 256)
    case Dev =>
      node.SGroup? && |node.members| == 2 && node.members[0].name == "major" && node.members[0].value.SInt? &&
      node.members[1].name == "minor" && node.members[1].value.SInt? &&
      forall major: Int, minor: Int | text == DeviceText(major, minor) ::
        node.members[0].value == SInt(major) && node.members[1].value == SInt(minor)
  }

  /** The file holds something that can be told. */
  ghost predicate Tellable(kind: AttrKind, text: string) {
    match kind
    case Count => ReadInt(text, 10) >= 0
    case MacAddr => ParseMac(ReadString(text, 256)).Some?
    case Dev => ReadVal(Dev, text).Ok?
    case _ => true
  }

  lemma DeviceRead(major: Int, minor: Int)
    ensures ReadVal(Dev, DeviceText(major, minor)) == Ok(DevVal(major, minor))
  {
    hide Strtol, PrintDec, Value;
    var text := DeviceText(major, minor);
    var a, b := PrintDec(major), PrintDec(minor);
    PrintDecLength(major);
    PrintDecLength(minor);
    var s := a + ":" + b;
    assert !IsDigit(':', 10);
    DecimalThen(major, ":" + b);
    DecimalThen(minor, "");
    assert b + "" == b && a + (":" + b) == s && (":" + b)[1..] == b;
    DecimalClean(major);
    DecimalClean(minor);
    assert '\n' !in s;
    assert text == s + ['\n'] + "";
    FirstIndexOf(s, '\n', "");
    assert ReadString(text, STR_LENGTH) == s;
  }

  /** A decimal number is read up to what follows it. */
  lemma DecimalThen(n: int, tail: string)
    requires IsInt(n) && (tail == [] || !IsDigit(tail[0], 10))
    ensures Strtol(PrintDec(n) + tail, 10) == LongResult(n, tail, false) && PrintDec(n) != ""
  {
    hide Strtol, Value, PrintDec;
    DecimalText(n);
    var s := PrintDec(n);
    var d := if n < 0 then s[1..] else s;
    forall c | c in d ensures IsDigit(c, 10) { assert '0' <= c <= '9'; }
    var sign := if n < 0 then "-" else "";
    StrtolReads("", sign, "", d, tail, 10);
    assert s == sign + d;
    assert "" + sign + "" + d + tail == s + tail;
  }

  lemma DecimalClean(n: Int)
    ensures '\n' !in PrintDec(n)
  {
    hide PrintDec, Value;
    DecimalText(n);
    var s := PrintDec(n);
    if n < 0 { assert s == [s[0]] + s[1..]; }
  }

  lemma PrintDecLength(n: int)
    requires IsInt(n)
    ensures |PrintDec(n)| <= 13
  {
    hide Digits, Value, Strtol;
    assert Power10(12) == 1_000_000_000_000;
    DigitsLength(if n < 0 then -n else n, 10, 12);
  }

  /** A value is read and exported exactly when the file can be told, and tells what the file says. */
  lemma ExportValTells(kind: AttrKind, text: string)
    ensures (ReadVal(kind, text).Ok? && ExportVal(kind, ReadVal(kind, text).value).Ok?) <==> Tellable(kind, text)
    ensures Tellable(kind, text) ==> Tells(kind, text, ExportVal(kind, ReadVal(kind, text).value).value)
  {
    match kind
    case Dev =>
      hide Strtol, ReadString, DeviceText;
      forall major: Int, minor: Int | text == DeviceText(major, minor) ensures ReadVal(Dev, text) == Ok(DevVal(major, minor)) {
        DeviceRead(major, minor);
      }
    case _ => hide Strtol, ReadString, ReadInt, ParseMac, PrintMac, DeviceText;
  }

  /** An export succeeds exactly when every exported attribute has a file that can be told. It then has exactly these
      members, each telling what its file says. */
  lemma ExportTells(table: seq<AttrDef>, files: Files)
    requires forall i, j :: 0 <= i < j < |table| ==> table[i].name != table[j].name
    ensures ExportFrom(table, 0, [], files).Ok? <==> forall d <- table | d.exported :: d.name in files && Tellable(d.kind, files[d.name])
    ensures ExportFrom(table, 0, [], files).Ok? ==>
      var out := ExportFrom(table, 0, [], files).value;
      forall d <- table ::
        if d.exported then Find(out, d.name).Some? && Tells(d.kind, files[d.name], Find(out, d.name).value) else Find(out, d.name) == None
  {
    hide ReadVal, ExportVal, Tells, Tellable, ExportFrom;
    assert table[0..] == table;
    forall d | d in table ensures Find([], d.name) == None {}
    ExportableFrom(table, 0, [], files);
    if ExportFrom(table, 0, [], files).Ok? {
      ExportedMembers(table, 0, [], files);
      OnlyExported(table, 0, [], files);
      forall d | d in table && d.exported ensures Tells(d.kind, files[d.name], NodeOf(d, files)) { ExportValTells(d.kind, files[d.name]); }
    }
  }

  lemma {:induction false} ExportableFrom(table: seq<AttrDef>, i: nat, ms: seq<Member>, files: Files)
    requires i <= |table| && forall j, k :: i <= j < k < |table| ==> table[j].name != table[k].name
    requires forall d <- table[i..] :: Find(ms, d.name) == None
    ensures ExportFrom(table, i, ms, files).Ok? <==> forall d <- table[i..] | d.exported :: d.name in files && Tellable(d.kind, files[d.name])
    decreases |table| - i
  {
    hide ReadVal, ExportVal, Tellable;
    if i < |table| {
      var d := table[i];
      assert table[i..] == [d] + table[i + 1..];
      if !d.exported {
        ExportableFrom(table, i + 1, ms, files);
      } else if d.name in files {
        ExportValTells(d.kind, files[d.name]);
        if Tellable(d.kind, files[d.name]) {
          var node := ExportVal(d.kind, ReadVal(d.kind, files[d.name]).value).value;
          var more := Add(ms, d.name, node).value;
          forall e | e in table[i + 1..] ensures Find(more, e.name) == None { AddFinds(ms, d.name, node, e.name); }
          ExportableFrom(table, i + 1, more, files);
        }
      }
    }
  }

  lemma {:induction false} OnlyExported(table: seq<AttrDef>, i: nat, ms: seq<Member>, files: Files)
    requires i <= |table| && ExportFrom(table, i, ms, files).Ok?
    ensures forall n :: (Find(ms, n) == None && forall d <- table[i..] | d.exported :: d.name != n) ==>
      Find(ExportFrom(table, i, ms, files).value, n) == None
    decreases |table| - i
  {
    hide ReadVal, ExportVal;
    if i < |table| {
      var d := table[i];
      assert table[i..] == [d] + table[i + 1..];
      if !d.exported {
        OnlyExported(table, i + 1, ms, files);
      } else {
        var node := NodeOf(d, files);
        var more := Add(ms, d.name, node).value;
        OnlyExported(table, i + 1, more, files);
        forall n | Find(ms, n) == None && n != d.name ensures Find(more, n) == None { AddFinds(ms, d.name, node, n); }
      }
    }
  }

  // ----- what an import makes of any group of settings

  /** The value the setting stands for: an attribute with this one is written as `text`. Booleans are passed over. */
  ghost predicate Gives(kind: AttrKind, node: Setting, text: string) {
    match kind
    case Dec => node.SInt? && text == PrintDec(node.i) + "\n"
    case Count => if node.SInt? then node.i >= 0 && text == PrintDec(node.i) + "\n" else text == "0\n"
    case Str => node.SStr? && text == node.s
    case MacAddr => node.SStr? && ParseMac(node.s).Some? && text == PrintMac(ParseMac(node.s).value)
    case Report =>
      node.SList? && (forall e <- node.elems :: e.SInt? && 0 <= e.i <= 255) &&
      if node.elems == [] then text == [0 as char]
      else |text| == |node.elems| && forall i :: 0 <= i < |text| ==> text[i] as int == node.elems[i].i
    case _ => false
  }

  /** The setting is one the importer of the kind takes. */
  ghost predicate Takes(kind: AttrKind, node: Setting) {
    match kind
    case Bool => node.SInt? || node.SBool?
    case Dec => node.SInt?
    case Count => node.SInt? ==> node.i >= 0
    case Str => node.SStr?
    case MacAddr => node.SStr? && ParseMac(node.s).Some?
    case Report => node.SList? && forall e <- node.elems :: e.SInt? && 0 <= e.i <= 255
    case Dev => false
  }

  lemma {:induction false} ReportBytes(es: seq<Setting>)
    ensures ImportBytes(es).Found? <==> forall e <- es :: e.SInt? && 0 <= e.i <= 255
    ensures ImportBytes(es).Found? ==>
      var bytes := ImportBytes(es).v.bytes; |bytes| == |es| && forall i :: 0 <= i < |es| ==> bytes[i] == es[i].i
  {
    if es != [] {
      ReportBytes(es[1..]);
      assert es == [es[0]] + es[1..];
    }
  }

  lemma ImportValGives(kind: AttrKind, root: Setting, name: string)
    requires kind != Dev
    ensures var r := ImportVal(kind, root, name); var node := Get(root, name);
      (r.Bad? <==> node.Some? && !Takes(kind, node.value)) && (r.Absent? <==> node.None? || (kind == Bool && !r.Bad?)) &&
      (r.Found? ==> Gives(kind, node.value, WriteVal(kind, r.v)))
  {
    hide ParseMac, PrintMac, PrintDec, Get;
    var node := Get(root, name);
    if node.Some? && kind == Report && node.value.SList? { ReportBytes(node.value.elems); }
    assert PrintDec(0) == "0" by { ZeroText(); }
  }

  lemma ZeroText()
    ensures PrintDec(0) == "0"
  {}

  /** An import of attributes succeeds exactly when every writable attribute that is mentioned has a setting its importer takes and,
      unless it is boolean, a file. Each of these files then holds what its setting gives; all others are as before. */
  lemma ImportGives(table: seq<AttrDef>, root: Setting, files: Files)
    requires WellFormed(table)
    ensures ImportFrom(table, 0, root, files).Ok? <==>
      forall d <- table | !d.ro && Get(root, d.name).Some? :: Takes(d.kind, Get(root, d.name).value) && (d.kind == Bool || d.name in files)
    ensures ImportFrom(table, 0, root, files).Ok? ==>
      var r := ImportFrom(table, 0, root, files).value;
      r.Keys == files.Keys && (forall d <- table | Changed(d, root) :: Gives(d.kind, Get(root, d.name).value, r[d.name])) &&
      forall n <- files | (forall d <- table | Changed(d, root) :: d.name != n) :: r[n] == files[n]
  {
    hide WellFormed, Gives, Takes, ImportFrom, Get;
    assert table[0..] == table;
    ImportGivesFrom(table, 0, root, files);
  }

  /** The import writes this attribute. */
  predicate Changed(d: AttrDef, root: Setting) { !d.ro && d.kind != Bool && Get(root, d.name).Some? }

  lemma {:induction false} ImportGivesFrom(table: seq<AttrDef>, i: nat, root: Setting, files: Files)
    requires WellFormed(table) && i <= |table|
    ensures ImportFrom(table, i, root, files).Ok? <==>
      forall d <- table[i..] | !d.ro && Get(root, d.name).Some? :: Takes(d.kind, Get(root, d.name).value) && (d.kind == Bool || d.name in files)
    ensures ImportFrom(table, i, root, files).Ok? ==>
      var r := ImportFrom(table, i, root, files).value;
      r.Keys == files.Keys && (forall d <- table[i..] | Changed(d, root) :: d.name in r && Gives(d.kind, Get(root, d.name).value, r[d.name])) &&
      forall n <- files | (forall d <- table[i..] | Changed(d, root) :: d.name != n) :: r[n] == files[n]
    decreases |table| - i
  {
    hide Gives, Takes, ImportVal, WriteVal, Get;
    if i < |table| {
      var d := table[i];
      assert table[i..] == [d] + table[i + 1..];
      assert forall e <- table[i + 1..] :: e.name != d.name;
      if d.ro {
        ImportGivesFrom(table, i + 1, root, files);
      } else {
        ImportValGives(d.kind, root, d.name);
        match ImportVal(d.kind, root, d.name)
        case Absent => ImportGivesFrom(table, i + 1, root, files);
        case Bad(_) =>
        case Found(v) =>
          if d.name in files { ImportGivesFrom(table, i + 1, root, files[d.name := WriteVal(d.kind, v)]); }
      }
    }
  }

  // ----- the operations on a directory of the mounted tree

  function ReadAttr(files: Files, d: AttrDef): Result<AttrVal> {
    if d.name in files then ReadVal(d.kind, files[d.name]) else Err(NOT_FOUND)
  }

  method GetAttrVal(fs: ConfigFs, p: Path, d: AttrDef) returns (ret: int, v: AttrVal)
    requires Exists(fs.tree, p)
    modifies fs`faults
    ensures ret <= 0
    ensures ret == 0 ==> ReadAttr(FilesAt(fs.tree, p), d) == Ok(v)
    ensures old(fs.Quiet()) ==> fs.Quiet() && ret == Code(ReadAttr(FilesAt(fs.tree, p), d))
  {
    hide Strtol, ReadString, ParseMac;
    var text;
    v := BoolVal(false);
    ret, text := fs.Read(p, d.name);
    if ret == 0 {
      var r := ReadVal(d.kind, text);
      ret := Code(r);
      if r.Ok? { v := r.value; }
    }
  }

  method SetAttrVal(fs: ConfigFs, p: Path, d: AttrDef, v: AttrVal) returns (ret: int)
    requires Exists(fs.tree, p) && Fits(d.kind, v) && (!d.ro ==> d.kind != Dev)
    modifies fs
    ensures ret <= 0 && OnlyFiles(old(fs.tree), fs.tree, p)
    ensures ret == 0 ==> !d.ro && d.name in FilesAt(old(fs.tree), p)
    ensures ret == 0 ==> FilesAt(fs.tree, p) == FilesAt(old(fs.tree), p)[d.name := WriteVal(d.kind, v)]
    ensures ret != 0 ==> fs.tree == old(fs.tree)
    ensures old(fs.Quiet()) ==> fs.Quiet()
    ensures old(fs.Quiet()) ==>
      ret == if d.ro then INVALID_PARAM else if d.name in FilesAt(old(fs.tree), p) then SUCCESS else NOT_FOUND
  {
    hide WriteVal, SetFiles, FilesAt;
    SetFilesSame(fs.tree, p);
    if d.ro { return INVALID_PARAM; }
    ghost var before := fs.tree;
    ret := fs.Write(p, d.name, WriteVal(d.kind, v));
    if ret == 0 { WriteTouchesOnly(before, p, d.name, WriteVal(d.kind, v)); }
  }

  method ExportAttrs(fs: ConfigFs, p: Path, table: seq<AttrDef>) returns (ret: int, ms: seq<Member>)
    requires Exists(fs.tree, p)
    modifies fs`faults
    ensures ret <= 0
    ensures ret == 0 ==> ExportFrom(table, 0, [], FilesAt(fs.tree, p)) == Ok(ms)
    ensures old(fs.Quiet()) ==> fs.Quiet() && ret == Code(ExportFrom(table, 0, [], FilesAt(fs.tree, p)))
  {
    hide ReadVal, ExportVal, Add;
    ghost var files := FilesAt(fs.tree, p);
    ghost var whole := ExportFrom(table, 0, [], files);
    ret, ms := 0, [];
    var i := 0;
    while i < |table|
      invariant 0 <= i <= |table| && ret == 0
      invariant ExportFrom(table, i, ms, files) == whole
      invariant old(fs.Quiet()) ==> fs.Quiet()
    {
      var d := table[i];
      if d.exported {
        var v;
        ret, v := GetAttrVal(fs, p, d);
        if ret != 0 { return; }
        var node := ExportVal(d.kind, v);
        if node.Err? { return node.code, ms; }
        var more := Add(ms, d.name, node.value);
        if more.Err? { return more.code, ms; }
        ms := more.value;
      }
      i := i + 1;
    }
  }

  method ImportAttrs(fs: ConfigFs, p: Path, table: seq<AttrDef>, root: Setting) returns (ret: int)
    requires Exists(fs.tree, p) && WellFormed(table)
    modifies fs
    ensures ret <= 0 && OnlyFiles(old(fs.tree), fs.tree, p)
    ensures ret == 0 ==> ImportFrom(table, 0, root, FilesAt(old(fs.tree), p)) == Ok(FilesAt(fs.tree, p))
    ensures old(fs.Quiet()) ==> fs.Quiet() && ret == Code(ImportFrom(table, 0, root, FilesAt(old(fs.tree), p)))
  {
    hide WriteVal, ImportVal, SetFiles, FilesAt;
    ghost var whole := ImportFrom(table, 0, root, FilesAt(fs.tree, p));
    SetFilesSame(fs.tree, p);
    ret := 0;
    var i := 0;
    while i < |table|
      invariant 0 <= i <= |table| && ret == 0
      invariant OnlyFiles(old(fs.tree), fs.tree, p)
      invariant ImportFrom(table, i, root, FilesAt(fs.tree, p)) == whole
      invariant old(fs.Quiet()) ==> fs.Quiet()
    {
      var d := table[i];
      if !d.ro {
        match ImportVal(d.kind, root, d.name)
        case Absent =>
        case Bad(code) => return code;
        case Found(v) =>
          ghost var mid := fs.tree;
          ret := SetAttrVal(fs, p, d, v);
          OnlyFilesTransitive(old(fs.tree), mid, fs.tree, p);
          if ret != 0 { return; }
      }
      i := i + 1;
    }
  }
}
