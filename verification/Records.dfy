/** The attribute files, strings and OS descriptors of gadgets and configurations: how records are written,
    read back, exported and imported. */
module Records {
  import opened Errors
  import opened Numbers
  import opened Names
  import opened Codecs
  import opened Text
  import opened Settings
  import opened Kernel

  // ----- several files of one directory, written one after the other

  /** A missing text stands for a NULL string. */
  datatype Write = Write(file: string, text: Option<string>)

  function Written(files: Files, ws: seq<Write>): (r: Result<Files>)
    ensures r.Ok? ==> r.value.Keys == files.Keys
  {
    if ws == [] then Ok(files)
    else if ws[0].text.None? then Err(INVALID_PARAM)
    else if ws[0].file !in files then Err(NOT_FOUND)
    else Written(files[ws[0].file := ws[0].text.value], ws[1..])
  }

  /** The writes stop at the first that fails. */
  method WriteAll(fs: ConfigFs, p: Path, ws: seq<Write>) returns (ret: int)
    requires Exists(fs.tree, p)
    modifies fs
    ensures ret <= 0 && OnlyFiles(old(fs.tree), fs.tree, p)
    ensures FilesAt(fs.tree, p).Keys == FilesAt(old(fs.tree), p).Keys
    ensures ret == 0 ==> Written(FilesAt(old(fs.tree), p), ws) == Ok(FilesAt(fs.tree, p))
    ensures ws == [] ==> ret == 0
    ensures old(fs.Quiet()) ==> fs.Quiet() && ret == Code(Written(FilesAt(old(fs.tree), p), ws))
  {
    hide SetFiles, FilesAt;
    ghost var whole := Written(FilesAt(fs.tree, p), ws);
    SetFilesSame(fs.tree, p);
    ret := 0;
    var i := 0;
    assert ws[0..] == ws;
    while i < |ws|
      invariant 0 <= i <= |ws| && ret == 0
      invariant OnlyFiles(old(fs.tree), fs.tree, p)
      invariant FilesAt(fs.tree, p).Keys == FilesAt(old(fs.tree), p).Keys
      invariant Written(FilesAt(fs.tree, p), ws[i..]) == whole
      invariant old(fs.Quiet()) ==> fs.Quiet()
    {
      assert ws[i..][1..] == ws[i + 1..];
      if ws[i].text.None? { return INVALID_PARAM; }
      ghost var mid := fs.tree;
      ret := fs.Write(p, ws[i].file, ws[i].text.value);
      if ret != 0 { return; }
      WriteTouchesOnly(mid, p, ws[i].file, ws[i].text.value);
      OnlyFilesTransitive(old(fs.tree), mid, fs.tree, p);
      i := i + 1;
    }
  }

  // ----- numeric attributes

  /** How many values a field of 8 or 16 bits can have. */
  type Limit = n: nat | 0 < n <= 0x1_0000 witness 0x100

  /** A numeric attribute: its name in schemes, its file, the format it is written in, the range of the
      C type it is read into, and whether an importer checks that range. */
  datatype Field = Field(tag: string, file: string, hex: bool, width: nat, limit: Limit, checked: bool)

  function Hex16(name: string): Field { Field(name, name, true, 4, 0x1_0000, true) }
  function Hex8(name: string): Field { Field(name, name, true, 2, 0x100, true) }

  const GADGET_ATTRS := [
    Hex16("bcdUSB"), Hex8("bDeviceClass"), Hex8("bDeviceSubClass"), Hex8("bDeviceProtocol"),
    Hex8("bMaxPacketSize0"), Hex16("idVendor"), Hex16("idProduct"), Hex16("bcdDevice")]

  const MAX_POWER := Field("bMaxPower", "MaxPower", false, 0, 0x100, false)
  const BM_ATTRIBUTES := Field("bmAttributes", "bmAttributes", true, 2, 0x100, false)

  /** The order in which a configuration's attributes are set, and the order in which schemes list them. */
  const CONFIG_ATTRS := [MAX_POWER, BM_ATTRIBUTES]
  const CONFIG_TAGS := [BM_ATTRIBUTES, MAX_POWER]

  ghost predicate FieldsOk(table: seq<Field>) {
    (forall f <- table :: f.width <= 8) &&
    (forall i, j :: 0 <= i < j < |table| ==> table[i].file != table[j].file && table[i].tag != table[j].tag)
  }

  lemma GadgetTagsApart()
    ensures forall i, j :: 0 <= i < j < |GADGET_ATTRS| ==> GADGET_ATTRS[i].tag != GADGET_ATTRS[j].tag
  {
    var t := GADGET_ATTRS;
    // the lengths differ but for these
    assert |t[2].tag| == |t[3].tag| == |t[4].tag| == 15 && t[2].tag[7] == 'S' && t[3].tag[7] == 'P' && t[4].tag[7] == 'k';
    assert |t[6].tag| == |t[7].tag| == 9 && t[6].tag[0] == 'i' && t[7].tag[0] == 'b';
    assert |t[0].tag| == 6 && |t[1].tag| == 12 && |t[5].tag| == 8;
  }

  lemma GadgetAttrsOk()
    ensures FieldsOk(GADGET_ATTRS)
  {
    GadgetTagsApart();
    assert forall f <- GADGET_ATTRS :: f.file == f.tag && f.width <= 8;
    assert forall i :: 0 <= i < |GADGET_ATTRS| ==> GADGET_ATTRS[i] in GADGET_ATTRS;
  }

  lemma ConfigAttrsOk()
    ensures FieldsOk(CONFIG_ATTRS) && FieldsOk(CONFIG_TAGS)
  {}

  predicate RecordFits(table: seq<Field>, r: seq<Int>) {
    |r| == |table| && forall i :: 0 <= i < |r| ==> 0 <= r[i] < table[i].limit
  }

  function FieldText(f: Field, n: Int): string {
    if f.hex then WriteHex(n, f.width) else WriteDec(n)
  }

  /** Reading goes through `strtol` and is cut down to the C type of the attribute. */
  function ReadField(f: Field, files: Files): Result<Int>
  {
    if f.file in files then Ok(ReadInt(files[f.file], if f.hex then 16 else 10) % f.limit) else Err(NOT_FOUND)
  }

  function ReadFields(table: seq<Field>, files: Files): Result<seq<Int>>
  {
    if table == [] then Ok([])
    else
      var n :- ReadField(table[0], files);
      var rest :- ReadFields(table[1..], files);
      Ok([n] + rest)
  }

  function FieldWrites(table: seq<Field>, r: seq<Int>): seq<Write>
    requires |r| == |table|
  {
    seq(|table|, i requires 0 <= i < |table| => Write(table[i].file, Some(FieldText(table[i], r[i]))))
  }

  lemma FieldTextReadsBack(f: Field, n: Int, files: Files)
    requires 0 <= n < f.limit && f.width <= 8
    requires f.file in files && files[f.file] == FieldText(f, n)
    ensures ReadField(f, files) == Ok(n)
  {
    hide ReadInt, WriteHex, WriteDec;
    if f.hex { HexFile(n, f.width); } else { DecFile(n); }
  }

  lemma {:induction false} ReadFieldsAre(table: seq<Field>, files: Files, r: seq<Int>)
    requires |r| == |table|
    ensures ReadFields(table, files) == Ok(r) <==> forall i :: 0 <= i < |table| ==> ReadField(table[i], files) == Ok(r[i])
  {
    hide ReadField;
    if table != [] {
      ReadFieldsAre(table[1..], files, r[1..]);
      assert r == [r[0]] + r[1..];
      assert forall i :: 0 < i < |table| ==> table[i] == table[1..][i - 1] && r[i] == r[1..][i - 1];
    }
  }

  lemma {:induction false} WrittenFiles(files: Files, ws: seq<Write>)
    requires forall i, j :: 0 <= i < j < |ws| ==> ws[i].file != ws[j].file
    requires forall w <- ws :: w.text.Some?
    ensures Written(files, ws).Ok? <==> forall w <- ws :: w.file in files
    ensures Written(files, ws).Ok? ==>
      (forall w <- ws :: Written(files, ws).value[w.file] == w.text.value) &&
      (forall n <- files :: (forall w <- ws :: w.file != n) ==> Written(files, ws).value[n] == files[n])
  {
    if ws != [] {
      assert ws[0] in ws && forall w <- ws[1..] :: w in ws && w.file != ws[0].file;
      assert forall w <- ws :: w == ws[0] || w in ws[1..];
      if ws[0].file in files {
        WrittenFiles(files[ws[0].file := ws[0].text.value], ws[1..]);
      }
    }
  }

  /** Reading the attributes after setting them returns the same record, for gadgets and configurations. */
  lemma SetThenGetFields(table: seq<Field>, r: seq<Int>, files: Files)
    requires FieldsOk(table) && RecordFits(table, r) && forall f <- table :: f.file in files
    ensures Written(files, FieldWrites(table, r)).Ok?
    ensures ReadFields(table, Written(files, FieldWrites(table, r)).value) == Ok(r)
  {
    var ws := FieldWrites(table, r);
    hide FieldText, ReadField, ReadFields, Written;
    assert forall w <- ws :: w.text.Some? && w.file in files;
    WrittenFiles(files, ws);
    var out := Written(files, ws).value;
    forall i | 0 <= i < |table| ensures ReadField(table[i], out) == Ok(r[i]) {
      assert ws[i] in ws;
      FieldTextReadsBack(table[i], r[i], out);
    }
    ReadFieldsAre(table, out, r);
  }

  method GetFields(fs: ConfigFs, p: Path, table: seq<Field>) returns (ret: int, r: seq<Int>)
    requires Exists(fs.tree, p)
    modifies fs`faults
    ensures ret <= 0
    ensures ret == 0 ==> ReadFields(table, FilesAt(fs.tree, p)) == Ok(r)
    ensures old(fs.Quiet()) ==> fs.Quiet() && ret == Code(ReadFields(table, FilesAt(fs.tree, p)))
  {
    hide ReadInt;
    ghost var files := FilesAt(fs.tree, p);
    ret, r := 0, [];
    var i := 0;
    while i < |table|
      invariant 0 <= i <= |table| && ret == 0 && |r| == i
      invariant forall j :: 0 <= j < i ==> ReadField(table[j], files) == Ok(r[j])
      invariant old(fs.Quiet()) ==> fs.Quiet()
    {
      var f := table[i];
      var text;
      ret, text := fs.Read(p, f.file);
      if ret != 0 {
        if f.file !in files { MissingField(table, i, files); }
        return;
      }
      r := r + [ReadInt(text, if f.hex then 16 else 10) % f.limit];
      i := i + 1;
    }
    ReadFieldsAre(table, files, r);
  }

  lemma {:induction false} MissingField(table: seq<Field>, i: nat, files: Files)
    requires i < |table|
    requires table[i].file !in files && forall j :: 0 <= j < i ==> ReadField(table[j], files).Ok?
    ensures ReadFields(table, files) == Err(NOT_FOUND)
  {
    hide ReadInt;
    if i > 0 { MissingField(table[1..], i - 1, files); }
  }

  // ----- numeric attributes in schemes

  /** The whole record is read first; then the members are added in the order of `tags`. */
  function ExportFields(tags: seq<Field>, files: Files): Result<seq<Member>>
  {
    var r :- ReadFields(tags, files);
    Ok(FieldMembers(tags, r))
  }

  function FieldMembers(tags: seq<Field>, r: seq<Int>): seq<Member> {
    if |tags| != |r| || tags == [] then [] else [Member(tags[0].tag, SInt(r[0]))] + FieldMembers(tags[1..], r[1..])
  }

  /** Every member is optional. */
  function ImportField(f: Field, root: Setting, files: Files): (r: Result<Files>)
    ensures r.Ok? ==> r.value.Keys == files.Keys
  {
    match Get(root, f.tag)
    case None => Ok(files)
    case Some(node) =>
      if !node.SInt? then Err(INVALID_TYPE)
      else if f.checked && !(0 <= node.i < f.limit) then Err(INVALID_VALUE)
      else if f.file !in files then Err(NOT_FOUND)
      else Ok(files[f.file := FieldText(f, node.i)])
  }

  function ImportFields(tags: seq<Field>, root: Setting, files: Files): (r: Result<Files>)
    ensures r.Ok? ==> r.value.Keys == files.Keys
  {
    if tags == [] then Ok(files)
    else
      var next :- ImportField(tags[0], root, files);
      ImportFields(tags[1..], root, next)
  }

  method ImportOneField(fs: ConfigFs, p: Path, f: Field, root: Setting) returns (ret: int)
    requires Exists(fs.tree, p)
    modifies fs
    ensures ret <= 0 && OnlyFiles(old(fs.tree), fs.tree, p)
    ensures ret == 0 ==> ImportField(f, root, FilesAt(old(fs.tree), p)) == Ok(FilesAt(fs.tree, p))
    ensures old(fs.Quiet()) ==> fs.Quiet() && ret == Code(ImportField(f, root, FilesAt(old(fs.tree), p)))
  {
    hide SetFiles, FilesAt, FieldText;
    SetFilesSame(fs.tree, p);
    var node := Get(root, f.tag);
    if node.None? { return 0; }
    if !node.value.SInt? { return INVALID_TYPE; }
    var n := node.value.i;
    if f.checked && !(0 <= n < f.limit) { return INVALID_VALUE; }
    ret := fs.Write(p, f.file, FieldText(f, n));
    if ret == 0 { WriteTouchesOnly(old(fs.tree), p, f.file, FieldText(f, n)); }
  }

  method ImportAllFields(fs: ConfigFs, p: Path, tags: seq<Field>, root: Setting) returns (ret: int)
    requires Exists(fs.tree, p)
    modifies fs
    ensures ret <= 0 && OnlyFiles(old(fs.tree), fs.tree, p)
    ensures ret == 0 ==> ImportFields(tags, root, FilesAt(old(fs.tree), p)) == Ok(FilesAt(fs.tree, p))
    ensures old(fs.Quiet()) ==> fs.Quiet() && ret == Code(ImportFields(tags, root, FilesAt(old(fs.tree), p)))
  {
    hide SetFiles, FilesAt, ImportField;
    ghost var whole := ImportFields(tags, root, FilesAt(fs.tree, p));
    SetFilesSame(fs.tree, p);
    ret := 0;
    var i := 0;
    assert tags[0..] == tags;
    while i < |tags|
      invariant 0 <= i <= |tags| && ret == 0
      invariant OnlyFiles(old(fs.tree), fs.tree, p)
      invariant ImportFields(tags[i..], root, FilesAt(fs.tree, p)) == whole
      invariant old(fs.Quiet()) ==> fs.Quiet()
    {
      assert tags[i..][1..] == tags[i + 1..];
      ghost var mid := fs.tree;
      ret := ImportOneField(fs, p, tags[i], root);
      OnlyFilesTransitive(old(fs.tree), mid, fs.tree, p);
      if ret != 0 { return; }
      i := i + 1;
    }
  }

  lemma {:induction false} MembersFound(tags: seq<Field>, r: seq<Int>, i: nat)
    requires |r| == |tags| && i < |tags|
    requires forall i, j :: 0 <= i < j < |tags| ==> tags[i].tag != tags[j].tag
    ensures Find(FieldMembers(tags, r), tags[i].tag) == Some(SInt(r[i]))
  {
    if i > 0 { MembersFound(tags[1..], r[1..], i - 1); }
  }

  /** What an import writes when every member is there and in range. */
  lemma {:induction false} ImportedFields(tags: seq<Field>, root: Setting, files: Files, r: seq<Int>)
    requires FieldsOk(tags) && RecordFits(tags, r) && forall f <- tags :: f.file in files
    requires forall i :: 0 <= i < |tags| ==> Get(root, tags[i].tag) == Some(SInt(r[i]))
    ensures ImportFields(tags, root, files) == Written(files, FieldWrites(tags, r))
  {
    hide FieldText;
    if tags != [] {
      assert tags[0] in tags;
      assert FieldWrites(tags, r)[1..] == FieldWrites(tags[1..], r[1..]);
      forall i | 0 <= i < |tags[1..]| ensures Get(root, tags[1..][i].tag) == Some(SInt(r[1..][i])) {
        assert tags[1..][i] == tags[i + 1];
      }
      ImportedFields(tags[1..], root, files[tags[0].file := FieldText(tags[0], r[0])], r[1..]);
    }
  }

  lemma {:induction false} ReadFieldsFit(tags: seq<Field>, files: Files)
    ensures ReadFields(tags, files).Ok? ==> RecordFits(tags, ReadFields(tags, files).value)
  {
    hide ReadInt;
    if tags != [] { ReadFieldsFit(tags[1..], files); }
  }

  /** Exported attributes, imported into another directory of the same kind, read the same there. */
  lemma FieldsRoundTrip(tags: seq<Field>, files: Files, fresh0: Files)
    requires FieldsOk(tags) && ExportFields(tags, files).Ok? && forall f <- tags :: f.file in fresh0
    ensures var r := ImportFields(tags, SGroup(ExportFields(tags, files).value), fresh0);
      r.Ok? && r.value.Keys == fresh0.Keys && ReadFields(tags, r.value) == ReadFields(tags, files)
  {
    hide ReadFields, FieldMembers, ImportFields, Written;
    ReadFieldsFit(tags, files);
    var r := ReadFields(tags, files).value;
    var root := SGroup(FieldMembers(tags, r));
    forall i | 0 <= i < |tags| ensures Get(root, tags[i].tag) == Some(SInt(r[i])) {
      MembersFound(tags, r, i);
    }
    ImportedFields(tags, root, fresh0, r);
    SetThenGetFields(tags, r, fresh0);
  }

  // ----- which file each attribute goes to

  datatype GadgetAttrs = GadgetAttrs(bcdUSB: Int, deviceClass: Int, deviceSubClass: Int, deviceProtocol: Int, maxPacketSize0: Int,
                                     idVendor: Int, idProduct: Int, bcdDevice: Int)

  function GadgetRecord(a: GadgetAttrs): seq<Int> {
    [a.bcdUSB, a.deviceClass, a.deviceSubClass, a.deviceProtocol, a.maxPacketSize0, a.idVendor, a.idProduct, a.bcdDevice]
  }

  predicate GadgetFilesThere(files: Files) {
    "bcdUSB" in files && "bDeviceClass" in files && "bDeviceSubClass" in files && "bDeviceProtocol" in files &&
    "bMaxPacketSize0" in files && "idVendor" in files && "idProduct" in files && "bcdDevice" in files
  }

  predicate ConfigFilesThere(files: Files) { "MaxPower" in files && "bmAttributes" in files }

  /** Setting a gadget's attributes succeeds exactly when the eight files are there, and writes each to the file of its name. */
  lemma GadgetAttrsByField(a: GadgetAttrs, files: Files)
    ensures var r := Written(files, FieldWrites(GADGET_ATTRS, GadgetRecord(a)));
      (r.Ok? <==> GadgetFilesThere(files)) &&
      (r.Ok? ==>
        r.value["bcdUSB"] == WriteHex(a.bcdUSB, 4) && r.value["bDeviceClass"] == WriteHex(a.deviceClass, 2) &&
        r.value["bDeviceSubClass"] == WriteHex(a.deviceSubClass, 2) && r.value["bDeviceProtocol"] == WriteHex(a.deviceProtocol, 2) &&
        r.value["bMaxPacketSize0"] == WriteHex(a.maxPacketSize0, 2) && r.value["idVendor"] == WriteHex(a.idVendor, 4) &&
        r.value["idProduct"] == WriteHex(a.idProduct, 4) && r.value["bcdDevice"] == WriteHex(a.bcdDevice, 4) &&
        forall n <- files | n !in GADGET_FILES :: r.value[n] == files[n])
  {
    hide WriteHex, Written, FieldWrites, GadgetFilesThere;
    var ws := FieldWrites(GADGET_ATTRS, GadgetRecord(a));
    GadgetWritesAre(a);
    EightWritten(files, ws);
    var r := Written(files, ws);
    if r.Ok? {
      assert r.value[GADGET_FILES[0]] == WriteHex(a.bcdUSB, 4) && r.value[GADGET_FILES[1]] == WriteHex(a.deviceClass, 2);
      assert r.value[GADGET_FILES[2]] == WriteHex(a.deviceSubClass, 2) && r.value[GADGET_FILES[3]] == WriteHex(a.deviceProtocol, 2);
      assert r.value[GADGET_FILES[4]] == WriteHex(a.maxPacketSize0, 2) && r.value[GADGET_FILES[5]] == WriteHex(a.idVendor, 4);
      assert r.value[GADGET_FILES[6]] == WriteHex(a.idProduct, 4) && r.value[GADGET_FILES[7]] == WriteHex(a.bcdDevice, 4);
    }
  }

  lemma GadgetWritesAre(a: GadgetAttrs)
    ensures var ws := FieldWrites(GADGET_ATTRS, GadgetRecord(a));
      |ws| == 8 && (forall i :: 0 <= i < 8 ==> ws[i].file == GADGET_FILES[i] && ws[i].text.Some?) &&
      ws[0].text.value == WriteHex(a.bcdUSB, 4) && ws[1].text.value == WriteHex(a.deviceClass, 2) &&
      ws[2].text.value == WriteHex(a.deviceSubClass, 2) && ws[3].text.value == WriteHex(a.deviceProtocol, 2) &&
      ws[4].text.value == WriteHex(a.maxPacketSize0, 2) && ws[5].text.value == WriteHex(a.idVendor, 4) &&
      ws[6].text.value == WriteHex(a.idProduct, 4) && ws[7].text.value == WriteHex(a.bcdDevice, 4)
  {
    hide WriteHex;
  }

  /** Eight writes, to the files of a gadget in their order. */
  lemma EightWritten(files: Files, ws: seq<Write>)
    requires |ws| == 8 && forall i :: 0 <= i < 8 ==> ws[i].file == GADGET_FILES[i] && ws[i].text.Some?
    ensures Written(files, ws).Ok? <==> GadgetFilesThere(files)
    ensures Written(files, ws).Ok? ==>
      (forall i :: 0 <= i < 8 ==> GADGET_FILES[i] in files && Written(files, ws).value[GADGET_FILES[i]] == ws[i].text.value) &&
      forall n <- files | n !in GADGET_FILES :: Written(files, ws).value[n] == files[n]
  {
    hide Written, GadgetFilesThere;
    FilesApart();
    WrittenFiles(files, ws);
    EightThere(files);
    assert forall i :: 0 <= i < 8 ==> ws[i] in ws;
    assert (forall w <- ws :: w.file in files) <==> forall i :: 0 <= i < 8 ==> GADGET_FILES[i] in files;
    if Written(files, ws).Ok? { OthersStay(files, ws, Written(files, ws).value); }
  }

  lemma FilesApart()
    ensures forall i, j :: 0 <= i < j < 8 ==> GADGET_FILES[i] != GADGET_FILES[j]
  {
    GadgetTagsApart();
    assert forall i :: 0 <= i < 8 ==> GADGET_FILES[i] == GADGET_ATTRS[i].tag;
  }

  lemma EightThere(files: Files)
    ensures (forall i :: 0 <= i < 8 ==> GADGET_FILES[i] in files) <==> GadgetFilesThere(files)
  {
    assert GADGET_FILES[0] in files <==> "bcdUSB" in files;
    assert GADGET_FILES[1] in files <==> "bDeviceClass" in files;
    assert GADGET_FILES[2] in files <==> "bDeviceSubClass" in files;
    assert GADGET_FILES[3] in files <==> "bDeviceProtocol" in files;
    assert GADGET_FILES[4] in files <==> "bMaxPacketSize0" in files;
    assert GADGET_FILES[5] in files <==> "idVendor" in files;
    assert GADGET_FILES[6] in files <==> "idProduct" in files;
    assert GADGET_FILES[7] in files <==> "bcdDevice" in files;
  }

  lemma OthersStay(files: Files, ws: seq<Write>, after: Files)
    requires |ws| == |GADGET_FILES| && forall i :: 0 <= i < |ws| ==> ws[i].file == GADGET_FILES[i]
    requires after.Keys == files.Keys && forall n <- files :: (forall w <- ws :: w.file != n) ==> after[n] == files[n]
    ensures forall n <- files | n !in GADGET_FILES :: after[n] == files[n]
  {
    forall n, w | n !in GADGET_FILES && w in ws ensures w.file != n {
      var i :| 0 <= i < |ws| && ws[i] == w;
      assert GADGET_FILES[i] == w.file;
    }
  }

  const GADGET_FILES := [
    "bcdUSB", "bDeviceClass", "bDeviceSubClass", "bDeviceProtocol", "bMaxPacketSize0", "idVendor", "idProduct", "bcdDevice"]

  lemma WrittenOne(files: Files, w: Write)
    ensures Written(files, [w]) ==
      if w.text.None? then Err(INVALID_PARAM) else if w.file in files then Ok(files[w.file := w.text.value]) else Err(NOT_FOUND)
  {}

  /** Those of a configuration: the power in decimal, the attributes in hex. */
  lemma ConfigAttrsByField(maxPower: Int, bmAttributes: Int, files: Files)
    ensures Written(files, FieldWrites(CONFIG_ATTRS, [maxPower, bmAttributes])) ==
      if ConfigFilesThere(files) then Ok(files["MaxPower" := WriteDec(maxPower)]["bmAttributes" := WriteHex(bmAttributes, 2)])
      else Err(NOT_FOUND)
  {
    hide WriteHex, WriteDec;
    var a, b := Write("MaxPower", Some(WriteDec(maxPower))), Write("bmAttributes", Some(WriteHex(bmAttributes, 2)));
    assert FieldWrites(CONFIG_ATTRS, [maxPower, bmAttributes]) == [a, b];
    assert [a, b][1..] == [b];
    if "MaxPower" in files { WrittenOne(files["MaxPower" := a.text.value], b); }
  }

  // ----- what an import of attributes makes of any group

  /** The member, if there is one, is a number, in range where that is checked, and has a file. */
  predicate FieldAccepts(f: Field, root: Setting, files: Files) {
    Get(root, f.tag).Some? ==>
      Get(root, f.tag).value.SInt? && (f.checked ==> 0 <= Get(root, f.tag).value.i < f.limit) && f.file in files
  }

  /** The file holds what the member gives, or what it held before. */
  predicate FieldSet(f: Field, root: Setting, before: Files, after: Files) {
    (f.file in after <==> f.file in before) &&
    (f.file in after ==>
      after[f.file] == if Get(root, f.tag).Some? && Get(root, f.tag).value.SInt? then FieldText(f, Get(root, f.tag).value.i) else before[f.file])
  }

  lemma FieldImport(f: Field, root: Setting, files: Files)
    ensures var r := ImportField(f, root, files);
      (r.Ok? <==> FieldAccepts(f, root, files)) &&
      (r.Ok? ==> FieldSet(f, root, files, r.value) && forall n <- files | n != f.file :: r.value[n] == files[n])
  {
    hide FieldText, Get;
  }

  /** Attributes are imported exactly when each member that is there is accepted. Its file then holds the number; the others are
      as before. */
  lemma {:induction false} FieldsImport(tags: seq<Field>, root: Setting, files: Files)
    requires FieldsOk(tags)
    ensures var r := ImportFields(tags, root, files);
      (r.Ok? <==> forall f <- tags :: FieldAccepts(f, root, files)) &&
      (r.Ok? ==>
        (forall f <- tags :: FieldSet(f, root, files, r.value)) &&
        forall n <- files | (forall f <- tags :: f.file != n) :: r.value[n] == files[n])
  {
    hide FieldText, Get, ImportField, FieldAccepts, FieldSet;
    if tags != [] {
      var f := tags[0];
      assert tags == [f] + tags[1..];
      assert forall e <- tags[1..] :: e.file != f.file;
      FieldImport(f, root, files);
      var next := ImportField(f, root, files);
      if next.Ok? {
        forall e ensures FieldAccepts(e, root, next.value) <==> FieldAccepts(e, root, files) { SameFilesAccept(e, root, files, next.value); }
        FieldsImport(tags[1..], root, next.value);
        var r := ImportFields(tags[1..], root, next.value);
        if r.Ok? {
          forall e | e in tags ensures FieldSet(e, root, files, r.value) { SetBefore(e, f, root, files, next.value, r.value); }
        }
      }
    }
  }

  lemma SameFilesAccept(f: Field, root: Setting, files: Files, next: Files)
    requires next.Keys == files.Keys
    ensures FieldAccepts(f, root, next) <==> FieldAccepts(f, root, files)
  {
    hide Get;
  }

  /** A field of a list has been set: the first by the first step, another by the rest. */
  lemma SetBefore(e: Field, first: Field, root: Setting, files: Files, next: Files, after: Files)
    requires next.Keys == files.Keys == after.Keys && FieldSet(first, root, files, next) && (forall n <- files | n != first.file :: next[n] == files[n])
    requires if e == first then e.file in files ==> after[e.file] == next[e.file] else FieldSet(e, root, next, after) && e.file != first.file
    ensures FieldSet(e, root, files, after)
  {
    hide Get, FieldText;
  }
}
