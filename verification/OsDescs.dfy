/** OS descriptors: those of a gadget, and those of the interfaces of NCM and RNDIS functions. */
module OsDescs {
  import opened Errors
  import opened Numbers
  import opened Names
  import opened Codecs
  import opened Settings
  import opened Kernel
  import opened Records
  import opened Strings

  datatype GadgetOsDescs = GadgetOsDescs(inUse: bool, vendorCode: Byte, qwSign: Option<string>)

  /** `usbg_set_gadget_os_descs`. */
  function OsDescWrites(o: GadgetOsDescs): seq<Write> {
    [Write("qw_sign", o.qwSign), Write("b_vendor_code", Some(WriteHex(o.vendorCode, 2))),
     Write("use", Some(WriteDec(if o.inUse then 1 else 0)))]
  }

  /** `usbg_get_gadget_os_descs`. */
  function ReadOsDescs(files: Files): Result<GadgetOsDescs> {
    if "qw_sign" !in files || "b_vendor_code" !in files || "use" !in files then Err(NOT_FOUND)
    else Ok(GadgetOsDescs(ReadInt(files["use"], 10) != 0, ReadInt(files["b_vendor_code"], 16) % 256,
                          Some(ReadString(files["qw_sign"], FILE_SIZE))))
  }

  /** Setting the descriptors succeeds exactly when there is a signature and the three files are there, one for each value. */
  lemma OsDescsByField(o: GadgetOsDescs, files: Files)
    ensures var r := Written(files, OsDescWrites(o));
      (r.Ok? <==> o.qwSign.Some? && "qw_sign" in files && "b_vendor_code" in files && "use" in files) &&
      (r.Ok? ==>
        r.value ==
          files["qw_sign" := o.qwSign.value]["b_vendor_code" := WriteHex(o.vendorCode, 2)]["use" := if o.inUse then "1\n" else "0\n"])
  {
    hide WriteHex, WriteDec;
    FlagDigits(o.inUse);
    var ws := OsDescWrites(o);
    assert ws[1..] == [ws[1], ws[2]];
    if o.qwSign.Some? && "qw_sign" in files { LastTwo(o, files["qw_sign" := o.qwSign.value]); }
  }

  lemma LastTwo(o: GadgetOsDescs, files: Files)
    ensures var r := Written(files, [OsDescWrites(o)[1], OsDescWrites(o)[2]]);
      (r.Ok? <==> "b_vendor_code" in files && "use" in files) &&
      (r.Ok? ==> r.value == files["b_vendor_code" := WriteHex(o.vendorCode, 2)]["use" := WriteDec(if o.inUse then 1 else 0)])
  {
    hide WriteHex, WriteDec;
    var b, c := OsDescWrites(o)[1], OsDescWrites(o)[2];
    assert [b, c][1..] == [c];
    if "b_vendor_code" in files { WrittenOne(files["b_vendor_code" := b.text.value], c); }
  }

  method SetOsDescs(fs: ConfigFs, g: string, o: GadgetOsDescs) returns (ret: int)
    requires g in fs.tree
    modifies fs
    ensures ret <= 0 && OnlyFiles(old(fs.tree), fs.tree, OsDescDir(g))
    ensures ret == 0 ==> Written(old(fs.tree)[g].osDesc, OsDescWrites(o)) == Ok(fs.tree[g].osDesc)
    ensures old(fs.Quiet()) ==> fs.Quiet() && ret == Code(Written(old(fs.tree)[g].osDesc, OsDescWrites(o)))
  {
    hide Written, OsDescWrites;
    SetFilesSame(fs.tree, OsDescDir(g));
    ret := CheckDir(fs, OsDescDir(g));
    if ret != 0 { return; }
    ret := WriteAll(fs, OsDescDir(g), OsDescWrites(o));
  }

  method GetOsDescs(fs: ConfigFs, g: string) returns (ret: int, o: GadgetOsDescs)
    requires g in fs.tree
    modifies fs`faults
    ensures ret <= 0
    ensures ret == 0 ==> ReadOsDescs(fs.tree[g].osDesc) == Ok(o)
    ensures old(fs.Quiet()) ==> fs.Quiet() && ret == Code(ReadOsDescs(fs.tree[g].osDesc))
  {
    hide ReadInt, ReadString;
    o := GadgetOsDescs(false, 0, None);
    var sign, code, inUse;
    ret, sign := fs.Read(OsDescDir(g), "qw_sign");
    if ret != 0 { return; }
    ret, code := fs.Read(OsDescDir(g), "b_vendor_code");
    if ret != 0 { return; }
    ret, inUse := fs.Read(OsDescDir(g), "use");
    if ret != 0 { return; }
    o := GadgetOsDescs(ReadInt(inUse, 10) != 0, ReadInt(code, 16) % 256, Some(ReadString(sign, FILE_SIZE)));
  }

  function IdMember(configId: Option<Int>): seq<Member> {
    if configId.Some? then [Member("config_id", SInt(configId.value))] else []
  }

  /** The members an export adds; the record is left out when it cannot be found. */
  function OsDescMembers(configId: Option<Int>, o: Option<GadgetOsDescs>): seq<Member> {
    IdMember(configId) +
    (if o.Some? && o.value.qwSign.Some? then
       [Member("use", SInt(if o.value.inUse then 1 else 0)), Member("qw_sign", SStr(o.value.qwSign.value)),
        Member("b_vendor_code", SInt(o.value.vendorCode))]
     else [])
  }

  function ExportOsDescs(configId: Option<Int>, files: Files): seq<Member> {
    match ReadOsDescs(files)
    case Ok(o) => OsDescMembers(configId, Some(o))
    case Err(_) => OsDescMembers(configId, None)
  }

  /** A number that stands for an unsigned byte; absent means 0. */
  function ByteMember(root: Setting, name: string): Result<Byte> {
    match Get(root, name)
    case None => Ok(0)
    case Some(node) =>
      if !node.SInt? then Err(INVALID_TYPE)
      else if !(0 <= node.i < 256) then Err(INVALID_VALUE)
      else Ok(node.i)
  }

  function StringMember(root: Setting, name: string): Result<Option<string>> {
    match Get(root, name)
    case None => Ok(None)
    case Some(node) => if node.SStr? then Ok(Some(node.s)) else Err(INVALID_TYPE)
  }

  function ParseOsDescs(root: Setting): Result<GadgetOsDescs> {
    var inUse :- ByteMember(root, "use");
    var code :- ByteMember(root, "b_vendor_code");
    var sign :- StringMember(root, "qw_sign");
    Ok(GadgetOsDescs(inUse != 0, code, sign))
  }

  lemma OsDescMembersParse(configId: Option<Int>, o: GadgetOsDescs)
    requires o.qwSign.Some?
    ensures var root := SGroup(OsDescMembers(configId, Some(o)));
      ParseOsDescs(root) == Ok(o) &&
      Get(root, "config_id") == if configId.Some? then Some(SInt(configId.value)) else None
  {
    hide Find;
    var lead := IdMember(configId);
    var rest := [Member("use", SInt(if o.inUse then 1 else 0)), Member("qw_sign", SStr(o.qwSign.value)),
                 Member("b_vendor_code", SInt(o.vendorCode))];
    ThreeMembers(rest);
    IdMemberFound(configId);
    FindAppend(lead, rest, "use");
    FindAppend(lead, rest, "b_vendor_code");
    FindAppend(lead, rest, "qw_sign");
    FindAppend(lead, rest, "config_id");
  }

  lemma IdMemberFound(configId: Option<Int>)
    ensures Find(IdMember(configId), "config_id") == if configId.Some? then Some(SInt(configId.value)) else None
    ensures forall n | n != "config_id" :: Find(IdMember(configId), n) == None
  {}

  lemma ThreeMembers(ms: seq<Member>)
    requires |ms| == 3 && ms[0].name == "use" && ms[1].name == "qw_sign" && ms[2].name == "b_vendor_code"
    ensures Find(ms, "use") == Some(ms[0].value) && Find(ms, "qw_sign") == Some(ms[1].value)
    ensures Find(ms, "b_vendor_code") == Some(ms[2].value) && Find(ms, "config_id") == None
  {
    var a, b := ms[1..], ms[1..][1..];
    assert a[0] == ms[1] && b[0] == ms[2] && b[1..] == [];
    assert Find(b, "config_id") == None;
    assert Find(a, "config_id") == Find(b, "config_id");
    assert Find(ms, "config_id") == Find(a, "config_id");
    assert Find(a, "b_vendor_code") == Find(b, "b_vendor_code") == Some(b[0].value);
    assert Find(ms, "b_vendor_code") == Find(a, "b_vendor_code");
  }

  /** The OS descriptors of a gadget come back from an export and an import into a gadget whose files are there. */
  lemma OsDescsRoundTrip(configId: Option<Int>, files: Files, fresh0: Files)
    requires ReadOsDescs(files).Ok? && ReadOsDescs(fresh0).Ok?
    ensures ParseOsDescs(SGroup(ExportOsDescs(configId, files))) == ReadOsDescs(files)
    ensures Get(SGroup(ExportOsDescs(configId, files)), "config_id") ==
      if configId.Some? then Some(SInt(configId.value)) else None
    ensures var w := Written(fresh0, OsDescWrites(ReadOsDescs(files).value));
      w.Ok? && ReadOsDescs(w.value) == ReadOsDescs(files)
  {
    hide ReadInt, ReadString, WriteHex, WriteDec, Get, ParseOsDescs, OsDescMembers;
    var o := ReadOsDescs(files).value;
    OsDescMembersParse(configId, o);
    ReadStringIsClean(files["qw_sign"], FILE_SIZE);
    WrittenFiles(fresh0, OsDescWrites(o));
    var w := Written(fresh0, OsDescWrites(o));
    var ws := OsDescWrites(o);
    assert ws[0] in ws && ws[1] in ws && ws[2] in ws;
    StringFile(o.qwSign.value, FILE_SIZE);
    HexFile(o.vendorCode, 2);
    DecFile(if o.inUse then 1 else 0);
  }

  // ----- interfaces of functions

  /** The interfaces of a type that have OS descriptors. */
  function IfaceNames(t: FunctionType): seq<string> {
    if t == Ncm then ["ncm"] else if t == Rndis then ["rndis"] else []
  }

  const IFACE_STRINGS := ["compatible_id", "sub_compatible_id"]

  type IfaceMap = map<string, Files>

  function ReadIface(ifaces: IfaceMap, name: string): Result<seq<string>> {
    if name in ifaces then ReadStringsFrom(IFACE_STRINGS, ifaces[name]) else Err(NOT_FOUND)
  }

  function IfaceGroup(name: string, vals: seq<string>): Setting {
    SGroup([Member("interface", SStr(name))] + StringMembers(IFACE_STRINGS, vals))
  }

  function ExportIfaces(names: seq<string>, ifaces: IfaceMap): Result<seq<Setting>> {
    if names == [] then Ok([])
    else
      var vals :- ReadIface(ifaces, names[0]);
      Prefixed([IfaceGroup(names[0], vals)], ExportIfaces(names[1..], ifaces))
  }

  function ImportIface(t: FunctionType, elem: Setting, ifaces: IfaceMap): Result<IfaceMap> {
    if !elem.SGroup? then Err(INVALID_TYPE)
    else match Get(elem, "interface")
      case None => Err(MISSING_TAG)
      case Some(node) =>
        if !node.SStr? then Err(OTHER_ERROR)
        else if node.s !in IfaceNames(t) then Err(NOT_SUPPORTED)
        else
          var vals :- ImportVals(IFACE_STRINGS, elem);
          if vals[0].None? then Err(INVALID_PARAM)
          else if node.s !in ifaces then Err(NOT_FOUND)
          else
            var files :- Written(ifaces[node.s], IfaceWrites(vals));
            Ok(ifaces[node.s := files])
  }

  function IfaceWrites(vals: seq<Option<string>>): seq<Write>
    requires |vals| == 2
  {
    [Write("compatible_id", vals[0]), Write("sub_compatible_id", vals[1])]
  }

  function ImportIfaces(t: FunctionType, elems: seq<Setting>, ifaces: IfaceMap): Result<IfaceMap> {
    if elems == [] then Ok(ifaces)
    else
      var more :- ImportIface(t, elems[0], ifaces);
      ImportIfaces(t, elems[1..], more)
  }

  /** Nothing but the interfaces of one function differs. */
  ghost predicate OnlyIfaces(t: Tree, u: Tree, g: string, f: string) {
    HasFunction(t, g, f) && HasFunction(u, g, f) &&
    u == SetFunction(t, g, f, t[g].functions[f].(ifaces := u[g].functions[f].ifaces))
  }

  lemma OnlyIfacesReflexive(t: Tree, g: string, f: string)
    requires HasFunction(t, g, f)
    ensures OnlyIfaces(t, t, g, f)
  {
    UpdateSame(t, g);
    UpdateSame(t[g].functions, f);
  }

  lemma OnlyIfacesTransitive(t: Tree, u: Tree, v: Tree, g: string, f: string)
    requires OnlyIfaces(t, u, g, f) && OnlyIfaces(u, v, g, f)
    ensures OnlyIfaces(t, v, g, f)
  {
    UpdateTwice(t[g].functions, f, u[g].functions[f], v[g].functions[f]);
    UpdateTwice(t, g, u[g], v[g]);
  }

  lemma IfaceFilesOnly(t: Tree, u: Tree, g: string, f: string, n: string)
    requires OnlyFiles(t, u, IfaceDir(g, f, n))
    ensures OnlyIfaces(t, u, g, f)
    ensures u[g].functions[f].ifaces == t[g].functions[f].ifaces[n := FilesAt(u, IfaceDir(g, f, n))]
    ensures n in t[g].functions[f].ifaces && FilesAt(t, IfaceDir(g, f, n)) == t[g].functions[f].ifaces[n]
  {}

  method ExportIfaceList(fs: ConfigFs, g: string, f: string, names: seq<string>) returns (ret: int, elems: seq<Setting>)
    requires HasFunction(fs.tree, g, f)
    modifies fs`faults
    ensures ret <= 0
    ensures ret == 0 ==> ExportIfaces(names, fs.tree[g].functions[f].ifaces) == Ok(elems)
    ensures old(fs.Quiet()) ==> fs.Quiet() && ret == Code(ExportIfaces(names, fs.tree[g].functions[f].ifaces))
  {
    hide ReadString;
    ghost var ifaces := fs.tree[g].functions[f].ifaces;
    ret, elems := 0, [];
    var i := 0;
    assert names[0..] == names;
    PrefixedNone(ExportIfaces(names, ifaces));
    while i < |names|
      invariant 0 <= i <= |names| && ret == 0
      invariant ExportIfaces(names, ifaces) == Prefixed(elems, ExportIfaces(names[i..], ifaces))
      invariant old(fs.Quiet()) ==> fs.Quiet()
    {
      assert names[i..][1..] == names[i + 1..];
      var vals;
      ret, vals := GetIface(fs, g, f, names[i]);
      if ret != 0 { return; }
      PrefixedStep(elems, IfaceGroup(names[i], vals), ExportIfaces(names[i + 1..], ifaces));
      elems := elems + [IfaceGroup(names[i], vals)];
      i := i + 1;
    }
    PrefixedEnd(elems);
  }

  lemma ReadOne(name: string, files: Files)
    ensures ReadStringsFrom([name], files) ==
      if name in files then Ok([ReadString(files[name], FILE_SIZE)]) else Err(NOT_FOUND)
  {
    hide ReadString;
    var names := [name];
    assert names[1..] == [];
    assert ReadStringsFrom([], files) == Ok([]);
    if name in files { assert [ReadString(files[name], FILE_SIZE)] + [] == [ReadString(files[name], FILE_SIZE)]; }
  }

  lemma ReadTwo(files: Files)
    ensures ReadStringsFrom(IFACE_STRINGS, files) ==
      if "compatible_id" in files && "sub_compatible_id" in files then
        Ok([ReadString(files["compatible_id"], FILE_SIZE), ReadString(files["sub_compatible_id"], FILE_SIZE)])
      else Err(NOT_FOUND)
  {
    hide ReadString;
    ReadOne("sub_compatible_id", files);
    assert IFACE_STRINGS[1..] == ["sub_compatible_id"];
    assert forall x: string, y: string :: [x] + [y] == [x, y];
  }

  /** `usbg_get_interf_os_desc`. */
  method GetIface(fs: ConfigFs, g: string, f: string, name: string) returns (ret: int, vals: seq<string>)
    requires HasFunction(fs.tree, g, f)
    modifies fs`faults
    ensures ret <= 0
    ensures ret == 0 ==> ReadIface(fs.tree[g].functions[f].ifaces, name) == Ok(vals)
    ensures old(fs.Quiet()) ==> fs.Quiet() && ret == Code(ReadIface(fs.tree[g].functions[f].ifaces, name))
  {
    hide ReadString;
    var p := IfaceDir(g, f, name);
    var compatible, sub;
    vals := [];
    if Exists(fs.tree, p) { ReadTwo(FilesAt(fs.tree, p)); }
    ret, compatible := fs.Read(p, "compatible_id");
    if ret != 0 { return; }
    ret, sub := fs.Read(p, "sub_compatible_id");
    if ret != 0 { return; }
    vals := [ReadString(compatible, FILE_SIZE), ReadString(sub, FILE_SIZE)];
  }

  lemma TwoWritten(files: Files, vals: seq<Option<string>>)
    requires |vals| == 2 && vals[0].Some?
    ensures Written(files, IfaceWrites(vals)) ==
      if "compatible_id" !in files then Err(NOT_FOUND)
      else if vals[1].None? then Err(INVALID_PARAM)
      else if "sub_compatible_id" !in files then Err(NOT_FOUND)
      else Ok(files["compatible_id" := vals[0].value]["sub_compatible_id" := vals[1].value])
  {
    var ws := IfaceWrites(vals);
    assert ws[1..] == [ws[1]] && ws[1..][1..] == [];
    assert Written(files["compatible_id" := vals[0].value], ws[1..]) ==
      if vals[1].None? then Err(INVALID_PARAM)
      else if "sub_compatible_id" !in files then Err(NOT_FOUND)
      else Ok(files["compatible_id" := vals[0].value]["sub_compatible_id" := vals[1].value]);
  }

  /** `usbg_set_interf_os_desc` for an interface name the type allows. */
  method SetIface(fs: ConfigFs, g: string, f: string, name: string, vals: seq<Option<string>>) returns (ret: int)
    requires HasFunction(fs.tree, g, f) && |vals| == 2
    modifies fs
    ensures ret <= 0 && OnlyIfaces(old(fs.tree), fs.tree, g, f)
    ensures var a := old(fs.tree)[g].functions[f].ifaces; var b := fs.tree[g].functions[f].ifaces;
      ret == 0 ==> name in a && vals[0].Some? && name in b && b == a[name := b[name]] && Written(a[name], IfaceWrites(vals)) == Ok(b[name])
    ensures old(fs.Quiet()) ==> fs.Quiet()
    ensures old(fs.Quiet()) ==> var a := old(fs.tree)[g].functions[f].ifaces;
      ret == if vals[0].None? then INVALID_PARAM else if name !in a then NOT_FOUND else Code(Written(a[name], IfaceWrites(vals)))
  {
    ghost var t := fs.tree;
    OnlyIfacesReflexive(t, g, f);
    if vals[0].None? { return INVALID_PARAM; }
    var p := IfaceDir(g, f, name);
    if Exists(t, p) { TwoWritten(FilesAt(t, p), vals); }
    hide Written, OnlyIfaces, OnlyFiles;
    ret := fs.Write(p, "compatible_id", vals[0].value);
    if ret != 0 { return; }
    ghost var u := fs.tree;
    WriteTouchesOnly(t, p, "compatible_id", vals[0].value);
    IfaceFilesOnly(t, u, g, f, name);
    if vals[1].None? { return INVALID_PARAM; }
    ret := fs.Write(p, "sub_compatible_id", vals[1].value);
    if ret != 0 { return; }
    WriteTouchesOnly(u, p, "sub_compatible_id", vals[1].value);
    OnlyFilesTransitive(t, u, fs.tree, p);
    IfaceFilesOnly(t, fs.tree, g, f, name);
  }

  /** `usbg_import_function_os_descs`. */
  method ImportIfaceList(fs: ConfigFs, g: string, f: string, t: FunctionType, elems: seq<Setting>) returns (ret: int)
    requires HasFunction(fs.tree, g, f)
    modifies fs
    ensures ret <= 0 && OnlyIfaces(old(fs.tree), fs.tree, g, f)
    ensures ret == 0 ==> ImportIfaces(t, elems, old(fs.tree)[g].functions[f].ifaces) == Ok(fs.tree[g].functions[f].ifaces)
    ensures old(fs.Quiet()) ==> fs.Quiet() && ret == Code(ImportIfaces(t, elems, old(fs.tree)[g].functions[f].ifaces))
  {
    hide OnlyIfaces, ImportIface;
    ghost var start := fs.tree;
    ghost var whole := ImportIfaces(t, elems, start[g].functions[f].ifaces);
    OnlyIfacesReflexive(start, g, f);
    ret := 0;
    var i := 0;
    assert elems[0..] == elems;
    while i < |elems|
      invariant 0 <= i <= |elems| && ret == 0 && HasFunction(fs.tree, g, f)
      invariant OnlyIfaces(start, fs.tree, g, f)
      invariant ImportIfaces(t, elems[i..], fs.tree[g].functions[f].ifaces) == whole
      invariant old(fs.Quiet()) ==> fs.Quiet()
    {
      assert elems[i..][1..] == elems[i + 1..];
      ghost var mid := fs.tree;
      ret := ImportOneIface(fs, g, f, t, elems[i]);
      OnlyIfacesTransitive(start, mid, fs.tree, g, f);
      if ret != 0 { return; }
      i := i + 1;
    }
  }

  method ImportOneIface(fs: ConfigFs, g: string, f: string, t: FunctionType, elem: Setting) returns (ret: int)
    requires HasFunction(fs.tree, g, f)
    modifies fs
    ensures ret <= 0 && OnlyIfaces(old(fs.tree), fs.tree, g, f) && HasFunction(fs.tree, g, f)
    ensures ret == 0 ==> ImportIface(t, elem, old(fs.tree)[g].functions[f].ifaces) == Ok(fs.tree[g].functions[f].ifaces)
    ensures old(fs.Quiet()) ==> fs.Quiet() && ret == Code(ImportIface(t, elem, old(fs.tree)[g].functions[f].ifaces))
  {
    OnlyIfacesReflexive(fs.tree, g, f);
    hide OnlyIfaces, Written, Get, IfaceNames;
    if !elem.SGroup? { return INVALID_TYPE; }
    var node := Get(elem, "interface");
    if node.None? { return MISSING_TAG; }
    if !node.value.SStr? { return OTHER_ERROR; }
    var name := node.value.s;
    if name !in IfaceNames(t) { return NOT_SUPPORTED; }
    var vals := ImportVals(IFACE_STRINGS, elem);
    if vals.Err? { return vals.code; }
    ret := SetIface(fs, g, f, name, vals.value);
  }

  ghost predicate SameIfaces(names: seq<string>, a: IfaceMap, b: IfaceMap) {
    forall n <- names :: ReadIface(b, n) == ReadIface(a, n)
  }

  /** The descriptors of an interface come back from an export and an import. */
  lemma IfacesRoundTrip(t: FunctionType, ifaces: IfaceMap, fresh0: IfaceMap)
    requires ExportIfaces(IfaceNames(t), ifaces).Ok?
    requires forall n <- IfaceNames(t) :: n in fresh0 && forall s <- IFACE_STRINGS :: s in fresh0[n]
    ensures var r := ImportIfaces(t, ExportIfaces(IfaceNames(t), ifaces).value, fresh0);
      r.Ok? && SameIfaces(IfaceNames(t), ifaces, r.value)
  {
    hide ReadString, ReadStringsFrom, ImportIface;
    var names := IfaceNames(t);
    if names != [] {
      assert names[1..] == [];
      var n := names[0];
      var vals := ReadIface(ifaces, n).value;
      var elems := ExportIfaces(names, ifaces).value;
      assert elems == [IfaceGroup(n, vals)] && elems[1..] == [];
      ReadStringsClean(IFACE_STRINGS, ifaces[n]);
      IfaceBack(t, n, vals, fresh0);
    }
  }

  lemma IfaceBack(t: FunctionType, n: string, vals: seq<string>, fresh0: IfaceMap)
    requires n in IfaceNames(t) && n in fresh0 && (forall s <- IFACE_STRINGS :: s in fresh0[n]) && |vals| == 2
    requires forall v <- vals :: '\n' !in v && |v| < FILE_SIZE
    ensures var r := ImportIface(t, IfaceGroup(n, vals), fresh0); r.Ok? && ReadIface(r.value, n) == Ok(vals)
  {
    hide ReadString, ReadStringsFrom, Written, StringWrites, IfaceWrites, Somes;
    var lead := [Member("interface", SStr(n))];
    FindAppend(lead, StringMembers(IFACE_STRINGS, vals), "interface");
    assert IFACE_STRINGS[0] in IFACE_STRINGS && IFACE_STRINGS[1] in IFACE_STRINGS;
    LangGroupMembers(IFACE_STRINGS, vals, lead);
    AllWritten(IFACE_STRINGS, vals, fresh0[n]);
    TwoWrites(vals);
  }

  lemma TwoWrites(vals: seq<string>)
    requires |vals| == 2
    ensures Somes(vals) == [Some(vals[0]), Some(vals[1])]
    ensures StringWrites(IFACE_STRINGS, Somes(vals)) == IfaceWrites(Somes(vals))
  {
    assert vals[1..] == [vals[1]] && vals[1..][1..] == [];
    assert Somes(vals[1..]) == [Some(vals[1])];
    assert IFACE_STRINGS[1..] == ["sub_compatible_id"] && IFACE_STRINGS[1..][1..] == [];
    assert Somes(vals)[1..] == [Some(vals[1])];
    assert StringWrites(["sub_compatible_id"], [Some(vals[1])]) == [Write("sub_compatible_id", Some(vals[1]))];
  }
}
