/** When functions, configurations and gadgets can be exported, told from their directories; and what the exported settings
    say, by name. */
module Exports {
  import opened Errors
  import opened Text
  import opened Numbers
  import opened Names
  import opened Codecs
  import opened Settings
  import opened Kernel
  import opened Attributes
  import opened MassStorage
  import opened Records
  import opened Strings
  import opened OsDescs
  import opened Schemes
  import opened RoundTrip

  // ----- single files

  /** The member is the number in the file. */
  ghost predicate IntTold(ms: seq<Member>, n: string, files: Files) {
    n in files && Find(ms, n) == Some(SInt(ReadInt(files[n], 10)))
  }

  ghost predicate BoolTold(ms: seq<Member>, n: string, files: Files) {
    n in files && Find(ms, n) == Some(SBool(ReadInt(files[n], 10) != 0))
  }

  ghost predicate StringTold(ms: seq<Member>, n: string, files: Files) {
    n in files && Find(ms, n) == Some(SStr(ReadString(files[n], 4096)))
  }

  predicate HasMac(n: string, files: Files) { n in files && ParseMac(ReadString(files[n], 256)).Some? }

  ghost predicate MacTold(ms: seq<Member>, n: string, files: Files) {
    HasMac(n, files) && Find(ms, n) == Some(SStr(PrintMac(ParseMac(ReadString(files[n], 256)).value)))
  }

  predicate HasCount(n: string, files: Files) { n in files && ReadInt(files[n], 10) >= 0 }

  // ----- the attributes of a function

  predicate NetTellable(files: Files) {
    HasMac("dev_addr", files) && HasMac("host_addr", files) && "qmult" in files && "class_" in files && "subclass" in files &&
    "protocol" in files
  }

  /** The interface name, which the kernel chooses, is not exported. */
  ghost predicate NetTold(ms: seq<Member>, files: Files) {
    MacTold(ms, "dev_addr", files) && MacTold(ms, "host_addr", files) && IntTold(ms, "qmult", files) && IntTold(ms, "class_", files) &&
    IntTold(ms, "subclass", files) && IntTold(ms, "protocol", files) && Find(ms, "ifname") == None
  }

  predicate HidTellable(files: Files) {
    "dev" in files && ReadVal(Dev, files["dev"]).Ok? && "protocol" in files && "report_desc" in files && "report_length" in files &&
    "subclass" in files
  }

  ghost predicate HidTold(ms: seq<Member>, files: Files) {
    HidTellable(files) && Find(ms, "dev").Some? && Tells(Dev, files["dev"], Find(ms, "dev").value) && IntTold(ms, "protocol", files) &&
    Find(ms, "report_desc").Some? && Tells(Report, files["report_desc"], Find(ms, "report_desc").value) &&
    IntTold(ms, "report_length", files) && IntTold(ms, "subclass", files)
  }

  predicate MidiTellable(files: Files) {
    "index" in files && "id" in files && "in_ports" in files && "out_ports" in files && "buflen" in files && "qlen" in files
  }

  ghost predicate MidiTold(ms: seq<Member>, files: Files) {
    IntTold(ms, "index", files) && StringTold(ms, "id", files) && IntTold(ms, "in_ports", files) && IntTold(ms, "out_ports", files) &&
    IntTold(ms, "buflen", files) && IntTold(ms, "qlen", files)
  }

  /** The files of a function, LUNs apart, can be exported. */
  predicate FilesTellable(t: FunctionType, files: Files) {
    if IsNet(t) then NetTellable(files)
    else if t == Hid then HidTellable(files)
    else if t == Midi then MidiTellable(files)
    else if t == Loopback then HasCount("buflen", files) && HasCount("qlen", files)
    else if t == MassStorage then "stall" in files
    else t !in [Printer, Uac2, Uvc]
  }

  ghost predicate FilesTold(t: FunctionType, ms: seq<Member>, files: Files) {
    if IsNet(t) then NetTold(ms, files)
    else if t == Hid then HidTold(ms, files)
    else if t == Midi then MidiTold(ms, files)
    else if t == Loopback then IntTold(ms, "buflen", files) && IntTold(ms, "qlen", files)
    else if t == MassStorage then BoolTold(ms, "stall", files)
    else ms == []
  }

  /** What an export tells of one entry of a table. */
  lemma EntryTold(table: seq<AttrDef>, d: AttrDef, files: Files)
    requires (forall i, j :: 0 <= i < j < |table| ==> table[i].name != table[j].name) && d in table && ExportFrom(table, 0, [], files).Ok?
    ensures var ms := ExportFrom(table, 0, [], files).value;
      if !d.exported then Find(ms, d.name) == None
      else match d.kind
        case Dec => IntTold(ms, d.name, files)
        case Count => IntTold(ms, d.name, files)
        case Bool => BoolTold(ms, d.name, files)
        case Str => StringTold(ms, d.name, files)
        case MacAddr => MacTold(ms, d.name, files)
        case _ => d.name in files && Find(ms, d.name).Some? && Tells(d.kind, files[d.name], Find(ms, d.name).value)
  {
    hide ExportFrom, ReadInt, ReadString, ParseMac, PrintMac, ReadVal, ExportVal, Find;
    ExportTells(table, files);
  }

  /** The entry's file is there and can be told. */
  ghost predicate Told(d: AttrDef, files: Files) { d.exported ==> d.name in files && Tellable(d.kind, files[d.name]) }

  lemma TableExport(table: seq<AttrDef>, files: Files)
    requires forall i, j :: 0 <= i < j < |table| ==> table[i].name != table[j].name
    ensures ExportFrom(table, 0, [], files).Ok? <==> forall i :: 0 <= i < |table| ==> Told(table[i], files)
  {
    hide ExportFrom, Tellable;
    ExportTells(table, files);
  }

  lemma NetExport(files: Files)
    ensures var r := ExportFrom(NET_TABLE, 0, [], files); (r.Ok? <==> NetTellable(files)) && (r.Ok? ==> NetTold(r.value, files))
  {
    hide ExportFrom, IntTold, MacTold, Find;
    NetWellFormed();
    TableExport(NET_TABLE, files);
    NetNeeds(files);
    var t := NET_TABLE;
    if ExportFrom(t, 0, [], files).Ok? {
      EntryTold(t, t[0], files);
      EntryTold(t, t[1], files);
      EntryTold(t, t[2], files);
      EntryTold(t, t[3], files);
      EntryTold(t, t[4], files);
      EntryTold(t, t[5], files);
      EntryTold(t, t[6], files);
    }
  }

  lemma NetNeeds(files: Files)
    ensures (forall i :: 0 <= i < |NET_TABLE| ==> Told(NET_TABLE[i], files)) <==> NetTellable(files)
  {
    hide ParseMac, ReadString;
    var t := NET_TABLE;
    assert Told(t[0], files) <==> HasMac("dev_addr", files);
    assert Told(t[1], files) <==> HasMac("host_addr", files);
    assert Told(t[2], files) && (Told(t[3], files) <==> "qmult" in files) && (Told(t[4], files) <==> "class_" in files);
    assert (Told(t[5], files) <==> "subclass" in files) && (Told(t[6], files) <==> "protocol" in files);
  }

  lemma HidExport(files: Files)
    ensures var r := ExportFrom(HID_TABLE, 0, [], files); (r.Ok? <==> HidTellable(files)) && (r.Ok? ==> HidTold(r.value, files))
  {
    hide ExportFrom, ReadInt, ReadString, ReadVal, ExportVal, Find;
    HidWellFormed();
    ExportTells(HID_TABLE, files);
    var t := HID_TABLE;
    assert t[0] in t && t[1] in t && t[2] in t && t[3] in t && t[4] in t;
  }

  lemma MidiExport(files: Files)
    ensures var r := ExportFrom(MIDI_TABLE, 0, [], files); (r.Ok? <==> MidiTellable(files)) && (r.Ok? ==> MidiTold(r.value, files))
  {
    hide ExportFrom, IntTold, StringTold, Find;
    MidiWellFormed();
    TableExport(MIDI_TABLE, files);
    MidiNeeds(files);
    var t := MIDI_TABLE;
    if ExportFrom(t, 0, [], files).Ok? {
      EntryTold(t, t[0], files);
      EntryTold(t, t[1], files);
      EntryTold(t, t[2], files);
      EntryTold(t, t[3], files);
      EntryTold(t, t[4], files);
      EntryTold(t, t[5], files);
    }
  }

  lemma MidiNeeds(files: Files)
    ensures (forall i :: 0 <= i < |MIDI_TABLE| ==> Told(MIDI_TABLE[i], files)) <==> MidiTellable(files)
  {
    var t := MIDI_TABLE;
    assert (Told(t[0], files) <==> "index" in files) && (Told(t[1], files) <==> "id" in files) && (Told(t[2], files) <==> "in_ports" in files);
    assert (Told(t[3], files) <==> "out_ports" in files) && (Told(t[4], files) <==> "buflen" in files) && (Told(t[5], files) <==> "qlen" in files);
  }

  lemma LoopbackExport(files: Files)
    ensures var r := ExportFrom(LOOPBACK_TABLE, 0, [], files);
      (r.Ok? <==> HasCount("buflen", files) && HasCount("qlen", files)) &&
      (r.Ok? ==> IntTold(r.value, "buflen", files) && IntTold(r.value, "qlen", files))
  {
    hide ExportFrom, ReadInt, ReadString, ReadVal, ExportVal, Find;
    LoopbackWellFormed();
    ExportTells(LOOPBACK_TABLE, files);
    var t := LOOPBACK_TABLE;
    assert t[0] in t && t[1] in t;
  }

  // ----- LUNs

  ghost predicate LunTold(elem: Setting, files: Files) {
    elem.SGroup? && BoolTold(elem.members, "cdrom", files) && BoolTold(elem.members, "ro", files) && BoolTold(elem.members, "nofua", files) &&
    BoolTold(elem.members, "removable", files) && StringTold(elem.members, "file", files) && StringTold(elem.members, "inquiry_string", files)
  }

  lemma LunExport(files: Files)
    ensures var r := ExportFrom(LUN_TABLE, 0, [], files); (r.Ok? <==> SixFiles(files)) && (r.Ok? ==> LunTold(SGroup(r.value), files))
  {
    hide ExportFrom, BoolTold, StringTold, Find, SixFiles;
    LunTableWellFormed();
    TableExport(LUN_TABLE, files);
    LunNeeds(files);
    var t := LUN_TABLE;
    if ExportFrom(t, 0, [], files).Ok? {
      EntryTold(t, t[0], files);
      EntryTold(t, t[1], files);
      EntryTold(t, t[2], files);
      EntryTold(t, t[3], files);
      EntryTold(t, t[4], files);
      EntryTold(t, t[5], files);
    }
  }

  lemma LunNeeds(files: Files)
    ensures (forall i :: 0 <= i < |LUN_TABLE| ==> Told(LUN_TABLE[i], files)) <==> SixFiles(files)
  {
    var t := LUN_TABLE;
    assert (Told(t[0], files) <==> "cdrom" in files) && (Told(t[1], files) <==> "ro" in files) && (Told(t[2], files) <==> "nofua" in files);
    assert (Told(t[3], files) <==> "removable" in files) && (Told(t[4], files) <==> "file" in files);
    assert Told(t[5], files) <==> "inquiry_string" in files;
  }

  /** One group per LUN, in the order of their numbers. */
  ghost predicate LunsTold(elems: seq<Setting>, dirs: map<LunId, Files>) {
    |elems| == LunCount(dirs, MAX_LUNS) &&
    forall i: LunId | i in dirs :: LunCount(dirs, i) < |elems| && LunTold(elems[LunCount(dirs, i)], dirs[i])
  }

  lemma {:induction false} LunsExport(dirs: map<LunId, Files>, i: nat, acc: seq<Setting>)
    requires i <= MAX_LUNS && |acc| == LunCount(dirs, i)
    ensures var r := ExportLuns(dirs, i, acc);
      (r.Ok? <==> forall k: LunId | i <= k && k in dirs :: SixFiles(dirs[k])) &&
      (r.Ok? ==>
        |r.value| == LunCount(dirs, MAX_LUNS) && |acc| <= |r.value| && r.value[..|acc|] == acc &&
        forall k: LunId | i <= k && k in dirs :: LunCount(dirs, k) < |r.value| && LunTold(r.value[LunCount(dirs, k)], dirs[k]))
    decreases MAX_LUNS - i
  {
    hide ExportFrom, LunTold, SixFiles;
    if i < MAX_LUNS {
      if i !in dirs {
        LunsExport(dirs, i + 1, acc);
      } else {
        LunExport(dirs[i]);
        var group := ExportFrom(LUN_TABLE, 0, [], dirs[i]);
        if group.Ok? {
          LunsExport(dirs, i + 1, acc + [SGroup(group.value)]);
          var r := ExportLuns(dirs, i, acc);
          if r.Ok? {
            assert r.value[..|acc|] == r.value[..|acc| + 1][..|acc|];
            assert r.value[|acc|] == r.value[..|acc| + 1][|acc|];
          }
        }
      }
    }
  }

  lemma MsExport(k: KFunction)
    ensures var r := ExportMs(k);
      (r.Ok? <==> "stall" in k.files && forall i: LunId | i in k.luns :: SixFiles(k.luns[i])) &&
      (r.Ok? ==> BoolTold(r.value, "stall", k.files) && exists elems :: Find(r.value, "luns") == Some(SList(elems)) && LunsTold(elems, k.luns))
  {
    hide ExportLuns, ReadInt, SixFiles, LunTold, LunCount;
    LunsExport(k.luns, 0, []) by { assert LunCount(k.luns, 0) == 0 by { NoLunsBelowZero(k.luns); } }
    var r := ExportMs(k);
    if r.Ok? {
      FindAt(r.value, 0);
      FindAt(r.value, 1);
      assert LunsTold(r.value[1].value.elems, k.luns);
    }
  }

  lemma NoLunsBelowZero(dirs: map<LunId, Files>)
    ensures LunCount(dirs, 0) == 0
  {}

  // ----- a function

  /** The attributes of a function can be exported. */
  ghost predicate AttrsTellable(t: FunctionType, k: KFunction) {
    FilesTellable(t, k.files) && (t == MassStorage ==> forall i: LunId | i in k.luns :: SixFiles(k.luns[i]))
  }

  ghost predicate AttrsTold(t: FunctionType, k: KFunction, ms: seq<Member>) {
    FilesTold(t, ms, k.files) &&
    (t == MassStorage ==> exists elems :: Find(ms, "luns") == Some(SList(elems)) && LunsTold(elems, k.luns))
  }

  lemma FilesExport(t: FunctionType, files: Files)
    requires t != MassStorage && AttrTable(t).Some?
    ensures var r := ExportFrom(AttrTable(t).value, 0, [], files); (r.Ok? <==> FilesTellable(t, files)) && (r.Ok? ==> FilesTold(t, r.value, files))
  {
    hide NetTellable, NetTold, HidTellable, HidTold, MidiTellable, MidiTold, IntTold, HasCount, BoolTold, ExportFrom;
    if IsNet(t) { NetExport(files); }
    else if t == Hid { HidExport(files); }
    else if t == Midi { MidiExport(files); }
    else if t == Loopback { LoopbackExport(files); }
    else { NothingToExport(files); }
  }

  lemma NothingToExport(files: Files)
    ensures ExportFrom([], 0, [], files) == Ok([])
  {}

  /** The attributes of a function: exported exactly when its type has an exporter and the files it names are there and readable. */
  lemma AttrsExport(t: FunctionType, k: KFunction)
    ensures var r := ExportAttrsOf(t, k); (r.Ok? <==> AttrsTellable(t, k)) && (r.Ok? ==> AttrsTold(t, k, r.value))
  {
    hide ExportMs, NetTellable, HidTellable, MidiTellable, HasCount, LunsTold, BoolTold, SixFiles, ExportFrom, NetTold, HidTold, MidiTold, IntTold;
    if t == MassStorage { MsExport(k); }
    else if AttrTable(t).Some? { FilesExport(t, k.files); }
  }

  /** The interface with OS descriptors has both its strings. */
  predicate IfaceTellable(n: string, ifaces: IfaceMap) {
    n in ifaces && "compatible_id" in ifaces[n] && "sub_compatible_id" in ifaces[n]
  }

  /** Only NCM and RNDIS functions have such an interface, named like the type. */
  predicate DescsTellable(t: FunctionType, ifaces: IfaceMap) {
    (t == Ncm ==> IfaceTellable("ncm", ifaces)) && (t == Rndis ==> IfaceTellable("rndis", ifaces))
  }

  ghost predicate IfaceTold(elem: Setting, n: string, ifaces: IfaceMap) {
    IfaceTellable(n, ifaces) && Get(elem, "interface") == Some(SStr(n)) &&
    Get(elem, "compatible_id") == Some(SStr(ReadString(ifaces[n]["compatible_id"], 4096))) &&
    Get(elem, "sub_compatible_id") == Some(SStr(ReadString(ifaces[n]["sub_compatible_id"], 4096)))
  }

  ghost predicate DescsTold(t: FunctionType, elems: seq<Setting>, ifaces: IfaceMap) {
    if t == Ncm then |elems| == 1 && IfaceTold(elems[0], "ncm", ifaces)
    else if t == Rndis then |elems| == 1 && IfaceTold(elems[0], "rndis", ifaces)
    else elems == []
  }

  lemma IfaceExport(n: string, ifaces: IfaceMap)
    ensures var r := ExportIfaces([n], ifaces);
      (r.Ok? <==> IfaceTellable(n, ifaces)) && (r.Ok? ==> |r.value| == 1 && IfaceTold(r.value[0], n, ifaces))
  {
    hide ReadString, ReadStringsFrom;
    var names := [n];
    assert names[1..] == [] && ExportIfaces([], ifaces) == Ok([]);
    if n in ifaces {
      ReadTwo(ifaces[n]);
      if IfaceTellable(n, ifaces) {
        var vals := ReadIface(ifaces, n).value;
        assert [IfaceGroup(n, vals)] + [] == [IfaceGroup(n, vals)];
        assert ExportIfaces(names, ifaces) == Ok([IfaceGroup(n, vals)]);
        IfaceGroupMembers(n, vals);
      }
    }
  }

  lemma IfaceGroupMembers(n: string, vals: seq<string>)
    requires |vals| == 2
    ensures IfaceGroup(n, vals) ==
      SGroup([Member("interface", SStr(n)), Member("compatible_id", SStr(vals[0])), Member("sub_compatible_id", SStr(vals[1]))])
    ensures Get(IfaceGroup(n, vals), "interface") == Some(SStr(n)) && Get(IfaceGroup(n, vals), "compatible_id") == Some(SStr(vals[0]))
    ensures Get(IfaceGroup(n, vals), "sub_compatible_id") == Some(SStr(vals[1]))
  {
    var a, b := Member("compatible_id", SStr(vals[0])), Member("sub_compatible_id", SStr(vals[1]));
    assert IFACE_STRINGS[1..] == ["sub_compatible_id"] && vals[1..] == [vals[1]] && vals[1..][1..] == [];
    assert StringMembers(["sub_compatible_id"], [vals[1]]) == [b];
    assert StringMembers(IFACE_STRINGS, vals) == [a, b];
    var ms := [Member("interface", SStr(n)), a, b];
    FindAt(ms, 0);
    FindAt(ms, 1);
    FindAt(ms, 2);
  }

  /** The function can be exported. */
  ghost predicate FunctionTellable(t: FunctionType, k: KFunction) { AttrsTellable(t, k) && DescsTellable(t, k.ifaces) }

  /** The group says what type the function has, and what its directory says. */
  ghost predicate FunctionTold(t: FunctionType, k: KFunction, root: Setting) {
    Get(root, "type") == Some(SStr(TypeName(t))) &&
    (exists ms :: Get(root, "attrs") == Some(SGroup(ms)) && AttrsTold(t, k, ms)) &&
    exists elems :: Get(root, "os_descs") == Some(SList(elems)) && DescsTold(t, elems, k.ifaces)
  }

  /** A function can be exported exactly when its type has an exporter and every file it needs is there and readable. The group
      then tells what the directory says, and the instance. */
  lemma FunctionExport(t: FunctionType, k: KFunction, lbl: string, instance: string)
    ensures var r := ExportFunction(t, k);
      (r.Ok? <==> FunctionTellable(t, k)) &&
      (r.Ok? ==>
        var m := FunctionMember(lbl, instance, r.value);
        m.name == lbl && Get(m.value, "instance") == Some(SStr(instance)) && FunctionTold(t, k, m.value))
  {
    hide ExportAttrsOf, ExportIfaces, AttrsTellable, AttrsTold, IfaceTellable, IfaceTold, Get, TypeName;
    AttrsExport(t, k);
    if t == Ncm { IfaceExport("ncm", k.ifaces); }
    if t == Rndis { IfaceExport("rndis", k.ifaces); }
    if t != Ncm && t != Rndis { NoIfaces(k.ifaces); }
    var r := ExportFunction(t, k);
    if r.Ok? { FunctionSections(instance, t, ExportAttrsOf(t, k).value, ExportIfaces(IfaceNames(t), k.ifaces).value); }
  }

  lemma NoIfaces(ifaces: IfaceMap)
    ensures ExportIfaces([], ifaces) == Ok([])
  {}

  // ----- all functions

  /** A label a group can be named by: that of the function, or the generated one, for which there are 40 characters. */
  ghost predicate LabelUsable(labels: Labels, n: string)
    requires IsFunctionName(n)
  {
    ValidSettingName(GroupName(labels, n)) && (n !in labels ==> |Generated(n)| < 40)
  }

  ghost predicate FunctionListed(k: KGadget, labels: Labels, n: string) {
    n in k.functions && IsFunctionName(n) && LabelUsable(labels, n) && FunctionTellable(FunctionKeyOf(n).ftype, k.functions[n])
  }

  /** The group of one function. */
  ghost predicate ToldAs(k: KGadget, labels: Labels, n: string, m: Member)
    requires n in k.functions && IsFunctionName(n)
  {
    m.name == GroupName(labels, n) && Get(m.value, "instance") == Some(SStr(FunctionKeyOf(n).instance)) &&
    FunctionTold(FunctionKeyOf(n).ftype, k.functions[n], m.value)
  }

  /** Functions can be exported exactly when each can, under a usable label that no other group has. One group is added for each. */
  lemma {:induction false} FunctionsExport(names: seq<string>, k: KGadget, labels: Labels, acc: seq<Member>)
    requires (forall n <- names :: n in k.functions && IsFunctionName(n)) && forall i, j :: 0 <= i < j < |names| ==> names[i] != names[j]
    ensures var r := ExportFunctions(names, k, labels, acc);
      (r.Ok? <==> (forall n <- names :: FunctionListed(k, labels, n)) && NamesFree(names, labels, acc)) &&
      (r.Ok? ==> AllTold(names, k, labels, acc, r.value))
    decreases |names|
  {
    hide ExportFunctions, FunctionListed, NamesFree, ToldAs, IsFunctionName, GroupName, Generated, AllTold;
    if names == [] {
      NothingExported(k, labels, acc);
      NothingTold(k, labels, acc);
    } else {
      var n := names[0];
      var rest := names[1..];
      assert names == [n] + rest;
      NextFunction(names, k, labels, acc);
      NamesFreeFirst(names, labels, acc);
      if FunctionListed(k, labels, n) && Find(acc, GroupName(labels, n)).None? {
        var m := NewMember(k, labels, n);
        FunctionsExport(rest, k, labels, acc + [m]);
        NamesFreeIff(names, labels, acc, m);
        var r := ExportFunctions(names, k, labels, acc);
        if r.Ok? { MoreTold(names, k, labels, acc, m, r.value); }
      }
    }
  }

  lemma NothingTold(k: KGadget, labels: Labels, acc: seq<Member>)
    ensures AllTold([], k, labels, acc, acc)
  {}

  /** The members from `|acc|` on are those of the functions named. */
  ghost predicate AllTold(names: seq<string>, k: KGadget, labels: Labels, acc: seq<Member>, out: seq<Member>)
    requires forall n <- names :: n in k.functions && IsFunctionName(n)
  {
    |out| == |acc| + |names| && out[..|acc|] == acc && forall i :: 0 <= i < |names| ==> ToldAs(k, labels, names[i], out[|acc| + i])
  }

  lemma MoreTold(names: seq<string>, k: KGadget, labels: Labels, acc: seq<Member>, m: Member, out: seq<Member>)
    requires names != [] && forall n <- names :: n in k.functions && IsFunctionName(n)
    requires ToldAs(k, labels, names[0], m) && AllTold(names[1..], k, labels, acc + [m], out)
    ensures AllTold(names, k, labels, acc, out)
  {
    hide ToldAs, IsFunctionName;
    assert out[..|acc|] == out[..|acc| + 1][..|acc|];
    assert out[|acc|] == out[..|acc| + 1][|acc|];
    forall i | 0 <= i < |names| ensures ToldAs(k, labels, names[i], out[|acc| + i]) {
      if i > 0 { assert names[i] == names[1..][i - 1] && out[|acc| + i] == out[|acc + [m]| + (i - 1)]; }
    }
  }

  ghost function NewMember(k: KGadget, labels: Labels, n: string): (m: Member)
    requires FunctionListed(k, labels, n)
    ensures ToldAs(k, labels, n, m) && m.name == GroupName(labels, n)
  {
    var key := FunctionKeyOf(n);
    FunctionExport(key.ftype, k.functions[n], GroupName(labels, n), key.instance);
    FunctionMember(GroupName(labels, n), key.instance, ExportFunction(key.ftype, k.functions[n]).value)
  }

  lemma NextFunction(names: seq<string>, k: KGadget, labels: Labels, acc: seq<Member>)
    requires names != [] && forall n <- names :: n in k.functions && IsFunctionName(n)
    ensures var n := names[0];
      if FunctionListed(k, labels, n) && Find(acc, GroupName(labels, n)).None? then
        ExportFunctions(names, k, labels, acc) == ExportFunctions(names[1..], k, labels, acc + [NewMember(k, labels, n)])
      else ExportFunctions(names, k, labels, acc).Err?
  {
    hide ExportFunction, FunctionTellable, ValidSettingName, GeneratedLabel, FunctionName, IsFunctionName, FunctionMember, FunctionTold, Get, Find;
    var n := names[0];
    FunctionExport(FunctionKeyOf(n).ftype, k.functions[n], GroupName(labels, n), FunctionKeyOf(n).instance);
  }

  lemma NamesFreeFirst(names: seq<string>, labels: Labels, acc: seq<Member>)
    requires names != [] && forall n <- names :: IsFunctionName(n)
    ensures NamesFree(names, labels, acc) ==> Find(acc, GroupName(labels, names[0])).None?
  {}

  lemma NamesFreeIff(names: seq<string>, labels: Labels, acc: seq<Member>, m: Member)
    requires names != [] && (forall n <- names :: IsFunctionName(n)) && names[0] !in names[1..]
    requires m.name == GroupName(labels, names[0]) && Find(acc, m.name).None?
    ensures NamesFree(names[1..], labels, acc + [m]) <==> NamesFree(names, labels, acc)
  {
    hide GroupName, IsFunctionName;
    forall n | n in names[1..]
      ensures Find(acc + [m], GroupName(labels, n)).None? <==> Find(acc, GroupName(labels, n)).None? && GroupName(labels, n) != m.name
    {
      FindAppend(acc, [m], GroupName(labels, n));
    }
    assert names == [names[0]] + names[1..];
    if NamesFree(names[1..], labels, acc + [m]) { NamesFreeStep(names, labels, acc, m); }
  }

  /** The groups of an export have different names. */
  ghost predicate LabelsApart(names: set<string>, labels: Labels)
    requires forall n <- names :: IsFunctionName(n)
  {
    forall n, m | n in names && m in names && GroupName(labels, n) == GroupName(labels, m) :: n == m
  }

  /** A generated label can name a group exactly when the instance consists of letters, digits, '*', '_' and '-'. */
  lemma GeneratedNameValid(t: FunctionType, instance: string)
    ensures ValidSettingName(GeneratedLabel(t, instance)) <==>
      forall c <- instance :: 'a' <= c <= 'z' || 'A' <= c <= 'Z' || '0' <= c <= '9' || c in "*_-"
  {
    TypeNameLetters(t);
    var lbl := GeneratedLabel(t, instance);
    hide TypeName;
    assert forall c <- lbl :: c in TypeName(t) || c == '_' || c in instance;
    assert forall c <- instance :: c in lbl;
    assert lbl[0] == TypeName(t)[0];
  }

  lemma TypeNameLetters(t: FunctionType)
    ensures TypeName(t) != "" && IsLetter(TypeName(t)[0]) && forall c <- TypeName(t) :: IsLetter(c) || '0' <= c <= '9' || c == '_'
  {}

  // ----- attributes of gadgets and configurations

  /** The member is the number in the file of that name, which is written in hex, cut down to 8 or 16 bits. */
  ghost predicate HexTold(ms: seq<Member>, n: string, files: Files, limit: Limit) {
    n in files && Find(ms, n) == Some(SInt(ReadInt(files[n], 16) % limit))
  }

  ghost predicate GadgetAttrsTold(ms: seq<Member>, files: Files) {
    HexTold(ms, "bcdUSB", files, 0x1_0000) && HexTold(ms, "bDeviceClass", files, 0x100) && HexTold(ms, "bDeviceSubClass", files, 0x100) &&
    HexTold(ms, "bDeviceProtocol", files, 0x100) && HexTold(ms, "bMaxPacketSize0", files, 0x100) && HexTold(ms, "idVendor", files, 0x1_0000) &&
    HexTold(ms, "idProduct", files, 0x1_0000) && HexTold(ms, "bcdDevice", files, 0x1_0000)
  }

  /** `MaxPower` is written in decimal, and called `bMaxPower` in schemes. */
  ghost predicate ConfigAttrsTold(ms: seq<Member>, files: Files) {
    HexTold(ms, "bmAttributes", files, 0x100) && "MaxPower" in files && Find(ms, "bMaxPower") == Some(SInt(ReadInt(files["MaxPower"], 10) % 0x100))
  }

  lemma {:induction false} FieldsExport(tags: seq<Field>, files: Files)
    requires forall i, j :: 0 <= i < j < |tags| ==> tags[i].tag != tags[j].tag
    ensures ExportFields(tags, files).Ok? <==> forall f <- tags :: f.file in files
    ensures ExportFields(tags, files).Ok? ==>
      forall f <- tags :: ReadField(f, files).Ok? && Find(ExportFields(tags, files).value, f.tag) == Some(SInt(ReadField(f, files).value))
  {
    hide ReadInt, ReadFields, Find;
    AllFieldsRead(tags, files);
    if ExportFields(tags, files).Ok? {
      var r := ReadFields(tags, files).value;
      ReadFieldsFit(tags, files);
      ReadFieldsAre(tags, files, r);
      forall f | f in tags
        ensures ReadField(f, files).Ok? && Find(ExportFields(tags, files).value, f.tag) == Some(SInt(ReadField(f, files).value))
      {
        var i :| 0 <= i < |tags| && tags[i] == f;
        MembersFound(tags, r, i);
      }
    }
  }

  lemma {:induction false} AllFieldsRead(tags: seq<Field>, files: Files)
    ensures ReadFields(tags, files).Ok? <==> forall f <- tags :: f.file in files
  {
    hide ReadInt;
    if tags != [] {
      AllFieldsRead(tags[1..], files);
      assert tags == [tags[0]] + tags[1..];
    }
  }

  lemma GadgetAttrsExport(files: Files)
    ensures var r := ExportFields(GADGET_ATTRS, files);
      (r.Ok? <==> GadgetFilesThere(files)) && (r.Ok? ==> GadgetAttrsTold(r.value, files))
  {
    hide ReadInt, ExportFields, Find;
    GadgetAttrsOk();
    FieldsExport(GADGET_ATTRS, files);
    var t := GADGET_ATTRS;
    assert t[0] in t && t[1] in t && t[2] in t && t[3] in t && t[4] in t && t[5] in t && t[6] in t && t[7] in t;
  }

  lemma ConfigAttrsExport(files: Files)
    ensures var r := ExportFields(CONFIG_TAGS, files);
      (r.Ok? <==> ConfigFilesThere(files)) && (r.Ok? ==> ConfigAttrsTold(r.value, files))
  {
    hide ReadInt, ExportFields, Find;
    ConfigAttrsOk();
    FieldsExport(CONFIG_TAGS, files);
    var t := CONFIG_TAGS;
    assert t[0] in t && t[1] in t;
  }

  // ----- strings

  /** The files a language directory of a gadget or a configuration has. */
  predicate StringFilesThere(o: Owner, files: Files) {
    if o == OfGadget then "manufacturer" in files && "product" in files && "serialnumber" in files else "configuration" in files
  }

  ghost predicate LangTold(o: Owner, elem: Setting, lang: Int, files: Files) {
    elem.SGroup? && StringFilesThere(o, files) && Find(elem.members, "lang") == Some(SInt(lang)) &&
    if o == OfGadget then
      StringTold(elem.members, "manufacturer", files) && StringTold(elem.members, "product", files) && StringTold(elem.members, "serialnumber", files)
    else StringTold(elem.members, "configuration", files)
  }

  lemma LangExport(o: Owner, langs: LangMap, lang: Int)
    ensures var r := ReadLang(o, langs, lang); var n := LangName(lang);
      (r.Ok? <==> n in langs && StringFilesThere(o, langs[n])) && (r.Ok? ==> LangTold(o, LangGroup(o, lang, r.value), lang, langs[n]))
  {
    hide ReadString, LangName;
    var n := LangName(lang);
    if n in langs {
      if o == OfGadget { ThreeRead(langs[n]); } else { ReadOne("configuration", langs[n]); }
    }
    var r := ReadLang(o, langs, lang);
    if r.Ok? {
      if o == OfGadget { ThreeStrings(lang, r.value); } else { OneString(lang, r.value); }
    }
  }

  lemma ThreeRead(files: Files)
    ensures ReadStringsFrom(GADGET_STRINGS, files) ==
      if "manufacturer" in files && "product" in files && "serialnumber" in files then
        Ok([ReadString(files["manufacturer"], 4096), ReadString(files["product"], 4096), ReadString(files["serialnumber"], 4096)])
      else Err(NOT_FOUND)
  {
    hide ReadString, ReadStringsFrom;
    var rest := GADGET_STRINGS[1..];
    assert rest == ["product", "serialnumber"] && rest[1..] == ["serialnumber"];
    ReadOne("serialnumber", files);
    StringsThen(rest, files);
    StringsThen(GADGET_STRINGS, files);
    assert forall x: string, y: string, z: string :: [x] + [y] == [x, y] && [x] + [y, z] == [x, y, z];
  }

  lemma StringsThen(names: seq<string>, files: Files)
    requires names != []
    ensures ReadStringsFrom(names, files) ==
      if names[0] in files && ReadStringsFrom(names[1..], files).Ok? then
        Ok([ReadString(files[names[0]], 4096)] + ReadStringsFrom(names[1..], files).value)
      else if names[0] in files then ReadStringsFrom(names[1..], files)
      else Err(NOT_FOUND)
  {
    hide ReadString;
  }

  lemma ThreeStrings(lang: Int, vals: seq<string>)
    requires |vals| == 3
    ensures var ms := LangGroup(OfGadget, lang, vals).members;
      Find(ms, "lang") == Some(SInt(lang)) && Find(ms, "manufacturer") == Some(SStr(vals[0])) && Find(ms, "product") == Some(SStr(vals[1])) &&
      Find(ms, "serialnumber") == Some(SStr(vals[2]))
  {
    hide Find, StringMembers;
    ThreeMembersOf(vals);
    var ms := [Member("lang", SInt(lang)), Member("manufacturer", SStr(vals[0])), Member("product", SStr(vals[1])),
               Member("serialnumber", SStr(vals[2]))];
    assert LangGroup(OfGadget, lang, vals).members == ms;
    FindAt(ms, 0);
    FindAt(ms, 1);
    FindAt(ms, 2);
    FindAt(ms, 3);
  }

  lemma ThreeMembersOf(vals: seq<string>)
    requires |vals| == 3
    ensures StringMembers(GADGET_STRINGS, vals) ==
      [Member("manufacturer", SStr(vals[0])), Member("product", SStr(vals[1])), Member("serialnumber", SStr(vals[2]))]
  {
    var a, b, c := Member("manufacturer", SStr(vals[0])), Member("product", SStr(vals[1])), Member("serialnumber", SStr(vals[2]));
    var names := GADGET_STRINGS;
    assert names[1..] == ["product", "serialnumber"] && vals[1..] == [vals[1], vals[2]];
    assert names[1..][1..] == ["serialnumber"] && vals[1..][1..] == [vals[2]];
    assert StringMembers(["serialnumber"], [vals[2]]) == [c];
    assert StringMembers(names[1..], vals[1..]) == [b] + [c] == [b, c];
    assert StringMembers(names, vals) == [a] + [b, c] == [a, b, c];
  }

  lemma OneString(lang: Int, vals: seq<string>)
    requires |vals| == 1
    ensures var ms := LangGroup(OfConfig, lang, vals).members;
      Find(ms, "lang") == Some(SInt(lang)) && Find(ms, "configuration") == Some(SStr(vals[0]))
  {
    assert CONFIG_STRINGS[1..] == [] && vals[1..] == [];
    assert StringMembers(CONFIG_STRINGS, vals) == [Member("configuration", SStr(vals[0]))];
    var ms := [Member("lang", SInt(lang)), Member("configuration", SStr(vals[0]))];
    assert LangGroup(OfConfig, lang, vals).members == ms;
    FindAt(ms, 0);
    FindAt(ms, 1);
  }

  /** The list of languages ends before this directory: its number, or that of one sorted before it, is 0. */
  ghost predicate Ended(langs: LangMap, n: string) {
    exists m <- langs :: (m == n || Below(m, n)) && ParseLang(m) == Ok(0)
  }

  /** Every directory name is a number below 65535, and each number in the list has its strings in the directory the library
      names for it. */
  ghost predicate StringsTellable(o: Owner, langs: LangMap) {
    (forall n <- langs :: ParseLang(n).Ok?) &&
    forall n <- langs | !Ended(langs, n) ::
      var c := LangName(ParseLang(n).value); c in langs && StringFilesThere(o, langs[c])
  }

  /** One group for each, in the order of the directory names. */
  ghost predicate StringsTold(o: Owner, elems: seq<Setting>, langs: LangMap) {
    (forall n <- langs :: ParseLang(n).Ok?) &&
    var names := SortedKeys(langs.Keys);
    |elems| <= |names| &&
    forall i :: 0 <= i < |names| ==>
      names[i] in langs && (i < |elems| <==> !Ended(langs, names[i])) &&
      (i < |elems| ==>
        var l := ParseLang(names[i]).value; LangName(l) in langs && LangTold(o, elems[i], l, langs[LangName(l)]))
  }

  lemma {:induction false} LangsParse(names: seq<string>)
    ensures ParseLangs(names).Ok? <==> forall n <- names :: ParseLang(n).Ok?
    ensures ParseLangs(names).Ok? ==> forall i :: 0 <= i < |names| ==> ParseLang(names[i]) == Ok(ParseLangs(names).value[i])
  {
    hide ParseLang;
    if names != [] {
      LangsParse(names[1..]);
      assert names == [names[0]] + names[1..];
    }
  }

  /** The list stops at the first 0. */
  lemma {:induction false} ListEnds(ls: seq<Int>)
    ensures var r := UpToZero(ls); |r| <= |ls| && r == ls[..|r|] && (forall i :: 0 <= i < |r| ==> ls[i] != 0) && (|r| < |ls| ==> ls[|r|] == 0)
  {
    if ls != [] && ls[0] != 0 { ListEnds(ls[1..]); }
  }

  lemma {:induction false} LangsExport(o: Owner, langs: LangMap, ls: seq<Int>)
    ensures var r := ExportLangs(o, langs, ls);
      (r.Ok? <==> forall l <- ls :: LangName(l) in langs && StringFilesThere(o, langs[LangName(l)])) &&
      (r.Ok? ==> |r.value| == |ls| && forall i :: 0 <= i < |ls| ==> LangTold(o, r.value[i], ls[i], langs[LangName(ls[i])]))
  {
    hide ReadLang, LangName, LangTold, StringFilesThere, LangGroup;
    if ls != [] {
      LangExport(o, langs, ls[0]);
      LangsExport(o, langs, ls[1..]);
      assert ls == [ls[0]] + ls[1..];
    }
  }

  /** Which of the sorted names stand before the end of the list. */
  lemma EndedIff(langs: LangMap, names: seq<string>, ls: seq<Int>, j: nat)
    requires names == SortedKeys(langs.Keys) && |ls| == |names| && forall i :: 0 <= i < |names| ==> ParseLang(names[i]) == Ok(ls[i])
    requires j <= |ls| && (forall i :: 0 <= i < j ==> ls[i] != 0) && (j < |ls| ==> ls[j] == 0)
    ensures forall i :: 0 <= i < |names| ==> (names[i] in langs && (Ended(langs, names[i]) <==> j <= i))
  {
    hide ParseLang;
    forall i | 0 <= i < |names| ensures names[i] in langs && (Ended(langs, names[i]) <==> j <= i) {
      assert names[i] in Elements(names);
      if j <= i {
        assert names[j] in Elements(names);
        assert j == i || Below(names[j], names[i]);
      }
      if Ended(langs, names[i]) {
        var m :| m in langs && (m == names[i] || Below(m, names[i])) && ParseLang(m) == Ok(0);
        assert m in Elements(names);
        var k :| 0 <= k < |names| && names[k] == m;
        if i < k {
          BelowTransitive(names[i], names[k], names[i]);
          BelowIrreflexive(names[i]);
        }
      }
    }
  }

  lemma StringsExport(o: Owner, langs: LangMap)
    ensures var r := ExportStrings(o, langs); (r.Ok? <==> StringsTellable(o, langs)) && (r.Ok? ==> StringsTold(o, r.value, langs))
  {
    hide ParseLang, LangName, StringFilesThere, LangTold, ExportLangs, ParseLangs, UpToZero, SortedKeys, Ended;
    var names := SortedKeys(langs.Keys);
    LangsParse(names);
    assert forall n <- langs :: n in Elements(names);
    forall i | 0 <= i < |names| ensures names[i] in langs { assert names[i] in Elements(names); }
    if ParseLangs(names).Ok? {
      var ls := ParseLangs(names).value;
      var r := UpToZero(ls);
      ListEnds(ls);
      LangsExport(o, langs, r);
      EndedIff(langs, names, ls, |r|);
      TellableInOrder(o, langs, names, ls, |r|);
      hide StringsTellable;
    }
  }

  lemma TellableInOrder(o: Owner, langs: LangMap, names: seq<string>, ls: seq<Int>, j: nat)
    requires names == SortedKeys(langs.Keys) && |ls| == |names| && forall i :: 0 <= i < |names| ==> ParseLang(names[i]) == Ok(ls[i])
    requires j <= |ls| && forall i :: 0 <= i < |names| ==> (names[i] in langs && (Ended(langs, names[i]) <==> j <= i))
    ensures StringsTellable(o, langs) <==> forall l <- ls[..j] :: LangName(l) in langs && StringFilesThere(o, langs[LangName(l)])
  {
    hide ParseLang, LangName, StringFilesThere, Ended;
    forall n | n in langs ensures exists i :: 0 <= i < |names| && names[i] == n { assert n in Elements(names); }
    if StringsTellable(o, langs) {
      forall l | l in ls[..j] ensures LangName(l) in langs && StringFilesThere(o, langs[LangName(l)]) {
        var i :| 0 <= i < j && ls[..j][i] == l;
        assert !Ended(langs, names[i]);
      }
    }
    if forall l <- ls[..j] :: LangName(l) in langs && StringFilesThere(o, langs[LangName(l)]) {
      forall n | n in langs && !Ended(langs, n)
        ensures ParseLang(n).Ok? && var c := LangName(ParseLang(n).value); c in langs && StringFilesThere(o, langs[c])
      {
        var i :| 0 <= i < |names| && names[i] == n;
        assert ls[..j][i] in ls[..j];
      }
    }
  }

  // ----- bindings and configurations

  /** Bindings can be exported exactly when the generated label of each target fits 40 characters. */
  lemma {:induction false} BindingsExport(names: seq<string>, links: map<string, string>)
    requires forall n <- names :: n in links && IsFunctionName(links[n])
    ensures var r := ExportBindings(names, links);
      (r.Ok? <==> forall n <- names :: |Generated(links[n])| < 40) &&
      (r.Ok? ==>
        |r.value| == |names| && forall i :: 0 <= i < |names| ==> BindingTold(r.value[i], names[i], Generated(links[names[i]])))
  {
    hide IsFunctionName, GeneratedLabel, Get;
    if names != [] {
      BindingsExport(names[1..], links);
      BindingSections(names[0], Generated(links[names[0]]));
      assert names == [names[0]] + names[1..];
    }
  }

  /** The group has the name of the binding and the label of its target. */
  predicate BindingTold(elem: Setting, name: string, lbl: string) {
    Get(elem, "name") == Some(SStr(name)) && Get(elem, "function") == Some(SStr(lbl))
  }

  ghost predicate ConfigTellable(k: KConfig)
    requires LinksNamed(k)
  {
    ConfigFilesThere(k.files) && StringsTellable(OfConfig, k.langs) && forall n <- k.links :: |Generated(k.links[n])| < 40
  }

  /** The group of a configuration tells its id, its label and what its directory says. */
  ghost predicate ConfigTold(root: Setting, lbl: string, id: Int, k: KConfig)
    requires LinksNamed(k)
  {
    Get(root, "id") == Some(SInt(id)) && Get(root, "name") == Some(SStr(lbl)) &&
    (exists ms :: Get(root, "attrs") == Some(SGroup(ms)) && ConfigAttrsTold(ms, k.files)) &&
    (exists strs :: Get(root, "strings") == Some(SList(strs)) && StringsTold(OfConfig, strs, k.langs)) &&
    exists elems :: Get(root, "functions") == Some(SList(elems)) && BindingsTold(elems, k)
  }

  /** One group for each link, in the order of their names. */
  ghost predicate BindingsTold(elems: seq<Setting>, k: KConfig)
    requires LinksNamed(k)
  {
    var names := SortedNames(k.links.Keys);
    |elems| == |names| && forall i :: 0 <= i < |names| ==> BindingTold(elems[i], names[i], Generated(k.links[names[i]]))
  }

  lemma ConfigExport(lbl: string, id: Int, k: KConfig)
    requires LinksNamed(k)
    ensures var r := ExportConfig(lbl, k);
      (r.Ok? <==> ConfigTellable(k)) && (r.Ok? ==> ConfigTold(ConfigGroup(id, r.value), lbl, id, k))
  {
    hide ExportFields, ExportStrings, ExportBindings, SortedNames, StringsTellable, StringsTold, ConfigAttrsTold, ConfigFilesThere, Get,
      BindingTold, Generated, IsFunctionName;
    var names := SortedNames(k.links.Keys);
    ConfigAttrsExport(k.files);
    StringsExport(OfConfig, k.langs);
    BindingsExport(names, k.links);
    SortedDistinct(k.links.Keys);
    assert forall n <- k.links :: n in Elements(names);
    var r := ExportConfig(lbl, k);
    if r.Ok? {
      ConfigSections(id, lbl, ExportFields(CONFIG_TAGS, k.files).value, ExportStrings(OfConfig, k.langs).value, ExportBindings(names, k.links).value);
    }
  }

  /** Configurations can be exported exactly when each can; one group is made for each. */
  lemma {:induction false} ConfigsExport(names: seq<string>, k: KGadget)
    requires forall n <- names :: n in k.configs && IsConfigName(n) && LinksNamed(k.configs[n])
    ensures var r := ExportConfigs(names, k);
      (r.Ok? <==> forall n <- names :: ConfigTellable(k.configs[n])) &&
      (r.Ok? ==>
        |r.value| == |names| &&
        forall i :: 0 <= i < |names| ==> var key := ConfigKeyOf(names[i]); ConfigTold(r.value[i], key.lbl, key.id, k.configs[names[i]]))
  {
    hide ExportConfig, ConfigTellable, ConfigTold, IsConfigName, LinksNamed, ConfigGroup;
    if names != [] {
      var key := ConfigKeyOf(names[0]);
      ConfigExport(key.lbl, key.id, k.configs[names[0]]);
      ConfigsExport(names[1..], k);
      assert names == [names[0]] + names[1..];
    }
  }

  // ----- gadgets

  /** Every part of the gadget can be exported, and the groups of its functions have different names. */
  ghost predicate GadgetTellable(k: KGadget, labels: Labels)
    requires WellNamed(k)
  {
    GadgetFilesThere(k.files) && StringsTellable(OfGadget, k.langs) && (forall n <- k.functions :: FunctionListed(k, labels, n)) &&
    LabelsApart(k.functions.Keys, labels) && forall c <- k.configs :: ConfigTellable(k.configs[c])
  }

  /** The id of the recorded configuration, and the three values if they can be read. */
  predicate OsDescsTold(ms: seq<Member>, osId: Option<Int>, files: Files) {
    Find(ms, "config_id") == (match osId case Some(id) => Some(SInt(id)) case None => None) &&
    if "use" in files && "qw_sign" in files && "b_vendor_code" in files then
      Find(ms, "use") == Some(SInt(if ReadInt(files["use"], 10) != 0 then 1 else 0)) &&
      Find(ms, "qw_sign") == Some(SStr(ReadString(files["qw_sign"], 4096))) &&
      Find(ms, "b_vendor_code") == Some(SInt(ReadInt(files["b_vendor_code"], 16) % 0x100))
    else Find(ms, "use") == None && Find(ms, "qw_sign") == None && Find(ms, "b_vendor_code") == None
  }

  lemma OsDescsExport(osId: Option<Int>, files: Files)
    ensures OsDescsTold(ExportOsDescs(osId, files), osId, files)
  {
    hide ReadInt, ReadString, Find;
    var lead := IdMember(osId);
    IdMemberFound(osId);
    if ReadOsDescs(files).Ok? {
      var ms := ExportOsDescs(osId, files);
      var rest := ms[|lead|..];
      assert ms == lead + rest;
      ThreeMembers(rest);
      FindAppend(lead, rest, "use");
      FindAppend(lead, rest, "b_vendor_code");
      FindAppend(lead, rest, "qw_sign");
      FindAppend(lead, rest, "config_id");
    } else {
      assert lead + [] == lead;
    }
  }

  /** The scheme tells what the directory of the gadget says. */
  ghost predicate GadgetTold(root: Setting, k: KGadget, labels: Labels, osId: Option<Int>)
    requires WellNamed(k)
  {
    (exists ms :: Get(root, "os_descs") == Some(SGroup(ms)) && OsDescsTold(ms, osId, k.osDesc)) &&
    (exists ms :: Get(root, "attrs") == Some(SGroup(ms)) && GadgetAttrsTold(ms, k.files)) &&
    (exists strs :: Get(root, "strings") == Some(SList(strs)) && StringsTold(OfGadget, strs, k.langs)) &&
    (exists ms :: Get(root, "functions") == Some(SGroup(ms)) && FunctionsTold(ms, k, labels)) &&
    exists cs :: Get(root, "configs") == Some(SList(cs)) && ConfigsTold(cs, k)
  }

  /** One group for each function, in the order of their directories. */
  ghost predicate FunctionsTold(ms: seq<Member>, k: KGadget, labels: Labels)
    requires forall n <- k.functions :: IsFunctionName(n)
  {
    var names := SortedNames(k.functions.Keys);
    |ms| == |names| && forall i :: 0 <= i < |names| ==> ToldAs(k, labels, names[i], ms[i])
  }

  ghost predicate ConfigsTold(cs: seq<Setting>, k: KGadget)
    requires forall n <- k.configs :: IsConfigName(n) && LinksNamed(k.configs[n])
  {
    var names := SortedNames(k.configs.Keys);
    |cs| == |names| &&
    forall i :: 0 <= i < |names| ==> var key := ConfigKeyOf(names[i]); ConfigTold(cs[i], key.lbl, key.id, k.configs[names[i]])
  }

  lemma FunctionsPartExport(k: KGadget, labels: Labels)
    requires forall n <- k.functions :: IsFunctionName(n)
    ensures var r := ExportFunctions(SortedNames(k.functions.Keys), k, labels, []);
      (r.Ok? <==> (forall n <- k.functions :: FunctionListed(k, labels, n)) && LabelsApart(k.functions.Keys, labels)) &&
      (r.Ok? ==> FunctionsTold(r.value, k, labels))
  {
    hide ExportFunctions, SortedNames, FunctionListed, ToldAs, IsFunctionName, GroupName;
    var names := SortedNames(k.functions.Keys);
    SortedDistinct(k.functions.Keys);
    assert forall n <- k.functions :: n in Elements(names);
    FunctionsExport(names, k, labels, []);
  }

  /** A gadget can be exported exactly when all its files are there and readable, each function is of a type with an exporter
      and has a usable label that no other function has, and generated labels of binding targets are short enough. */
  lemma GadgetExport(k: KGadget, labels: Labels, osId: Option<Int>)
    requires WellNamed(k)
    ensures var r := ExportWhole(k, labels, osId); (r.Ok? <==> GadgetTellable(k, labels)) && (r.Ok? ==> GadgetTold(r.value, k, labels, osId))
  {
    hide ExportFields, ExportStrings, ExportFunctions, ExportConfigs, ExportOsDescs, SortedNames, StringsTellable, GadgetFilesThere, FunctionListed,
      LabelsApart, ConfigTellable, ConfigTold, ValidName, LinksNamed, LinksOk, IsFunctionName, IsConfigName, ConfigKeyOf, StringsTold,
      GadgetAttrsTold, FunctionsTold, GadgetTold;
    GadgetAttrsExport(k.files);
    StringsExport(OfGadget, k.langs);
    FunctionsPartExport(k, labels);
    NamesListed(k);
    ConfigsExport(SortedNames(k.configs.Keys), k);
    if ExportWhole(k, labels, osId).Ok? { GadgetTells(k, labels, osId); }
  }

  lemma GadgetTells(k: KGadget, labels: Labels, osId: Option<Int>)
    requires WellNamed(k) && ExportWhole(k, labels, osId).Ok?
    ensures GadgetTold(ExportWhole(k, labels, osId).value, k, labels, osId)
  {
    hide ExportFields, ExportStrings, ExportFunctions, ExportConfigs, ExportOsDescs, SortedNames, StringsTellable, GadgetFilesThere, FunctionListed,
      LabelsApart, ConfigTellable, ConfigTold, WellNamed, LinksNamed, IsFunctionName, IsConfigName, ConfigKeyOf, StringsTold,
      GadgetAttrsTold, FunctionsTold, ExportWhole, OsDescsTold, Get, GadgetTold;
    WholeSections(k, labels, osId);
    GadgetAttrsExport(k.files);
    StringsExport(OfGadget, k.langs);
    FunctionsPartExport(k, labels);
    ConfigsExport(SortedNames(k.configs.Keys), k);
    OsDescsExport(osId, k.osDesc);
    SectionsTell(ExportWhole(k, labels, osId).value, k, labels, osId, ExportFields(GADGET_ATTRS, k.files).value,
      ExportStrings(OfGadget, k.langs).value, ExportFunctions(SortedNames(k.functions.Keys), k, labels, []).value,
      ExportConfigs(SortedNames(k.configs.Keys), k).value, ExportOsDescs(osId, k.osDesc));
  }

  lemma SectionsTell(root: Setting, k: KGadget, labels: Labels, osId: Option<Int>, attrs: seq<Member>, strs: seq<Setting>,
                     functions: seq<Member>, configs: seq<Setting>, osDescs: seq<Member>)
    requires WellNamed(k)
    requires Get(root, "attrs") == Some(SGroup(attrs)) && GadgetAttrsTold(attrs, k.files)
    requires Get(root, "strings") == Some(SList(strs)) && StringsTold(OfGadget, strs, k.langs)
    requires Get(root, "functions") == Some(SGroup(functions)) && FunctionsTold(functions, k, labels)
    requires Get(root, "configs") == Some(SList(configs)) && ConfigsTold(configs, k)
    requires Get(root, "os_descs") == Some(SGroup(osDescs)) && OsDescsTold(osDescs, osId, k.osDesc)
    ensures GadgetTold(root, k, labels, osId)
  {
    hide WellNamed, Get, GadgetAttrsTold, StringsTold, FunctionsTold, ConfigsTold, OsDescsTold;
  }
}
