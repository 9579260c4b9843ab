/** What importing settings amounts to, by name: which member goes to which file, what is refused, and what a binding links. */
module Imports {
  import opened Errors
  import opened Text
  import opened Numbers
  import opened Names
  import opened Codecs
  import opened Settings
  import opened Kernel
  import opened Attributes
  import opened MassStorage
  import opened Records
  import opened Strings
  import opened OsDescs
  import opened Schemes
  import opened RoundTrip
  import opened Exports

  // ----- which function a label leads to

  /** Nobody carries the label: it leads to the function of a type other than mass storage and an instance, joined by '_', if
      the gadget has that function. */
  lemma UnownedLabel(k: KGadget, labels: Labels, lbl: string, n: string)
    requires forall m <- labels :: labels[m] != lbl
    ensures Lookup(k, labels, lbl) == Some(n) <==>
      exists t, i :: t != MassStorage && i != "" && lbl == TypeName(t) + "_" + i && n == TypeName(t) + "." + i && n in k.functions
  {
    hide TypeName, FirstIndex;
    assert Owners(labels, lbl) == {};
    if t, i :| t != MassStorage && i != "" && lbl == TypeName(t) + "_" + i && n == TypeName(t) + "." + i && n in k.functions {
      GeneratedLabelSplits(t, i);
    }
    if Lookup(k, labels, lbl) == Some(n) { SplitLabelParts(lbl); }
  }

  lemma SplitLabelParts(lbl: string)
    requires SplitLabel(lbl).Some?
    ensures var key := SplitLabel(lbl).value; key.ftype != MassStorage && lbl == TypeName(key.ftype) + "_" + key.instance
  {
    hide TypeName;
    var bar := FirstIndex(lbl, '_');
    assert lbl == lbl[..bar] + [lbl[bar]] + lbl[bar + 1..];
    TypeNameBar(SplitLabel(lbl).value.ftype);
  }

  /** A label that functions carry leads to the first of them in the list. */
  lemma OwnedLabel(k: KGadget, labels: Labels, lbl: string, n: string)
    requires n in labels && labels[n] == lbl && forall m <- labels | labels[m] == lbl :: m == n || Below(n, m)
    ensures Lookup(k, labels, lbl) == Some(n)
  {
    var owners := Owners(labels, lbl);
    assert n in owners && IsLeast(owners, n);
    LeastUnique(owners, n, Least(owners));
  }

  // ----- bindings

  /** The gadget with one more link in configuration `c`. */
  ghost function WithLink(k: KGadget, c: string, name: string, target: string): KGadget
    requires c in k.configs
  {
    k.(configs := k.configs[c := k.configs[c].(links := k.configs[c].links[name := target])])
  }

  /** The link is new, there is none to the function yet, and the kernel accepts the name. */
  predicate CanLink(k: KGadget, c: string, name: string, target: string)
    requires c in k.configs
  {
    name !in k.configs[c].links && target !in k.configs[c].links.Values && ValidName(name)
  }

  /** `target` is linked under `name`, if that can be. */
  ghost predicate LinkMade(r: Result<KGadget>, k: KGadget, c: string, name: string, target: string)
    requires c in k.configs
  {
    (r.Ok? <==> CanLink(k, c, name, target)) && (r.Ok? ==> r.value == WithLink(k, c, name, target))
  }

  /** A string leads to a function, which is linked under the name of its own directory. */
  lemma StringBinding(dr: Draft, c: string, lbl: string, d: Defaults)
    requires c in dr.k.configs
    ensures var r, target := ImportBinding(dr, c, SStr(lbl), d), Lookup(dr.k, dr.labels, lbl);
      if target.Some? then LinkMade(r, dr.k, c, target.value, target.value) else r == Err(NOT_FOUND)
  {
    hide Lookup, ValidName;
  }

  /** A function of that type and instance can be made in the gadget. */
  predicate CanMake(k: KGadget, t: FunctionType, i: string, d: Defaults) {
    i != "" && TypeName(t) + "." + i !in k.functions && TypeName(t) in d.functions && ValidName(TypeName(t) + "." + i)
  }

  /** The target of a group is what its label leads to. */
  lemma LabelTarget(dr: Draft, node: Setting, lbl: string, d: Defaults)
    requires Get(node, "function") == Some(SStr(lbl))
    ensures var target := Lookup(dr.k, dr.labels, lbl);
      ImportTarget(dr, node, d) == if target.Some? then Ok(WithFunction(dr.k, target.value)) else Err(NOT_FOUND)
  {
    hide Lookup, Get;
  }

  /** A function defined in place is made with its type and instance, filled from its group, and is the target. */
  lemma InPlaceTarget(dr: Draft, node: Setting, f: Setting, t: FunctionType, i: string, d: Defaults)
    requires Get(node, "function") == Some(f) && f.SGroup?
    requires Get(f, "type") == Some(SStr(TypeName(t))) && Get(f, "instance") == Some(SStr(i))
    ensures var r, n := ImportTarget(dr, node, d), TypeName(t) + "." + i;
      (r.Ok? <==> CanMake(dr.k, t, i, d) && FillFunction(t, f, d.functions[TypeName(t)], d).Ok?) &&
      (r.Ok? ==>
        r.value.name == n && n in r.value.k.functions && Ok(r.value.k.functions[n]) == FillFunction(t, f, d.functions[TypeName(t)], d) &&
        r.value.k == dr.k.(functions := dr.k.functions[n := r.value.k.functions[n]]))
  {
    hide ValidName, Get, FillFunction, TypeName;
    TypeOfName(t);
  }

  /** A group links its target under the name it gives, or under the name of the target's directory. */
  lemma GroupBinding(dr: Draft, c: string, node: Setting, w: WithFunction, d: Defaults)
    requires c in dr.k.configs && node.SGroup? && ImportTarget(dr, node, d) == Ok(w)
    ensures var r, name := ImportBinding(dr, c, node, d), Get(node, "name");
      (name == None ==> LinkMade(r, w.k, c, w.name, w.name)) &&
      (name.Some? && name.value.SStr? ==> LinkMade(r, w.k, c, name.value.s, w.name)) &&
      (name.Some? && !name.value.SStr? ==> r == Err(INVALID_TYPE))
  {
    hide ValidName, Get, ImportTarget;
  }

  /** Settings that describe no binding are refused. */
  lemma NoBinding(dr: Draft, c: string, node: Setting, d: Defaults)
    requires c in dr.k.configs && !node.SStr?
    ensures !node.SGroup? ==> ImportBinding(dr, c, node, d) == Err(INVALID_TYPE)
    ensures node.SGroup? && Get(node, "function") == None ==> ImportBinding(dr, c, node, d) == Err(MISSING_TAG)
    ensures node.SGroup? && Get(node, "function").Some? && !Get(node, "function").value.SStr? && !Get(node, "function").value.SGroup? ==>
      ImportBinding(dr, c, node, d) == Err(INVALID_TYPE)
    ensures node.SGroup? && Get(node, "function").Some? && Get(node, "function").value.SGroup? ==>
      (Get(Get(node, "function").value, "instance") == None ==> ImportBinding(dr, c, node, d) == Err(MISSING_TAG))
  {
    hide Get;
  }

  /** The label of the documentation's example: `acm_usb0` makes a link called `acm.usb0`. */
  lemma ExampleBinding(dr: Draft, c: string, d: Defaults)
    requires c in dr.k.configs && dr.k.configs[c].links == map[] && "acm.usb0" in dr.k.functions
    requires forall m <- dr.labels | dr.labels[m] == "acm_usb0" :: m == "acm.usb0"
    ensures ImportBinding(dr, c, SStr("acm_usb0"), d) == Ok(WithLink(dr.k, c, "acm.usb0", "acm.usb0"))
  {
    hide Lookup;
    assert TypeName(Acm) + "_" + "usb0" == "acm_usb0" && TypeName(Acm) + "." + "usb0" == "acm.usb0";
    if "acm.usb0" in dr.labels && dr.labels["acm.usb0"] == "acm_usb0" {
      OwnedLabel(dr.k, dr.labels, "acm_usb0", "acm.usb0");
    } else {
      UnownedLabel(dr.k, dr.labels, "acm_usb0", "acm.usb0");
    }
    StringBinding(dr, c, "acm_usb0", d);
    assert ValidName("acm.usb0");
  }

  // ----- attributes of functions

  /** The member, if there is one, has a setting its importer takes, and the attribute has a file. A boolean needs none. */
  ghost predicate Accepts(root: Setting, n: string, kind: AttrKind, files: Files) {
    Get(root, n).Some? ==> Takes(kind, Get(root, n).value) && (kind == Bool || n in files)
  }

  /** The file holds what the member gives; without one, and for booleans, what it held before. */
  ghost predicate Sets(root: Setting, n: string, kind: AttrKind, before: Files, after: Files) {
    (n in after <==> n in before) &&
    (n in after ==> if Get(root, n).Some? && kind != Bool then Gives(kind, Get(root, n).value, after[n]) else after[n] == before[n])
  }

  ghost predicate NetAccepts(root: Setting, files: Files) {
    Accepts(root, "dev_addr", MacAddr, files) && Accepts(root, "host_addr", MacAddr, files) && Accepts(root, "qmult", Dec, files) &&
    Accepts(root, "class_", Dec, files) && Accepts(root, "subclass", Dec, files) && Accepts(root, "protocol", Dec, files)
  }

  ghost predicate NetSets(root: Setting, before: Files, after: Files) {
    Sets(root, "dev_addr", MacAddr, before, after) && Sets(root, "host_addr", MacAddr, before, after) && Sets(root, "qmult", Dec, before, after) &&
    Sets(root, "class_", Dec, before, after) && Sets(root, "subclass", Dec, before, after) && Sets(root, "protocol", Dec, before, after) &&
    OnlyNamed({"dev_addr", "host_addr", "qmult", "class_", "subclass", "protocol"}, before, after)
  }

  /** `dev` is read-only. */
  ghost predicate HidAccepts(root: Setting, files: Files) {
    Accepts(root, "protocol", Dec, files) && Accepts(root, "report_desc", Report, files) && Accepts(root, "report_length", Dec, files) &&
    Accepts(root, "subclass", Dec, files)
  }

  ghost predicate HidSets(root: Setting, before: Files, after: Files) {
    Sets(root, "protocol", Dec, before, after) && Sets(root, "report_desc", Report, before, after) &&
    Sets(root, "report_length", Dec, before, after) && Sets(root, "subclass", Dec, before, after) &&
    OnlyNamed({"protocol", "report_desc", "report_length", "subclass"}, before, after)
  }

  ghost predicate MidiAccepts(root: Setting, files: Files) {
    Accepts(root, "index", Dec, files) && Accepts(root, "id", Str, files) && Accepts(root, "in_ports", Dec, files) &&
    Accepts(root, "out_ports", Dec, files) && Accepts(root, "buflen", Dec, files) && Accepts(root, "qlen", Dec, files)
  }

  ghost predicate MidiSets(root: Setting, before: Files, after: Files) {
    Sets(root, "index", Dec, before, after) && Sets(root, "id", Str, before, after) && Sets(root, "in_ports", Dec, before, after) &&
    Sets(root, "out_ports", Dec, before, after) && Sets(root, "buflen", Dec, before, after) && Sets(root, "qlen", Dec, before, after) &&
    OnlyNamed({"index", "id", "in_ports", "out_ports", "buflen", "qlen"}, before, after)
  }

  ghost predicate LunAccepts(root: Setting, files: Files) {
    Accepts(root, "cdrom", Bool, files) && Accepts(root, "ro", Bool, files) && Accepts(root, "nofua", Bool, files) &&
    Accepts(root, "removable", Bool, files) && Accepts(root, "file", Str, files) && Accepts(root, "inquiry_string", Str, files)
  }

  /** The flags of a LUN are never imported. */
  ghost predicate LunSets(root: Setting, before: Files, after: Files) {
    Sets(root, "file", Str, before, after) && Sets(root, "inquiry_string", Str, before, after) &&
    OnlyNamed({"file", "inquiry_string"}, before, after)
  }

  /** The attributes of a table, stated for each of its entries. */
  lemma TableImport(table: seq<AttrDef>, root: Setting, files: Files)
    requires WellFormed(table)
    ensures var r := ImportFrom(table, 0, root, files);
      (r.Ok? <==> forall i :: 0 <= i < |table| ==> table[i].ro || Accepts(root, table[i].name, table[i].kind, files)) &&
      (r.Ok? ==>
        r.value.Keys == files.Keys &&
        (forall i :: 0 <= i < |table| ==> table[i].ro || Sets(root, table[i].name, table[i].kind, files, r.value)) &&
        forall n <- files | (forall d <- table | !d.ro && d.kind != Bool :: d.name != n) :: r.value[n] == files[n])
  {
    hide ImportFrom, Get, Gives, Takes;
    ImportGives(table, root, files);
    assert forall i, j :: 0 <= i < |table| && 0 <= j < |table| && table[i].name == table[j].name ==> i == j;
    assert forall i :: 0 <= i < |table| ==> table[i] in table;
  }

  lemma NetImport(root: Setting, files: Files)
    requires WellFormed(NET_TABLE)
    ensures var r := ImportFrom(NET_TABLE, 0, root, files); (r.Ok? <==> NetAccepts(root, files)) && (r.Ok? ==> NetSets(root, files, r.value))
  {
    hide ImportFrom, WellFormed, Accepts, Sets, OnlyNamed;
    TableImport(NET_TABLE, root, files);
    var r := ImportFrom(NET_TABLE, 0, root, files);
    NetParts(root, files, if r.Ok? then r.value else files);
    if r.Ok? { NetOnly(files, r.value); }
  }

  lemma NetParts(root: Setting, files: Files, after: Files)
    ensures (forall i :: 0 <= i < |NET_TABLE| ==> NET_TABLE[i].ro || Accepts(root, NET_TABLE[i].name, NET_TABLE[i].kind, files)) <==> NetAccepts(root, files)
    ensures (forall i :: 0 <= i < |NET_TABLE| ==> NET_TABLE[i].ro || Sets(root, NET_TABLE[i].name, NET_TABLE[i].kind, files, after)) ==>
      (OnlyNamed({"dev_addr", "host_addr", "qmult", "class_", "subclass", "protocol"}, files, after) ==> NetSets(root, files, after))
  {
    hide Accepts, Sets, OnlyNamed;
    var t := NET_TABLE;
    assert t[0] == Writable("dev_addr", MacAddr) && t[1] == Writable("host_addr", MacAddr) && t[2].ro && t[3] == Writable("qmult", Dec);
    assert t[4] == Writable("class_", Dec) && t[5] == Writable("subclass", Dec) && t[6] == Writable("protocol", Dec);
  }

  lemma HidImport(root: Setting, files: Files)
    requires WellFormed(HID_TABLE)
    ensures var r := ImportFrom(HID_TABLE, 0, root, files); (r.Ok? <==> HidAccepts(root, files)) && (r.Ok? ==> HidSets(root, files, r.value))
  {
    hide ImportFrom, WellFormed, Accepts, Sets, OnlyNamed;
    TableImport(HID_TABLE, root, files);
    var r := ImportFrom(HID_TABLE, 0, root, files);
    HidParts(root, files, if r.Ok? then r.value else files);
    if r.Ok? { HidOnly(files, r.value); }
  }

  lemma HidParts(root: Setting, files: Files, after: Files)
    ensures (forall i :: 0 <= i < |HID_TABLE| ==> HID_TABLE[i].ro || Accepts(root, HID_TABLE[i].name, HID_TABLE[i].kind, files)) <==> HidAccepts(root, files)
    ensures (forall i :: 0 <= i < |HID_TABLE| ==> HID_TABLE[i].ro || Sets(root, HID_TABLE[i].name, HID_TABLE[i].kind, files, after)) ==>
      (OnlyNamed({"protocol", "report_desc", "report_length", "subclass"}, files, after) ==> HidSets(root, files, after))
  {
    hide Accepts, Sets, OnlyNamed;
    var t := HID_TABLE;
    assert t[0].ro && t[1] == Writable("protocol", Dec) && t[2] == Writable("report_desc", Report);
    assert t[3] == Writable("report_length", Dec) && t[4] == Writable("subclass", Dec);
  }

  lemma MidiImport(root: Setting, files: Files)
    requires WellFormed(MIDI_TABLE)
    ensures var r := ImportFrom(MIDI_TABLE, 0, root, files); (r.Ok? <==> MidiAccepts(root, files)) && (r.Ok? ==> MidiSets(root, files, r.value))
  {
    hide ImportFrom, WellFormed, Accepts, Sets, OnlyNamed;
    TableImport(MIDI_TABLE, root, files);
    var r := ImportFrom(MIDI_TABLE, 0, root, files);
    MidiParts(root, files, if r.Ok? then r.value else files);
    if r.Ok? { MidiOnly(files, r.value); }
  }

  lemma MidiParts(root: Setting, files: Files, after: Files)
    ensures (forall i :: 0 <= i < |MIDI_TABLE| ==> MIDI_TABLE[i].ro || Accepts(root, MIDI_TABLE[i].name, MIDI_TABLE[i].kind, files)) <==> MidiAccepts(root, files)
    ensures (forall i :: 0 <= i < |MIDI_TABLE| ==> MIDI_TABLE[i].ro || Sets(root, MIDI_TABLE[i].name, MIDI_TABLE[i].kind, files, after)) ==>
      (OnlyNamed({"index", "id", "in_ports", "out_ports", "buflen", "qlen"}, files, after) ==> MidiSets(root, files, after))
  {
    hide Accepts, Sets, OnlyNamed;
    var t := MIDI_TABLE;
    assert t[0] == Writable("index", Dec) && t[1] == Writable("id", Str) && t[2] == Writable("in_ports", Dec);
    assert t[3] == Writable("out_ports", Dec) && t[4] == Writable("buflen", Dec) && t[5] == Writable("qlen", Dec);
  }

  lemma LoopbackImport(root: Setting, files: Files)
    requires WellFormed(LOOPBACK_TABLE)
    ensures var r := ImportFrom(LOOPBACK_TABLE, 0, root, files);
      (r.Ok? <==> Accepts(root, "buflen", Count, files) && Accepts(root, "qlen", Count, files)) &&
      (r.Ok? ==>
        Sets(root, "buflen", Count, files, r.value) && Sets(root, "qlen", Count, files, r.value) && OnlyNamed({"buflen", "qlen"}, files, r.value))
  {
    hide ImportFrom, WellFormed, Accepts, Sets;
    TableImport(LOOPBACK_TABLE, root, files);
    var t := LOOPBACK_TABLE;
    assert t[0] == Writable("buflen", Count) && t[1] == Writable("qlen", Count);
  }

  lemma LunImport(root: Setting, files: Files)
    requires WellFormed(LUN_TABLE)
    ensures var r := ImportFrom(LUN_TABLE, 0, root, files); (r.Ok? <==> LunAccepts(root, files)) && (r.Ok? ==> LunSets(root, files, r.value))
  {
    hide ImportFrom, WellFormed, Accepts, Sets, OnlyNamed;
    TableImport(LUN_TABLE, root, files);
    var r := ImportFrom(LUN_TABLE, 0, root, files);
    LunParts(root, files, if r.Ok? then r.value else files);
    if r.Ok? { LunOnly(files, r.value); }
  }

  lemma LunParts(root: Setting, files: Files, after: Files)
    ensures (forall i :: 0 <= i < |LUN_TABLE| ==> LUN_TABLE[i].ro || Accepts(root, LUN_TABLE[i].name, LUN_TABLE[i].kind, files)) <==> LunAccepts(root, files)
    ensures (forall i :: 0 <= i < |LUN_TABLE| ==> LUN_TABLE[i].ro || Sets(root, LUN_TABLE[i].name, LUN_TABLE[i].kind, files, after)) ==>
      (OnlyNamed({"file", "inquiry_string"}, files, after) ==> LunSets(root, files, after))
  {
    hide Accepts, Sets, OnlyNamed;
    var t := LUN_TABLE;
    assert t[0] == Writable("cdrom", Bool) && t[1] == Writable("ro", Bool) && t[2] == Writable("nofua", Bool);
    assert t[3] == Writable("removable", Bool) && t[4] == Writable("file", Str) && t[5] == Writable("inquiry_string", Str);
  }

  lemma LunOnly(files: Files, after: Files)
    requires after.Keys == files.Keys
    requires forall n <- files | (forall d <- LUN_TABLE | !d.ro && d.kind != Bool :: d.name != n) :: after[n] == files[n]
    ensures OnlyNamed({"file", "inquiry_string"}, files, after)
  {}

  /** Element `i` of the list of LUNs is taken for LUN `i`. */
  ghost predicate LunsAccept(elems: seq<Setting>, luns: map<LunId, Files>, d: Defaults) {
    |elems| <= 16 && forall i: LunId | i < |elems| :: elems[i].SGroup? && LunAccepts(elems[i], Base(luns, d, i))
  }

  /** LUNs are made for the elements behind the last LUN; the others are set; those behind the list stay. */
  ghost predicate LunsSet(elems: seq<Setting>, before: map<LunId, Files>, after: map<LunId, Files>, d: Defaults) {
    forall i: LunId ::
      if i < |elems| then i in after && LunSets(elems[i], Base(before, d, i), after[i])
      else (i in after <==> i in before) && (i in before ==> after[i] == before[i])
  }

  lemma {:induction false} LunsImport(elems: seq<Setting>, luns: map<LunId, Files>, d: Defaults)
    ensures var r := ImportLuns(elems, 0, luns, d);
      (r.Ok? <==> LunsAccept(elems, luns, d)) && (r.Ok? ==> LunsSet(elems, luns, r.value, d))
  {
    hide ImportFrom, WellFormed, LunAccepts, LunSets, ImportLuns;
    LunTableWellFormed();
    if |elems| <= 16 {
      ImportedLuns(elems, 0, luns, luns, d);
      forall i: LunId | i < |elems|
        ensures ElemImport(elems, i, luns, d).Ok? <==> elems[i].SGroup? && LunAccepts(elems[i], Base(luns, d, i))
        ensures ElemImport(elems, i, luns, d).Ok? ==> LunSets(elems[i], Base(luns, d, i), ElemImport(elems, i, luns, d).value)
      {
        LunImport(elems[i], Base(luns, d, i));
      }
    } else {
      TooManyLuns(elems, 0, luns, d);
    }
  }

  lemma {:induction false} TooManyLuns(elems: seq<Setting>, i: nat, luns: map<LunId, Files>, d: Defaults)
    requires i <= 16 < |elems|
    ensures ImportLuns(elems, i, luns, d).Err?
    decreases 16 - i
  {
    hide ImportFrom;
    if i < 16 {
      var r := ImportLun(elems[i], i, luns, d);
      if r.Ok? { TooManyLuns(elems, i + 1, r.value, d); }
    }
  }

  /** `stall` is looked at but not imported; the list of LUNs is required. */
  lemma MsImport(root: Setting, luns: map<LunId, Files>, d: Defaults)
    ensures var r := ImportMs(root, luns, d); var stall, list := Get(root, "stall"), Get(root, "luns");
      (r.Ok? <==> (stall.Some? ==> stall.value.SInt? || stall.value.SBool?) && list.Some? && list.value.SList? && LunsAccept(list.value.elems, luns, d)) &&
      (r.Ok? ==> LunsSet(list.value.elems, luns, r.value, d))
  {
    hide ImportLuns, Get, LunsAccept, LunsSet;
    var list := Get(root, "luns");
    if list.Some? && list.value.SList? { LunsImport(list.value.elems, luns, d); }
  }

  /** The attributes of a function other than mass storage, by its type. */
  ghost predicate FilesAccept(t: FunctionType, root: Setting, files: Files) {
    if IsNet(t) then NetAccepts(root, files)
    else if t == Hid then HidAccepts(root, files)
    else if t == Midi then MidiAccepts(root, files)
    else if t == Loopback then Accepts(root, "buflen", Count, files) && Accepts(root, "qlen", Count, files)
    else t !in [Printer, Uac2, Uvc]
  }

  ghost predicate FilesSet(t: FunctionType, root: Setting, before: Files, after: Files) {
    if IsNet(t) then NetSets(root, before, after)
    else if t == Hid then HidSets(root, before, after)
    else if t == Midi then MidiSets(root, before, after)
    else if t == Loopback then
      Sets(root, "buflen", Count, before, after) && Sets(root, "qlen", Count, before, after) && OnlyNamed({"buflen", "qlen"}, before, after)
    else after == before
  }

  lemma FilesImport(t: FunctionType, root: Setting, files: Files)
    requires t != MassStorage && AttrTable(t).Some? && WellFormed(AttrTable(t).value)
    ensures var r := ImportFrom(AttrTable(t).value, 0, root, files);
      (r.Ok? <==> FilesAccept(t, root, files)) && (r.Ok? ==> FilesSet(t, root, files, r.value))
  {
    hide NetAccepts, NetSets, HidAccepts, HidSets, MidiAccepts, MidiSets, Accepts, Sets, OnlyNamed, WellFormed, ImportFrom;
    if IsNet(t) { NetImport(root, files); }
    else if t == Hid { HidImport(root, files); }
    else if t == Midi { MidiImport(root, files); }
    else if t == Loopback { LoopbackImport(root, files); }
    else { NoAttributes(root, files); }
  }

  ghost predicate AttrsAccept(t: FunctionType, root: Setting, k: KFunction, d: Defaults) {
    if t == MassStorage then
      var stall, list := Get(root, "stall"), Get(root, "luns");
      (stall.Some? ==> stall.value.SInt? || stall.value.SBool?) && list.Some? && list.value.SList? && LunsAccept(list.value.elems, k.luns, d)
    else FilesAccept(t, root, k.files)
  }

  ghost predicate AttrsSets(t: FunctionType, root: Setting, k: KFunction, l: KFunction, d: Defaults) {
    if t == MassStorage then
      l == k.(luns := l.luns) && Get(root, "luns").Some? && Get(root, "luns").value.SList? && LunsSet(Get(root, "luns").value.elems, k.luns, l.luns, d)
    else l == k.(files := l.files) && FilesSet(t, root, k.files, l.files)
  }

  /** Attributes of a function are imported exactly when each member that is there is accepted; then each has been set. */
  lemma AttrsImport(t: FunctionType, root: Setting, k: KFunction, d: Defaults)
    ensures var r := ImportAttrsOf(t, root, k, d); (r.Ok? <==> AttrsAccept(t, root, k, d)) && (r.Ok? ==> AttrsSets(t, root, k, r.value, d))
  {
    hide ImportMs, FilesSet, LunsAccept, LunsSet, Get, WellFormed, ImportFrom, NetAccepts, HidAccepts, MidiAccepts, Accepts;
    TablesWellFormed(t);
    if t == MassStorage { MsImport(root, k.luns, d); }
    else if AttrTable(t).Some? { FilesImport(t, root, k.files); }
  }

  lemma NoAttributes(root: Setting, files: Files)
    requires WellFormed([])
    ensures ImportFrom([], 0, root, files) == Ok(files)
  {}

  // ----- OS descriptors of interfaces

  predicate IsString(node: Option<Setting>) { node.Some? && node.value.SStr? }

  /** The interface with OS descriptors is named like the type. */
  predicate OfType(t: FunctionType, n: string) { (t == Ncm && n == "ncm") || (t == Rndis && n == "rndis") }

  /** The group names an interface of the type, which is there with its files, and both strings. */
  predicate IfaceAccepts(t: FunctionType, elem: Setting, ifaces: IfaceMap) {
    elem.SGroup? && IsString(Get(elem, "interface")) &&
    var n := Get(elem, "interface").value.s;
    OfType(t, n) && IfaceTellable(n, ifaces) &&
    IsString(Get(elem, "compatible_id")) && IsString(Get(elem, "sub_compatible_id"))
  }

  function IfaceFiles(elem: Setting, before: Files): Files
    requires IsString(Get(elem, "compatible_id")) && IsString(Get(elem, "sub_compatible_id"))
  {
    before["compatible_id" := Get(elem, "compatible_id").value.s]["sub_compatible_id" := Get(elem, "sub_compatible_id").value.s]
  }

  lemma IfaceImport(t: FunctionType, elem: Setting, ifaces: IfaceMap)
    ensures var r := ImportIface(t, elem, ifaces);
      (r.Ok? <==> IfaceAccepts(t, elem, ifaces)) &&
      (r.Ok? ==> var n := Get(elem, "interface").value.s; r.value == ifaces[n := IfaceFiles(elem, ifaces[n])])
  {
    hide Get, ImportVals, IfaceNames, Written, IfaceWrites, IfaceFiles, OfType;
    var node := Get(elem, "interface");
    assert IsString(node) ==> (node.value.s in IfaceNames(t) <==> OfType(t, node.value.s)) by { NamedLikeType(t); }
    if elem.SGroup? && IsString(Get(elem, "interface")) && Get(elem, "interface").value.s in ifaces {
      IfaceStrings(elem, ifaces[Get(elem, "interface").value.s]);
    } else {
      TwoValues(elem);
    }
  }

  /** What is written for an interface. */
  lemma IfaceStrings(elem: Setting, files: Files)
    ensures var vals, a, b := ImportVals(IFACE_STRINGS, elem), Get(elem, "compatible_id"), Get(elem, "sub_compatible_id");
      (vals.Ok? && vals.value[0].Some? && Written(files, IfaceWrites(vals.value)).Ok? <==>
        IsString(a) && IsString(b) && "compatible_id" in files && "sub_compatible_id" in files) &&
      (vals.Ok? && vals.value[0].Some? && Written(files, IfaceWrites(vals.value)).Ok? ==>
        Written(files, IfaceWrites(vals.value)) == Ok(IfaceFiles(elem, files)))
  {
    hide Get, ImportVals, Written, IfaceWrites;
    TwoValues(elem);
    var vals := ImportVals(IFACE_STRINGS, elem);
    if vals.Ok? && vals.value[0].Some? { TwoWritten(files, vals.value); }
  }

  lemma NamedLikeType(t: FunctionType)
    ensures forall n :: n in IfaceNames(t) <==> OfType(t, n)
  {}

  lemma TwoValues(elem: Setting)
    ensures var r, a, b := ImportVals(IFACE_STRINGS, elem), Get(elem, "compatible_id"), Get(elem, "sub_compatible_id");
      (r.Ok? <==> (a == None || IsString(a)) && (b == None || IsString(b))) &&
      (r.Ok? ==> r.value == [if a.Some? then Some(a.value.s) else None, if b.Some? then Some(b.value.s) else None])
  {
    hide Get;
    var rest := ["sub_compatible_id"];
    assert IFACE_STRINGS[1..] == rest && rest[1..] == [];
    assert ImportVals([], elem) == Ok([]);
    var b := Get(elem, "sub_compatible_id");
    var last: Option<string> := if IsString(b) then Some(b.value.s) else None;
    assert [last] + [] == [last];
    assert ImportVals(rest, elem) == if b == None || IsString(b) then Ok([last]) else Err(INVALID_TYPE);
  }

  /** The element is the last that names the interface, whose files are as it says. */
  predicate SetBy(elems: seq<Setting>, i: nat, n: string, before: Files, after: Files) {
    i < |elems| && Get(elems[i], "interface") == Some(SStr(n)) && IsString(Get(elems[i], "compatible_id")) &&
    IsString(Get(elems[i], "sub_compatible_id")) && after == IfaceFiles(elems[i], before) &&
    forall j :: i < j < |elems| ==> Get(elems[j], "interface") != Some(SStr(n))
  }

  /** Each interface has the strings of the last element that names it. */
  ghost predicate IfacesSet(elems: seq<Setting>, before: IfaceMap, after: IfaceMap) {
    after.Keys == before.Keys &&
    forall n <- before ::
      if forall e <- elems :: Get(e, "interface") != Some(SStr(n)) then after[n] == before[n]
      else exists i: nat :: SetBy(elems, i, n, before[n], after[n])
  }

  lemma {:induction false} IfacesImport(t: FunctionType, elems: seq<Setting>, ifaces: IfaceMap)
    ensures var r := ImportIfaces(t, elems, ifaces);
      (r.Ok? <==> forall e <- elems :: IfaceAccepts(t, e, ifaces)) && (r.Ok? ==> IfacesSet(elems, ifaces, r.value))
  {
    hide Get, ImportIface, IfaceAccepts, IfacesSet, IfaceFiles;
    if elems == [] {
      NoIfacesSet(ifaces);
    } else {
      IfaceImport(t, elems[0], ifaces);
      assert elems == [elems[0]] + elems[1..];
      var next := ImportIface(t, elems[0], ifaces);
      if next.Ok? {
        IfacesStep(t, elems, ifaces, next.value);
        IfacesImport(t, elems[1..], next.value);
        var r := ImportIfaces(t, elems[1..], next.value);
        if r.Ok? { IfacesSetStep(elems, ifaces, next.value, r.value); }
      }
    }
  }

  lemma NoIfacesSet(ifaces: IfaceMap)
    ensures IfacesSet([], ifaces, ifaces)
  {}

  lemma IfacesStep(t: FunctionType, elems: seq<Setting>, ifaces: IfaceMap, next: IfaceMap)
    requires elems != [] && IfaceAccepts(t, elems[0], ifaces)
    requires var n := Get(elems[0], "interface").value.s; next == ifaces[n := IfaceFiles(elems[0], ifaces[n])]
    ensures IsString(Get(elems[0], "interface")) && IsString(Get(elems[0], "compatible_id")) && IsString(Get(elems[0], "sub_compatible_id"))
    ensures Get(elems[0], "interface").value.s in ifaces
    ensures forall e :: IfaceAccepts(t, e, next) <==> IfaceAccepts(t, e, ifaces)
  {
    hide Get;
  }

  lemma IfacesSetStep(elems: seq<Setting>, before: IfaceMap, next: IfaceMap, after: IfaceMap)
    requires elems != [] && IsString(Get(elems[0], "interface")) && IsString(Get(elems[0], "compatible_id")) && IsString(Get(elems[0], "sub_compatible_id"))
    requires var n := Get(elems[0], "interface").value.s; n in before && next == before[n := IfaceFiles(elems[0], before[n])]
    requires IfacesSet(elems[1..], next, after)
    ensures IfacesSet(elems, before, after)
  {
    hide Get, SetBy, IfaceFiles;
    assert elems == [elems[0]] + elems[1..];
    forall n | n in before && !(forall e <- elems :: Get(e, "interface") != Some(SStr(n)))
      ensures exists i: nat :: SetBy(elems, i, n, before[n], after[n])
    {
      if forall e <- elems[1..] :: Get(e, "interface") != Some(SStr(n)) {
        FirstSets(elems, n, before[n], after[n]);
        assert SetBy(elems, 0, n, before[n], after[n]);
      } else {
        var i: nat :| SetBy(elems[1..], i, n, next[n], after[n]);
        LaterSets(elems, i, n, before[n], next[n], after[n]);
        assert SetBy(elems, i + 1, n, before[n], after[n]);
      }
    }
  }

  lemma FirstSets(elems: seq<Setting>, n: string, before: Files, after: Files)
    requires elems != [] && Get(elems[0], "interface") == Some(SStr(n)) && IsString(Get(elems[0], "compatible_id"))
    requires IsString(Get(elems[0], "sub_compatible_id")) && after == IfaceFiles(elems[0], before)
    requires forall e <- elems[1..] :: Get(e, "interface") != Some(SStr(n))
    ensures SetBy(elems, 0, n, before, after)
  {
    hide Get;
    forall j | 0 < j < |elems| ensures Get(elems[j], "interface") != Some(SStr(n)) { assert elems[j] == elems[1..][j - 1]; }
  }

  lemma LaterSets(elems: seq<Setting>, i: nat, n: string, before: Files, next: Files, after: Files)
    requires elems != [] && SetBy(elems[1..], i, n, next, after)
    requires next == before || (IsString(Get(elems[0], "compatible_id")) && IsString(Get(elems[0], "sub_compatible_id")) && next == IfaceFiles(elems[0], before))
    ensures SetBy(elems, i + 1, n, before, after)
  {
    hide Get;
    assert elems[1..][i] == elems[i + 1];
    forall j | i + 1 < j < |elems| ensures Get(elems[j], "interface") != Some(SStr(n)) { assert elems[j] == elems[1..][j - 1]; }
  }

  // ----- a function

  /** Both sections of a function's group are optional. */
  ghost predicate SectionsAccept(t: FunctionType, root: Setting, k: KFunction, d: Defaults) {
    (Get(root, "attrs").Some? ==> AttrsAccept(t, Get(root, "attrs").value, k, d)) &&
    (Get(root, "os_descs").Some? ==> forall e <- Children(Get(root, "os_descs").value) :: IfaceAccepts(t, e, k.ifaces))
  }

  /** Each section that is there has been set, nothing else. */
  ghost predicate SectionsSet(t: FunctionType, root: Setting, k: KFunction, l: KFunction, d: Defaults) {
    (if Get(root, "attrs").Some? then AttrsSets(t, Get(root, "attrs").value, k, l.(ifaces := k.ifaces), d) else l.(ifaces := k.ifaces) == k) &&
    if Get(root, "os_descs").Some? then IfacesSet(Children(Get(root, "os_descs").value), k.ifaces, l.ifaces) else l.ifaces == k.ifaces
  }

  function WithAttrs(t: FunctionType, root: Setting, k: KFunction, d: Defaults): Result<KFunction> {
    match Get(root, "attrs") case None => Ok(k) case Some(node) => ImportAttrsOf(t, node, k, d)
  }

  lemma AttrsFilled(t: FunctionType, root: Setting, k: KFunction, d: Defaults)
    ensures var r, attrs := WithAttrs(t, root, k, d), Get(root, "attrs");
      (r.Ok? <==> attrs.Some? ==> AttrsAccept(t, attrs.value, k, d)) &&
      (r.Ok? ==> r.value.ifaces == k.ifaces && if attrs.Some? then AttrsSets(t, attrs.value, k, r.value, d) else r.value == k)
  {
    hide Get, ImportAttrsOf, AttrsAccept, AttrsSets;
    var attrs := Get(root, "attrs");
    if attrs.Some? {
      AttrsImport(t, attrs.value, k, d);
      var r := ImportAttrsOf(t, attrs.value, k, d);
      if r.Ok? { AttrsLeaveIfaces(t, attrs.value, k, r.value, d); }
    }
  }

  lemma FunctionFilled(t: FunctionType, root: Setting, k: KFunction, d: Defaults)
    ensures var r := FillFunction(t, root, k, d);
      (r.Ok? <==> SectionsAccept(t, root, k, d)) && (r.Ok? ==> SectionsSet(t, root, k, r.value, d))
  {
    hide Get, ImportAttrsOf, ImportIfaces, IfaceAccepts, IfacesSet, AttrsAccept, AttrsSets, Children;
    AttrsFilled(t, root, k, d);
    var descs := Get(root, "os_descs");
    if descs.Some? { IfacesImport(t, Children(descs.value), k.ifaces); }
  }

  lemma AttrsLeaveIfaces(t: FunctionType, root: Setting, k: KFunction, l: KFunction, d: Defaults)
    requires AttrsSets(t, root, k, l, d)
    ensures l.ifaces == k.ifaces
  {
    hide FilesSet, LunsSet, Get;
  }

  /** A labelled group is imported exactly when it names a type and an instance of which a function can be made, and its sections
      are accepted. Its name becomes the function's label. */
  lemma LabelledImport(dr: Draft, m: Member, d: Defaults)
    ensures var r := ImportLabelled(dr, m, d);
      (r.Ok? <==> exists t, i :: NewFunction(dr.k, m.value, t, i, d)) &&
      (r.Ok? ==> exists t, i :: NewFunction(dr.k, m.value, t, i, d) && FunctionAdded(dr, m, t, i, r.value, d))
  {
    hide Get, FillFunction, SectionsAccept, SectionsSet, ValidName, TypeName;
    if t, i :| NewFunction(dr.k, m.value, t, i, d) { LabelledIff(dr, m, t, i, d); }
    if ImportLabelled(dr, m, d).Ok? { LabelledIff(dr, m, TypeMember(m.value).value, Get(m.value, "instance").value.s, d); }
  }

  ghost predicate NewFunction(k: KGadget, root: Setting, t: FunctionType, i: string, d: Defaults) {
    root.SGroup? && Get(root, "type") == Some(SStr(TypeName(t))) && Get(root, "instance") == Some(SStr(i)) && CanMake(k, t, i, d) &&
    SectionsAccept(t, root, d.functions[TypeName(t)], d)
  }

  ghost predicate FunctionAdded(dr: Draft, m: Member, t: FunctionType, i: string, after: Draft, d: Defaults)
    requires TypeName(t) in d.functions
  {
    var n := TypeName(t) + "." + i;
    n in after.k.functions && SectionsSet(t, m.value, d.functions[TypeName(t)], after.k.functions[n], d) &&
    after.k == dr.k.(functions := dr.k.functions[n := after.k.functions[n]]) && after.labels == dr.labels[n := m.name]
  }

  lemma LabelledIff(dr: Draft, m: Member, t: FunctionType, i: string, d: Defaults)
    requires m.value.SGroup? && Get(m.value, "type") == Some(SStr(TypeName(t))) && Get(m.value, "instance") == Some(SStr(i))
    ensures var r := ImportLabelled(dr, m, d);
      (r.Ok? <==> NewFunction(dr.k, m.value, t, i, d)) && (r.Ok? ==> FunctionAdded(dr, m, t, i, r.value, d))
  {
    hide Get, FillFunction, SectionsAccept, SectionsSet, ValidName, TypeName;
    TypeOfName(t);
    if TypeName(t) in d.functions { FunctionFilled(t, m.value, d.functions[TypeName(t)], d); }
  }

  // ----- attributes of gadgets and configurations

  /** A number below `limit`, for the file of the member's name. */
  predicate HexAccepts(root: Setting, n: string, limit: int, files: Files) {
    Get(root, n).Some? ==> Get(root, n).value.SInt? && 0 <= Get(root, n).value.i < limit && n in files
  }

  /** The file holds the member's number in hex, or what it held before. */
  predicate HexSet(root: Setting, n: string, width: nat, before: Files, after: Files) {
    (n in after <==> n in before) &&
    (n in after ==> after[n] == if Get(root, n).Some? && Get(root, n).value.SInt? then PrintHex(Get(root, n).value.i, width) + "\n" else before[n])
  }

  predicate GadgetAttrsAccept(root: Setting, files: Files) {
    HexAccepts(root, "bcdUSB", 0x1_0000, files) && HexAccepts(root, "bDeviceClass", 0x100, files) &&
    HexAccepts(root, "bDeviceSubClass", 0x100, files) && HexAccepts(root, "bDeviceProtocol", 0x100, files) &&
    HexAccepts(root, "bMaxPacketSize0", 0x100, files) && HexAccepts(root, "idVendor", 0x1_0000, files) &&
    HexAccepts(root, "idProduct", 0x1_0000, files) && HexAccepts(root, "bcdDevice", 0x1_0000, files)
  }

  ghost predicate GadgetAttrsSet(root: Setting, before: Files, after: Files) {
    HexSet(root, "bcdUSB", 4, before, after) && HexSet(root, "bDeviceClass", 2, before, after) &&
    HexSet(root, "bDeviceSubClass", 2, before, after) && HexSet(root, "bDeviceProtocol", 2, before, after) &&
    HexSet(root, "bMaxPacketSize0", 2, before, after) && HexSet(root, "idVendor", 4, before, after) &&
    HexSet(root, "idProduct", 4, before, after) && HexSet(root, "bcdDevice", 4, before, after) &&
    after.Keys == before.Keys && forall n <- before | n !in GADGET_FILES :: after[n] == before[n]
  }

  lemma HexField(f: Field, root: Setting, before: Files, after: Files)
    requires f.hex && f.checked && f.tag == f.file
    ensures FieldAccepts(f, root, before) <==> HexAccepts(root, f.file, f.limit, before)
    ensures FieldSet(f, root, before, after) <==> HexSet(root, f.file, f.width, before, after)
  {
    hide Get, PrintHex;
  }

  lemma GadgetAttrsAccepted(root: Setting, files: Files)
    ensures GadgetAttrsAccept(root, files) <==> forall i :: 0 <= i < |GADGET_ATTRS| ==> FieldAccepts(GADGET_ATTRS[i], root, files)
  {
    hide HexAccepts, FieldAccepts, HexSet, FieldSet;
    var t := GADGET_ATTRS;
    HexField(t[0], root, files, files);
    HexField(t[1], root, files, files);
    HexField(t[2], root, files, files);
    HexField(t[3], root, files, files);
    HexField(t[4], root, files, files);
    HexField(t[5], root, files, files);
    HexField(t[6], root, files, files);
    HexField(t[7], root, files, files);
  }

  lemma GadgetAttrsSets(root: Setting, files: Files, after: Files)
    requires forall i :: 0 <= i < |GADGET_ATTRS| ==> FieldSet(GADGET_ATTRS[i], root, files, after)
    requires after.Keys == files.Keys && forall n <- files | (forall f <- GADGET_ATTRS :: f.file != n) :: after[n] == files[n]
    ensures GadgetAttrsSet(root, files, after)
  {
    hide HexSet, FieldSet, HexAccepts, FieldAccepts;
    var t := GADGET_ATTRS;
    HexField(t[0], root, files, after);
    HexField(t[1], root, files, after);
    HexField(t[2], root, files, after);
    HexField(t[3], root, files, after);
    HexField(t[4], root, files, after);
    HexField(t[5], root, files, after);
    HexField(t[6], root, files, after);
    HexField(t[7], root, files, after);
    OtherFiles();
  }

  /** A value out of range is refused, like one that is no number. */
  lemma GadgetAttrsImport(root: Setting, files: Files)
    ensures var r := ImportFields(GADGET_ATTRS, root, files);
      (r.Ok? <==> GadgetAttrsAccept(root, files)) && (r.Ok? ==> GadgetAttrsSet(root, files, r.value))
  {
    hide ImportFields, GadgetAttrsAccept, GadgetAttrsSet, FieldAccepts, FieldSet, FieldsOk;
    GadgetAttrsOk();
    GadgetAttrsAccepted(root, files);
    FieldsImport(GADGET_ATTRS, root, files);
    var r := ImportFields(GADGET_ATTRS, root, files);
    if r.Ok? { GadgetAttrsSets(root, files, r.value); }
  }

  lemma OtherFiles()
    ensures forall n, f | n !in GADGET_FILES && f in GADGET_ATTRS :: f.file != n
  {
    forall n, f | n !in GADGET_FILES && f in GADGET_ATTRS ensures f.file != n {
      var i :| 0 <= i < |GADGET_ATTRS| && GADGET_ATTRS[i] == f;
      assert GADGET_FILES[i] == f.file;
    }
  }

  /** Of a configuration's attributes the range is not checked. */
  lemma ConfigAttrsImport(root: Setting, files: Files)
    ensures var r, bm, power := ImportFields(CONFIG_TAGS, root, files), Get(root, "bmAttributes"), Get(root, "bMaxPower");
      (r.Ok? <==>
        (bm.Some? ==> bm.value.SInt? && "bmAttributes" in files) && (power.Some? ==> power.value.SInt? && "MaxPower" in files)) &&
      (r.Ok? ==>
        HexSet(root, "bmAttributes", 2, files, r.value) && r.value.Keys == files.Keys &&
        ("MaxPower" in files ==> r.value["MaxPower"] == if power.Some? then PrintDec(power.value.i) + "\n" else files["MaxPower"]) &&
        forall n <- files | n != "bmAttributes" && n != "MaxPower" :: r.value[n] == files[n])
  {
    hide ImportFields, Get, PrintHex, PrintDec;
    ConfigAttrsOk();
    FieldsImport(CONFIG_TAGS, root, files);
    var t := CONFIG_TAGS;
    assert t[0] in t && t[1] in t;
  }

  // ----- strings

  /** A string for the file of the member's name. */
  predicate StringAccepts(root: Setting, n: string, files: Files) {
    Get(root, n).Some? ==> Get(root, n).value.SStr? && n in files
  }

  function Given(root: Setting, n: string): Option<string> {
    match Get(root, n) case Some(SStr(s)) => Some(s) case _ => None
  }

  /** The language a group of strings is for. */
  function LangOf(elem: Setting): Option<Int> {
    match Get(elem, "lang") case Some(SInt(i)) => Some(i) case _ => None
  }

  /** A group of strings of a gadget is imported exactly when it names a language by number and each string that is there has a
      file. The strings are then in the directory of that language; other languages are as before. */
  lemma GadgetLangImport(elem: Setting, langs: LangMap, fresh0: Files)
    ensures var r, lang := ImportLang(OfGadget, elem, langs, fresh0), LangOf(elem);
      (r.Ok? <==>
        elem.SGroup? && lang.Some? && var files := LangFiles(langs, lang.value, fresh0);
        StringAccepts(elem, "manufacturer", files) && StringAccepts(elem, "product", files) && StringAccepts(elem, "serialnumber", files)) &&
      (r.Ok? ==>
        r.value == langs[LangName(lang.value) :=
          Put(Put(Put(LangFiles(langs, lang.value, fresh0), "manufacturer", Given(elem, "manufacturer")), "product", Given(elem, "product")),
              "serialnumber", Given(elem, "serialnumber"))])
  {
    hide Get, LangName, SetStrings, ImportVals, Put, StrsList;
    if LangOf(elem).Some? {
      ThreeValues(elem);
      GadgetStringsByField(langs, LangOf(elem).value, StrsGiven(elem), fresh0);
    }
  }

  function StrsGiven(elem: Setting): GadgetStrs {
    GadgetStrs(Given(elem, "manufacturer"), Given(elem, "product"), Given(elem, "serialnumber"))
  }

  predicate StringOrNone(node: Option<Setting>) { node.Some? ==> node.value.SStr? }

  lemma ThreeValues(elem: Setting)
    ensures ImportVals(GADGET_STRINGS, elem) ==
      if StringOrNone(Get(elem, "manufacturer")) && StringOrNone(Get(elem, "product")) && StringOrNone(Get(elem, "serialnumber")) then
        Ok(StrsList(StrsGiven(elem)))
      else Err(INVALID_TYPE)
  {
    hide Get, ImportVals, Given;
    var two, one := ["product", "serialnumber"], ["serialnumber"];
    assert GADGET_STRINGS[1..] == two && two[1..] == one && one[1..] == [];
    ValuesFrom("manufacturer", GADGET_STRINGS, elem);
    ValuesFrom("product", two, elem);
    ValuesFrom("serialnumber", one, elem);
    NoValues(elem);
    var a, b, c := Given(elem, "manufacturer"), Given(elem, "product"), Given(elem, "serialnumber");
    assert [c] + [] == [c] && [b] + [c] == [b, c] && [a] + [b, c] == [a, b, c];
  }

  lemma NoValues(elem: Setting)
    ensures ImportVals([], elem) == Ok([])
  {}

  lemma ValuesFrom(n: string, names: seq<string>, elem: Setting)
    requires names != [] && names[0] == n
    ensures ImportVals(names, elem) ==
      if !StringOrNone(Get(elem, n)) then Err(INVALID_TYPE) else Prefixed([Given(elem, n)], ImportVals(names[1..], elem))
  {
    hide Get;
  }

  /** A configuration's string may not be missing. */
  lemma ConfigLangImport(elem: Setting, langs: LangMap, fresh0: Files)
    ensures var r, lang, text := ImportLang(OfConfig, elem, langs, fresh0), LangOf(elem), Get(elem, "configuration");
      (r.Ok? <==> elem.SGroup? && lang.Some? && IsString(text) && "configuration" in LangFiles(langs, lang.value, fresh0)) &&
      (r.Ok? ==>
        r.value == langs[LangName(lang.value) := LangFiles(langs, lang.value, fresh0)["configuration" := text.value.s]])
  {
    hide Get, LangName, SetStrings, ImportVals;
    if LangOf(elem).Some? {
      assert CONFIG_STRINGS[1..] == [];
      ValuesFrom("configuration", CONFIG_STRINGS, elem);
      NoValues(elem);
      var v := Given(elem, "configuration");
      assert [v] + [] == [v];
      ConfigStringByField(langs, LangOf(elem).value, v, fresh0);
    }
  }

  // ----- OS descriptors of a gadget

  /** A number for one byte; 0 when there is none. */
  predicate ByteOrNone(root: Setting, n: string) {
    Get(root, n).Some? ==> Get(root, n).value.SInt? && 0 <= Get(root, n).value.i < 256
  }

  function ByteGiven(root: Setting, n: string): Int
    requires ByteOrNone(root, n)
  {
    if Get(root, n).Some? then Get(root, n).value.i else 0
  }

  /** Descriptors are imported exactly when the values are in range, there is a signature, the three files are there, and the
      configuration they are for, if a number says so, exists. */
  lemma OsDescsImport(k: KGadget, root: Setting)
    ensures var r, id := ImportOsDescs(k, root), Get(root, "config_id"); var files := k.osDesc;
      (r.Ok? <==>
        ByteOrNone(root, "use") && ByteOrNone(root, "b_vendor_code") && IsString(Get(root, "qw_sign")) &&
        "qw_sign" in files && "b_vendor_code" in files && "use" in files &&
        (id.Some? && id.value.SInt? ==> 1 <= id.value.i <= 255 && exists l :: ConfigName(l, id.value.i) in k.configs)) &&
      (r.Ok? ==>
        r.value == k.(osDesc := r.value.osDesc, osLinks := r.value.osLinks) &&
        r.value.osDesc == files["qw_sign" := Get(root, "qw_sign").value.s]["b_vendor_code" := PrintHex(ByteGiven(root, "b_vendor_code"), 2) + "\n"]
          ["use" := if ByteGiven(root, "use") != 0 then "1\n" else "0\n"] &&
        if id.Some? && id.value.SInt? then
          exists l :: ConfigName(l, id.value.i) in k.configs && r.value.osLinks == map[ConfigName(l, id.value.i) := ConfigName(l, id.value.i)]
        else r.value.osLinks == k.osLinks)
  {
    hide Get, Written, OsDescWrites, PrintHex, ConfigName;
    OsDescsParsed(root);
    if ParseOsDescs(root).Ok? { OsDescsByField(ParseOsDescs(root).value, k.osDesc); }
  }

  lemma OsDescsParsed(root: Setting)
    ensures var r, sign := ParseOsDescs(root), Get(root, "qw_sign");
      (r.Ok? <==> ByteOrNone(root, "use") && ByteOrNone(root, "b_vendor_code") && StringOrNone(sign)) &&
      (r.Ok? ==>
        r.value == GadgetOsDescs(ByteGiven(root, "use") != 0, ByteGiven(root, "b_vendor_code"), if sign.Some? then Some(sign.value.s) else None))
  {
    hide Get;
  }

  // ----- configurations and gadgets

  /** The section, if it is there, is a group; the section is a list. */
  predicate GroupOrNone(node: Option<Setting>) { node.Some? ==> node.value.SGroup? }
  predicate ListOrNone(node: Option<Setting>) { node.Some? ==> node.value.SList? }

  /** Both sections of a configuration are optional. */
  lemma ConfigFilled(root: Setting, k: KConfig, d: Defaults)
    ensures var r, attrs, strs := FillConfig(root, k, d), Get(root, "attrs"), Get(root, "strings");
      (r.Ok? <==>
        GroupOrNone(attrs) && (attrs.Some? ==> ImportFields(CONFIG_TAGS, attrs.value, k.files).Ok?) &&
        ListOrNone(strs) && (strs.Some? ==> ImportStrings(OfConfig, strs.value.elems, k.langs, d.configLang).Ok?)) &&
      (r.Ok? ==>
        r.value == k.(files := r.value.files, langs := r.value.langs) &&
        (if attrs.Some? then ImportFields(CONFIG_TAGS, attrs.value, k.files) == Ok(r.value.files) else r.value.files == k.files) &&
        if strs.Some? then ImportStrings(OfConfig, strs.value.elems, k.langs, d.configLang) == Ok(r.value.langs) else r.value.langs == k.langs)
  {
    hide Get, ImportFields, ImportStrings;
  }

  /** A configuration with this label and id can be made: the id is in range and no other configuration has it. */
  ghost predicate CanMakeConfig(k: KGadget, lbl: string, id: int) {
    1 <= id <= 255 && (forall l: string :: l + "." + PrintDec(id) !in k.configs) && ValidName(lbl + "." + PrintDec(id))
  }

  /** A configuration is made under its label and id, filled, and given its bindings, each after the other. */
  lemma ConfigImport(dr: Draft, node: Setting, id: Int, lbl: string, d: Defaults)
    requires node.SGroup? && Get(node, "id") == Some(SInt(id)) && Get(node, "name") == Some(SStr(lbl))
    ensures var r, list := ImportNumbered(dr, node, d), Get(node, "functions");
      var c, filled := lbl + "." + PrintDec(id), FillConfig(node, NewConfig(d), d);
      (!CanMakeConfig(dr.k, lbl, id) || filled.Err? || !ListOrNone(list) ==> r.Err?) &&
      (CanMakeConfig(dr.k, lbl, id) && filled.Ok? && ListOrNone(list) ==>
        var k := dr.k.(configs := dr.k.configs[c := filled.value]);
        r == if list.Some? then ImportBindings(Draft(k, dr.labels), c, list.value.elems, d) else Ok(k))
  {
    hide Get, FillConfig, ImportBindings, PrintDec, ValidName;
    IdUsedIff(dr.k, id);
    var c := lbl + "." + PrintDec(id);
    assert c == ConfigName(lbl, id);
    var filled := FillConfig(node, NewConfig(d), d);
    if filled.Ok? { UpdateTwice(dr.k.configs, c, NewConfig(d), filled.value); }
  }

  lemma IdUsedIff(k: KGadget, id: Int)
    ensures IdUsed(k, id) <==> exists l: string :: l + "." + PrintDec(id) in k.configs
  {
    hide PrintDec;
    if IdUsed(k, id) {
      var l :| ConfigName(l, id) in k.configs;
      assert l + "." + PrintDec(id) in k.configs;
    }
    if l: string :| l + "." + PrintDec(id) in k.configs { assert ConfigName(l, id) in k.configs; }
  }

  /** Id and label are required. */
  lemma ConfigNeeds(dr: Draft, node: Setting, d: Defaults)
    ensures ImportNumbered(dr, node, d).Ok? ==> node.SGroup? && IdOf(node).Some? && IsString(Get(node, "name"))
  {
    hide Get, ImportBindings, FillConfig, ValidName, ConfigName;
  }

  function IdOf(node: Setting): Option<Int> {
    match Get(node, "id") case Some(SInt(i)) => Some(i) case _ => None
  }

  /** Sections of a gadget that are there have the right type. */
  lemma SectionsTyped(root: Setting, d: Defaults)
    ensures Schemes.ImportGadget(root, d).Ok? ==>
      GroupOrNone(Get(root, "attrs")) && ListOrNone(Get(root, "strings")) && GroupOrNone(Get(root, "functions")) &&
      ListOrNone(Get(root, "configs")) && GroupOrNone(Get(root, "os_descs"))
  {
    hide Get, ImportFields, ImportStrings, ImportFunctions, ImportConfigs, ImportOsDescs;
  }

  /** All sections are optional: a scheme without any makes a gadget as the kernel does. */
  lemma NoSections(d: Defaults)
    ensures Schemes.ImportGadget(SGroup([]), d) == Ok(Draft(NewGadget(d), map[]))
  {
    assert forall n :: Get(SGroup([]), n) == None;
  }
}
