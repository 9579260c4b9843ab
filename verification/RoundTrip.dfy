/** Importing what was exported: the new gadget's directory says the same as the old one's. */
module RoundTrip {
  import opened Errors
  import opened Text
  import opened Numbers
  import opened Names
  import opened Codecs
  import opened Settings
  import opened Kernel
  import opened Attributes
  import opened MassStorage
  import opened Records
  import opened Strings
  import opened OsDescs
  import opened Schemes
  import opened Handles
  import opened SchemeExport
  import opened Parsing

  lemma {:induction false} FindAt(ms: seq<Member>, i: nat)
    requires i < |ms| && forall j :: 0 <= j < i ==> ms[j].name != ms[i].name
    ensures Find(ms, ms[i].name) == Some(ms[i].value)
  {
    if i > 0 { FindAt(ms[1..], i - 1); }
  }

  // ----- functions

  /** The LUNs of a mass storage function are numbered without gaps. */
  predicate Prefix(luns: map<LunId, Files>, n: nat) {
    n <= MAX_LUNS && forall k: LunId :: k in luns <==> k < n
  }

  /** There is a file for every writable attribute of the table. */
  ghost predicate HasFiles(table: seq<AttrDef>, files: Files) { forall d <- table | !d.ro :: d.name in files }

  /** Every attribute of a table comes back from an export followed by an import into files `fresh0`. */
  ghost predicate TableSurvives(table: seq<AttrDef>, files: Files, fresh0: Files) {
    forall d <- table | !d.ro :: Exports(d, files) && d.name in fresh0 && Survives(d, files, fresh0)
  }

  /** The value of every writable attribute is the same. */
  ghost predicate SameValuesIn(table: seq<AttrDef>, a: Files, b: Files) {
    forall d <- table | !d.ro :: ReadAttr(b, d) == ReadAttr(a, d)
  }

  /** A table comes back exactly when each of its values survives. */
  lemma TableRoundTrip(table: seq<AttrDef>, files: Files, fresh0: Files)
    requires WellFormed(table) && ExportFrom(table, 0, [], files).Ok? && HasFiles(table, fresh0)
    ensures var r := ImportFrom(table, 0, SGroup(ExportFrom(table, 0, [], files).value), fresh0);
      (r.Ok? && SameValuesIn(table, files, r.value)) <==> TableSurvives(table, files, fresh0)
  {
    hide ExportFrom, ImportFrom, ReadVal, ExportVal, Survives;
    AttributesRoundTrip(table, files, fresh0);
    var r := ImportFrom(table, 0, SGroup(ExportFrom(table, 0, [], files).value), fresh0);
    if r.Ok? {
      assert r.value.Keys == fresh0.Keys;
      forall d | d in table && !d.ro
        ensures ReadAttr(r.value, d) == ReadAttr(files, d) <==> ReadVal(d.kind, r.value[d.name]) == Ok(ValueOf(d, files))
      {
        assert d.name in r.value.Keys && Exports(d, files);
      }
    }
  }

  /** When a mass storage function comes back: its LUNs form a prefix that includes LUN 0, each attribute of each
      survives, and `stall` has its default value. */
  ghost predicate LunsSurvive(k: KFunction, fresh0: KFunction, d: Defaults) {
    (exists n :: n >= 1 && Prefix(k.luns, n)) &&
    (forall i <- k.luns :: TableSurvives(LUN_TABLE, k.luns[i], Base(fresh0.luns, d, i))) &&
    ReadAttr(fresh0.files, STALL) == ReadAttr(k.files, STALL)
  }

  ghost predicate SameLuns(a: KFunction, b: KFunction) {
    b.luns.Keys == a.luns.Keys && (forall i <- a.luns :: SameValuesIn(LUN_TABLE, a.luns[i], b.luns[i])) &&
    ReadAttr(b.files, STALL) == ReadAttr(a.files, STALL)
  }

  /** Without gaps, the position of a LUN in the exported list is its number. */
  lemma {:induction false} ExportedLuns(dirs: map<LunId, Files>, n: nat, i: nat, acc: seq<Setting>)
    requires Prefix(dirs, n) && i <= MAX_LUNS && |acc| == (if i < n then i else n)
    requires ExportLuns(dirs, i, acc).Ok?
    ensures var out := ExportLuns(dirs, i, acc).value;
      |out| == n && acc == out[..|acc|] &&
      forall j: LunId | i <= j < n :: ExportFrom(LUN_TABLE, 0, [], dirs[j]).Ok? && out[j] == SGroup(ExportFrom(LUN_TABLE, 0, [], dirs[j]).value)
    decreases MAX_LUNS - i
  {
    hide ExportFrom;
    if i < MAX_LUNS {
      if i < n {
        var group := ExportFrom(LUN_TABLE, 0, [], dirs[i]).value;
        ExportedLuns(dirs, n, i + 1, acc + [SGroup(group)]);
        var out := ExportLuns(dirs, i, acc).value;
        assert out[i] == (acc + [SGroup(group)])[i];
      } else {
        ExportedLuns(dirs, n, i + 1, acc);
      }
    }
  }

  /** What element `j` of the list makes of LUN `j`. */
  ghost function ElemImport(elems: seq<Setting>, j: LunId, start: map<LunId, Files>, d: Defaults): Result<Files>
    requires j < |elems|
  {
    LunTableWellFormed();
    if elems[j].SGroup? then ImportFrom(LUN_TABLE, 0, elems[j], Base(start, d, j)) else Err(INVALID_TYPE)
  }

  /** Reading the list back makes LUN after LUN, as long as each element can be read. */
  lemma {:induction false} ImportedLuns(elems: seq<Setting>, i: nat, start: map<LunId, Files>, before: map<LunId, Files>, d: Defaults)
    requires i <= |elems| <= MAX_LUNS
    requires forall k: LunId | i <= k :: (k in before <==> k in start) && (k in before ==> before[k] == start[k])
    ensures var r := ImportLuns(elems, i, before, d);
      (r.Ok? <==> forall j: LunId | i <= j < |elems| :: ElemImport(elems, j, start, d).Ok?) &&
      (r.Ok? ==> forall j: LunId | i <= j < |elems| :: j in r.value && ElemImport(elems, j, start, d) == Ok(r.value[j])) &&
      (r.Ok? ==> forall k: LunId | k < i || |elems| <= k :: (k in r.value <==> k in before) && (k in before ==> r.value[k] == before[k]))
    decreases |elems| - i
  {
    hide ImportFrom, WellFormed;
    if i < |elems| {
      LunTableWellFormed();
      var e := ElemImport(elems, i, start, d);
      assert Base(before, d, i) == Base(start, d, i);
      if e.Ok? {
        assert ImportLun(elems[i], i, before, d) == Ok(before[i := e.value]);
        ImportedLuns(elems, i + 1, start, before[i := e.value], d);
      }
    }
  }

  lemma OnePrefix(luns: map<LunId, Files>, n: nat)
    requires n <= MAX_LUNS && Prefix(luns, if n >= 1 then n else 1)
    ensures ExportLuns(luns, 0, []).Ok? && |ExportLuns(luns, 0, []).value| == n ==> n >= 1
  {
    hide ExportFrom;
    if ExportLuns(luns, 0, []).Ok? { ExportedLuns(luns, if n >= 1 then n else 1, 0, []); }
  }

  lemma {:induction false} ExportedCount(dirs: map<LunId, Files>, i: nat, acc: seq<Setting>)
    requires i <= MAX_LUNS && |acc| <= i && ExportLuns(dirs, i, acc).Ok?
    ensures |ExportLuns(dirs, i, acc).value| <= MAX_LUNS
    decreases MAX_LUNS - i
  {
    hide ExportFrom;
    if i < MAX_LUNS {
      if i in dirs {
        ExportedCount(dirs, i + 1, acc + [SGroup(ExportFrom(LUN_TABLE, 0, [], dirs[i]).value)]);
      } else {
        ExportedCount(dirs, i + 1, acc);
      }
    }
  }

  lemma LunsRoundTrip(k: KFunction, fresh0: KFunction, d: Defaults, n: nat)
    requires ExportLuns(k.luns, 0, []).Ok? && n >= 1 && Prefix(k.luns, n) && Prefix(fresh0.luns, 1)
    requires HasFiles(LUN_TABLE, fresh0.luns[0]) && HasFiles(LUN_TABLE, d.lun)
    ensures var r := ImportLuns(ExportLuns(k.luns, 0, []).value, 0, fresh0.luns, d);
      (r.Ok? && r.value.Keys == k.luns.Keys && forall i <- k.luns :: SameValuesIn(LUN_TABLE, k.luns[i], r.value[i])) <==>
      forall i <- k.luns :: TableSurvives(LUN_TABLE, k.luns[i], Base(fresh0.luns, d, i))
  {
    hide ExportFrom, ImportFrom, ExportLuns, ImportLuns, SameValuesIn, TableSurvives, WellFormed;
    LunTableWellFormed();
    ExportedLuns(k.luns, n, 0, []);
    var elems := ExportLuns(k.luns, 0, []).value;
    ImportedLuns(elems, 0, fresh0.luns, fresh0.luns, d);
    var r := ImportLuns(elems, 0, fresh0.luns, d);
    forall i | i in k.luns
      ensures ElemImport(elems, i, fresh0.luns, d) == ImportFrom(LUN_TABLE, 0, SGroup(ExportFrom(LUN_TABLE, 0, [], k.luns[i]).value), Base(fresh0.luns, d, i))
      ensures (ElemImport(elems, i, fresh0.luns, d).Ok? && SameValuesIn(LUN_TABLE, k.luns[i], ElemImport(elems, i, fresh0.luns, d).value)) <==>
        TableSurvives(LUN_TABLE, k.luns[i], Base(fresh0.luns, d, i))
    {
      assert HasFiles(LUN_TABLE, Base(fresh0.luns, d, i));
      TableRoundTrip(LUN_TABLE, k.luns[i], Base(fresh0.luns, d, i));
    }
    if r.Ok? { assert r.value.Keys == k.luns.Keys; }
  }

  /** A mass storage function comes back exactly when `LunsSurvive`; with a gap, the LUNs behind it get other numbers. */
  lemma MsRoundTrip(k: KFunction, fresh0: KFunction, d: Defaults)
    requires ExportMs(k).Ok? && Prefix(fresh0.luns, 1) && HasFiles(LUN_TABLE, fresh0.luns[0]) && HasFiles(LUN_TABLE, d.lun)
    ensures var r := ImportMs(SGroup(ExportMs(k).value), fresh0.luns, d);
      (r.Ok? && SameLuns(k, fresh0.(luns := r.value))) <==> LunsSurvive(k, fresh0, d)
  {
    hide ExportFrom, ImportFrom, ExportLuns, ImportLuns, ReadVal, SameValuesIn, TableSurvives;
    var ms := ExportMs(k).value;
    FindAt(ms, 0);
    FindAt(ms, 1);
    var elems := ExportLuns(k.luns, 0, []).value;
    var r := ImportLuns(elems, 0, fresh0.luns, d);
    ExportedCount(k.luns, 0, []);
    ImportedLuns(elems, 0, fresh0.luns, fresh0.luns, d);
    if r.Ok? && r.value.Keys == k.luns.Keys {
      assert Prefix(k.luns, if |elems| >= 1 then |elems| else 1);
      OnePrefix(k.luns, |elems|);
    }
    if n :| n >= 1 && Prefix(k.luns, n) { LunsRoundTrip(k, fresh0, d, n); }
  }

  /** The kernel's files of a new function: LUN 0 for mass storage, and all the files the library knows of. */
  ghost predicate NewFunctionFiles(t: FunctionType, fresh0: KFunction, d: Defaults) {
    (if t == MassStorage then Prefix(fresh0.luns, 1) && HasFiles(LUN_TABLE, fresh0.luns[0]) && HasFiles(LUN_TABLE, d.lun)
     else AttrTable(t).Some? ==> HasFiles(AttrTable(t).value, fresh0.files)) &&
    forall n <- IfaceNames(t) :: n in fresh0.ifaces && forall s <- IFACE_STRINGS :: s in fresh0.ifaces[n]
  }

  ghost predicate FunctionDefaults(d: Defaults) {
    forall t: FunctionType | TypeName(t) in d.functions :: NewFunctionFiles(t, d.functions[TypeName(t)], d)
  }

  /** When a function comes back from an export and an import. */
  ghost predicate FunctionSurvives(t: FunctionType, k: KFunction, fresh0: KFunction, d: Defaults) {
    if t == MassStorage then LunsSurvive(k, fresh0, d)
    else AttrTable(t).Some? && TableSurvives(AttrTable(t).value, k.files, fresh0.files)
  }

  ghost predicate SameAttrs(t: FunctionType, a: KFunction, b: KFunction) {
    if t == MassStorage then SameLuns(a, b) else AttrTable(t).Some? && SameValuesIn(AttrTable(t).value, a.files, b.files)
  }

  ghost predicate SameFunction(t: FunctionType, a: KFunction, b: KFunction) {
    SameAttrs(t, a, b) && SameIfaces(IfaceNames(t), a.ifaces, b.ifaces)
  }

  lemma AttrsRoundTrip(t: FunctionType, k: KFunction, fresh0: KFunction, d: Defaults)
    requires ExportAttrsOf(t, k).Ok? && NewFunctionFiles(t, fresh0, d)
    ensures var r := ImportAttrsOf(t, SGroup(ExportAttrsOf(t, k).value), fresh0, d);
      (r.Ok? ==> r.value.ifaces == fresh0.ifaces) && ((r.Ok? && SameAttrs(t, k, r.value)) <==> FunctionSurvives(t, k, fresh0, d))
  {
    hide ExportFrom, ImportFrom, ExportMs, ImportMs, TableSurvives, LunsSurvive, SameLuns, SameValuesIn, ReadVal, IfaceNames, HasFiles;
    if t == MassStorage {
      MsRoundTrip(k, fresh0, d);
    } else {
      TablesWellFormed(t);
      TableRoundTrip(AttrTable(t).value, k.files, fresh0.files);
    }
  }

  lemma AttrsWithoutIfaces(t: FunctionType, a: KFunction, b: KFunction, ifaces: IfaceMap)
    ensures SameAttrs(t, a, b.(ifaces := ifaces)) <==> SameAttrs(t, a, b)
  {
    hide SameValuesIn, ReadVal;
  }

  /** A function comes back exactly when its attributes survive; its OS descriptors always do. */
  lemma FunctionRoundTrip(t: FunctionType, k: KFunction, fresh0: KFunction, d: Defaults, instance: string)
    requires ExportFunction(t, k).Ok? && NewFunctionFiles(t, fresh0, d)
    ensures var root := FunctionMember("", instance, ExportFunction(t, k).value).value;
      var r := FillFunction(t, root, fresh0, d);
      TypeMember(root) == Ok(t) && Get(root, "instance") == Some(SStr(instance)) &&
      ((r.Ok? && SameFunction(t, k, r.value)) <==> FunctionSurvives(t, k, fresh0, d))
  {
    hide ExportAttrsOf, ImportAttrsOf, ExportIfaces, ImportIfaces, SameAttrs, FunctionSurvives, Get, ReadIface, TypeName, HasFiles, Prefix;
    var attrs := ExportAttrsOf(t, k).value;
    var descs := ExportIfaces(IfaceNames(t), k.ifaces).value;
    FunctionSections(instance, t, attrs, descs);
    AttrsRoundTrip(t, k, fresh0, d);
    IfacesRoundTrip(t, k.ifaces, fresh0.ifaces);
    TypeOfName(t);
    assert Children(SList(descs)) == descs;
    var a := ImportAttrsOf(t, SGroup(attrs), fresh0, d);
    if a.Ok? { AttrsWithoutIfaces(t, k, a.value, ImportIfaces(t, descs, fresh0.ifaces).value); }
  }

  lemma FunctionSections(instance: string, t: FunctionType, attrs: seq<Member>, descs: seq<Setting>)
    ensures var ms := [Member("type", SStr(TypeName(t))), Member("attrs", SGroup(attrs)), Member("os_descs", SList(descs))];
      var root := FunctionMember("", instance, ms).value;
      Get(root, "instance") == Some(SStr(instance)) && Get(root, "type") == Some(SStr(TypeName(t))) &&
      Get(root, "attrs") == Some(SGroup(attrs)) && Get(root, "os_descs") == Some(SList(descs))
  {
    hide TypeName;
    var ms := [Member("type", SStr(TypeName(t))), Member("attrs", SGroup(attrs)), Member("os_descs", SList(descs))];
    var all := [Member("instance", SStr(instance))] + ms;
    assert all[1] == ms[0] && all[2] == ms[1] && all[3] == ms[2];
    FindAt(all, 0);
    FindAt(all, 1);
    FindAt(all, 2);
    FindAt(all, 3);
  }

  // ----- labels

  /** The label a function is exported under, and imported with. */
  ghost function GroupName(labels: Labels, n: string): string
    requires IsFunctionName(n)
  {
    if n in labels then labels[n] else GeneratedLabel(FunctionKeyOf(n).ftype, FunctionKeyOf(n).instance)
  }

  ghost function Generated(n: string): string
    requires IsFunctionName(n)
  {
    GeneratedLabel(FunctionKeyOf(n).ftype, FunctionKeyOf(n).instance)
  }

  /** After the import every function carries the label of its group, and no two carry the same. */
  ghost predicate Relabelled(names: set<string>, labels: Labels, after: Labels) {
    after.Keys == names && (forall n <- names :: IsFunctionName(n) && after[n] == GroupName(labels, n)) &&
    forall n, m | n in names && m in names && after[n] == after[m] :: n == m
  }

  /** When the label a binding is exported with finds the binding's target again. */
  ghost predicate Resolves(names: set<string>, labels: Labels, n: string)
    requires IsFunctionName(n) && forall m <- names :: IsFunctionName(m)
  {
    GroupName(labels, n) == Generated(n) ||
    ((forall m <- names :: GroupName(labels, m) != Generated(n)) && FunctionKeyOf(n).ftype != MassStorage)
  }

  /** A binding's label resolves to its target if and only if the target was exported under that very label, or
      no function was and the target is no mass storage function, whose generated label does not split. */
  lemma LabelResolution(k: KGadget, labels: Labels, after: Labels, n: string)
    requires n in k.functions && Relabelled(k.functions.Keys, labels, after)
    ensures Lookup(k, after, Generated(n)) == Some(n) <==> Resolves(k.functions.Keys, labels, n)
  {
    hide Least, SplitLabel, GeneratedLabel;
    var lbl := Generated(n);
    var key := FunctionKeyOf(n);
    var owners := Owners(after, lbl);
    if after[n] == lbl {
      assert n in owners;
      assert owners == {n};
      assert Least(owners) in owners;
    } else if owners != {} {
      assert Least(owners) in owners;
      var m :| m in owners;
      assert GroupName(labels, m) == lbl;
    } else {
      forall m | m in k.functions.Keys ensures GroupName(labels, m) != lbl { assert m !in owners; }
      GeneratedLabelSplits(key.ftype, key.instance);
    }
  }

  /** Looking for the label a function was exported under finds that function. */
  lemma OwnLabelFound(k: KGadget, labels: Labels, after: Labels, n: string)
    requires n in k.functions && Relabelled(k.functions.Keys, labels, after)
    ensures Lookup(k, after, GroupName(labels, n)) == Some(n)
  {
    hide Least, SplitLabel, GeneratedLabel;
    var owners := Owners(after, GroupName(labels, n));
    assert n in owners;
    assert owners == {n};
    assert Least(owners) in owners;
  }

  // ----- all functions

  /** The functions named are new, and the rest of the gadget is left alone. */
  ghost predicate FunctionsCame(names: set<string>, before: KGadget, after: KGadget) {
    after == before.(functions := after.functions) && after.functions.Keys == before.functions.Keys + names &&
    forall n <- before.functions | n !in names :: after.functions[n] == before.functions[n]
  }

  /** They say the same as in the gadget that was exported. */
  ghost predicate FunctionsSame(names: set<string>, from: KGadget, after: KGadget) {
    forall n <- names ::
      n in from.functions && n in after.functions && IsFunctionName(n) && SameFunction(FunctionKeyOf(n).ftype, from.functions[n], after.functions[n])
  }

  /** The kernel can make the function, and it survives. */
  ghost predicate Importable1(k: KGadget, d: Defaults, n: string) {
    n in k.functions && IsFunctionName(n) && ValidName(n) && TypeName(FunctionKeyOf(n).ftype) in d.functions &&
    FunctionSurvives(FunctionKeyOf(n).ftype, k.functions[n], d.functions[TypeName(FunctionKeyOf(n).ftype)], d)
  }

  lemma OneFunctionBack(k: KGadget, d: Defaults, n: string, lbl: string, dr: Draft)
    requires n in k.functions && IsFunctionName(n) && n !in dr.k.functions && FunctionDefaults(d)
    requires ExportFunction(FunctionKeyOf(n).ftype, k.functions[n]).Ok?
    ensures var key := FunctionKeyOf(n);
      var m := FunctionMember(lbl, key.instance, ExportFunction(key.ftype, k.functions[n]).value);
      var r := ImportLabelled(dr, m, d);
      (r.Ok? ==> r.value.labels == dr.labels[n := lbl] && FunctionsCame({n}, dr.k, r.value.k)) &&
      ((r.Ok? && FunctionsSame({n}, k, r.value.k)) <==> Importable1(k, d, n))
  {
    hide ExportFunction, FillFunction, FunctionSurvives, SameFunction, ValidName, Get, FunctionName, TypeName, NewFunctionFiles;
    var key := FunctionKeyOf(n);
    var ms := ExportFunction(key.ftype, k.functions[n]).value;
    if TypeName(key.ftype) in d.functions {
      FunctionRoundTrip(key.ftype, k.functions[n], d.functions[TypeName(key.ftype)], d, key.instance);
    } else {
      NoSuchType(dr, d, FunctionMember(lbl, key.instance, ms), key, k.functions[n]);
    }
  }

  lemma NoSuchType(dr: Draft, d: Defaults, m: Member, key: FunctionKey, k: KFunction)
    requires TypeName(key.ftype) !in d.functions && ExportFunction(key.ftype, k).Ok?
    requires m == FunctionMember(m.name, key.instance, ExportFunction(key.ftype, k).value)
    ensures ImportLabelled(dr, m, d).Err?
  {
    hide ExportAttrsOf, ExportIfaces, FillFunction, Get, ValidName, FunctionName, TypeName;
    var attrs := ExportAttrsOf(key.ftype, k).value;
    var descs := ExportIfaces(IfaceNames(key.ftype), k.ifaces).value;
    FunctionSections(key.instance, key.ftype, attrs, descs);
    TypeOfName(key.ftype);
  }

  /** What importing the exported functions makes of a draft. */
  ghost predicate AllBack(names: seq<string>, labels: Labels, dr: Draft, after: Draft)
    requires forall n <- names :: IsFunctionName(n)
  {
    FunctionsCame(Elements(names), dr.k, after.k) &&
    after.labels.Keys == dr.labels.Keys + Elements(names) &&
    (forall n <- dr.labels | n !in names :: after.labels[n] == dr.labels[n]) &&
    forall n <- names :: after.labels[n] == GroupName(labels, n)
  }

  lemma CameTwice(n: string, rest: set<string>, k: KGadget, before: KGadget, next: KGadget, after: KGadget)
    requires n !in rest && n !in before.functions && FunctionsCame({n}, before, next) && FunctionsCame(rest, next, after)
    ensures FunctionsCame({n} + rest, before, after)
    ensures FunctionsSame({n} + rest, k, after) <==> FunctionsSame({n}, k, next) && FunctionsSame(rest, k, after)
  {
    hide SameFunction, IsFunctionName, FunctionKeyOf;
    assert after.functions[n] == next.functions[n];
  }

  lemma AllBackStep(names: seq<string>, k: KGadget, labels: Labels, dr: Draft, next: Draft, after: Draft)
    requires names != [] && forall n <- names :: IsFunctionName(n)
    requires names[0] !in names[1..] && names[0] !in dr.k.functions
    requires next.labels == dr.labels[names[0] := GroupName(labels, names[0])] && FunctionsCame({names[0]}, dr.k, next.k)
    requires AllBack(names[1..], labels, next, after)
    ensures AllBack(names, labels, dr, after)
    ensures FunctionsSame(Elements(names), k, after.k) <==>
      FunctionsSame({names[0]}, k, next.k) && FunctionsSame(Elements(names[1..]), k, after.k)
  {
    hide SameFunction, GroupName, IsFunctionName, FunctionKeyOf;
    assert Elements(names) == {names[0]} + Elements(names[1..]);
    assert forall n <- names :: n == names[0] || n in names[1..];
    assert names[0] !in Elements(names[1..]);
    CameTwice(names[0], Elements(names[1..]), k, dr.k, next.k, after.k);
    hide FunctionsCame, FunctionsSame, Elements;
  }

  /** The groups of an export: none under a name that was taken, no name twice. */
  ghost predicate NamesFree(names: seq<string>, labels: Labels, acc: seq<Member>)
    requires forall n <- names :: IsFunctionName(n)
  {
    (forall n <- names :: Find(acc, GroupName(labels, n)).None?) &&
    forall n, m | n in names && m in names && GroupName(labels, n) == GroupName(labels, m) :: n == m
  }

  lemma NamesFreeStep(names: seq<string>, labels: Labels, acc: seq<Member>, m: Member)
    requires names != [] && forall n <- names :: IsFunctionName(n)
    requires m.name == GroupName(labels, names[0]) && Find(acc, m.name).None?
    requires NamesFree(names[1..], labels, acc + [m])
    ensures NamesFree(names, labels, acc)
  {
    hide GroupName, IsFunctionName;
    forall n | n in names ensures n == names[0] || (n in names[1..] && Find(acc, GroupName(labels, n)).None? && GroupName(labels, n) != m.name) {
      FindAppend(acc, [m], GroupName(labels, n));
    }
  }

  /** The members an export of the functions adds, imported one after the other: all come back exactly when each does. */
  lemma {:induction false} FunctionsRoundTrip(names: seq<string>, k: KGadget, labels: Labels, acc: seq<Member>, dr: Draft, d: Defaults)
    requires FunctionDefaults(d) && forall n <- names :: n in k.functions && IsFunctionName(n)
    requires forall i, j :: 0 <= i < j < |names| ==> names[i] != names[j]
    requires forall n <- names :: n !in dr.k.functions
    requires ExportFunctions(names, k, labels, acc).Ok?
    ensures var out := ExportFunctions(names, k, labels, acc).value;
      |acc| <= |out| && out[..|acc|] == acc && NamesFree(names, labels, acc) &&
      var r := ImportFunctions(dr, out[|acc|..], d);
      (r.Ok? ==> AllBack(names, labels, dr, r.value)) &&
      ((r.Ok? && FunctionsSame(Elements(names), k, r.value.k)) <==> forall n <- names :: Importable1(k, d, n))
    decreases |names|
  {
    hide ExportFunction, ImportLabelled, Importable1, SameFunction, ValidSettingName, GeneratedLabel, FunctionName, AllBack,
      NamesFree, IsFunctionName, ExportFunctions, ImportFunctions, FunctionDefaults, FunctionsSame, FunctionsCame;
    var out := ExportFunctions(names, k, labels, acc).value;
    if names == [] {
      NothingBack(k, labels, dr, acc, d);
      assert out[|acc|..] == [];
    } else {
      var n := names[0];
      var key := FunctionKeyOf(n);
      FirstExported(names, k, labels, acc);
      var m := FunctionMember(GroupName(labels, n), key.instance, ExportFunction(key.ftype, k.functions[n]).value);
      OneFunctionBack(k, d, n, GroupName(labels, n), dr);
      FunctionsExported(names[1..], k, labels, acc + [m]);
      assert out[|acc|..] == [m] + out[|acc| + 1..];
      assert out[..|acc|] == out[..|acc| + 1][..|acc|] == acc;
      FirstImported(dr, m, out[|acc| + 1..], d);
      NamesFreeStep(names, labels, acc, m);
      assert names == [n] + names[1..];
      if ImportLabelled(dr, m, d).Ok? {
        var next := ImportLabelled(dr, m, d).value;
        CameNames(n, names[1..], dr.k, next.k);
        FunctionsRoundTrip(names[1..], k, labels, acc + [m], next, d);
        var r := ImportFunctions(next, out[|acc| + 1..], d);
        if r.Ok? { AllBackStep(names, k, labels, dr, next, r.value); }
      }
    }
  }

  lemma CameNames(n: string, rest: seq<string>, before: KGadget, after: KGadget)
    requires FunctionsCame({n}, before, after) && n !in rest && forall m <- rest :: m !in before.functions
    ensures forall m <- rest :: m !in after.functions
  {}

  /** What the export of functions adds, and under which names. */
  lemma {:induction false} FunctionsExported(names: seq<string>, k: KGadget, labels: Labels, acc: seq<Member>)
    requires forall n <- names :: n in k.functions && IsFunctionName(n)
    requires forall i, j :: 0 <= i < j < |names| ==> names[i] != names[j]
    requires ExportFunctions(names, k, labels, acc).Ok?
    ensures var out := ExportFunctions(names, k, labels, acc).value;
      |acc| <= |out| && out[..|acc|] == acc && NamesFree(names, labels, acc)
    decreases |names|
  {
    hide ExportFunction, ValidSettingName, GeneratedLabel, FunctionName, NamesFree, IsFunctionName, ExportFunctions;
    var out := ExportFunctions(names, k, labels, acc).value;
    if names == [] {
      NothingExported(k, labels, acc);
      assert out[..|acc|] == acc;
    } else {
      var n := names[0];
      FirstExported(names, k, labels, acc);
      var m := FunctionMember(GroupName(labels, n), FunctionKeyOf(n).instance, ExportFunction(FunctionKeyOf(n).ftype, k.functions[n]).value);
      FunctionsExported(names[1..], k, labels, acc + [m]);
      assert out[..|acc|] == out[..|acc| + 1][..|acc|] == acc;
      NamesFreeStep(names, labels, acc, m);
    }
  }

  lemma NothingExported(k: KGadget, labels: Labels, acc: seq<Member>)
    ensures ExportFunctions([], k, labels, acc) == Ok(acc) && NamesFree([], labels, acc)
  {}

  lemma NothingBack(k: KGadget, labels: Labels, dr: Draft, acc: seq<Member>, d: Defaults)
    ensures ExportFunctions([], k, labels, acc) == Ok(acc) && ImportFunctions(dr, [], d) == Ok(dr)
    ensures AllBack([], labels, dr, dr) && NamesFree([], labels, acc) && FunctionsSame(Elements([]), k, dr.k)
  {}

  lemma FirstExported(names: seq<string>, k: KGadget, labels: Labels, acc: seq<Member>)
    requires names != [] && forall n <- names :: n in k.functions && IsFunctionName(n)
    requires ExportFunctions(names, k, labels, acc).Ok?
    ensures var n := names[0]; var ms := ExportFunction(FunctionKeyOf(n).ftype, k.functions[n]);
      ms.Ok? && Find(acc, GroupName(labels, n)).None? &&
      var m := FunctionMember(GroupName(labels, n), FunctionKeyOf(n).instance, ms.value);
      ExportFunctions(names, k, labels, acc) == ExportFunctions(names[1..], k, labels, acc + [m])
  {
    hide ExportFunction, ValidSettingName, GeneratedLabel, FunctionName, IsFunctionName, FunctionMember;
  }

  lemma FirstImported(dr: Draft, m: Member, ms: seq<Member>, d: Defaults)
    ensures var r := ImportLabelled(dr, m, d);
      if r.Ok? then ImportFunctions(dr, [m] + ms, d) == ImportFunctions(r.value, ms, d) else ImportFunctions(dr, [m] + ms, d).Err?
  {
    hide ImportLabelled;
    assert ([m] + ms)[1..] == ms;
  }

  // ----- bindings

  /** Links the kernel can make, to each function at most one. */
  ghost predicate LinksReady(links: map<string, string>) {
    (forall n <- links :: ValidName(n) && IsFunctionName(links[n])) &&
    forall n, m | n in links && m in links && links[n] == links[m] :: n == m
  }

  /** Every binding's label leads to its target again. */
  ghost predicate LinksResolve(dr: Draft, links: map<string, string>)
    requires LinksReady(links)
  {
    forall n <- links :: Lookup(dr.k, dr.labels, Generated(links[n])) == Some(links[n])
  }

  /** Lookup looks at functions and labels only. */
  lemma LookupSame(dr: Draft, k: KGadget, lbl: string)
    requires k.functions == dr.k.functions
    ensures Lookup(k, dr.labels, lbl) == Lookup(dr.k, dr.labels, lbl)
  {}

  lemma LinksResolveSame(dr: Draft, k: KGadget, links: map<string, string>)
    requires LinksReady(links) && k.functions == dr.k.functions
    ensures LinksResolve(Draft(k, dr.labels), links) <==> LinksResolve(dr, links)
  {
    hide Lookup, Generated, ValidName, IsFunctionName;
    forall n | n in links ensures Lookup(k, dr.labels, Generated(links[n])) == Lookup(dr.k, dr.labels, Generated(links[n])) {
      LookupSame(dr, k, Generated(links[n]));
    }
  }

  lemma BindingSections(name: string, lbl: string)
    ensures Get(BindingGroup(name, lbl), "function") == Some(SStr(lbl)) && Get(BindingGroup(name, lbl), "name") == Some(SStr(name))
  {
    var ms := [Member("name", SStr(name)), Member("function", SStr(lbl))];
    FindAt(ms, 0);
    FindAt(ms, 1);
  }

  /** A binding group links what its label leads to. */
  lemma OneBinding(dr: Draft, c: string, n: string, lbl: string, d: Defaults)
    requires c in dr.k.configs
    ensures ImportBinding(dr, c, BindingGroup(n, lbl), d) ==
      match Lookup(dr.k, dr.labels, lbl) case None => Err(NOT_FOUND) case Some(m) => AddLink(dr.k, c, n, m)
  {
    hide Lookup, ValidName, Get, AddLink;
    BindingSections(n, lbl);
  }

  /** Only links of that configuration were added. */
  ghost predicate LinksCame(k: KGadget, c: string, l: KGadget) {
    c in k.configs && c in l.configs && SubMap(k.configs[c].links, l.configs[c].links) &&
    l == k.(configs := k.configs[c := k.configs[c].(links := l.configs[c].links)])
  }

  lemma LinksCameTransitive(k: KGadget, c: string, l: KGadget, m: KGadget)
    requires LinksCame(k, c, l) && LinksCame(l, c, m)
    ensures LinksCame(k, c, m)
  {
    UpdateTwice(k.configs, c, l.configs[c], m.configs[c]);
  }

  lemma AddLinkCame(k: KGadget, c: string, n: string, m: string)
    requires c in k.configs && AddLink(k, c, n, m).Ok?
    ensures LinksCame(k, c, AddLink(k, c, n, m).value) && AddLink(k, c, n, m).value.configs[c].links == k.configs[c].links[n := m]
  {}

  /** Importing exported bindings only adds links. */
  lemma {:induction false} BindingsAdd(names: seq<string>, links: map<string, string>, dr: Draft, c: string, d: Defaults)
    requires c in dr.k.configs && (forall n <- names :: n in links && IsFunctionName(links[n])) && ExportBindings(names, links).Ok?
    ensures var r := ImportBindings(dr, c, ExportBindings(names, links).value, d); r.Ok? ==> LinksCame(dr.k, c, r.value)
    decreases |names|
  {
    hide ImportBinding, Generated, Lookup, AddLink, ExportBindings, LinksCame, SubMap;
    if names == [] {
      NoneExported(links);
      NoLinksCame(dr.k, c);
    } else {
      var n := names[0];
      var elems := ExportBindings(names, links).value;
      ExportedBinding(names, links);
      OneBinding(dr, c, n, Generated(links[n]), d);
      var r := ImportBinding(dr, c, elems[0], d);
      if r.Ok? {
        AddLinkCame(dr.k, c, n, Lookup(dr.k, dr.labels, Generated(links[n])).value);
        var rest := Draft(r.value, dr.labels);
        CameThere(dr.k, c, r.value);
        BindingsAdd(names[1..], links, rest, c, d);
        if ImportBindings(rest, c, elems[1..], d).Ok? {
          LinksCameTransitive(dr.k, c, r.value, ImportBindings(rest, c, elems[1..], d).value);
        }
      }
    }
  }

  lemma NoLinksCame(k: KGadget, c: string)
    requires c in k.configs
    ensures LinksCame(k, c, k)
  {
    UpdateSame(k.configs, c);
  }

  lemma CameThere(k: KGadget, c: string, l: KGadget)
    requires LinksCame(k, c, l)
    ensures c in l.configs && l.functions == k.functions
    ensures forall n <- k.configs[c].links :: n in l.configs[c].links && l.configs[c].links[n] == k.configs[c].links[n]
  {}

  /** Some links are made, those named are to come. */
  ghost predicate PartLinked(done: map<string, string>, names: seq<string>, links: map<string, string>) {
    (forall n <- done :: n in links && links[n] == done[n]) && (forall n <- links :: n in done || n in names) &&
    forall n <- names :: n !in done
  }

  lemma PartLinkedStep(done: map<string, string>, names: seq<string>, links: map<string, string>)
    requires PartLinked(done, names, links) && forall n <- names :: n in links
    requires forall i, j :: 0 <= i < j < |names| ==> names[i] != names[j]
    ensures names == [] ==> done == links
    ensures names != [] ==> PartLinked(done[names[0] := links[names[0]]], names[1..], links) && names[0] !in done
    ensures forall n <- done :: n in links && links[n] == done[n]
  {}

  /** The bindings come back exactly when the label of each leads to its target. */
  lemma {:induction false} BindingsRoundTrip(names: seq<string>, links: map<string, string>, dr: Draft, c: string, d: Defaults)
    requires c in dr.k.configs && LinksReady(links)
    requires forall n <- names :: n in links && IsFunctionName(links[n])
    requires forall i, j :: 0 <= i < j < |names| ==> names[i] != names[j]
    requires PartLinked(dr.k.configs[c].links, names, links)
    requires ExportBindings(names, links).Ok?
    ensures var r := ImportBindings(dr, c, ExportBindings(names, links).value, d);
      (r.Ok? && r.value.configs[c].links == links) <==>
      forall n <- names :: Lookup(dr.k, dr.labels, Generated(links[n])) == Some(links[n])
    decreases |names|
  {
    hide ImportBinding, LinksReady, Generated, Lookup, ValidName, PartLinked, ExportBindings, AddLink, LinksCame;
    var kc := dr.k.configs[c];
    PartLinkedStep(kc.links, names, links);
    if names == [] {
      NoneExported(links);
    } else {
      var n := names[0];
      var elems := ExportBindings(names, links).value;
      ExportedBinding(names, links);
      OneBinding(dr, c, n, Generated(links[n]), d);
      NotLinkedYet(dr.k, c, links, n);
      var r := ImportBinding(dr, c, elems[0], d);
      assert names == [n] + names[1..];
      if r.Ok? {
        var m := Lookup(dr.k, dr.labels, Generated(links[n])).value;
        AddLinkCame(dr.k, c, n, m);
        CameThere(dr.k, c, r.value);
        var rest := Draft(r.value, dr.labels);
        BindingsAdd(names[1..], links, rest, c, d);
        var q := ImportBindings(rest, c, elems[1..], d);
        if q.Ok? { CameThere(r.value, c, q.value); }
        if m == links[n] {
          forall x | x in names[1..] ensures Lookup(r.value, dr.labels, Generated(links[x])) == Lookup(dr.k, dr.labels, Generated(links[x])) {
            LookupSame(dr, r.value, Generated(links[x]));
          }
          BindingsRoundTrip(names[1..], links, rest, c, d);
        } else {
          assert n in r.value.configs[c].links && r.value.configs[c].links[n] == m;
        }
      }
    }
  }

  lemma ExportedBinding(names: seq<string>, links: map<string, string>)
    requires names != [] && (forall n <- names :: n in links && IsFunctionName(links[n])) && ExportBindings(names, links).Ok?
    ensures ExportBindings(names[1..], links).Ok?
    ensures var elems := ExportBindings(names, links).value;
      elems != [] && elems[0] == BindingGroup(names[0], Generated(links[names[0]])) && elems[1..] == ExportBindings(names[1..], links).value
  {
    hide GeneratedLabel;
  }

  /** The next link can be made, if its target is the right one. */
  lemma NotLinkedYet(k: KGadget, c: string, links: map<string, string>, n: string)
    requires c in k.configs && LinksReady(links) && n in links && n !in k.configs[c].links
    requires forall m <- k.configs[c].links :: m in links && links[m] == k.configs[c].links[m]
    ensures AddLink(k, c, n, links[n]).Ok?
  {
    hide ValidName;
    var done := k.configs[c].links;
    assert ValidName(n);
    forall m | m in done ensures done[m] != links[n] { assert m != n; }
  }

  // ----- configurations

  /** Attributes and strings say the same. */
  ghost predicate SameDetails(a: KConfig, b: KConfig) {
    ReadFields(CONFIG_TAGS, b.files) == ReadFields(CONFIG_TAGS, a.files) && SameStrings(OfConfig, a.langs, b.langs)
  }

  ghost predicate SameConfig(a: KConfig, b: KConfig) { SameDetails(a, b) && b.links == a.links }

  /** The files the kernel puts into a new configuration. */
  ghost predicate ConfigDefaults(d: Defaults) {
    (forall f <- CONFIG_TAGS :: f.file in d.config) && forall n <- StringNames(OfConfig) :: n in d.configLang
  }

  /** When the strings of a configuration come back. */
  ghost predicate ConfigSurvives(k: KConfig) { forall n <- k.langs :: CanonicalLang(n) }

  lemma ConfigSections(id: Int, lbl: string, attrs: seq<Member>, strs: seq<Setting>, bindings: seq<Setting>)
    ensures var ms := [Member("name", SStr(lbl)), Member("attrs", SGroup(attrs)), Member("strings", SList(strs)), Member("functions", SList(bindings))];
      var root := ConfigGroup(id, ms);
      Get(root, "id") == Some(SInt(id)) && Get(root, "name") == Some(SStr(lbl)) && Get(root, "attrs") == Some(SGroup(attrs)) &&
      Get(root, "strings") == Some(SList(strs)) && Get(root, "functions") == Some(SList(bindings))
  {
    hide Find;
    var ms := [Member("name", SStr(lbl)), Member("attrs", SGroup(attrs)), Member("strings", SList(strs)), Member("functions", SList(bindings))];
    var all := [Member("id", SInt(id))] + ms;
    assert all[1] == ms[0] && all[2] == ms[1] && all[3] == ms[2] && all[4] == ms[3];
    FindAt(all, 0);
    FindAt(all, 1);
    FindAt(all, 2);
    FindAt(all, 3);
    FindAt(all, 4);
  }

  lemma SortedDistinct(keys: set<string>)
    ensures var names := SortedNames(keys); Elements(names) == keys && forall i, j :: 0 <= i < j < |names| ==> names[i] != names[j]
  {
    var names := SortedNames(keys);
    forall i, j | 0 <= i < j < |names| ensures names[i] != names[j] { BelowIrreflexive(names[i]); }
  }

  /** The bindings of a configuration, imported into one without any. */
  lemma AllBindingsBack(kc: KConfig, dr: Draft, c: string, d: Defaults)
    requires c in dr.k.configs && dr.k.configs[c].links == map[] && LinksNamed(kc) && LinksReady(kc.links)
    requires ExportBindings(SortedNames(kc.links.Keys), kc.links).Ok?
    ensures var r := ImportBindings(dr, c, ExportBindings(SortedNames(kc.links.Keys), kc.links).value, d);
      (r.Ok? ==> LinksCame(dr.k, c, r.value)) && ((r.Ok? && r.value.configs[c].links == kc.links) <==> LinksResolve(dr, kc.links))
  {
    hide LinksReady, SortedNames, ImportBindings, ExportBindings, Lookup, Generated, LinksCame;
    var names := SortedNames(kc.links.Keys);
    SortedDistinct(kc.links.Keys);
    assert forall n <- kc.links :: n in Elements(names);
    assert PartLinked(map[], names, kc.links);
    BindingsAdd(names, kc.links, dr, c, d);
    BindingsRoundTrip(names, kc.links, dr, c, d);
  }

  /** Attributes and strings of a configuration come back exactly when every language directory has the usual name. */
  lemma ConfigFilled(root: Setting, k: KConfig, d: Defaults)
    requires ConfigDefaults(d) && ExportFields(CONFIG_TAGS, k.files).Ok? && ExportStrings(OfConfig, k.langs).Ok?
    requires Get(root, "attrs") == Some(SGroup(ExportFields(CONFIG_TAGS, k.files).value))
    requires Get(root, "strings") == Some(SList(ExportStrings(OfConfig, k.langs).value))
    ensures var r := FillConfig(root, NewConfig(d), d);
      (r.Ok? ==> r.value.links == map[]) && ((r.Ok? && SameDetails(k, r.value)) <==> ConfigSurvives(k))
  {
    hide ExportFields, ImportFields, ExportStrings, ImportStrings, ReadFields, Get, CanonicalLang, SameStrings;
    ConfigAttrsOk();
    FieldsRoundTrip(CONFIG_TAGS, k.files, d.config);
    StringsRoundTrip(OfConfig, k.langs, d.configLang);
  }

  lemma DetailsWithoutLinks(k: KConfig, kc: KConfig, links: map<string, string>)
    ensures SameConfig(k, kc.(links := links)) <==> SameDetails(k, kc) && links == k.links
  {
    hide ReadFields, SameStrings;
  }

  /** A configuration comes back under its label and its id, exactly when its strings survive and the label of each
      binding leads to its target. */
  lemma ConfigRoundTrip(lbl: string, id: Int, k: KConfig, dr: Draft, d: Defaults)
    requires 1 <= id <= 255 && !IdUsed(dr.k, id) && ValidName(ConfigName(lbl, id))
    requires ConfigDefaults(d) && LinksNamed(k) && LinksReady(k.links) && ExportConfig(lbl, k).Ok?
    ensures var r := ImportNumbered(dr, ConfigGroup(id, ExportConfig(lbl, k).value), d); var c := ConfigName(lbl, id);
      (r.Ok? ==> c in r.value.configs && r.value == dr.k.(configs := dr.k.configs[c := r.value.configs[c]])) &&
      ((r.Ok? && SameConfig(k, r.value.configs[c])) <==> ConfigSurvives(k) && LinksResolve(dr, k.links))
  {
    hide ExportFields, ExportStrings, ExportBindings, ImportBindings, Get, LinksReady, LinksResolve, FillConfig, SameConfig, SameDetails,
      ConfigName, ValidName, IdUsed, SortedNames, CanonicalLang, ConfigSurvives, LinksCame, IsFunctionName;
    var attrs := ExportFields(CONFIG_TAGS, k.files).value;
    var strs := ExportStrings(OfConfig, k.langs).value;
    var bindings := ExportBindings(SortedNames(k.links.Keys), k.links).value;
    var root := ConfigGroup(id, ExportConfig(lbl, k).value);
    ConfigSections(id, lbl, attrs, strs, bindings);
    ConfigFilled(root, k, d);
    var c := ConfigName(lbl, id);
    var made := dr.k.(configs := dr.k.configs[c := NewConfig(d)]);
    var f := FillConfig(root, NewConfig(d), d);
    if f.Ok? {
      var filled := made.(configs := made.configs[c := f.value]);
      UpdateTwice(dr.k.configs, c, NewConfig(d), f.value);
      LinksResolveSame(dr, filled, k.links);
      AllBindingsBack(k, Draft(filled, dr.labels), c, d);
      var r := ImportBindings(Draft(filled, dr.labels), c, bindings, d);
      if r.Ok? { CameInto(dr.k, c, f.value, filled, r.value, k); }
    }
  }

  lemma CameInto(k: KGadget, c: string, kc: KConfig, filled: KGadget, l: KGadget, from: KConfig)
    requires filled == k.(configs := k.configs[c := kc]) && LinksCame(filled, c, l)
    ensures c in l.configs && l == k.(configs := k.configs[c := l.configs[c]])
    ensures SameConfig(from, l.configs[c]) <==> SameDetails(from, kc) && l.configs[c].links == from.links
  {
    UpdateTwice(k.configs, c, kc, l.configs[c]);
    DetailsWithoutLinks(from, kc, l.configs[c].links);
    hide SameConfig, SameDetails;
  }

  /** The configurations named are new, and the rest of the gadget is left alone. */
  ghost predicate ConfigsCame(names: seq<string>, before: KGadget, after: KGadget) {
    after == before.(configs := after.configs) && after.configs.Keys == before.configs.Keys + Elements(names) &&
    forall n <- before.configs | n !in names :: after.configs[n] == before.configs[n]
  }

  /** They say the same as in the gadget that was exported. */
  ghost predicate ConfigsSame(names: seq<string>, from: KGadget, after: KGadget) {
    forall n <- names :: n in from.configs && n in after.configs && SameConfig(from.configs[n], after.configs[n])
  }

  /** What the names of a configuration and its links promise. */
  ghost predicate ConfigReady(k: KGadget, n: string) {
    n in k.configs && IsConfigName(n) && ValidName(n) && LinksNamed(k.configs[n]) && LinksReady(k.configs[n].links)
  }

  /** When a configuration comes back into `dr`. */
  ghost predicate ConfigBack(k: KGadget, dr: Draft, n: string)
    requires ConfigReady(k, n)
  {
    ConfigSurvives(k.configs[n]) && LinksResolve(dr, k.configs[n].links)
  }

  /** No configuration of the gadget has the id of one of the names. */
  ghost predicate IdsFree(names: seq<string>, k: KGadget)
    requires forall n <- names :: IsConfigName(n)
  {
    (forall n <- names :: !IdUsed(k, ConfigKeyOf(n).id)) &&
    forall i, j :: 0 <= i < j < |names| ==> ConfigKeyOf(names[i]).id != ConfigKeyOf(names[j]).id
  }

  lemma IdsFreeStep(names: seq<string>, k: KGadget, l: KGadget)
    requires names != [] && (forall n <- names :: IsConfigName(n)) && IdsFree(names, k)
    requires l.configs.Keys == k.configs.Keys + {names[0]}
    ensures IdsFree(names[1..], l) && names[0] !in k.configs && names[0] !in names[1..]
  {
    hide ConfigName;
    var key := ConfigKeyOf(names[0]);
    assert names[0] in names;
    forall i | 0 <= i < |names[1..]| ensures !IdUsed(l, ConfigKeyOf(names[1..][i]).id) && names[1..][i] != names[0] {
      var other := ConfigKeyOf(names[i + 1]);
      assert names[i + 1] in names && key.id != other.id;
      if IdUsed(l, other.id) {
        var lbl :| ConfigName(lbl, other.id) in l.configs;
        if ConfigName(lbl, other.id) == names[0] { ConfigNameInjective(lbl, other.id, key.lbl, key.id); }
      }
    }
  }

  lemma ConfigsCameStep(names: seq<string>, k: KGadget, before: KGadget, next: KGadget, after: KGadget)
    requires names != [] && names[0] !in names[1..] && names[0] in next.configs && names[0] in k.configs
    requires next == before.(configs := before.configs[names[0] := next.configs[names[0]]])
    requires ConfigsCame(names[1..], next, after)
    ensures ConfigsCame(names, before, after)
    ensures ConfigsSame(names, k, after) <==>
      SameConfig(k.configs[names[0]], next.configs[names[0]]) && ConfigsSame(names[1..], k, after)
  {
    hide SameConfig;
    assert Elements(names) == {names[0]} + Elements(names[1..]);
    assert names == [names[0]] + names[1..];
    assert after.configs[names[0]] == next.configs[names[0]];
  }

  lemma ConfigBackSame(k: KGadget, dr: Draft, l: KGadget, n: string)
    requires ConfigReady(k, n) && l.functions == dr.k.functions
    ensures ConfigBack(k, Draft(l, dr.labels), n) <==> ConfigBack(k, dr, n)
  {
    hide LinksReady, LinksResolve, ConfigSurvives, LinksNamed;
    LinksResolveSame(dr, l, k.configs[n].links);
  }

  /** The configurations of an export, imported one after the other: all come back exactly when each does. */
  lemma {:induction false} ConfigsRoundTrip(names: seq<string>, k: KGadget, dr: Draft, d: Defaults)
    requires forall n <- names :: ConfigReady(k, n) && n in k.configs && IsConfigName(n) && LinksNamed(k.configs[n])
    requires ConfigDefaults(d) && IdsFree(names, dr.k) && ExportConfigs(names, k).Ok?
    ensures var r := ImportConfigs(dr, ExportConfigs(names, k).value, d);
      (r.Ok? ==> ConfigsCame(names, dr.k, r.value)) &&
      ((r.Ok? && ConfigsSame(names, k, r.value)) <==> forall n <- names :: ConfigBack(k, dr, n))
    decreases |names|
  {
    hide ExportConfig, ImportNumbered, ConfigReady, ConfigBack, SameConfig, ConfigsCame, ConfigsSame, IdsFree, LinksNamed, IdUsed, ConfigName;
    if names == [] {
      NoConfigsCame(k, dr.k);
    } else {
      var n := names[0];
      var key := ConfigKeyOf(n);
      var elems := ExportConfigs(names, k).value;
      var ms := ExportConfig(key.lbl, k.configs[n]).value;
      assert elems[0] == ConfigGroup(key.id, ms) && elems[1..] == ExportConfigs(names[1..], k).value;
      OneConfigBack(k, dr, n, d, names);
      assert names == [n] + names[1..];
      var next := ImportNumbered(dr, elems[0], d);
      if next.Ok? {
        IdsFreeStep(names, dr.k, next.value);
        forall m | m in names[1..] ensures ConfigBack(k, Draft(next.value, dr.labels), m) <==> ConfigBack(k, dr, m) {
          ConfigBackSame(k, dr, next.value, m);
        }
        ConfigsRoundTrip(names[1..], k, Draft(next.value, dr.labels), d);
        var r := ImportConfigs(Draft(next.value, dr.labels), elems[1..], d);
        if r.Ok? { ConfigsCameStep(names, k, dr.k, next.value, r.value); }
      }
    }
  }

  lemma NoConfigsCame(k: KGadget, l: KGadget)
    ensures ConfigsCame([], l, l) && ConfigsSame([], k, l)
  {}

  lemma OneConfigBack(k: KGadget, dr: Draft, n: string, d: Defaults, names: seq<string>)
    requires ConfigReady(k, n) && ConfigDefaults(d) && n in names && (forall m <- names :: IsConfigName(m)) && IdsFree(names, dr.k)
    requires LinksNamed(k.configs[n]) && ExportConfig(ConfigKeyOf(n).lbl, k.configs[n]).Ok?
    ensures var key := ConfigKeyOf(n);
      var r := ImportNumbered(dr, ConfigGroup(key.id, ExportConfig(key.lbl, k.configs[n]).value), d);
      (r.Ok? ==> n in r.value.configs && r.value == dr.k.(configs := dr.k.configs[n := r.value.configs[n]])) &&
      (r.Ok? ==> r.value.configs.Keys == dr.k.configs.Keys + {n}) &&
      ((r.Ok? && SameConfig(k.configs[n], r.value.configs[n])) <==> ConfigBack(k, dr, n))
  {
    hide ExportConfig, ImportNumbered, SameConfig, LinksNamed, IdUsed, ConfigName, LinksReady, LinksResolve, ConfigSurvives;
    var key := ConfigKeyOf(n);
    ConfigRoundTrip(key.lbl, key.id, k.configs[n], dr, d);
  }

  // ----- the whole gadget

  /** The two directories say the same: attributes, strings in every language, functions with their attributes and
      LUNs, configurations with their ids and labels (in their names), bindings with their targets, OS descriptors. */
  ghost predicate SameGadget(a: KGadget, b: KGadget) {
    SameHeader(a, b) && SameDescs(a, b) && SameParts(a, b)
  }

  /** Attributes and strings say the same. */
  ghost predicate SameHeader(a: KGadget, b: KGadget) {
    ReadFields(GADGET_ATTRS, b.files) == ReadFields(GADGET_ATTRS, a.files) && SameStrings(OfGadget, a.langs, b.langs)
  }

  /** OS descriptors and the link among them say the same. */
  ghost predicate SameDescs(a: KGadget, b: KGadget) { ReadOsDescs(b.osDesc) == ReadOsDescs(a.osDesc) && b.osLinks == a.osLinks }

  ghost predicate SameParts(a: KGadget, b: KGadget) {
    b.functions.Keys == a.functions.Keys &&
    (forall n <- a.functions :: IsFunctionName(n) && SameFunction(FunctionKeyOf(n).ftype, a.functions[n], b.functions[n])) &&
    b.configs.Keys == a.configs.Keys &&
    forall n <- a.configs :: SameConfig(a.configs[n], b.configs[n])
  }

  /** What the kernel puts into new directories: every attribute file the library knows of. */
  ghost predicate GadgetDefaults(d: Defaults) {
    ConfigDefaults(d) && FunctionDefaults(d) && (forall f <- GADGET_ATTRS :: f.file in d.gadget) &&
    (forall n <- StringNames(OfGadget) :: n in d.gadgetLang) && ReadOsDescs(d.osDesc).Ok?
  }

  /** The id of the configuration the OS descriptors are linked to. */
  ghost predicate OsIdOf(k: KGadget, osId: Option<Int>) {
    match osId
    case None => k.osLinks == map[]
    case Some(id) => exists c <- k.configs :: IsConfigName(c) && ConfigKeyOf(c).id == id && k.osLinks == map[c := c]
  }

  /** A gadget in which functions, configurations and links carry names the library gives them. */
  ghost predicate WellNamed(k: KGadget) {
    (forall n <- k.functions :: IsFunctionName(n)) &&
    (forall n <- k.configs :: IsConfigName(n) && ValidName(n) && LinksNamed(k.configs[n])) &&
    (forall n, m | n in k.configs && m in k.configs && ConfigKeyOf(n).id == ConfigKeyOf(m).id :: n == m) &&
    forall c <- k.configs :: LinksOk(k.configs[c].links, k.functions.Keys)
  }

  /** Links lead to functions of the gadget, to each at most one. */
  ghost predicate LinksOk(links: map<string, string>, functions: set<string>) {
    (forall n <- links :: ValidName(n) && links[n] in functions) &&
    forall n, m | n in links && m in links && links[n] == links[m] :: n == m
  }

  /** When functions and configurations come back: the kernel can make each function, its attributes survive, every
      language directory has the usual name, and the label of each binding leads to its target again. */
  ghost predicate PartsSurvive(k: KGadget, labels: Labels, d: Defaults)
    requires WellNamed(k)
  {
    (forall n <- k.functions :: Importable1(k, d, n)) && ConfigsSurvive(k, labels)
  }

  ghost predicate ConfigsSurvive(k: KGadget, labels: Labels)
    requires WellNamed(k)
  {
    forall c <- k.configs :: ConfigResolves(k, labels, c)
  }

  /** The strings of a configuration survive and its bindings find their targets. */
  ghost predicate ConfigResolves(k: KGadget, labels: Labels, c: string)
    requires WellNamed(k) && c in k.configs
  {
    ConfigSurvives(k.configs[c]) && AllResolve(k.functions.Keys, labels, k.configs[c].links)
  }

  /** When the whole gadget comes back. */
  ghost predicate GadgetSurvives(k: KGadget, labels: Labels, d: Defaults)
    requires WellNamed(k)
  {
    (forall n <- k.langs :: CanonicalLang(n)) && PartsSurvive(k, labels, d) && ReadOsDescs(k.osDesc).Ok?
  }

  /** Every binding's label leads to its target again. */
  ghost predicate AllResolve(names: set<string>, labels: Labels, links: map<string, string>)
    requires (forall n <- links :: links[n] in names) && forall m <- names :: IsFunctionName(m)
  {
    forall n <- links :: Resolves(names, labels, links[n])
  }

  ghost function ExportWhole(k: KGadget, labels: Labels, osId: Option<Int>): Result<Setting>
    requires WellNamed(k)
  {
    Schemes.ExportGadget(SortedNames(k.functions.Keys), SortedNames(k.configs.Keys), k, labels, osId)
  }

  lemma GadgetSections(attrs: seq<Member>, osDescs: seq<Member>, strs: seq<Setting>, functions: seq<Member>, configs: seq<Setting>)
    ensures var root := GadgetScheme(attrs, osDescs, strs, functions, configs);
      Get(root, "attrs") == Some(SGroup(attrs)) && Get(root, "os_descs") == Some(SGroup(osDescs)) &&
      Get(root, "strings") == Some(SList(strs)) && Get(root, "functions") == Some(SGroup(functions)) &&
      Get(root, "configs") == Some(SList(configs))
  {
    hide Find;
    var ms := GadgetScheme(attrs, osDescs, strs, functions, configs).members;
    FindAt(ms, 0);
    FindAt(ms, 1);
    FindAt(ms, 2);
    FindAt(ms, 3);
    FindAt(ms, 4);
  }

  predicate DetailsOut(root: Setting, attrs: Result<seq<Member>>, strs: Result<seq<Setting>>) {
    attrs.Ok? && strs.Ok? && Get(root, "attrs") == Some(SGroup(attrs.value)) && Get(root, "strings") == Some(SList(strs.value))
  }

  lemma GadgetFilled(root: Setting, k: KGadget, d: Defaults)
    requires GadgetDefaults(d) && DetailsOut(root, ExportFields(GADGET_ATTRS, k.files), ExportStrings(OfGadget, k.langs))
    ensures var r := FillGadget(root, d);
      (r.Ok? ==> r.value == NewGadget(d).(files := r.value.files, langs := r.value.langs)) &&
      ((r.Ok? && SameHeader(k, r.value)) <==> forall n <- k.langs :: CanonicalLang(n))
  {
    hide ExportFields, ImportFields, ExportStrings, ImportStrings, ReadFields, Get, CanonicalLang, SameStrings, ReadOsDescs, FunctionDefaults;
    GadgetAttrsOk();
    FieldsRoundTrip(GADGET_ATTRS, k.files, d.gadget);
    StringsRoundTrip(OfGadget, k.langs, d.gadgetLang);
  }

  lemma {:induction false} RelabelledAfter(names: seq<string>, labels: Labels, dr: Draft, after: Draft)
    requires (forall n <- names :: IsFunctionName(n)) && AllBack(names, labels, dr, after) && dr.labels == map[] && NamesFree(names, labels, [])
    ensures Relabelled(Elements(names), labels, after.labels)
  {
    hide GroupName, IsFunctionName, FunctionsCame;
  }

  /** The functions, imported into a gadget without any. */
  lemma FunctionsPart(k: KGadget, labels: Labels, k0: KGadget, d: Defaults)
    requires (forall n <- k.functions :: IsFunctionName(n)) && FunctionDefaults(d) && k0.functions == map[]
    requires ExportFunctions(SortedNames(k.functions.Keys), k, labels, []).Ok?
    ensures var r := ImportFunctions(Draft(k0, map[]), ExportFunctions(SortedNames(k.functions.Keys), k, labels, []).value, d);
      (r.Ok? ==> r.value.k == k0.(functions := r.value.k.functions) && r.value.k.functions.Keys == k.functions.Keys) &&
      (r.Ok? ==> Relabelled(k.functions.Keys, labels, r.value.labels)) &&
      ((r.Ok? && FunctionsSame(k.functions.Keys, k, r.value.k)) <==> forall n <- k.functions :: Importable1(k, d, n))
  {
    hide ExportFunctions, ImportFunctions, Importable1, SortedNames, GroupName, SameFunction, IsFunctionName, FunctionDefaults;
    var names := SortedNames(k.functions.Keys);
    SortedDistinct(k.functions.Keys);
    assert forall n <- k.functions :: n in Elements(names);
    FunctionsRoundTrip(names, k, labels, [], Draft(k0, map[]), d);
    var out := ExportFunctions(names, k, labels, []).value;
    assert out[0..] == out;
    var r := ImportFunctions(Draft(k0, map[]), out, d);
    if r.Ok? { RelabelledAfter(names, labels, Draft(k0, map[]), r.value); }
  }

  /** The labels the functions have been given decide which bindings find their targets. */
  lemma ConfigBackIff(k: KGadget, labels: Labels, dr: Draft, c: string)
    requires WellNamed(k) && c in k.configs
    requires dr.k.functions.Keys == k.functions.Keys && Relabelled(k.functions.Keys, labels, dr.labels)
    ensures ConfigReady(k, c)
    ensures ConfigBack(k, dr, c) <==> ConfigResolves(k, labels, c)
  {
    hide Resolves, Lookup, ValidName, ConfigSurvives, Relabelled, Generated, IsFunctionName;
    var links := k.configs[c].links;
    assert LinksOk(links, k.functions.Keys);
    forall b | b in links
      ensures ValidName(b) && links[b] in k.functions && IsFunctionName(links[b])
      ensures Lookup(dr.k, dr.labels, Generated(links[b])) == Some(links[b]) <==> Resolves(k.functions.Keys, labels, links[b])
    {
      LabelResolution(dr.k, labels, dr.labels, links[b]);
    }
  }

  lemma OsDescsPart(k: KGadget, l: KGadget, osId: Option<Int>)
    requires WellNamed(k) && OsIdOf(k, osId) && ReadOsDescs(l.osDesc).Ok?
    requires l.configs.Keys == k.configs.Keys && l.osLinks == map[]
    ensures var r := ImportOsDescs(l, SGroup(ExportOsDescs(osId, k.osDesc)));
      (r.Ok? <==> ReadOsDescs(k.osDesc).Ok?) &&
      (r.Ok? ==> r.value == l.(osDesc := r.value.osDesc, osLinks := k.osLinks) && ReadOsDescs(r.value.osDesc) == ReadOsDescs(k.osDesc))
  {
    hide ReadOsDescs, ParseOsDescs, Written, OsDescWrites, ExportOsDescs, Get, ConfigName, ValidName, LinksNamed, LinksOk, IsFunctionName;
    if ReadOsDescs(k.osDesc).Ok? {
      OsDescsRoundTrip(osId, k.osDesc, l.osDesc);
      if osId.Some? {
        var c :| c in k.configs && IsConfigName(c) && ConfigKeyOf(c).id == osId.value && k.osLinks == map[c := c];
        var key := ConfigKeyOf(c);
        assert ConfigName(key.lbl, osId.value) in l.configs.Keys;
        var found := ConfigWithId(l.configs.Keys, osId.value).value;
        var lbl :| found == ConfigName(lbl, osId.value);
        ConfigKeyIs(lbl, osId.value);
      }
    } else {
      NoSignExported(osId, k.osDesc);
      SignRequired(l, SGroup(ExportOsDescs(osId, k.osDesc)));
    }
  }

  lemma NoSignExported(osId: Option<Int>, files: Files)
    requires ReadOsDescs(files).Err?
    ensures Get(SGroup(ExportOsDescs(osId, files)), "qw_sign") == None
  {
    hide ReadOsDescs;
    IdMemberFound(osId);
    assert IdMember(osId) + [] == IdMember(osId);
  }

  lemma OnlyDescs(l: KGadget, root: Setting)
    ensures var r := ImportOsDescs(l, root); r.Ok? ==> r.value == l.(osDesc := r.value.osDesc, osLinks := r.value.osLinks)
  {
    hide ParseOsDescs, Written, OsDescWrites, ConfigWithId, Get;
  }

  lemma FreeIds(k: KGadget, l: KGadget)
    requires WellNamed(k) && l.configs == map[]
    ensures var names := SortedNames(k.configs.Keys); (forall n <- names :: IsConfigName(n)) && IdsFree(names, l)
  {
    hide ValidName, LinksNamed, SortedNames;
    SortedDistinct(k.configs.Keys);
  }

  /** The parts say the same exactly when functions and configurations do. */
  lemma PartsSameIff(k: KGadget, l: KGadget)
    requires WellNamed(k) && l.functions.Keys == k.functions.Keys && l.configs.Keys == k.configs.Keys
    ensures SameParts(k, l) <==> FunctionsSame(k.functions.Keys, k, l) && ConfigsSame(SortedNames(k.configs.Keys), k, l)
  {
    hide SameFunction, SameConfig, SortedNames, ValidName, LinksNamed, LinksOk;
    SortedDistinct(k.configs.Keys);
    assert forall n <- k.configs :: n in Elements(SortedNames(k.configs.Keys));
  }

  lemma FunctionsThrough(k: KGadget, l: KGadget, m: KGadget, names: set<string>)
    requires m.functions == l.functions
    ensures FunctionsSame(names, k, m) <==> FunctionsSame(names, k, l)
  {
    hide SameFunction;
  }

  lemma NamesListed(k: KGadget)
    ensures Elements(SortedNames(k.configs.Keys)) == k.configs.Keys
    ensures forall n :: n in SortedNames(k.configs.Keys) <==> n in k.configs
  {
    hide SortedNames;
    SortedDistinct(k.configs.Keys);
    assert forall n :: n in SortedNames(k.configs.Keys) <==> n in Elements(SortedNames(k.configs.Keys));
  }

  /** The configurations, imported after the functions. */
  lemma ConfigsPart(k: KGadget, labels: Labels, dr: Draft, d: Defaults)
    requires WellNamed(k) && ConfigDefaults(d) && dr.k.configs == map[] && ExportConfigs(SortedNames(k.configs.Keys), k).Ok?
    requires dr.k.functions.Keys == k.functions.Keys && Relabelled(k.functions.Keys, labels, dr.labels)
    ensures var r := ImportConfigs(dr, ExportConfigs(SortedNames(k.configs.Keys), k).value, d);
      (r.Ok? ==> r.value == dr.k.(configs := r.value.configs) && r.value.configs.Keys == k.configs.Keys) &&
      ((r.Ok? && ConfigsSame(SortedNames(k.configs.Keys), k, r.value)) <==> ConfigsSurvive(k, labels))
  {
    hide ExportConfigs, ImportConfigs, ConfigReady, ConfigBack, SortedNames, IdsFree, LinksOk, LinksNamed, ConfigDefaults, ConfigsSame,
      ValidName, ConfigSurvives, AllResolve, Relabelled, IsFunctionName, IsConfigName;
    NamesListed(k);
    forall c | c in k.configs ensures ConfigReady(k, c) && (ConfigBack(k, dr, c) <==> ConfigResolves(k, labels, c)) {
      ConfigBackIff(k, labels, dr, c);
    }
    FreeIds(k, dr.k);
    ConfigsRoundTrip(SortedNames(k.configs.Keys), k, dr, d);
  }

  /** Functions and configurations come back exactly when `PartsSurvive`. */
  lemma PartsRoundTrip(k: KGadget, labels: Labels, root: Setting, k0: KGadget, d: Defaults)
    requires WellNamed(k) && ConfigDefaults(d) && FunctionDefaults(d) && k0.functions == map[] && k0.configs == map[]
    requires ExportFunctions(SortedNames(k.functions.Keys), k, labels, []).Ok? && ExportConfigs(SortedNames(k.configs.Keys), k).Ok?
    requires Get(root, "functions") == Some(SGroup(ExportFunctions(SortedNames(k.functions.Keys), k, labels, []).value))
    requires Get(root, "configs") == Some(SList(ExportConfigs(SortedNames(k.configs.Keys), k).value))
    ensures var r := ImportInto(k0, root, d);
      (r.Ok? ==> r.value.k == k0.(functions := r.value.k.functions, configs := r.value.k.configs)) &&
      ((r.Ok? && SameParts(k, r.value.k)) <==> PartsSurvive(k, labels, d))
  {
    hide ExportFunctions, ImportFunctions, ExportConfigs, ImportConfigs, Get, SameParts, SortedNames, LinksNamed, LinksOk, ConfigDefaults,
      FunctionDefaults, FunctionsSame, ConfigsSame, ValidName, Importable1, ConfigsSurvive, Relabelled, IsFunctionName, IsConfigName;
    FunctionsPart(k, labels, k0, d);
    var f := ImportFunctions(Draft(k0, map[]), ExportFunctions(SortedNames(k.functions.Keys), k, labels, []).value, d);
    if f.Ok? {
      ConfigsPart(k, labels, f.value, d);
      var r := ImportConfigs(f.value, ExportConfigs(SortedNames(k.configs.Keys), k).value, d);
      if r.Ok? {
        PartsSameIff(k, r.value);
        FunctionsThrough(k, f.value.k, r.value, k.functions.Keys);
      }
    }
  }

  lemma PartNames(k: KGadget, l: KGadget)
    requires SameParts(k, l)
    ensures l.configs.Keys == k.configs.Keys
  {}

  lemma PartsStay(k: KGadget, l: KGadget, m: KGadget)
    requires m == l.(osDesc := m.osDesc, osLinks := m.osLinks)
    ensures SameParts(k, m) <==> SameParts(k, l)
  {
    hide SameFunction, SameConfig;
  }

  /** The OS descriptors, imported last: all is back exactly when the parts were and the descriptors can be read. */
  lemma DescsLast(k: KGadget, l: KGadget, osId: Option<Int>)
    requires WellNamed(k) && OsIdOf(k, osId) && ReadOsDescs(l.osDesc).Ok? && l.osLinks == map[]
    ensures var r := ImportOsDescs(l, SGroup(ExportOsDescs(osId, k.osDesc)));
      (r.Ok? ==> r.value == l.(osDesc := r.value.osDesc, osLinks := r.value.osLinks)) &&
      ((r.Ok? && SameParts(k, r.value) && SameDescs(k, r.value)) <==> SameParts(k, l) && ReadOsDescs(k.osDesc).Ok?)
  {
    hide ExportOsDescs, ImportOsDescs, SameParts, WellNamed, OsIdOf, ReadOsDescs;
    var r := ImportOsDescs(l, SGroup(ExportOsDescs(osId, k.osDesc)));
    OnlyDescs(l, SGroup(ExportOsDescs(osId, k.osDesc)));
    if r.Ok? { PartsStay(k, l, r.value); }
    if SameParts(k, l) {
      PartNames(k, l);
      OsDescsPart(k, l, osId);
    }
  }

  /** The sections of an exported gadget: each part has been exported, and can be found. */
  lemma WholeSections(k: KGadget, labels: Labels, osId: Option<Int>)
    requires WellNamed(k) && ExportWhole(k, labels, osId).Ok?
    ensures var functions, configs := SortedNames(k.functions.Keys), SortedNames(k.configs.Keys);
      (forall n <- functions :: n in k.functions && IsFunctionName(n)) &&
      (forall n <- configs :: n in k.configs && IsConfigName(n) && LinksNamed(k.configs[n])) &&
      var root := ExportWhole(k, labels, osId).value;
      var fs, cs := ExportFunctions(functions, k, labels, []), ExportConfigs(configs, k);
      DetailsOut(root, ExportFields(GADGET_ATTRS, k.files), ExportStrings(OfGadget, k.langs)) && fs.Ok? && cs.Ok? &&
      Get(root, "functions") == Some(SGroup(fs.value)) && Get(root, "configs") == Some(SList(cs.value)) &&
      Get(root, "os_descs") == Some(SGroup(ExportOsDescs(osId, k.osDesc)))
  {
    hide ExportFields, ExportStrings, ExportFunctions, ExportConfigs, ExportOsDescs, Get, SortedNames, LinksNamed, ValidName, LinksOk,
      IsFunctionName, IsConfigName;
    GadgetSections(ExportFields(GADGET_ATTRS, k.files).value, ExportOsDescs(osId, k.osDesc), ExportStrings(OfGadget, k.langs).value,
      ExportFunctions(SortedNames(k.functions.Keys), k, labels, []).value, ExportConfigs(SortedNames(k.configs.Keys), k).value);
  }

  /** An exported gadget, imported under another name, is the same in everything schemes carry if and only if each of its
      parts survives. */
  lemma GadgetRoundTrip(k: KGadget, labels: Labels, osId: Option<Int>, d: Defaults)
    requires WellNamed(k) && OsIdOf(k, osId) && GadgetDefaults(d) && ExportWhole(k, labels, osId).Ok?
    ensures var r := Schemes.ImportGadget(ExportWhole(k, labels, osId).value, d);
      (r.Ok? && SameGadget(k, r.value.k)) <==> GadgetSurvives(k, labels, d)
  {
    hide ExportWhole, ExportFields, ExportStrings, ExportFunctions, ExportConfigs, ImportInto, ImportOsDescs, ExportOsDescs, FillGadget, Get,
      ReadFields, SameStrings, ReadOsDescs, SortedNames, OsIdOf, SameParts, ConfigDefaults, FunctionDefaults, PartsSurvive, CanonicalLang,
      WellNamed, DetailsOut;
    WholeSections(k, labels, osId);
    var root := ExportWhole(k, labels, osId).value;
    GadgetFilled(root, k, d);
    var f := FillGadget(root, d);
    if f.Ok? {
      PartsRoundTrip(k, labels, root, f.value, d);
      var p := ImportInto(f.value, root, d);
      if p.Ok? { DescsLast(k, p.value.k, osId); }
    }
  }

  // ----- a gadget of the handle tree

  /** Names the kernel accepts as directory names. */
  ghost predicate NamesValid(k: KGadget) {
    (forall n <- k.configs :: ValidName(n)) && forall c <- k.configs, n <- k.configs[c].links :: ValidName(n)
  }

  lemma FunctionListSorted(g: Gadget, k: KGadget)
    requires GadgetExact(g, k)
    ensures FunctionNameList(g.functions) == SortedNames(k.functions.Keys) && forall n <- k.functions :: IsFunctionName(n)
  {
    hide FunctionName, BindingsOk, OsDescOk, ConfigOk, ConfigNames;
    var name := (f: Function) => f.name;
    var names := FunctionNameList(g.functions);
    NamesAsElements(g.functions, name, names);
    assert Elements(names) == FunctionNames(g.functions);
    SortedUnique(names, SortedKeys(k.functions.Keys));
    forall n | n in k.functions ensures IsFunctionName(n) {
      assert n in FunctionNames(g.functions);
      var f :| f in g.functions && f.name == n;
      assert FunctionOk(g, f, k);
    }
  }

  lemma ConfigListSorted(g: Gadget, k: KGadget)
    requires GadgetExact(g, k)
    ensures ConfigNameList(g.configs) == SortedNames(k.configs.Keys)
    ensures forall c <- g.configs :: IsConfigName(c.name) && ConfigKeyOf(c.name) == ConfigKey(c.lbl, c.id)
    ensures forall n <- k.configs :: exists c <- g.configs :: c.name == n
  {
    hide ConfigName, BindingsOk, OsDescOk, FunctionOk, FunctionNames;
    var name := (c: Config) => c.name;
    var names := ConfigNameList(g.configs);
    NamesAsElements(g.configs, name, names);
    assert Elements(names) == ConfigNames(g.configs);
    SortedUnique(names, SortedKeys(k.configs.Keys));
    forall c | c in g.configs ensures IsConfigName(c.name) && ConfigKeyOf(c.name) == ConfigKey(c.lbl, c.id) {
      assert ConfigOk(g, c, k);
      ConfigKeyIs(c.lbl, c.id);
    }
    forall n | n in k.configs ensures exists c <- g.configs :: c.name == n { assert n in ConfigNames(g.configs); }
  }

  lemma RecordedConfig(g: Gadget, k: KGadget)
    requires GadgetExact(g, k)
    ensures if g.osDesc == null then k.osLinks == map[] else
      g.osDesc in g.configs && 1 <= g.osDesc.id <= 255 && g.osDesc.name in k.configs && k.osLinks == map[g.osDesc.name := g.osDesc.name]
  {
    hide BindingsOk, FunctionOk;
  }

  lemma ApartLinks(k: KGadget)
    requires Canonical(k) && NamesValid(k) && forall n <- k.functions :: IsFunctionName(n)
    ensures WellNamed(k)
  {
    hide IsFunctionName, IsConfigName, ValidName, ConfigKeyOf;
    forall c | c in k.configs ensures LinksOk(k.configs[c].links, k.functions.Keys) && LinksNamed(k.configs[c]) {
      assert TargetsApart(k.configs[c].links, k.functions.Keys);
    }
  }

  /** A gadget that memory mirrors completely is well named, and its recorded configuration is the linked one. */
  lemma ExactWellNamed(g: Gadget, k: KGadget)
    requires GadgetExact(g, k) && NamesValid(k)
    ensures WellNamed(k) && (g.osDesc != null ==> IsInt(g.osDesc.id)) && OsIdOf(k, OsDescId(g))
  {
    hide GadgetExact, NamesValid, WellNamed, Canonical, Parseable, SortedNames, IsFunctionName, FunctionNameList, ConfigNameList;
    GadgetParses(g, k);
    FunctionListSorted(g, k);
    ConfigListSorted(g, k);
    ApartLinks(k);
    RecordedConfig(g, k);
  }

  /** What an export of a live gadget describes, imported elsewhere, says the same as the gadget's own directory if and
      only if each part survives. */
  lemma LiveGadgetRoundTrip(g: Gadget, k: KGadget, labels: Labels, d: Defaults)
    requires GadgetExact(g, k) && NamesValid(k) && GadgetDefaults(d)
    requires WellNamed(k) && (g.osDesc != null ==> IsInt(g.osDesc.id))
    requires (forall n <- FunctionNameList(g.functions) :: n in k.functions && IsFunctionName(n))
    requires forall n <- ConfigNameList(g.configs) :: n in k.configs && IsConfigName(n) && LinksNamed(k.configs[n])
    requires Schemes.ExportGadget(FunctionNameList(g.functions), ConfigNameList(g.configs), k, labels, OsDescId(g)).Ok?
    ensures var root := Schemes.ExportGadget(FunctionNameList(g.functions), ConfigNameList(g.configs), k, labels, OsDescId(g)).value;
      (Schemes.ImportGadget(root, d).Ok? && SameGadget(k, Schemes.ImportGadget(root, d).value.k)) <==> GadgetSurvives(k, labels, d)
  {
    FunctionListSorted(g, k);
    ConfigListSorted(g, k);
    ExactWellNamed(g, k);
    hide GadgetExact, GadgetSurvives, SameGadget, Schemes.ImportGadget, Schemes.ExportGadget, SortedNames, GadgetDefaults, OsIdOf, NamesValid;
    GadgetRoundTrip(k, labels, OsDescId(g), d);
  }
}
