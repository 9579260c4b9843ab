/** Exporting functions, configurations and gadgets: the walk over the handle tree that builds a scheme. */
module SchemeExport {
  import opened Errors
  import opened Text
  import opened Numbers
  import opened Names
  import opened Settings
  import opened Kernel
  import opened Attributes
  import opened MassStorage
  import opened Records
  import opened Strings
  import opened OsDescs
  import opened Handles
  import opened Schemes

  ghost function FunctionNameList(fns: seq<Function>): (r: seq<string>)
    ensures |r| == |fns| && forall i :: 0 <= i < |r| ==> r[i] == fns[i].name
  {
    seq(|fns|, i requires 0 <= i < |fns| => fns[i].name)
  }

  ghost function ConfigNameList(configs: seq<Config>): (r: seq<string>)
    ensures |r| == |configs| && forall i :: 0 <= i < |r| ==> r[i] == configs[i].name
  {
    seq(|configs|, i requires 0 <= i < |configs| => configs[i].name)
  }

  ghost function BindingNameList(bs: seq<Binding>): (r: seq<string>)
    ensures |r| == |bs| && forall i :: 0 <= i < |r| ==> r[i] == bs[i].name
  {
    seq(|bs|, i requires 0 <= i < |bs| => bs[i].name)
  }

  /** `labels` lists the functions that carry a label. */
  ghost predicate LabelsOf(fns: seq<Function>, labels: Labels)
    reads fns
  {
    (forall f <- fns :: f.name in labels <==> f.lbl.Some?) && (forall f <- fns :: f.lbl.Some? ==> labels[f.name] == f.lbl.value)
  }

  /** The LUN bitmap of a mass storage function can be relied on. */
  ghost predicate Ready(f: Function)
    reads f.ms, (if f.ms != null then {f.ms.fs} else {})`tree
  {
    f.ms != null ==> f.ms.InSync() && (f.ms.initiated || forall k: LunId :: !f.ms.luns[k])
  }

  lemma FunctionNamed(g: Gadget, f: Function)
    requires Live(g) && f in g.functions
    ensures HasFunction(g.parent.fs.tree, g.name, f.name) && f.instance != "" && f.parent == g
    ensures IsFunctionName(f.name) && FunctionKeyOf(f.name) == FunctionKey(f.ftype, f.instance)
    ensures f.ms != null ==> f.ms.fs == g.parent.fs && f.ms.g == g.name && f.ms.f == f.name
    ensures f.ms != null <==> f.ftype == MassStorage
  {
    assert GadgetOk(g, g.parent.fs.tree[g.name]);
    assert FunctionOk(g, f, g.parent.fs.tree[g.name]);
    FunctionKeyIs(f.ftype, f.instance);
  }

  /** The exporter of the function's type. */
  method ExportFunctionAttrs(f: Function) returns (ret: int, ms: seq<Member>)
    requires Live(f.parent) && f in f.parent.functions && Ready(f)
    modifies f.ms, f.parent.parent.fs`faults
    ensures ret <= 0
    ensures old(f.parent.parent.fs.Quiet()) ==> f.parent.parent.fs.Quiet()
    ensures HasFunction(f.parent.parent.fs.tree, f.parent.name, f.name)
    ensures old(f.parent.parent.fs.Quiet()) ==>
      var r := ExportAttrsOf(f.ftype, f.parent.parent.fs.tree[f.parent.name].functions[f.name]);
      ret == Code(r) && (ret == 0 ==> r == Ok(ms))
  {
    hide State.Agrees, ExportMs, ExportFrom;
    var g := f.parent;
    ms := [];
    FunctionNamed(g, f);
    if f.ms != null {
      ret, ms := f.ms.Export();
    } else {
      match AttrTable(f.ftype)
      case None => ret := NOT_SUPPORTED;
      case Some(table) => ret, ms := ExportAttrs(g.parent.fs, FunctionDir(g.name, f.name), table);
    }
  }

  /** `usbg_export_function_prep`. */
  method ExportFunctionBody(f: Function) returns (ret: int, ms: seq<Member>)
    requires Live(f.parent) && f in f.parent.functions && Ready(f)
    modifies f.ms, f.parent.parent.fs`faults
    ensures ret <= 0
    ensures old(f.parent.parent.fs.Quiet()) ==> f.parent.parent.fs.Quiet()
    ensures HasFunction(f.parent.parent.fs.tree, f.parent.name, f.name)
    ensures old(f.parent.parent.fs.Quiet()) ==>
      var r := Schemes.ExportFunction(f.ftype, f.parent.parent.fs.tree[f.parent.name].functions[f.name]);
      ret == Code(r) && (ret == 0 ==> r == Ok(ms))
  {
    hide State.Agrees, ExportAttrsOf, ExportIfaces;
    ret, ms := ExportFunctionAttrs(f);
    if ret != 0 { return; }
    var descs;
    ret, descs := ExportIfaceList(f.parent.parent.fs, f.parent.name, f.name, IfaceNames(f.ftype));
    IfacesSupported(IfaceNames(f.ftype), f.parent.parent.fs.tree[f.parent.name].functions[f.name].ifaces);
    // the descriptors are optional
    if ret == NOT_SUPPORTED { ret := 0; }
    ms := [Member("type", SStr(TypeName(f.ftype))), Member("attrs", SGroup(ms)), Member("os_descs", SList(descs))];
  }

  lemma {:induction false} IfacesSupported(names: seq<string>, ifaces: IfaceMap)
    ensures ExportIfaces(names, ifaces) != Err(NOT_SUPPORTED)
  {
    hide ReadStringsFrom;
    if names != [] {
      IfacesSupported(names[1..], ifaces);
      if names[0] in ifaces { ReadTwo(ifaces[names[0]]); }
    }
  }

  /** One round: the function's group, under its own label or the generated one. */
  method ExportOneFunction(f: Function, ms: seq<Member>, ghost labels: Labels, ghost rest: seq<string>)
    returns (ret: int, more: seq<Member>)
    requires Live(f.parent) && f in f.parent.functions && Ready(f)
    requires (f.name in labels <==> f.lbl.Some?) && (f.lbl.Some? ==> labels[f.name] == f.lbl.value)
    requires forall n <- rest :: n in f.parent.parent.fs.tree[f.parent.name].functions && IsFunctionName(n)
    modifies f.ms, f.parent.parent.fs`faults
    ensures ret <= 0
    ensures old(f.parent.parent.fs.Quiet()) ==> f.parent.parent.fs.Quiet()
    ensures HasFunction(f.parent.parent.fs.tree, f.parent.name, f.name) && IsFunctionName(f.name)
    ensures old(f.parent.parent.fs.Quiet()) ==>
      var k := f.parent.parent.fs.tree[f.parent.name];
      var r := ExportFunctions([f.name] + rest, k, labels, ms);
      if ret == 0 then r == ExportFunctions(rest, k, labels, more) else r == Err(ret)
  {
    hide State.Agrees, Schemes.ExportFunction, MsFunction.InSync, ValidSettingName, GeneratedLabel, Find;
    FunctionNamed(f.parent, f);
    ghost var names := [f.name] + rest;
    assert names[0] == f.name && names[1..] == rest;
    more := ms;
    var lbl;
    if f.lbl.Some? {
      lbl := f.lbl.value;
    } else {
      lbl := GeneratedLabel(f.ftype, f.instance);
      if |lbl| >= MAX_NAME { return OTHER_ERROR, ms; }
    }
    if Find(ms, lbl).Some? || !ValidSettingName(lbl) { return NO_MEM, ms; }
    var body;
    ret, body := ExportFunctionBody(f);
    if ret != 0 { return; }
    more := ms + [FunctionMember(lbl, f.instance, body)];
  }

  /** `usbg_export_gadget_functions`. */
  method ExportGadgetFunctions(g: Gadget, ghost labels: Labels) returns (ret: int, ms: seq<Member>)
    requires Live(g) && LabelsOf(g.functions, labels) && forall f <- g.functions :: Ready(f)
    modifies set f <- g.functions | f.ms != null :: f.ms, g.parent.fs`faults
    ensures ret <= 0 && g.name in g.parent.fs.tree
    ensures forall n <- FunctionNameList(g.functions) :: n in g.parent.fs.tree[g.name].functions && IsFunctionName(n)
    ensures old(g.parent.fs.Quiet()) ==> g.parent.fs.Quiet()
    ensures old(g.parent.fs.Quiet()) ==>
      var r := ExportFunctions(FunctionNameList(g.functions), g.parent.fs.tree[g.name], labels, []);
      ret == Code(r) && (ret == 0 ==> r == Ok(ms))
  {
    hide State.Agrees, ExportFunctions, MsFunction.InSync, Ready, LabelsOf, IsFunctionName, FunctionNameList;
    AllNamed(g);
    ghost var k := g.parent.fs.tree[g.name];
    ghost var names := FunctionNameList(g.functions);
    FunctionsApart(g);
    ghost var whole := ExportFunctions(names, k, labels, []);
    ret, ms := 0, [];
    var i := 0;
    assert names[0..] == names;
    while i < |g.functions|
      invariant 0 <= i <= |g.functions| && ret == 0
      invariant forall j :: i <= j < |g.functions| ==> Ready(g.functions[j])
      invariant old(g.parent.fs.Quiet()) ==> g.parent.fs.Quiet() && ExportFunctions(names[i..], k, labels, ms) == whole
    {
      var f := g.functions[i];
      assert names[i..] == [f.name] + names[i + 1..];
      FunctionOfGadget(g, f);
      LabelledAs(g.functions, labels, f);
      BelowIrreflexive(f.name);
      assert forall j | i < j < |g.functions| :: g.functions[j] != f && (f.ms == null || g.functions[j].ms != f.ms);
      ret, ms := ExportOneFunction(f, ms, labels, names[i + 1..]);
      if ret != 0 { return; }
      i := i + 1;
    }
    NothingToExport(k, labels, ms);
  }

  lemma NothingToExport(k: KGadget, labels: Labels, ms: seq<Member>)
    ensures ExportFunctions([], k, labels, ms) == Ok(ms)
  {}

  lemma LabelledAs(fns: seq<Function>, labels: Labels, f: Function)
    requires LabelsOf(fns, labels) && f in fns
    ensures (f.name in labels <==> f.lbl.Some?) && (f.lbl.Some? ==> labels[f.name] == f.lbl.value)
  {}

  lemma FunctionOfGadget(g: Gadget, f: Function)
    requires Live(g) && f in g.functions
    ensures f.parent == g && (f.ms != null ==> f.ms.fs == g.parent.fs)
  {
    FunctionNamed(g, f);
  }

  lemma AllNamed(g: Gadget)
    requires Live(g)
    ensures g.name in g.parent.fs.tree
    ensures forall n <- FunctionNameList(g.functions) :: n in g.parent.fs.tree[g.name].functions && IsFunctionName(n)
  {
    forall f | f in g.functions ensures f.name in g.parent.fs.tree[g.name].functions && IsFunctionName(f.name) {
      FunctionNamed(g, f);
    }
  }

  // ----- configurations

  /** What the walk over a configuration relies on. */
  lemma ConfigNamed(g: Gadget, c: Config)
    requires Live(g) && c in g.configs
    ensures c.parent == g && HasConfig(g.parent.fs.tree, g.name, c.name) && 1 <= c.id <= 255
    ensures IsConfigName(c.name) && ConfigKeyOf(c.name) == ConfigKey(c.lbl, c.id)
    ensures var links := g.parent.fs.tree[g.name].configs[c.name].links;
      LinksNamed(g.parent.fs.tree[g.name].configs[c.name]) && BindingNameList(c.bindings) == SortedNames(links.Keys) &&
      forall b <- c.bindings :: b.name in links && links[b.name] == b.target.name && b.target in g.functions
  {
    var k := g.parent.fs.tree[g.name];
    assert GadgetOk(g, k);
    assert ConfigOk(g, c, k) && BindingsOk(c, c.bindings, g.functions, k.configs[c.name]);
    ConfigKeyIs(c.lbl, c.id);
    BindingLinks(g, c);
  }

  lemma BindingLinks(g: Gadget, c: Config)
    requires Live(g) && c in g.configs && HasConfig(g.parent.fs.tree, g.name, c.name)
    requires BindingsOk(c, c.bindings, g.functions, g.parent.fs.tree[g.name].configs[c.name])
    ensures var links := g.parent.fs.tree[g.name].configs[c.name].links;
      LinksNamed(g.parent.fs.tree[g.name].configs[c.name]) && BindingNameList(c.bindings) == SortedNames(links.Keys) &&
      forall b <- c.bindings :: b.name in links && links[b.name] == b.target.name && b.target in g.functions
  {
    hide State.Agrees;
    var kc := g.parent.fs.tree[g.name].configs[c.name];
    forall b | b in c.bindings ensures b.name in kc.links && kc.links[b.name] == b.target.name && b.target in g.functions {
      assert BindingOk(c, b, g.functions, kc);
    }
    forall n | n in kc.links ensures IsFunctionName(kc.links[n]) {
      var b :| b in c.bindings && b.name == n;
      assert BindingOk(c, b, g.functions, kc);
      FunctionNamed(g, b.target);
    }
    var names := BindingNameList(c.bindings);
    assert Elements(names) == kc.links.Keys by {
      forall n | n in kc.links.Keys ensures n in Elements(names) {
        var b :| b in c.bindings && b.name == n;
        var i :| 0 <= i < |c.bindings| && c.bindings[i] == b;
        assert names[i] == n;
      }
    }
    SortedUnique(names, SortedKeys(kc.links.Keys));
  }

  lemma NoneExported(links: map<string, string>)
    ensures ExportBindings([], links) == Ok([])
  {}

  /** What the next binding adds to an export. */
  lemma NextBinding(c: Config, names: seq<string>, links: map<string, string>, i: nat)
    requires LiveConfig(c) && names == BindingNameList(c.bindings) && i < |c.bindings|
    requires HasConfig(c.parent.parent.fs.tree, c.parent.name, c.name)
    requires links == c.parent.parent.fs.tree[c.parent.name].configs[c.name].links && forall n <- names :: n in links && IsFunctionName(links[n])
    ensures var b := c.bindings[i]; var lbl := GeneratedLabel(b.target.ftype, b.target.instance);
      ExportBindings(names[i..], links) ==
        if |lbl| >= MAX_NAME then Err(OTHER_ERROR) else Prefixed([BindingGroup(b.name, lbl)], ExportBindings(names[i + 1..], links))
  {
    hide State.Agrees, GeneratedLabel, SortedNames, BindingsOk, LinksNamed, IsConfigName, ConfigKeyOf;
    ConfigNamed(c.parent, c);
    var b := c.bindings[i];
    assert b in c.bindings;
    FunctionNamed(c.parent, b.target);
    assert names[i..][1..] == names[i + 1..] && names[i..][0] == b.name;
  }

  /** `usbg_export_config_bindings`. */
  method ExportBindingList(c: Config) returns (ret: int, elems: seq<Setting>)
    requires LiveConfig(c)
    ensures ret <= 0 && HasConfig(c.parent.parent.fs.tree, c.parent.name, c.name)
    ensures LinksNamed(c.parent.parent.fs.tree[c.parent.name].configs[c.name])
    ensures var links := c.parent.parent.fs.tree[c.parent.name].configs[c.name].links;
      var r := ExportBindings(SortedNames(links.Keys), links);
      ret == Code(r) && (ret == 0 ==> r == Ok(elems))
  {
    hide State.Agrees, GeneratedLabel, SortedNames, ExportBindings, IsFunctionName, BindingGroup;
    var g := c.parent;
    ConfigNamed(g, c);
    ghost var links := g.parent.fs.tree[g.name].configs[c.name].links;
    ghost var names := SortedNames(links.Keys);
    ret, elems := 0, [];
    var i := 0;
    assert names[0..] == names;
    PrefixedNone(ExportBindings(names, links));
    while i < |c.bindings|
      invariant 0 <= i <= |c.bindings| && ret == 0
      invariant ExportBindings(names, links) == Prefixed(elems, ExportBindings(names[i..], links))
    {
      var b := c.bindings[i];
      NextBinding(c, names, links, i);
      var lbl := GeneratedLabel(b.target.ftype, b.target.instance);
      if |lbl| >= MAX_NAME { return OTHER_ERROR, elems; }
      PrefixedStep(elems, BindingGroup(b.name, lbl), ExportBindings(names[i + 1..], links));
      elems := elems + [BindingGroup(b.name, lbl)];
      i := i + 1;
    }
    assert names[i..] == [];
    NoneExported(links);
    PrefixedEnd(elems);
  }

  /** `usbg_export_config_prep`. */
  method ExportConfigBody(c: Config) returns (ret: int, ms: seq<Member>)
    requires LiveConfig(c)
    modifies c.parent.parent.fs`faults
    ensures ret <= 0 && HasConfig(c.parent.parent.fs.tree, c.parent.name, c.name)
    ensures LinksNamed(c.parent.parent.fs.tree[c.parent.name].configs[c.name])
    ensures ret == 0 ==> Schemes.ExportConfig(c.lbl, c.parent.parent.fs.tree[c.parent.name].configs[c.name]) == Ok(ms)
    ensures old(c.parent.parent.fs.Quiet()) ==> c.parent.parent.fs.Quiet()
    ensures old(c.parent.parent.fs.Quiet()) ==>
      ret == Code(Schemes.ExportConfig(c.lbl, c.parent.parent.fs.tree[c.parent.name].configs[c.name]))
  {
    hide State.Agrees, ReadFields, FieldMembers, ExportStrings, ExportBindings, SortedNames;
    var fs := c.parent.parent.fs;
    var g := c.parent.name;
    ConfigNamed(c.parent, c);
    ms := [];
    var r;
    ret, r := GetFields(fs, ConfigDir(g, c.name), CONFIG_TAGS);
    if ret != 0 { return; }
    var strs;
    ret, strs := ExportLangList(fs, ConfigLangs(g, c.name));
    if ret != 0 { return; }
    var bindings;
    ret, bindings := ExportBindingList(c);
    if ret != 0 { return; }
    ms := [Member("name", SStr(c.lbl)), Member("attrs", SGroup(FieldMembers(CONFIG_TAGS, r))),
           Member("strings", SList(strs)), Member("functions", SList(bindings))];
  }

  lemma AllConfigsNamed(g: Gadget)
    requires Live(g)
    ensures g.name in g.parent.fs.tree
    ensures forall n <- ConfigNameList(g.configs) ::
      n in g.parent.fs.tree[g.name].configs && IsConfigName(n) && LinksNamed(g.parent.fs.tree[g.name].configs[n])
  {
    assert GadgetOk(g, g.parent.fs.tree[g.name]);
    forall c | c in g.configs
      ensures c.name in g.parent.fs.tree[g.name].configs && IsConfigName(c.name) && LinksNamed(g.parent.fs.tree[g.name].configs[c.name])
    {
      ConfigNamed(g, c);
    }
  }

  /** What the next configuration adds to an export. */
  lemma NextConfig(names: seq<string>, k: KGadget, i: nat, lbl: string, id: Int)
    requires i < |names| && forall n <- names :: n in k.configs && IsConfigName(n) && LinksNamed(k.configs[n])
    requires ConfigKeyOf(names[i]) == ConfigKey(lbl, id)
    ensures var r := Schemes.ExportConfig(lbl, k.configs[names[i]]);
      if r.Ok? then ExportConfigs(names[i..], k) == Prefixed([ConfigGroup(id, r.value)], ExportConfigs(names[i + 1..], k))
      else ExportConfigs(names[i..], k) == Err(r.code)
  {
    hide Schemes.ExportConfig, LinksNamed, IsConfigName, ConfigKeyOf;
    assert names[i..][1..] == names[i + 1..] && names[i..][0] == names[i];
  }

  lemma NoConfigsExported(k: KGadget)
    ensures ExportConfigs([], k) == Ok([])
  {}

  /** `usbg_export_gadget_configs`. */
  method ExportGadgetConfigs(g: Gadget) returns (ret: int, elems: seq<Setting>)
    requires Live(g)
    modifies g.parent.fs`faults
    ensures ret <= 0 && g.name in g.parent.fs.tree
    ensures forall n <- ConfigNameList(g.configs) ::
      n in g.parent.fs.tree[g.name].configs && IsConfigName(n) && LinksNamed(g.parent.fs.tree[g.name].configs[n])
    ensures ret == 0 ==> ExportConfigs(ConfigNameList(g.configs), g.parent.fs.tree[g.name]) == Ok(elems)
    ensures old(g.parent.fs.Quiet()) ==> g.parent.fs.Quiet()
    ensures old(g.parent.fs.Quiet()) ==> ret == Code(ExportConfigs(ConfigNameList(g.configs), g.parent.fs.tree[g.name]))
  {
    hide State.Agrees, Schemes.ExportConfig, LinksNamed, ExportConfigs, IsConfigName, ConfigGroup;
    AllConfigsNamed(g);
    ghost var k := g.parent.fs.tree[g.name];
    ghost var names := ConfigNameList(g.configs);
    ret, elems := 0, [];
    var i := 0;
    assert names[0..] == names;
    PrefixedNone(ExportConfigs(names, k));
    while i < |g.configs|
      invariant 0 <= i <= |g.configs| && ret == 0
      invariant ExportConfigs(names, k) == Prefixed(elems, ExportConfigs(names[i..], k))
      invariant old(g.parent.fs.Quiet()) ==> g.parent.fs.Quiet()
    {
      var c := g.configs[i];
      ConfigNamed(g, c);
      NextConfig(names, k, i, c.lbl, c.id);
      var ms;
      ret, ms := ExportConfigBody(c);
      if ret != 0 { return; }
      PrefixedStep(elems, ConfigGroup(c.id, ms), ExportConfigs(names[i + 1..], k));
      elems := elems + [ConfigGroup(c.id, ms)];
      i := i + 1;
    }
    assert names[i..] == [];
    NoConfigsExported(k);
    PrefixedEnd(elems);
  }

  // ----- the whole gadget

  /** The id an export of the OS descriptors mentions. */
  function OsDescId(g: Gadget): (r: Option<Int>)
    requires g.osDesc != null ==> IsInt(g.osDesc.id)
    reads g`osDesc
  {
    if g.osDesc != null then Some(g.osDesc.id) else None
  }

  lemma MissingDescs(files: Files)
    ensures ReadOsDescs(files).Err? ==> ReadOsDescs(files) == Err(NOT_FOUND)
  {}

  /** `usbg_export_gadget_prep`. Descriptors that cannot be found are passed over. */
  method ExportGadgetScheme(g: Gadget, ghost labels: Labels) returns (ret: int, root: Setting)
    requires Live(g) && LabelsOf(g.functions, labels) && forall f <- g.functions :: Ready(f)
    requires g.osDesc != null ==> g.osDesc in g.configs && IsInt(g.osDesc.id)
    modifies set f <- g.functions | f.ms != null :: f.ms, g.parent.fs`faults
    ensures ret <= 0 && g.name in g.parent.fs.tree
    ensures forall n <- FunctionNameList(g.functions) :: n in g.parent.fs.tree[g.name].functions && IsFunctionName(n)
    ensures forall n <- ConfigNameList(g.configs) ::
      n in g.parent.fs.tree[g.name].configs && IsConfigName(n) && LinksNamed(g.parent.fs.tree[g.name].configs[n])
    ensures old(g.parent.fs.Quiet()) ==> g.parent.fs.Quiet()
    ensures old(g.parent.fs.Quiet()) ==>
      var r := Schemes.ExportGadget(FunctionNameList(g.functions), ConfigNameList(g.configs), g.parent.fs.tree[g.name],
                                    labels, OsDescId(g));
      ret == Code(r) && (ret == 0 ==> r == Ok(root))
  {
    hide State.Agrees, ReadFields, FieldMembers, ExportStrings, ExportFunctions, ExportConfigs, LinksNamed, ReadOsDescs,
      MsFunction.InSync, OsDescMembers;
    AllNamed(g);
    AllConfigsNamed(g);
    MissingDescs(g.parent.fs.tree[g.name].osDesc);
    var fs := g.parent.fs;
    root := SGroup([]);
    var r, strs, functions, configs;
    ret, r := GetFields(fs, GadgetDir(g.name), GADGET_ATTRS);
    if ret != 0 { return; }
    var e, o := GetOsDescs(fs, g.name);
    if e != 0 && e != NOT_FOUND { return e, root; }
    var osDescs := OsDescMembers(OsDescId(g), if e == 0 then Some(o) else None);
    ret, strs := ExportLangList(fs, GadgetLangs(g.name));
    if ret != 0 { return; }
    ret, functions := ExportGadgetFunctions(g, labels);
    if ret != 0 { return; }
    ret, configs := ExportGadgetConfigs(g);
    if ret != 0 { return; }
    root := GadgetScheme(FieldMembers(GADGET_ATTRS, r), osDescs, strs, functions, configs);
  }
}
