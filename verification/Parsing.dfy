/** Building the handle tree from configfs: `usbg_init`. */
module Parsing {
  import opened Errors
  import opened Text
  import opened Numbers
  import opened Names
  import opened Kernel
  import opened MassStorage
  import opened Handles
  import opened Creation
  import opened Schemes
  import opened UdcLinks

  // ----- functions

  lemma SplitBack(name: string)
    requires SplitFunctionName(name).Ok?
    ensures var key := SplitFunctionName(name).value; FunctionName(key.ftype, key.instance) == name && key.instance != ""
  {
    var dot := FirstIndex(name, '.');
    assert name == name[..dot] + "." + name[dot + 1..];
  }

  /** The handle of a function that was just read from its directory. */
  ghost predicate FunctionParsed(g: Gadget, f: Function, name: string)
    reads f, f.ms
  {
    f.parent == g && f.name == name && f.instance != "" && f.name == FunctionName(f.ftype, f.instance) && f.lbl == None &&
    (f.ms != null <==> f.ftype == MassStorage) &&
    (f.ms != null ==> f.ms.fs == g.parent.fs && f.ms.g == g.name && f.ms.f == f.name) &&
    (f.ms != null ==> !f.ms.initiated && forall k: LunId :: !f.ms.luns[k])
  }

  ghost predicate FunctionsParsed(g: Gadget, fns: seq<Function>, names: seq<string>)
    reads fns, set f <- fns | f.ms != null :: f.ms
  {
    |fns| == |names| && forall i :: 0 <= i < |fns| ==> FunctionParsed(g, fns[i], names[i])
  }

  lemma FunctionsParsedNext(g: Gadget, fns: seq<Function>, names: seq<string>, f: Function, i: nat)
    requires i < |names| && FunctionsParsed(g, fns, names[..i]) && FunctionParsed(g, f, names[i])
    ensures FunctionsParsed(g, fns + [f], names[..i + 1])
  {
    hide FunctionParsed;
    assert names[..i + 1] == names[..i] + [names[i]];
  }

  /** `usbg_parse_functions`. */
  method ParseFunctions(g: Gadget) returns (ret: int)
    requires g.functions == [] && g.name in g.parent.fs.tree
    modifies g`functions, g.parent.fs`faults
    ensures ret <= 0
    ensures forall f <- g.functions :: fresh(f) && (f.ms != null ==> fresh(f.ms))
    ensures ret == 0 ==> FunctionsParsed(g, g.functions, SortedKeys(g.parent.fs.tree[g.name].functions.Keys))
    ensures old(g.parent.fs.Quiet()) ==> g.parent.fs.Quiet()
    ensures old(g.parent.fs.Quiet()) ==> (ret == 0 <==> forall n <- g.parent.fs.tree[g.name].functions :: SplitFunctionName(n).Ok?)
  {
    hide SplitFunctionName, FunctionName, FunctionsParsed, SortedKeys;
    ghost var keys := g.parent.fs.tree[g.name].functions.Keys;
    var names;
    ret, names := g.parent.fs.Scandir(Functions(g.name));
    if ret != 0 { return; }
    assert forall n <- keys :: n in Elements(names);
    assert FunctionsParsed(g, [], names[..0]) by { NoFunctions(g, names); }
    var i := 0;
    while i < |names|
      invariant 0 <= i <= |names| && ret == 0
      invariant forall f <- g.functions :: fresh(f) && (f.ms != null ==> fresh(f.ms))
      invariant FunctionsParsed(g, g.functions, names[..i])
      invariant forall j :: 0 <= j < i ==> SplitFunctionName(names[j]).Ok?
      invariant old(g.parent.fs.Quiet()) ==> g.parent.fs.Quiet()
    {
      var r := SplitFunctionInstanceType(names[i]);
      if r.Err? {
        assert names[i] in Elements(names);
        return r.code;
      }
      SplitBack(names[i]);
      var f := new Function(g, r.value.ftype, r.value.instance);
      FunctionsParsedNext(g, g.functions, names, f, i);
      g.functions := g.functions + [f];
      i := i + 1;
    }
    assert names[..i] == names;
  }

  lemma NoFunctions(g: Gadget, names: seq<string>)
    ensures FunctionsParsed(g, [], names[..0])
  {}

  lemma ParsedFunctionsOk(g: Gadget, k: KGadget)
    requires FunctionsParsed(g, g.functions, SortedKeys(k.functions.Keys))
    ensures forall f <- g.functions :: FunctionOk(g, f, k) && f.lbl == None
    ensures forall i, j :: 0 <= i < j < |g.functions| ==> Below(g.functions[i].name, g.functions[j].name)
    ensures FunctionNames(g.functions) == k.functions.Keys
  {
    hide FunctionName;
    var names := SortedKeys(k.functions.Keys);
    forall f | f in g.functions ensures FunctionOk(g, f, k) && f.lbl == None {
      var i :| 0 <= i < |g.functions| && g.functions[i] == f;
      assert names[i] in Elements(names);
    }
    forall n | n in k.functions.Keys ensures n in FunctionNames(g.functions) {
      assert n in Elements(names);
      var i :| 0 <= i < |names| && names[i] == n;
      assert g.functions[i] in g.functions;
    }
  }

  // ----- bindings and configurations

  /** The shape the kernel and the library's naming give a gadget: configuration names end in distinct ids,
      a configuration links to each function of the gadget at most once, and the link in `os_desc` bears the name
      of its configuration. */
  ghost predicate Canonical(k: KGadget) {
    (forall n <- k.configs :: IsConfigName(n)) &&
    (forall n, m | n in k.configs && m in k.configs && ConfigKeyOf(n).id == ConfigKeyOf(m).id :: n == m) &&
    (forall n <- k.configs :: TargetsApart(k.configs[n].links, k.functions.Keys)) &&
    (k.osLinks == map[] || exists c <- k.configs :: k.osLinks == map[c := c])
  }

  ghost predicate TargetsApart(links: map<string, string>, functions: set<string>) {
    (forall n <- links :: links[n] in functions) &&
    forall n, m | n in links && m in links && links[n] == links[m] :: n == m
  }

  ghost predicate BindingsParsed(c: Config, bs: seq<Binding>, fns: seq<Function>, names: seq<string>, links: map<string, string>) {
    |bs| == |names| && forall i :: 0 <= i < |bs| ==> BindingParsed(c, bs[i], fns, names[i], links)
  }

  ghost predicate BindingParsed(c: Config, b: Binding, fns: seq<Function>, name: string, links: map<string, string>) {
    b.parent == c && b.name == name && b.target in fns && name in links && links[name] == b.target.name
  }

  lemma BindingsParsedNext(c: Config, bs: seq<Binding>, fns: seq<Function>, names: seq<string>, links: map<string, string>, b: Binding, i: nat)
    requires i < |names| && BindingsParsed(c, bs, fns, names[..i], links) && BindingParsed(c, b, fns, names[i], links)
    ensures BindingsParsed(c, bs + [b], fns, names[..i + 1], links)
  {
    hide BindingParsed;
    assert names[..i + 1] == names[..i] + [names[i]];
  }

  lemma NoBindings(c: Config, fns: seq<Function>, names: seq<string>, links: map<string, string>)
    ensures BindingsParsed(c, [], fns, names[..0], links)
  {}

  lemma ParsedBindingsOk(c: Config, fns: seq<Function>, k: KConfig, functions: set<string>)
    requires BindingsParsed(c, c.bindings, fns, SortedKeys(k.links.Keys), k.links) && TargetsApart(k.links, functions)
    ensures BindingsOk(c, c.bindings, fns, k)
  {
    var names := SortedKeys(k.links.Keys);
    var bs := c.bindings;
    forall b | b in bs ensures BindingOk(c, b, fns, k) {
      var i :| 0 <= i < |bs| && bs[i] == b;
      assert BindingParsed(c, b, fns, names[i], k.links);
    }
    forall i, j | 0 <= i < j < |bs| ensures Below(bs[i].name, bs[j].name) && bs[i].target != bs[j].target {
      BelowIrreflexive(names[i]);
      assert BindingParsed(c, bs[i], fns, names[i], k.links) && BindingParsed(c, bs[j], fns, names[j], k.links);
    }
    forall n | n in k.links.Keys ensures n in (set b <- bs :: b.name) {
      assert n in Elements(names);
      var i :| 0 <= i < |names| && names[i] == n;
      assert BindingParsed(c, bs[i], fns, names[i], k.links) && bs[i] in bs;
    }
  }

  /** What the names of the functions that were read promise. */
  ghost predicate FunctionsNamed(fns: seq<Function>) {
    forall f <- fns :: f.instance != "" && f.name == FunctionName(f.ftype, f.instance)
  }

  /** A link's target is found among the functions that were read. */
  lemma TargetKnown(fns: seq<Function>, name: string)
    requires FunctionsNamed(fns) && name in FunctionNames(fns)
    ensures SplitFunctionName(name).Ok?
    ensures var key := SplitFunctionName(name).value; exists f <- fns :: f.ftype == key.ftype && f.instance == key.instance
  {
    hide FunctionName, SplitFunctionName;
    var f :| f in fns && f.name == name;
    FunctionNameParses(f.ftype, f.instance);
  }

  /** `usbg_parse_config_binding`. */
  method ParseBinding(c: Config, name: string) returns (ret: int, b: Binding?)
    requires HasConfig(c.parent.parent.fs.tree, c.parent.name, c.name) && FunctionsNamed(c.parent.functions)
    requires name in c.parent.parent.fs.tree[c.parent.name].configs[c.name].links
    modifies c.parent.parent.fs`faults
    ensures ret <= 0
    ensures ret == 0 ==> b != null && fresh(b)
    ensures ret == 0 ==>
      BindingParsed(c, b, c.parent.functions, name, c.parent.parent.fs.tree[c.parent.name].configs[c.name].links)
    ensures old(c.parent.parent.fs.Quiet()) ==> c.parent.parent.fs.Quiet()
    ensures old(c.parent.parent.fs.Quiet()) ==> var links := c.parent.parent.fs.tree[c.parent.name].configs[c.name].links;
      links[name] in FunctionNames(c.parent.functions) ==> ret == 0
  {
    hide SplitFunctionName, FunctionName, FunctionNames;
    var g := c.parent;
    var fs := g.parent.fs;
    b := null;
    var target;
    ret, target := fs.Readlink(g.name, c.name, name);
    if ret != 0 { return; }
    if target in FunctionNames(g.functions) { TargetKnown(g.functions, target); }
    var r := SplitFunctionInstanceType(target);
    if r.Err? { return r.code, null; }
    var f := GetFunction(g, r.value.ftype, r.value.instance);
    if f == null { return OTHER_ERROR, null; }
    SplitBack(target);
    b := new Binding(c, name, f);
  }

  /** `usbg_parse_config_bindings`. */
  method ParseBindings(c: Config) returns (ret: int)
    requires c.bindings == [] && c.parent.name in c.parent.parent.fs.tree && FunctionsNamed(c.parent.functions)
    modifies c`bindings, c.parent.parent.fs`faults
    ensures ret <= 0
    ensures ret == 0 ==> HasConfig(c.parent.parent.fs.tree, c.parent.name, c.name)
    ensures ret == 0 ==> BindingsRead(c)
    ensures old(c.parent.parent.fs.Quiet()) ==> c.parent.parent.fs.Quiet()
    ensures old(c.parent.parent.fs.Quiet()) ==>
      HasConfig(c.parent.parent.fs.tree, c.parent.name, c.name) && LinksApart(c) ==> ret == 0
  {
    hide FunctionNames, BindingsParsed, BindingParsed, SortedKeys, BindingsOk, FunctionsNamed;
    var g := c.parent;
    var fs := g.parent.fs;
    var names;
    ret, names := fs.Scandir(Links(g.name, c.name));
    if ret != 0 { return; }
    ghost var k := fs.tree[g.name].configs[c.name];
    NoBindings(c, g.functions, names, k.links);
    var i := 0;
    while i < |names|
      invariant 0 <= i <= |names| && ret == 0
      invariant BindingsParsed(c, c.bindings, g.functions, names[..i], k.links)
      invariant old(fs.Quiet()) ==> fs.Quiet()
    {
      assert names[i] in Elements(names);
      var b;
      ret, b := ParseBinding(c, names[i]);
      if ret != 0 { return; }
      BindingsParsedNext(c, c.bindings, g.functions, names, k.links, b, i);
      c.bindings := c.bindings + [b];
      i := i + 1;
    }
    assert names[..i] == names;
    if LinksApart(c) { ParsedBindingsOk(c, g.functions, k, FunctionNames(g.functions)); }
  }

  /** The links of the configuration lead to functions memory knows, to each at most once. */
  ghost predicate LinksApart(c: Config)
    requires HasConfig(c.parent.parent.fs.tree, c.parent.name, c.name)
    reads c.parent`functions, c.parent.parent.fs`tree
  {
    TargetsApart(c.parent.parent.fs.tree[c.parent.name].configs[c.name].links, FunctionNames(c.parent.functions))
  }

  ghost predicate BindingsRead(c: Config)
    requires HasConfig(c.parent.parent.fs.tree, c.parent.name, c.name)
    reads c, c.parent`functions, c.parent.parent.fs`tree
  {
    LinksApart(c) ==> BindingsOk(c, c.bindings, c.parent.functions, c.parent.parent.fs.tree[c.parent.name].configs[c.name])
  }

  // ----- configurations

  /** The handle of a configuration that was just read from its directory. */
  ghost predicate ConfigParsed(g: Gadget, c: Config, name: string, k: KGadget)
    reads c, g`functions
  {
    c.parent == g && 1 <= c.id <= 255 && c.lbl != "" && c.name == ConfigName(c.lbl, c.id) && c.name == name &&
    name in k.configs && BindingsOk(c, c.bindings, g.functions, k.configs[name])
  }

  /** `usbg_parse_config`. A name that ends in id 0 is passed over: `c` is null and the call a success. */
  method ParseConfig(g: Gadget, name: string) returns (ret: int, c: Config?)
    requires g.name in g.parent.fs.tree && FunctionsNamed(g.functions) && name in g.parent.fs.tree[g.name].configs
    requires FunctionNames(g.functions) == g.parent.fs.tree[g.name].functions.Keys
    modifies g.parent.fs`faults
    ensures ret <= 0
    ensures c != null ==> fresh(c) && ret == 0
    ensures ret == 0 && Canonical(g.parent.fs.tree[g.name]) ==> c != null && ConfigParsed(g, c, name, g.parent.fs.tree[g.name])
    ensures old(g.parent.fs.Quiet()) ==> g.parent.fs.Quiet()
    ensures old(g.parent.fs.Quiet()) ==>
      Canonical(g.parent.fs.tree[g.name]) ==> (ret == 0 <==> ConfigKeyOf(name).lbl != "")
  {
    hide SplitConfigName, ConfigName, BindingsOk, FunctionsNamed, FunctionNames, TargetsApart;
    ghost var k := g.parent.fs.tree[g.name];
    c := null;
    if Canonical(k) {
      var key := ConfigKeyOf(name);
      ConfigNameParses(key.lbl, key.id);
    }
    var r := SplitConfigName(name);
    if r.Err? { return r.code, null; }
    if r.value.id == 0 { return 0, null; }
    SplitInRange(name);
    var conf := new Config(g, r.value.lbl, r.value.id);
    ret := ParseBindings(conf);
    if ret == 0 { c := conf; }
  }

  lemma SplitInRange(name: string)
    ensures SplitConfigName(name).Ok? ==> 0 <= SplitConfigName(name).value.id <= 255 && SplitConfigName(name).value.lbl != ""
  {
    hide Strtol, LastIndex;
  }

  ghost predicate ConfigsParsed(g: Gadget, configs: seq<Config>, names: seq<string>, k: KGadget)
    reads configs, g`functions
  {
    |configs| == |names| && forall i :: 0 <= i < |configs| ==> ConfigParsed(g, configs[i], names[i], k)
  }

  lemma ConfigsParsedNext(g: Gadget, configs: seq<Config>, names: seq<string>, k: KGadget, c: Config, i: nat)
    requires i < |names| && ConfigsParsed(g, configs, names[..i], k) && ConfigParsed(g, c, names[i], k)
    ensures ConfigsParsed(g, configs + [c], names[..i + 1], k)
  {
    hide ConfigParsed;
    assert names[..i + 1] == names[..i] + [names[i]];
  }

  lemma CanonicalConfigNames(k: KGadget)
    requires Canonical(k)
    ensures forall n <- k.configs :: IsConfigName(n)
  {}

  lemma NoConfigs(g: Gadget, names: seq<string>, k: KGadget)
    ensures ConfigsParsed(g, [], names[..0], k)
  {}

  /** Names that can be taken apart again: known function types, non-empty instances and labels. */
  ghost predicate Parseable(k: KGadget)
    requires Canonical(k)
  {
    (forall n <- k.functions :: SplitFunctionName(n).Ok?) && forall n <- k.configs :: ConfigKeyOf(n).lbl != ""
  }

  /** `usbg_parse_configs`. */
  method ParseConfigs(g: Gadget) returns (ret: int)
    requires g.configs == [] && g.name in g.parent.fs.tree && FunctionsNamed(g.functions)
    requires FunctionNames(g.functions) == g.parent.fs.tree[g.name].functions.Keys
    modifies g`configs, g.parent.fs`faults
    ensures ret <= 0 && forall c <- g.configs :: fresh(c)
    ensures ret == 0 && Canonical(g.parent.fs.tree[g.name]) ==>
      ConfigsParsed(g, g.configs, SortedKeys(g.parent.fs.tree[g.name].configs.Keys), g.parent.fs.tree[g.name])
    ensures old(g.parent.fs.Quiet()) ==> g.parent.fs.Quiet()
    ensures old(g.parent.fs.Quiet()) && Canonical(g.parent.fs.tree[g.name]) ==>
      (ret == 0 <==> forall n <- g.parent.fs.tree[g.name].configs :: ConfigKeyOf(n).lbl != "")
  {
    hide FunctionsNamed, FunctionNames, ConfigParsed, ConfigsParsed, SortedKeys, IsConfigName, ConfigKeyOf, Canonical;
    ghost var k := g.parent.fs.tree[g.name];
    ghost var good := Canonical(k);
    if good { CanonicalConfigNames(k); }
    var names;
    ret, names := g.parent.fs.Scandir(Configs(g.name));
    if ret != 0 { return; }
    assert forall n <- k.configs :: n in Elements(names);
    NoConfigs(g, names, k);
    var i := 0;
    while i < |names|
      invariant 0 <= i <= |names| && ret == 0
      invariant forall c <- g.configs :: fresh(c)
      invariant good ==> ConfigsParsed(g, g.configs, names[..i], k)
      invariant old(g.parent.fs.Quiet()) && good ==> forall j :: 0 <= j < i ==> names[j] in k.configs && ConfigKeyOf(names[j]).lbl != ""
      invariant old(g.parent.fs.Quiet()) ==> g.parent.fs.Quiet()
    {
      assert names[i] in Elements(names);
      var c;
      ret, c := ParseConfig(g, names[i]);
      if ret != 0 { return; }
      if c != null {
        if good { ConfigsParsedNext(g, g.configs, names, k, c, i); }
        g.configs := g.configs + [c];
      }
      i := i + 1;
    }
    assert names[..i] == names;
  }

  lemma ParsedConfigsOk(g: Gadget, k: KGadget)
    requires Canonical(k) && ConfigsParsed(g, g.configs, SortedKeys(k.configs.Keys), k)
    ensures forall c <- g.configs :: ConfigOk(g, c, k) && BindingsOk(c, c.bindings, g.functions, k.configs[c.name]) && c.lbl != ""
    ensures forall i, j :: 0 <= i < j < |g.configs| ==> Below(g.configs[i].name, g.configs[j].name) && g.configs[i].id != g.configs[j].id
    ensures ConfigNames(g.configs) == k.configs.Keys
  {
    hide BindingsOk, ConfigName, TargetsApart;
    var names := SortedKeys(k.configs.Keys);
    forall c | c in g.configs ensures ConfigOk(g, c, k) && BindingsOk(c, c.bindings, g.functions, k.configs[c.name]) && c.lbl != "" {
      var i :| 0 <= i < |g.configs| && g.configs[i] == c;
      assert ConfigParsed(g, c, names[i], k);
    }
    forall i, j | 0 <= i < j < |g.configs|
      ensures Below(g.configs[i].name, g.configs[j].name) && g.configs[i].id != g.configs[j].id
    {
      var c, d := g.configs[i], g.configs[j];
      assert ConfigParsed(g, c, names[i], k) && ConfigParsed(g, d, names[j], k);
      ConfigKeyIs(c.lbl, c.id);
      ConfigKeyIs(d.lbl, d.id);
      BelowIrreflexive(c.name);
    }
    forall n | n in k.configs.Keys ensures n in ConfigNames(g.configs) {
      assert n in Elements(names);
      var i :| 0 <= i < |names| && names[i] == n;
      assert ConfigParsed(g, g.configs[i], n, k) && g.configs[i] in g.configs;
    }
  }

  // ----- the configuration recorded for the OS descriptors

  /** A configuration with the label and id its directory name says. */
  lemma ConfigByName(configs: seq<Config>, name: string)
    requires name in ConfigNames(configs) && forall c <- configs :: c.name == ConfigName(c.lbl, c.id) && 1 <= c.id <= 255 && c.lbl != ""
    ensures SplitConfigName(name).Ok?
    ensures var key := SplitConfigName(name).value; key.id > 0 && exists c <- configs :: c.id == key.id && c.lbl == key.lbl
    ensures forall c <- configs :: c.id == SplitConfigName(name).value.id && c.lbl == SplitConfigName(name).value.lbl ==> c.name == name
  {
    hide ConfigName, SplitConfigName;
    var c :| c in configs && c.name == name;
    ConfigNameParses(c.lbl, c.id);
  }

  /** `usbg_parse_gadget_os_desc_binding`. */
  method ParseOsDesc(g: Gadget) returns (ret: int)
    requires g.osDesc == null && g.name in g.parent.fs.tree
    modifies g`osDesc, g.parent.fs`faults
    ensures ret <= 0
    ensures ret == 0 && Canonical(g.parent.fs.tree[g.name]) && ConfigsRead(g) ==>
      OsDescOk(g.configs, g.osDesc, g.parent.fs.tree[g.name]) && (g.osDesc == null <==> g.parent.fs.tree[g.name].osLinks == map[])
    ensures old(g.parent.fs.Quiet()) ==> g.parent.fs.Quiet()
    ensures old(g.parent.fs.Quiet()) && Canonical(g.parent.fs.tree[g.name]) && ConfigsRead(g) ==> ret == 0
  {
    hide SplitConfigName, ConfigName, SortedKeys, TargetsApart, IsConfigName, ConfigKeyOf;
    var fs := g.parent.fs;
    ghost var k := fs.tree[g.name];
    ghost var good := Canonical(k) && ConfigsRead(g);
    var names;
    ret, names := fs.Scandir(OsLinks(g.name));
    if ret != 0 { return; }
    assert Elements(names) == k.osLinks.Keys;
    if |names| < 1 { return; }
    assert names[0] in Elements(names);
    if good { OsLinkNamed(k, names[0]); }
    var target;
    ret, target := fs.ReadlinkOsDesc(g.name, names[0]);
    if ret != 0 { return; }
    if good { ConfigByName(g.configs, target); }
    var r := SplitConfigName(target);
    if r.Err? { return r.code; }
    if r.value.id == 0 { return 0; }
    var c := GetConfig(g, r.value.id, Some(r.value.lbl));
    if c == null { return NO_MEM; }
    g.osDesc := c;
  }

  lemma OsLinkNamed(k: KGadget, name: string)
    requires Canonical(k) && name in k.osLinks
    ensures k.osLinks == map[name := name] && name in k.configs
  {
    hide TargetsApart;
    assert k.osLinks != map[];
  }

  /** Memory has the configurations whose directories are there. */
  ghost predicate ConfigsRead(g: Gadget)
    requires g.name in g.parent.fs.tree
    reads g`configs, g.parent.fs`tree
  {
    ConfigNames(g.configs) == g.parent.fs.tree[g.name].configs.Keys &&
    forall c <- g.configs :: c.name == ConfigName(c.lbl, c.id) && 1 <= c.id <= 255 && c.lbl != ""
  }

  // ----- gadgets

  /** Memory mirrors the gadget's directory completely: nothing is missing on either side. */
  ghost predicate GadgetExact(g: Gadget, k: KGadget)
    reads g, set c <- g.configs :: c
  {
    GadgetOk(g, k) && ConfigNames(g.configs) == k.configs.Keys && FunctionNames(g.functions) == k.functions.Keys &&
    (g.osDesc == null <==> k.osLinks == map[])
  }

  /** No function has a label, no LUN bitmap is initialised. */
  ghost predicate Unlabelled(g: Gadget)
    reads g, g.functions, set f <- g.functions | f.ms != null :: f.ms
  {
    forall f <- g.functions :: f.lbl == None && (f.ms != null ==> !f.ms.initiated && forall k: LunId :: !f.ms.luns[k])
  }

  /** The UDC pointer says what the UDC file says. */
  ghost predicate UdcRead(g: Gadget, udcs: seq<Udc>, name: string)
    reads g`udc
  {
    if g.udc != null then g.udc in udcs && g.udc.name == name else forall u <- udcs :: u.name != name
  }

  lemma ParsedUnlabelled(g: Gadget, names: seq<string>)
    requires FunctionsParsed(g, g.functions, names)
    ensures Unlabelled(g) && FunctionsNamed(g.functions)
  {
    hide FunctionName;
    forall f | f in g.functions ensures exists i :: 0 <= i < |names| && FunctionParsed(g, f, names[i]) {
      var i :| 0 <= i < |g.functions| && g.functions[i] == f;
      assert FunctionParsed(g, f, names[i]);
    }
  }

  lemma ParsedGadgetExact(g: Gadget, k: KGadget)
    requires Canonical(k) && FunctionsParsed(g, g.functions, SortedKeys(k.functions.Keys))
    requires ConfigsParsed(g, g.configs, SortedKeys(k.configs.Keys), k)
    requires OsDescOk(g.configs, g.osDesc, k) && (g.osDesc == null <==> k.osLinks == map[])
    ensures GadgetExact(g, k)
  {
    hide FunctionsParsed, ConfigsParsed, Canonical, SortedKeys, BindingsOk, FunctionOk, ConfigOk;
    ParsedFunctionsOk(g, k);
    ParsedConfigsOk(g, k);
  }

  /** The objects a gadget's lists hold. */
  ghost function Parts(g: Gadget): set<object>
    reads g
  {
    (set c: object | c in g.configs) + (set f: object | f in g.functions) + (set f <- g.functions | f.ms != null :: f.ms as object)
  }

  /** The sections of `usbg_parse_gadget` after the UDC. */
  method ParseContents(g: Gadget) returns (ret: int)
    requires g.functions == [] && g.configs == [] && g.osDesc == null && g.name in g.parent.fs.tree
    modifies g`functions, g`configs, g`osDesc, g.parent.fs`faults
    ensures ret <= 0
    ensures forall c <- g.configs :: fresh(c)
    ensures forall f <- g.functions :: fresh(f) && (f.ms != null ==> fresh(f.ms))
    ensures ret == 0 ==> Unlabelled(g)
    ensures ret == 0 && Canonical(g.parent.fs.tree[g.name]) ==> GadgetExact(g, g.parent.fs.tree[g.name])
    ensures old(g.parent.fs.Quiet()) ==> g.parent.fs.Quiet()
    ensures old(g.parent.fs.Quiet()) && Canonical(g.parent.fs.tree[g.name]) ==> (ret == 0 <==> Parseable(g.parent.fs.tree[g.name]))
  {
    hide FunctionsParsed, ConfigsParsed, Canonical, SortedKeys, GadgetExact, FunctionsNamed, FunctionNames, ConfigNames, SplitFunctionName,
      OsDescOk, ConfigName;
    ghost var k := g.parent.fs.tree[g.name];
    ret := ParseFunctions(g);
    if ret != 0 { return; }
    ParsedFunctionsOk(g, k);
    ParsedUnlabelled(g, SortedKeys(k.functions.Keys));
    ret := ParseConfigs(g);
    if ret != 0 { return; }
    if Canonical(k) { ParsedConfigsOk(g, k); }
    ret := ParseOsDesc(g);
    if ret != 0 { return; }
    if Canonical(k) { ParsedGadgetExact(g, k); }
  }

  /** `usbg_parse_gadget`. */
  method ParseGadget(g: Gadget) returns (ret: int)
    requires g.functions == [] && g.configs == [] && g.osDesc == null && g.udc == null && g.name in g.parent.fs.tree
    modifies g, g.parent.udcs, g.parent.fs`faults
    ensures ret <= 0
    ensures forall c <- g.configs :: fresh(c)
    ensures forall f <- g.functions :: fresh(f) && (f.ms != null ==> fresh(f.ms))
    ensures ret == 0 ==> UdcRead(g, g.parent.udcs, g.parent.fs.tree[g.name].udc)
    ensures ret == 0 ==> forall u <- g.parent.udcs :: u.gadget == if u == g.udc then g else old(u.gadget)
    ensures ret == 0 ==> Unlabelled(g)
    ensures ret == 0 && Canonical(g.parent.fs.tree[g.name]) ==> GadgetExact(g, g.parent.fs.tree[g.name])
    ensures old(g.parent.fs.Quiet()) ==> g.parent.fs.Quiet()
    ensures old(g.parent.fs.Quiet()) && Canonical(g.parent.fs.tree[g.name]) ==> (ret == 0 <==> Parseable(g.parent.fs.tree[g.name]))
  {
    hide Canonical, GadgetExact, Unlabelled, Parseable;
    var udc;
    ret, udc := g.parent.fs.ReadUdc(g.name);
    if ret != 0 { return; }
    g.udc := GetUdc(g.parent, udc);
    if g.udc != null { g.udc.gadget := g; }
    ret := ParseContents(g);
  }

  /** `usbg_parse_udcs`. */
  method ParseUdcs(s: State) returns (ret: int)
    requires s.udcs == []
    modifies s`udcs, s.fs`faults
    ensures ret <= 0
    ensures ret == 0 ==> UdcsListed(s.udcs, SortedKeys(s.fs.udcs))
    ensures forall u <- s.udcs :: fresh(u) && u.parent == s && u.gadget == null
    ensures ret != 0 ==> s.udcs == []
    ensures old(s.fs.Quiet()) ==> s.fs.Quiet() && ret == 0
  {
    hide SortedKeys;
    var names;
    ret, names := s.fs.ScanUdcs();
    if ret != 0 { return; }
    var i := 0;
    while i < |names|
      invariant 0 <= i <= |names| && ret == 0
      invariant UdcsListed(s.udcs, names[..i])
      invariant forall u <- s.udcs :: fresh(u) && u.parent == s && u.gadget == null
      invariant old(s.fs.Quiet()) ==> s.fs.Quiet()
    {
      var u := new Udc(s, names[i]);
      assert names[..i + 1] == names[..i] + [names[i]];
      s.udcs := s.udcs + [u];
      i := i + 1;
    }
    assert names[..i] == names;
  }

  ghost predicate UdcsListed(udcs: seq<Udc>, names: seq<string>) {
    |udcs| == |names| && forall i :: 0 <= i < |udcs| ==> udcs[i].name == names[i]
  }

  /** The rules of configfs the parser relies on, in every gadget. */
  ghost predicate CanonicalTree(t: Tree) { forall n <- t :: Canonical(t[n]) }

  ghost predicate ParseableTree(t: Tree)
    requires CanonicalTree(t)
  {
    forall n <- t :: Parseable(t[n])
  }

  /** A gadget that was just read. */
  ghost predicate GadgetParsed(s: State, g: Gadget, name: string, t: Tree)
    reads g, Parts(g), s`udcs
  {
    g.parent == s && g.name == name && name in t && Unlabelled(g) && UdcRead(g, s.udcs, t[name].udc) &&
    (Canonical(t[name]) ==> GadgetExact(g, t[name]))
  }

  ghost predicate GadgetsParsed(s: State, gadgets: seq<Gadget>, names: seq<string>, t: Tree)
    reads gadgets, set g <- gadgets, o <- Parts(g) :: o, s`udcs
  {
    |gadgets| == |names| && forall i :: 0 <= i < |gadgets| ==> GadgetParsed(s, gadgets[i], names[i], t)
  }

  /** Both directions of the link between gadgets read so far and UDCs. */
  ghost predicate LinksParsed(s: State, t: Tree)
    reads s`gadgets, s`udcs, s.gadgets, s.udcs
  {
    (forall u <- s.udcs :: u.gadget != null ==> u.gadget in s.gadgets && u.gadget.udc == u) &&
    (UdcsExclusive(t) ==> forall g <- s.gadgets :: g.udc != null ==> g.udc in s.udcs && g.udc.gadget == g)
  }

  lemma GadgetsParsedNext(s: State, gadgets: seq<Gadget>, names: seq<string>, t: Tree, g: Gadget, i: nat)
    requires i < |names| && GadgetsParsed(s, gadgets, names[..i], t) && GadgetParsed(s, g, names[i], t)
    ensures GadgetsParsed(s, gadgets + [g], names[..i + 1], t)
  {
    hide GadgetParsed;
    assert names[..i + 1] == names[..i] + [names[i]];
  }

  lemma NoGadgets(s: State, names: seq<string>, t: Tree)
    ensures GadgetsParsed(s, [], names[..0], t)
  {}

  /** The handle of a gadget, which is not in the list yet. */
  method ParseNewGadget(s: State, name: string) returns (ret: int, g: Gadget)
    requires name in s.fs.tree
    modifies s.udcs, s.fs`faults
    ensures ret <= 0 && fresh(g) && forall o <- Parts(g) :: fresh(o)
    ensures ret == 0 ==> GadgetParsed(s, g, name, s.fs.tree)
    ensures ret == 0 ==> forall u <- s.udcs :: u.gadget == if u == g.udc then g else old(u.gadget)
    ensures old(s.fs.Quiet()) ==> s.fs.Quiet()
    ensures old(s.fs.Quiet()) && Canonical(s.fs.tree[name]) ==> (ret == 0 <==> Parseable(s.fs.tree[name]))
  {
    hide Canonical, GadgetExact, Unlabelled, Parseable;
    g := new Gadget(s, name);
    ret := ParseGadget(g);
  }

  /** One round of `usbg_parse_gadgets`: the gadget goes to the end of the list when it could be read. */
  method ParseNextGadget(s: State, names: seq<string>, i: nat) returns (ret: int)
    requires i < |names| && names[i] in s.fs.tree && GadgetsParsed(s, s.gadgets, names[..i], s.fs.tree) && LinksParsed(s, s.fs.tree)
    requires forall u <- s.udcs :: u.parent == s && u.name != ""
    requires forall u <- s.udcs, v <- s.udcs :: u.name == v.name ==> u == v
    requires forall j :: 0 <= j < i ==> names[j] != names[i]
    modifies s`gadgets, s.udcs, s.fs`faults
    ensures ret <= 0
    ensures forall g <- s.gadgets :: g in old(s.gadgets) || (fresh(g) && forall o <- Parts(g) :: fresh(o))
    ensures ret == 0 ==> GadgetsParsed(s, s.gadgets, names[..i + 1], s.fs.tree) && LinksParsed(s, s.fs.tree)
    ensures ret != 0 ==> s.gadgets == old(s.gadgets)
    ensures old(s.fs.Quiet()) ==> s.fs.Quiet()
    ensures old(s.fs.Quiet()) && Canonical(s.fs.tree[names[i]]) ==> (ret == 0 <==> Parseable(s.fs.tree[names[i]]))
  {
    hide Canonical, GadgetExact, Unlabelled, Parseable, UdcsExclusive;
    ghost var gadgets := s.gadgets;
    ghost var t := s.fs.tree;
    var g;
    ret, g := ParseNewGadget(s, names[i]);
    if ret != 0 { return; }
    assert GadgetsParsed(s, gadgets, names[..i], t);
    hide GadgetsParsed, GadgetParsed;
    NobodyElse(s, gadgets, names, t, g, i);
    GadgetsParsedNext(s, gadgets, names, t, g, i);
    s.gadgets := s.gadgets + [g];
  }

  /** With the kernel's rule, no gadget read before has the same UDC. */
  lemma NobodyElse(s: State, gadgets: seq<Gadget>, names: seq<string>, t: Tree, g: Gadget, i: nat)
    requires i < |names| && GadgetsParsed(s, gadgets, names[..i], t) && GadgetParsed(s, g, names[i], t)
    requires forall j :: 0 <= j < i ==> names[j] != names[i]
    requires forall u <- s.udcs :: u.name != ""
    ensures UdcsExclusive(t) && g.udc != null ==> forall h <- gadgets :: h.udc != g.udc
  {
    hide Canonical, GadgetExact, Unlabelled;
    if UdcsExclusive(t) && g.udc != null {
      forall h | h in gadgets ensures h.udc != g.udc {
        var j :| 0 <= j < |gadgets| && gadgets[j] == h;
        assert GadgetParsed(s, h, names[j], t) && GadgetParsed(s, g, names[i], t);
      }
    }
  }

  /** `usbg_parse_gadgets`. */
  method ParseGadgets(s: State) returns (ret: int)
    requires s.gadgets == [] && LinksParsed(s, s.fs.tree)
    requires forall u <- s.udcs :: u.parent == s && u.name != ""
    requires forall u <- s.udcs, v <- s.udcs :: u.name == v.name ==> u == v
    modifies s`gadgets, s.udcs, s.fs`faults
    ensures ret <= 0
    ensures forall g <- s.gadgets :: fresh(g) && forall o <- Parts(g) :: fresh(o)
    ensures ret == 0 ==> GadgetsParsed(s, s.gadgets, SortedKeys(s.fs.tree.Keys), s.fs.tree) && LinksParsed(s, s.fs.tree)
    ensures old(s.fs.Quiet()) ==> s.fs.Quiet()
    ensures old(s.fs.Quiet()) && CanonicalTree(s.fs.tree) ==> (ret == 0 <==> ParseableTree(s.fs.tree))
  {
    hide GadgetsParsed, LinksParsed, Canonical, Parseable, SortedKeys;
    ghost var t := s.fs.tree;
    var names;
    ret, names := s.fs.Scandir(Gadgets);
    if ret != 0 { return; }
    NoGadgets(s, names, t);
    assert forall n <- t :: n in Elements(names);
    var i := 0;
    while i < |names|
      invariant 0 <= i <= |names| && ret == 0 && s.udcs == old(s.udcs) && s.fs.tree == t
      invariant forall g <- s.gadgets :: fresh(g) && forall o <- Parts(g) :: fresh(o)
      invariant GadgetsParsed(s, s.gadgets, names[..i], t) && LinksParsed(s, t)
      invariant old(s.fs.Quiet()) ==> s.fs.Quiet()
      invariant old(s.fs.Quiet()) && CanonicalTree(t) ==> forall j :: 0 <= j < i ==> names[j] in t && Parseable(t[names[j]])
    {
      assert names[i] in Elements(names);
      BelowIrreflexive(names[i]);
      ret := ParseNextGadget(s, names, i);
      if ret != 0 { return; }
      i := i + 1;
    }
    assert names[..i] == names;
  }

  /** The handle tree and configfs mirror each other completely. */
  ghost predicate Exact(s: State)
    reads s`gadgets, s`udcs, s.fs`tree, s.gadgets, set g <- s.gadgets, c <- g.configs :: c
  {
    s.Valid() && (set g <- s.gadgets :: g.name) == s.fs.tree.Keys &&
    forall g <- s.gadgets :: g.name in s.fs.tree && GadgetExact(g, s.fs.tree[g.name]) && UdcRead(g, s.udcs, s.fs.tree[g.name].udc)
  }

  lemma ParsedExact(s: State)
    requires GadgetsParsed(s, s.gadgets, SortedKeys(s.fs.tree.Keys), s.fs.tree) && CanonicalTree(s.fs.tree)
    requires forall u <- s.udcs :: u.parent == s && u.name != ""
    requires forall i, j :: 0 <= i < j < |s.udcs| ==> Below(s.udcs[i].name, s.udcs[j].name)
    ensures Exact(s) && forall g <- s.gadgets :: Unlabelled(g)
  {
    hide GadgetExact, Unlabelled, UdcRead, Canonical, GadgetOk;
    var t := s.fs.tree;
    var names := SortedKeys(t.Keys);
    forall g | g in s.gadgets ensures GadgetParsed(s, g, g.name, t) && GadgetExact(g, t[g.name]) {
      var i :| 0 <= i < |s.gadgets| && s.gadgets[i] == g;
      assert GadgetParsed(s, g, names[i], t);
    }
    forall g | g in s.gadgets ensures GadgetOk(g, t[g.name]) { ExactOk(g, t[g.name]); }
    forall i, j | 0 <= i < j < |s.gadgets| ensures Below(s.gadgets[i].name, s.gadgets[j].name) {
      assert GadgetParsed(s, s.gadgets[i], names[i], t) && GadgetParsed(s, s.gadgets[j], names[j], t);
    }
    forall n | n in t.Keys ensures n in (set g <- s.gadgets :: g.name) {
      assert n in Elements(names);
      var i :| 0 <= i < |names| && names[i] == n;
      assert GadgetParsed(s, s.gadgets[i], names[i], t) && s.gadgets[i] in s.gadgets;
    }
  }

  lemma ExactOk(g: Gadget, k: KGadget)
    requires GadgetExact(g, k)
    ensures GadgetOk(g, k)
  {}

  lemma ListedUdcs(udcs: seq<Udc>, keys: set<string>)
    requires UdcsListed(udcs, SortedKeys(keys)) && "" !in keys
    ensures forall u <- udcs :: u.name != ""
    ensures forall i, j :: 0 <= i < j < |udcs| ==> Below(udcs[i].name, udcs[j].name)
    ensures forall u <- udcs, v <- udcs :: u.name == v.name ==> u == v
  {
    var names := SortedKeys(keys);
    forall u | u in udcs ensures u.name != "" {
      var i :| 0 <= i < |udcs| && udcs[i] == u;
      assert names[i] in Elements(names);
    }
    forall u, v | u in udcs && v in udcs && u != v ensures u.name != v.name {
      NamesDiffer(udcs, (x: Udc) => x.name, u, v);
    }
  }

  /** `usbg_init`. What it builds mirrors configfs completely, and gadgets and UDCs point at each other. */
  method Init(fs: ConfigFs) returns (ret: int, s: State?)
    requires "" !in fs.udcs
    modifies fs`faults
    ensures ret <= 0
    ensures ret == 0 ==> s != null && fresh(s) && s.fs == fs && forall u <- s.udcs :: fresh(u)
    ensures ret == 0 ==> forall g <- s.gadgets :: fresh(g) && forall o <- Parts(g) :: fresh(o)
    ensures ret == 0 && CanonicalTree(fs.tree) ==> Exact(s) && forall g <- s.gadgets :: Unlabelled(g)
    ensures ret == 0 && CanonicalTree(fs.tree) && UdcsExclusive(fs.tree) ==> Matched(s) && UdcsOk(s)
    ensures old(fs.Quiet()) ==> fs.Quiet() && (ret == 0 ==> UdcsListed(s.udcs, SortedKeys(fs.udcs)))
    ensures old(fs.Quiet()) && CanonicalTree(fs.tree) ==> (ret == 0 <==> ParseableTree(fs.tree))
  {
    hide GadgetsParsed, SortedKeys, CanonicalTree, ParseableTree, Exact, Unlabelled, UdcsExclusive;
    s := null;
    // opendir on the directory of gadgets
    ret := fs.Outcome(SUCCESS);
    if ret != 0 { return; }
    var built := new State(fs);
    ret := ParseUdcs(built);
    if ret != 0 && ret != NOT_FOUND && ret != NO_ACCESS { return; }
    if ret == 0 { ListedUdcs(built.udcs, fs.udcs); }
    forall i | 0 <= i < |built.udcs| ensures fresh(built.udcs[i]) {
      assert built.udcs[i] in built.udcs;
    }
    ret := ParseGadgets(built);
    if ret != 0 { return; }
    s := built;
    if CanonicalTree(fs.tree) {
      ParsedExact(s);
      if UdcsExclusive(fs.tree) { ExactLinks(s); }
    }
  }

  lemma ExactLinks(s: State)
    requires Exact(s) && LinksParsed(s, s.fs.tree) && UdcsExclusive(s.fs.tree)
    ensures Matched(s) && UdcsOk(s)
  {
    hide State.Agrees, GadgetExact;
    GadgetNamesDiffer(s);
    UdcNamesDiffer(s);
  }

  // ----- a fresh parse of configfs against a live handle tree

  ghost predicate SameFunctions(a: seq<Function>, b: seq<Function>) {
    |a| == |b| && forall i :: 0 <= i < |a| ==> a[i].name == b[i].name && a[i].ftype == b[i].ftype && a[i].instance == b[i].instance
  }

  ghost predicate SameBindings(a: seq<Binding>, b: seq<Binding>) {
    |a| == |b| && forall i :: 0 <= i < |a| ==> a[i].name == b[i].name && a[i].target.name == b[i].target.name
  }

  ghost predicate SameConfigHandles(c: Config, d: Config)
    reads c, d
  {
    c.lbl == d.lbl && c.id == d.id && SameBindings(c.bindings, d.bindings)
  }

  ghost predicate SameConfigs(a: seq<Config>, b: seq<Config>)
    reads set c <- a :: c, set c <- b :: c
  {
    |a| == |b| && forall i | 0 <= i < |a| && a[i] in a && b[i] in b :: SameConfigHandles(a[i], b[i])
  }

  /** Names, types, ids, binding targets, the recorded configuration, the UDC, and the order of every list. */
  ghost predicate SameHandles(g: Gadget, h: Gadget)
    reads g, h, set c <- g.configs :: c, set c <- h.configs :: c
  {
    g.name == h.name && SameFunctions(g.functions, h.functions) && SameConfigs(g.configs, h.configs) &&
    (if g.osDesc == null then h.osDesc == null else h.osDesc != null && h.osDesc.name == g.osDesc.name) &&
    (if g.udc == null then h.udc == null else h.udc != null && h.udc.name == g.udc.name)
  }

  lemma SameNames<T>(a: seq<T>, b: seq<T>, name: T -> string)
    requires InOrder(a, name) && InOrder(b, name)
    requires (set x <- a :: name(x)) == (set x <- b :: name(x))
    ensures |a| == |b| && forall i :: 0 <= i < |a| ==> name(a[i]) == name(b[i])
  {
    var p := seq(|a|, i requires 0 <= i < |a| => name(a[i]));
    var q := seq(|b|, i requires 0 <= i < |b| => name(b[i]));
    NamesAsElements(a, name, p);
    NamesAsElements(b, name, q);
    SortedUnique(p, q);
    forall i | 0 <= i < |a| ensures name(a[i]) == name(b[i]) { assert p[i] == q[i]; }
  }

  lemma NamesAsElements<T>(a: seq<T>, name: T -> string, p: seq<string>)
    requires |p| == |a| && forall i :: 0 <= i < |a| ==> p[i] == name(a[i])
    ensures Elements(p) == set x <- a :: name(x)
  {
    forall n | n in (set x <- a :: name(x)) ensures n in Elements(p) {
      var x :| x in a && name(x) == n;
      var i :| 0 <= i < |a| && a[i] == x;
      assert p[i] == n;
    }
  }

  lemma NamesByMap(fns: seq<Function>)
    ensures (set f <- fns :: ((x: Function) => x.name)(f)) == FunctionNames(fns)
  {}

  lemma SameFunctionLists(g: Gadget, h: Gadget, k: KGadget)
    requires GadgetExact(g, k) && GadgetExact(h, k)
    ensures SameFunctions(g.functions, h.functions)
  {
    hide FunctionName, BindingsOk, OsDescOk, ConfigOk, FunctionNames;
    var name := (f: Function) => f.name;
    assert forall i, j :: 0 <= i < j < |g.functions| ==> Below(name(g.functions[i]), name(g.functions[j]));
    assert forall i, j :: 0 <= i < j < |h.functions| ==> Below(name(h.functions[i]), name(h.functions[j]));
    NamesByMap(g.functions);
    NamesByMap(h.functions);
    SameNames(g.functions, h.functions, name);
    forall i | 0 <= i < |g.functions|
      ensures g.functions[i].name == h.functions[i].name && g.functions[i].ftype == h.functions[i].ftype && g.functions[i].instance == h.functions[i].instance
    {
      var a, b := g.functions[i], h.functions[i];
      assert FunctionOk(g, a, k) && FunctionOk(h, b, k) && name(a) == name(b);
      FunctionNameInjective(a.ftype, a.instance, b.ftype, b.instance);
    }
  }

  /** The names of a configuration's bindings, in order. */
  lemma BindingsOrdered(c: Config, bs: seq<Binding>, fns: seq<Function>, k: KConfig)
    requires BindingsOk(c, bs, fns, k)
    ensures InOrder(bs, (b: Binding) => b.name)
    ensures (set b <- bs :: ((x: Binding) => x.name)(b)) == k.links.Keys
    ensures forall b <- bs :: b.name in k.links && k.links[b.name] == b.target.name
  {
    assert (set b <- bs :: ((x: Binding) => x.name)(b)) == (set b <- bs :: b.name);
  }

  lemma SameBindingLists(c: Config, bs: seq<Binding>, fns: seq<Function>, d: Config, cs: seq<Binding>, gns: seq<Function>, k: KConfig)
    requires BindingsOk(c, bs, fns, k) && BindingsOk(d, cs, gns, k)
    ensures SameBindings(bs, cs)
  {
    hide BindingsOk, InOrder;
    var name := (b: Binding) => b.name;
    BindingsOrdered(c, bs, fns, k);
    BindingsOrdered(d, cs, gns, k);
    SameNames(bs, cs, name);
    forall i | 0 <= i < |bs| ensures bs[i].name == cs[i].name && bs[i].target.name == cs[i].target.name {
      assert name(bs[i]) == name(cs[i]);
    }
  }

  /** The configurations of a completely mirrored gadget: one for each directory, in order. */
  lemma ConfigsOrdered(g: Gadget, k: KGadget)
    requires GadgetExact(g, k)
    ensures InOrder(g.configs, (c: Config) => c.name)
    ensures (set c <- g.configs :: ((x: Config) => x.name)(c)) == k.configs.Keys
    ensures forall c <- g.configs ::
      c.name == ConfigName(c.lbl, c.id) && 1 <= c.id <= 255 && c.name in k.configs && BindingsOk(c, c.bindings, g.functions, k.configs[c.name])
  {
    hide ConfigName, BindingsOk, OsDescOk, FunctionOk;
    assert (set c <- g.configs :: ((x: Config) => x.name)(c)) == ConfigNames(g.configs);
  }

  lemma SameConfigLists(g: Gadget, h: Gadget, k: KGadget)
    requires GadgetExact(g, k) && GadgetExact(h, k)
    ensures SameConfigs(g.configs, h.configs)
  {
    hide ConfigName, BindingsOk, GadgetExact, SameBindings, InOrder;
    var name := (c: Config) => c.name;
    ConfigsOrdered(g, k);
    ConfigsOrdered(h, k);
    SameNames(g.configs, h.configs, name);
    forall i | 0 <= i < |g.configs| ensures SameConfigHandles(g.configs[i], h.configs[i]) {
      var a, b := g.configs[i], h.configs[i];
      assert a in g.configs && b in h.configs && name(a) == name(b);
      ConfigNameInjective(a.lbl, a.id, b.lbl, b.id);
      SameBindingLists(a, a.bindings, g.functions, b, b.bindings, h.functions, k.configs[a.name]);
    }
  }

  ghost function UdcNames(udcs: seq<Udc>): set<string> { set u <- udcs :: u.name }

  lemma SameGadgetHandles(g: Gadget, h: Gadget, udcs: seq<Udc>, vdcs: seq<Udc>, k: KGadget)
    requires g.name == h.name && GadgetExact(g, k) && GadgetExact(h, k)
    requires UdcRead(g, udcs, k.udc) && UdcRead(h, vdcs, k.udc) && UdcNames(udcs) == UdcNames(vdcs)
    ensures SameHandles(g, h)
  {
    hide SameFunctions, SameConfigs, FunctionOk, BindingsOk, ConfigOk;
    SameFunctionLists(g, h, k);
    SameConfigLists(g, h, k);
    if g.osDesc != null {
      assert k.osLinks.Keys == {g.osDesc.name} && k.osLinks.Keys == {h.osDesc.name};
      assert g.osDesc.name in {h.osDesc.name};
    }
    if g.udc != null {
      assert g.udc.name in UdcNames(udcs) && g.udc.name in UdcNames(vdcs);
      var v :| v in vdcs && v.name == k.udc;
    }
    if h.udc != null {
      assert h.udc.name in UdcNames(vdcs) && h.udc.name in UdcNames(udcs);
      var u :| u in udcs && u.name == k.udc;
    }
  }

  /** The same gadgets, in the same order and with the same handles. */
  ghost predicate SameTrees(a: State, b: State)
    reads a`gadgets, b`gadgets, a.gadgets, b.gadgets, set g <- a.gadgets, c <- g.configs :: c, set g <- b.gadgets, c <- g.configs :: c
  {
    |a.gadgets| == |b.gadgets| && (forall i :: 0 <= i < |a.gadgets| ==> a.gadgets[i].name == b.gadgets[i].name) &&
    forall g <- a.gadgets, h <- b.gadgets | g.name == h.name :: SameHandles(g, h)
  }

  /** Two handle trees that mirror the same configfs completely are the same. */
  lemma ExactTreesAgree(live: State, parsed: State)
    requires live.fs == parsed.fs && Exact(live) && Exact(parsed) && UdcNames(live.udcs) == UdcNames(parsed.udcs)
    ensures SameTrees(live, parsed)
  {
    hide GadgetExact, UdcRead, SameHandles, Exact, InOrder, UdcNames;
    var name := (g: Gadget) => g.name;
    GadgetsOrdered(live);
    GadgetsOrdered(parsed);
    SameNames(live.gadgets, parsed.gadgets, name);
    forall i | 0 <= i < |live.gadgets| ensures live.gadgets[i].name == parsed.gadgets[i].name {
      assert name(live.gadgets[i]) == name(parsed.gadgets[i]);
    }
    forall g, h | g in live.gadgets && h in parsed.gadgets && g.name == h.name ensures SameHandles(g, h) {
      SameGadgetHandles(g, h, live.udcs, parsed.udcs, live.fs.tree[g.name]);
    }
  }

  lemma SameNameSets<T>(a: seq<T>, b: seq<T>, name: T -> string)
    requires |a| == |b| && forall i :: 0 <= i < |a| ==> name(a[i]) == name(b[i])
    ensures (set x <- a :: name(x)) == (set x <- b :: name(x))
  {
    var p := seq(|a|, i requires 0 <= i < |a| => name(a[i]));
    NamesAsElements(a, name, p);
    NamesAsElements(b, name, p);
  }

  lemma SameFunctionNames(a: seq<Function>, b: seq<Function>)
    requires SameFunctions(a, b)
    ensures FunctionNames(a) == FunctionNames(b)
  {
    var name := (f: Function) => f.name;
    NamesByMap(a);
    NamesByMap(b);
    hide FunctionNames;
    SameNameSets(a, b, name);
  }

  lemma ConfigNamesByMap(configs: seq<Config>)
    ensures (set c <- configs :: ((x: Config) => x.name)(c)) == ConfigNames(configs)
  {}

  lemma SameConfigNames(g: Gadget, h: Gadget, k: KGadget)
    requires GadgetOk(g, k) && GadgetOk(h, k) && SameConfigs(g.configs, h.configs)
    ensures ConfigNames(g.configs) == ConfigNames(h.configs)
  {
    var name := (c: Config) => c.name;
    ConfigNamesByMap(g.configs);
    ConfigNamesByMap(h.configs);
    hide ConfigNames, SameBindings, BindingsOk, FunctionOk, OsDescOk, ConfigName;
    forall i | 0 <= i < |g.configs| ensures name(g.configs[i]) == name(h.configs[i]) {
      var c, d := g.configs[i], h.configs[i];
      assert c in g.configs && d in h.configs && SameConfigHandles(c, d);
      assert ConfigOk(g, c, k) && ConfigOk(h, d, k);
    }
    SameNameSets(g.configs, h.configs, name);
  }

  lemma SameUdcRead(g: Gadget, h: Gadget, udcs: seq<Udc>, vdcs: seq<Udc>, name: string)
    requires UdcRead(h, vdcs, name) && UdcNames(udcs) == UdcNames(vdcs) && (g.udc != null ==> g.udc in udcs)
    requires if g.udc == null then h.udc == null else h.udc != null && h.udc.name == g.udc.name
    ensures UdcRead(g, udcs, name)
  {
    forall u | u in udcs ensures u.name in UdcNames(vdcs) { assert u.name in UdcNames(udcs); }
  }

  /** A gadget with the same handles as one that is mirrored completely is mirrored completely. */
  lemma ExactFromSame(g: Gadget, h: Gadget, k: KGadget)
    requires GadgetOk(g, k) && GadgetExact(h, k) && SameHandles(g, h)
    ensures GadgetExact(g, k)
  {
    hide GadgetOk, SameFunctions, SameConfigs, FunctionNames, ConfigNames;
    SameFunctionNames(g.functions, h.functions);
    SameConfigNames(g, h, k);
  }

  lemma GadgetSet(gadgets: seq<Gadget>)
    ensures (set g <- gadgets :: ((x: Gadget) => x.name)(g)) == (set g <- gadgets :: g.name)
  {}

  lemma GadgetsOk(s: State)
    requires s.Valid()
    ensures forall g <- s.gadgets :: g.name in s.fs.tree && GadgetOk(g, s.fs.tree[g.name])
  {
    hide GadgetOk;
  }

  lemma HandlesUdc(g: Gadget, h: Gadget)
    requires SameHandles(g, h)
    ensures if g.udc == null then h.udc == null else h.udc != null && h.udc.name == g.udc.name
  {}

  lemma ExactFromSameTrees(live: State, parsed: State)
    requires live.fs == parsed.fs && live.Valid() && UdcsKnown(live) && Exact(parsed) && SameTrees(live, parsed)
    requires UdcNames(live.udcs) == UdcNames(parsed.udcs)
    ensures Exact(live)
  {
    hide GadgetExact, UdcRead, UdcNames, SameHandles, GadgetOk, State.Agrees;
    SameNameSets(live.gadgets, parsed.gadgets, (g: Gadget) => g.name);
    GadgetSet(live.gadgets);
    GadgetSet(parsed.gadgets);
    GadgetsOk(live);
    forall g | g in live.gadgets
      ensures g.name in live.fs.tree && GadgetExact(g, live.fs.tree[g.name]) && UdcRead(g, live.udcs, live.fs.tree[g.name].udc)
    {
      var i :| 0 <= i < |live.gadgets| && live.gadgets[i] == g;
      var h := parsed.gadgets[i];
      assert SameHandles(g, h);
      ExactFromSame(g, h, live.fs.tree[g.name]);
      HandlesUdc(g, h);
      SameUdcRead(g, h, live.udcs, parsed.udcs, live.fs.tree[g.name].udc);
    }
  }

  /** A live handle tree, which may be what a run of calls has led to, equals what a fresh parse builds (names, types, ids,
      binding targets, UDC links, the recorded configuration, and the order of every list) if and only if it mirrors
      configfs completely. */
  lemma FreshParseAgrees(live: State, parsed: State)
    requires live.fs == parsed.fs && live.Valid() && UdcsKnown(live) && Exact(parsed)
    requires UdcNames(live.udcs) == UdcNames(parsed.udcs)
    ensures SameTrees(live, parsed) <==> Exact(live)
  {
    hide SameTrees, Exact, State.Valid, UdcsKnown, UdcNames;
    if Exact(live) { ExactTreesAgree(live, parsed); }
    if SameTrees(live, parsed) { ExactFromSameTrees(live, parsed); }
  }

  /** The gadgets of a completely mirrored tree: one for each directory, in order. */
  lemma GadgetsOrdered(s: State)
    requires Exact(s)
    ensures InOrder(s.gadgets, (g: Gadget) => g.name)
    ensures (set g <- s.gadgets :: ((x: Gadget) => x.name)(g)) == s.fs.tree.Keys
    ensures forall g <- s.gadgets :: g.name in s.fs.tree && GadgetExact(g, s.fs.tree[g.name]) && UdcRead(g, s.udcs, s.fs.tree[g.name].udc)
  {
    hide GadgetExact, UdcRead, GadgetOk;
    assert (set g <- s.gadgets :: ((x: Gadget) => x.name)(g)) == (set g <- s.gadgets :: g.name);
  }

  /** A tree that memory mirrors completely can be parsed exactly when every configuration has a label. */
  lemma ExactParses(s: State)
    requires Exact(s)
    ensures CanonicalTree(s.fs.tree)
    ensures ParseableTree(s.fs.tree) <==> forall g <- s.gadgets, c <- g.configs :: c.lbl != ""
  {
    hide GadgetExact, Canonical, Parseable, State.Agrees;
    var t := s.fs.tree;
    forall g | g in s.gadgets
      ensures Canonical(t[g.name]) && (Parseable(t[g.name]) <==> forall c <- g.configs :: c.lbl != "")
    {
      GadgetParses(g, t[g.name]);
    }
    forall n | n in t ensures exists g :: g in s.gadgets && g.name == n {
      assert n in (set g <- s.gadgets :: g.name);
    }
  }

  lemma GadgetParses(g: Gadget, k: KGadget)
    requires GadgetExact(g, k)
    ensures Canonical(k)
    ensures Parseable(k) <==> forall c <- g.configs :: c.lbl != ""
  {
    hide ConfigName, FunctionName, SplitFunctionName;
    forall n | n in k.configs
      ensures IsConfigName(n) && TargetsApart(k.configs[n].links, k.functions.Keys)
      ensures exists c <- g.configs :: c.name == n && ConfigKeyOf(n) == ConfigKey(c.lbl, c.id)
    {
      assert n in ConfigNames(g.configs);
      var c :| c in g.configs && c.name == n;
      ConfigKeyIs(c.lbl, c.id);
      BindingTargetsApart(g, c, k);
    }
    forall c | c in g.configs ensures ConfigKeyOf(c.name) == ConfigKey(c.lbl, c.id) && c.name in k.configs {
      ConfigKeyIs(c.lbl, c.id);
    }
    forall n | n in k.functions ensures SplitFunctionName(n).Ok? {
      assert n in FunctionNames(g.functions);
      var f :| f in g.functions && f.name == n;
      FunctionNameParses(f.ftype, f.instance);
    }
    hide BindingsOk;
    if k.osLinks != map[] { assert g.osDesc.name in k.configs && k.osLinks == map[g.osDesc.name := g.osDesc.name]; }
  }

  lemma BindingTargetsApart(g: Gadget, c: Config, k: KGadget)
    requires GadgetExact(g, k) && c in g.configs
    ensures c.name in k.configs && TargetsApart(k.configs[c.name].links, k.functions.Keys)
  {
    hide ConfigName, FunctionName, OsDescOk, BindingsOk, FunctionOk;
    ExactTargets(c, c.bindings, g.functions, k.configs[c.name], k.functions.Keys);
  }

  lemma LinkTargets(c: Config, bs: seq<Binding>, fns: seq<Function>, k: KConfig)
    requires BindingsOk(c, bs, fns, k)
    ensures forall n <- k.links :: exists b <- bs :: b.name == n && k.links[n] == b.target.name && b.target in fns
    ensures forall b <- bs, d <- bs | b.target == d.target :: b == d
  {
    forall n | n in k.links ensures exists b <- bs :: b.name == n && k.links[n] == b.target.name && b.target in fns {
      var b :| b in bs && b.name == n;
      assert BindingOk(c, b, fns, k);
    }
  }

  lemma ExactTargets(c: Config, bs: seq<Binding>, fns: seq<Function>, k: KConfig, functions: set<string>)
    requires BindingsOk(c, bs, fns, k) && FunctionNames(fns) == functions
    requires forall i, j :: 0 <= i < j < |fns| ==> Below(fns[i].name, fns[j].name)
    ensures TargetsApart(k.links, functions)
  {
    hide BindingsOk;
    LinkTargets(c, bs, fns, k);
    forall n, m | n in k.links && m in k.links && k.links[n] == k.links[m] ensures n == m {
      var b :| b in bs && b.name == n && k.links[n] == b.target.name && b.target in fns;
      var d :| d in bs && d.name == m && k.links[m] == d.target.name && d.target in fns;
      if b.target != d.target { NamesDiffer(fns, (x: Function) => x.name, b.target, d.target); }
    }
    forall n | n in k.links ensures k.links[n] in functions {
      var b :| b in bs && b.name == n && k.links[n] == b.target.name && b.target in fns;
      assert b.target.name in FunctionNames(fns);
    }
  }
}
