/** Taking things out of the handle tree: bindings, configurations, functions, whole gadgets, and the link
    to the configuration recorded for the OS descriptors. */
module Removal {
  import opened Errors
  import opened Text
  import opened Names
  import opened Kernel
  import opened MassStorage
  import opened Handles

  lemma BindingStays(c: Config, b: Binding, fns: seq<Function>, kc: KConfig, gone: string)
    requires BindingOk(c, b, fns, kc) && b.name != gone
    ensures BindingOk(c, b, fns, kc.(links := kc.links - {gone}))
  {}

  lemma BindingRemoved(c: Config, bs: seq<Binding>, fns: seq<Function>, kc: KConfig, b: Binding)
    requires BindingsOk(c, bs, fns, kc) && b in bs
    ensures BindingsOk(c, Without(bs, b), fns, kc.(links := kc.links - {b.name}))
  {
    BelowIrreflexive(b.name);
    WithoutPairwise(bs, b, (x: Binding, y: Binding) => Below(x.name, y.name) && x.target != y.target);
    hide BindingOk;
    forall x | x in Without(bs, b) ensures x.name != b.name && BindingOk(c, x, fns, kc.(links := kc.links - {b.name})) {
      NamesDiffer(bs, (y: Binding) => y.name, x, b);
      BindingStays(c, x, fns, kc, b.name);
    }
  }

  /** `usbg_rm_binding`. */
  method RmBinding(b: Binding) returns (ret: int)
    requires LiveBinding(b)
    modifies b.parent`bindings, b.parent.parent.parent.fs
    ensures ret <= 0 && LiveConfig(b.parent)
    ensures var c := b.parent; var g := c.parent; var t := old(g.parent.fs.tree);
      if ret == 0 then
        c.bindings == Without(old(c.bindings), b) && g.parent.fs.tree == AfterUnlink(t, g.name, c.name, b.name)
      else
        c.bindings == old(c.bindings) && g.parent.fs.tree == t
    ensures old(b.parent.parent.parent.fs.Quiet()) ==> b.parent.parent.parent.fs.Quiet() && ret == 0
  {
    var c := b.parent;
    var fs := c.parent.parent.fs;
    ghost var kc := fs.tree[c.parent.name].configs[c.name];
    assert BindingsOk(c, c.bindings, c.parent.functions, kc);
    ret := fs.Unlink(c.parent.name, c.name, b.name);
    if ret != 0 { return; }
    BindingRemoved(c, c.bindings, c.parent.functions, kc, b);
    c.bindings := Without(c.bindings, b);
    hide *;
    OneConfigChanged(c);
  }

  // ----- the configuration recorded for the OS descriptors

  /** `usbg_set_os_desc_config`. Clearing removes the link and leaves the recorded configuration in place. */
  method SetOsDescConfig(g: Gadget, c: Config?) returns (ret: int)
    requires Live(g) && (c != null ==> c in g.configs)
    modifies g`osDesc, g.parent.fs
    ensures ret <= 0 && Live(g)
    ensures var t := old(g.parent.fs.tree); var kg := t[g.name];
      if ret != 0 then g.osDesc == old(g.osDesc) && g.parent.fs.tree == t
      else if c != null then
        old(g.osDesc) == null && g.osDesc == c && g.parent.fs.tree == t[g.name := kg.(osLinks := map[c.name := c.name])]
      else
        g.osDesc == old(g.osDesc) && kg.osLinks != map[] && g.parent.fs.tree == t[g.name := kg.(osLinks := map[])]
    ensures old(g.parent.fs.Quiet()) ==> g.parent.fs.Quiet()
    ensures old(g.parent.fs.Quiet()) ==>
      ret == (if c != null then if old(g.osDesc) != null then EXIST else SUCCESS
              else if old(g.parent.fs.tree)[g.name].osLinks == map[] then NOT_FOUND else SUCCESS)
  {
    var fs := g.parent.fs;
    assert GadgetOk(g, fs.tree[g.name]);
    OnlyGadgetReflexive(fs.tree, g.name);
    if c != null {
      if g.osDesc != null { return EXIST; }
      assert ConfigOk(g, c, fs.tree[g.name]);
      ret := fs.SymlinkOsDesc(ConfigDir(g.name, c.name), g.name, c.name);
      if ret == 0 { g.osDesc := c; }
    } else {
      ret := RmOsDescLink(g);
    }
    OsDescOnly(g);
    OneGadgetChanged(g);
  }

  method RmOsDescLink(g: Gadget) returns (ret: int)
    requires Live(g)
    modifies g.parent.fs
    ensures ret <= 0
    ensures var t := old(g.parent.fs.tree); var kg := t[g.name];
      if ret != 0 then g.parent.fs.tree == t
      else kg.osLinks != map[] && g.parent.fs.tree == t[g.name := kg.(osLinks := map[])]
    ensures old(g.parent.fs.Quiet()) ==> g.parent.fs.Quiet()
    ensures old(g.parent.fs.Quiet()) ==>
      ret == if old(g.parent.fs.tree)[g.name].osLinks == map[] then NOT_FOUND else SUCCESS
  {
    var fs := g.parent.fs;
    assert GadgetOk(g, fs.tree[g.name]);
    hide GadgetOk;
    var names;
    ret, names := fs.Scandir(OsLinks(g.name));
    if ret != 0 { return; }
    assert Elements(names) == fs.tree[g.name].osLinks.Keys;
    if |names| < 1 { return NOT_FOUND; }
    assert names[0] in Elements(names);
    ret := fs.UnlinkOsDesc(g.name, names[0]);
  }

  twostate lemma OsDescOnly(g: Gadget)
    requires old(Live(g)) && unchanged(g`functions) && unchanged(g`configs) && forall c <- g.configs :: unchanged(c)
    requires OnlyGadget(old(g.parent.fs.tree), g.parent.fs.tree, g.name)
    requires var l := g.parent.fs.tree[g.name].osLinks; g.parent.fs.tree[g.name] == old(g.parent.fs.tree[g.name]).(osLinks := l)
    requires OsDescOk(g.configs, g.osDesc, g.parent.fs.tree[g.name])
    ensures GadgetOk(g, g.parent.fs.tree[g.name])
  {
    var k := old(g.parent.fs.tree[g.name]);
    assert old(GadgetOk(g, k));
    hide BindingsOk, OsDescOk;
    FunctionsStay(g, g.functions, k, g.parent.fs.tree[g.name]);
  }

  // ----- removal of a configuration

  /** Everything a recursive removal may have done to a configuration before it stopped. */
  ghost predicate Stripped(k: KConfig, l: KConfig) {
    l.files == k.files && SubMap(l.langs, k.langs) && SubMap(l.links, k.links)
  }

  /** All that a recursive removal of a configuration may have changed when it stops early;
      `recorded`: it is the one recorded for the OS descriptors. */
  ghost predicate PartlyStripped(t: Tree, u: Tree, g: string, c: string, recorded: bool) {
    HasConfig(t, g, c) && HasConfig(u, g, c) && Stripped(t[g].configs[c], u[g].configs[c]) &&
    u == WithConfigAndOsLinks(t, g, c, u[g].configs[c], u[g].osLinks) &&
    (u[g].osLinks == t[g].osLinks || (recorded && u[g].osLinks == map[]))
  }

  /** Removes the bindings of a configuration from the front. */
  method RmAllBindings(c: Config) returns (ret: int)
    requires LiveConfig(c)
    modifies c`bindings, c.parent.parent.fs
    ensures ret <= 0 && LiveConfig(c)
    ensures Suffix(c.bindings, old(c.bindings))
    ensures ret == 0 ==> c.bindings == []
    ensures var t := old(c.parent.parent.fs.tree); var u := c.parent.parent.fs.tree;
      HasConfig(t, c.parent.name, c.name) && HasConfig(u, c.parent.name, c.name) &&
      SubMap(u[c.parent.name].configs[c.name].links, t[c.parent.name].configs[c.name].links) &&
      u == WithLinks(t, c.parent.name, c.name, u[c.parent.name].configs[c.name].links) &&
      (ret == 0 ==> u[c.parent.name].configs[c.name].links == map[])
    ensures old(c.parent.parent.fs.Quiet()) ==> c.parent.parent.fs.Quiet() && ret == 0
  {
    var g := c.parent;
    var fs := g.parent.fs;
    ConfigExists(c);
    WithLinksSame(fs.tree, g.name, c.name);
    ghost var bs := c.bindings;
    ret := 0;
    hide GadgetOk, BindingsOk, Live, LiveConfig, LiveBinding, WithLinks, Without;
    while c.bindings != []
      invariant ret == 0 && LiveConfig(c)
      invariant Suffix(c.bindings, bs)
      invariant HasConfig(fs.tree, g.name, c.name)
      invariant SubMap(fs.tree[g.name].configs[c.name].links, old(fs.tree)[g.name].configs[c.name].links)
      invariant fs.tree == WithLinks(old(fs.tree), g.name, c.name, fs.tree[g.name].configs[c.name].links)
      invariant old(fs.Quiet()) ==> fs.Quiet()
      decreases |c.bindings|
    {
      var b := c.bindings[0];
      ghost var links := fs.tree[g.name].configs[c.name].links;
      ConfigExists(c);
      SuffixTail(c.bindings, bs);
      ret := RmBinding(b);
      if ret != 0 { return; }
      WithLinksTwice(old(fs.tree), g.name, c.name, links, links - {b.name});
    }
  }

  /** The recursive part of `usbg_rm_config`: the link in `os_desc`, the bindings, the strings. */
  method StripConfig(c: Config) returns (ret: int)
    requires LiveConfig(c)
    modifies c`bindings, c.parent`osDesc, c.parent.parent.fs
    ensures ret <= 0 && LiveConfig(c) && c.parent.osDesc == old(c.parent.osDesc)
    ensures Suffix(c.bindings, old(c.bindings))
    ensures var g := c.parent; PartlyStripped(old(g.parent.fs.tree), g.parent.fs.tree, g.name, c.name, g.osDesc == c)
    ensures ret == 0 ==> var g := c.parent; var t := old(g.parent.fs.tree); var u := g.parent.fs.tree;
      u[g.name].configs[c.name].links == map[] && u[g.name].configs[c.name].langs == map[] &&
      (g.osDesc == c ==> t[g.name].osLinks != map[] && u[g.name].osLinks == map[])
    ensures old(c.parent.parent.fs.Quiet()) ==> c.parent.parent.fs.Quiet()
    ensures old(c.parent.parent.fs.Quiet()) ==>
      ret == if c.parent.osDesc == c && old(c.parent.parent.fs.tree)[c.parent.name].osLinks == map[] then NOT_FOUND else SUCCESS
  {
    hide GadgetOk, BindingsOk, State.Agrees, LiveBinding, WithConfigAndOsLinks, WithLinks, SetLangs, SetConfig, OnlyGadget, SameShape,
      Suffix;
    var g := c.parent;
    var fs := g.parent.fs;
    ConfigExists(c);
    SuffixReflexive(c.bindings);
    ghost var t := fs.tree;
    WithConfigAndOsLinksSame(t, g.name, c.name);
    ghost var k := t[g.name].configs[c.name];
    ret := 0;
    if g.osDesc == c {
      ret := SetOsDescConfig(g, null);
      if ret != 0 { return; }
      OsLinksReplaceConfig(t, g.name, c.name, map[]);
      WithConfigAndOsLinksTwice(t, g.name, c.name, k, map[], k, map[]);
    }
    ghost var u := fs.tree;
    ghost var o := u[g.name].osLinks;
    ret := RmAllBindings(c);
    ghost var l := fs.tree[g.name].configs[c.name];
    LinksReplaceConfig(u, g.name, c.name, l.links);
    WithConfigAndOsLinksParts(u, g.name, c.name, k.(links := l.links), o);
    WithConfigAndOsLinksTwice(t, g.name, c.name, k, o, l, o);
    if ret != 0 { return; }
    ghost var here := fs.tree;
    ret := RmAllDirs(fs, ConfigLangs(g.name, c.name));
    ghost var m := fs.tree[g.name].configs[c.name];
    LangsReplaceConfig(here, g.name, c.name, m.langs);
    WithConfigAndOsLinksParts(here, g.name, c.name, l.(langs := m.langs), o);
    WithConfigAndOsLinksTwice(t, g.name, c.name, l, o, m, o);
    LangsKeepShape(here, g.name, c.name, m.langs);
    ShapeKept(g, here, fs.tree);
  }

  lemma ConfigsWithout(g: Gadget, fns: seq<Function>, configs: seq<Config>, osDesc: Config?, k: KGadget, c: Config)
    requires PartsOk(g, fns, configs, osDesc, k) && c in configs && c.name !in k.osLinks.Values
    ensures PartsOk(g, fns, Without(configs, c), osDesc, k.(configs := k.configs - {c.name}))
  {
    hide BindingsOk, FunctionOk;
    var l := k.(configs := k.configs - {c.name});
    BelowIrreflexive(c.name);
    WithoutPairwise(configs, c, (x: Config, y: Config) => Below(x.name, y.name) && x.id != y.id);
    FunctionsStay(g, fns, k, l);
    forall d | d in Without(configs, c)
      ensures ConfigOk(g, d, l) && BindingsOk(d, d.bindings, fns, l.configs[d.name])
    {
      NamesDiffer(configs, (x: Config) => x.name, c, d);
    }
    if k.osLinks != map[] {
      assert osDesc.name in k.osLinks && k.osLinks[osDesc.name] in k.osLinks.Values;
    }
  }

  /** `usbg_rm_config` without the recursive flag. */
  method RmConfigDir(c: Config) returns (ret: int)
    requires LiveConfig(c)
    modifies c.parent`configs, c.parent.parent.fs
    ensures ret <= 0 && Live(c.parent)
    ensures var g := c.parent; var t := old(g.parent.fs.tree);
      if ret == 0 then
        RmdirError(t, ConfigDir(g.name, c.name)) == SUCCESS && g.configs == Without(old(g.configs), c) &&
        g.parent.fs.tree == AfterRmdir(t, ConfigDir(g.name, c.name))
      else g.configs == old(g.configs) && g.parent.fs.tree == t
    ensures old(c.parent.parent.fs.Quiet()) ==> c.parent.parent.fs.Quiet()
    ensures old(c.parent.parent.fs.Quiet()) ==>
      ret == RmdirError(old(c.parent.parent.fs.tree), ConfigDir(c.parent.name, c.name))
  {
    var g := c.parent;
    var fs := g.parent.fs;
    ghost var k := fs.tree[g.name];
    ConfigExists(c);
    assert PartsOk(g, g.functions, g.configs, g.osDesc, k) by { assert GadgetOk(g, k); }
    hide PartsOk, GadgetOk, State.Agrees;
    ret := fs.Rmdir(ConfigDir(g.name, c.name));
    if ret != 0 { return; }
    ConfigsWithout(g, g.functions, g.configs, g.osDesc, k, c);
    g.configs := Without(g.configs, c);
    GadgetFromParts(g, fs.tree[g.name]);
    OneGadgetChanged(g);
  }

  /** With the recursive flag, only a stale record stands in the way. */
  function RmConfigCode(t: Tree, g: string, c: string, recurse: bool, recorded: bool): int {
    if !recurse then RmdirError(t, ConfigDir(g, c))
    else if recorded && g in t && t[g].osLinks == map[] then NOT_FOUND
    else SUCCESS
  }

  /** `usbg_rm_config`. Success removes exactly the configuration, with its link in `os_desc`. A failure leaves
      the configuration in its list, with some of its bindings, languages or the link possibly gone already. */
  method RmConfig(c: Config, recurse: bool) returns (ret: int)
    requires LiveConfig(c)
    modifies c`bindings, c.parent`configs, c.parent`osDesc, c.parent.parent.fs
    ensures ret <= 0 && Live(c.parent) && c.parent.osDesc == old(c.parent.osDesc)
    ensures ret == 0 ==> c.parent.configs == Without(old(c.parent.configs), c)
    ensures ret == 0 ==> c.parent.name in old(c.parent.parent.fs.tree)
    ensures ret == 0 ==> var g := c.parent; var t := old(g.parent.fs.tree);
      g.parent.fs.tree == t[g.name := t[g.name].(configs := t[g.name].configs - {c.name},
        osLinks := if recurse && g.osDesc == c then map[] else t[g.name].osLinks)]
    ensures ret == 0 && c.parent.osDesc == c ==>
      (recurse <==> old(c.parent.parent.fs.tree)[c.parent.name].osLinks != map[])
    ensures ret != 0 ==> c.parent.configs == old(c.parent.configs)
    ensures ret != 0 ==> Suffix(c.bindings, old(c.bindings))
    ensures ret != 0 && !recurse ==> c.parent.parent.fs.tree == old(c.parent.parent.fs.tree)
    ensures ret != 0 ==> var g := c.parent;
      PartlyStripped(old(g.parent.fs.tree), g.parent.fs.tree, g.name, c.name, g.osDesc == c)
    ensures old(c.parent.parent.fs.Quiet()) ==> c.parent.parent.fs.Quiet()
    ensures old(c.parent.parent.fs.Quiet()) ==>
      ret == RmConfigCode(old(c.parent.parent.fs.tree), c.parent.name, c.name, recurse, c.parent.osDesc == c)
  {
    var g := c.parent;
    ConfigExists(c);
    ghost var t := g.parent.fs.tree;
    assert g.osDesc == c || c.name !in t[g.name].osLinks.Values by {
      if g.osDesc != c { OnlyRecordedLinked(c); }
    }
    WithConfigAndOsLinksSame(t, g.name, c.name);
    hide PartsOk, GadgetOk, State.Agrees, SetConfig;
    if recurse {
      ret := StripConfig(c);
      if ret != 0 { return; }
      ghost var k := g.parent.fs.tree[g.name].configs[c.name];
      ret := RmConfigDir(c);
      if ret == 0 {
        ReplacedThenRemoved(t, g.name, c.name, k, if g.osDesc == c then map[] else t[g.name].osLinks);
      }
    } else {
      ret := RmConfigDir(c);
    }
  }

  lemma OnlyRecordedLinked(c: Config)
    requires LiveConfig(c) && c.parent.osDesc != c
    ensures c.name !in c.parent.parent.fs.tree[c.parent.name].osLinks.Values
  {
    var g := c.parent;
    var k := g.parent.fs.tree[g.name];
    assert GadgetOk(g, k);
    if k.osLinks != map[] {
      var o: Config := g.osDesc;
      NamesDiffer(g.configs, (x: Config) => x.name, c, o);
      assert k.osLinks.Values == {g.osDesc.name};
    }
  }

  lemma ReplacedThenRemoved(t: Tree, g: string, c: string, k: KConfig, o: map<string, string>)
    requires g in t
    ensures var u := WithConfigAndOsLinks(t, g, c, k, o);
      u[g := u[g].(configs := u[g].configs - {c})] == t[g := t[g].(configs := t[g].configs - {c}, osLinks := o)]
  {
    assert t[g].configs[c := k] - {c} == t[g].configs - {c};
    var u := WithConfigAndOsLinks(t, g, c, k, o);
    UpdateTwice(t, g, u[g], u[g].(configs := u[g].configs - {c}));
  }

  // ----- removal of a function

  /** The bindings that lead elsewhere, in order. */
  ghost function NotTo(bs: seq<Binding>, f: Function): (r: seq<Binding>)
    ensures forall b <- r :: b in bs && b.target != f
    ensures forall b <- bs :: b.target != f ==> b in r
  {
    if bs == [] then [] else (if bs[0].target == f then [] else [bs[0]]) + NotTo(bs[1..], f)
  }

  /** A configuration without the links to a function. */
  function WithoutLinksTo(k: KConfig, f: string): KConfig {
    k.(links := map n | n in k.links && k.links[n] != f :: k.links[n])
  }

  ghost predicate TargetsDistinct(bs: seq<Binding>) {
    forall i, j :: 0 <= i < j < |bs| ==> bs[i].target != bs[j].target
  }

  lemma {:induction false} NotToNone(bs: seq<Binding>, f: Function)
    requires forall b <- bs :: b.target != f
    ensures NotTo(bs, f) == bs
  {
    if bs != [] {
      NotToNone(bs[1..], f);
      assert bs == [bs[0]] + bs[1..];
    }
  }

  /** With one binding to a function at most, leaving out its bindings is taking out that one. */
  lemma {:induction false} NotToOne(bs: seq<Binding>, b: Binding)
    requires TargetsDistinct(bs) && b in bs
    ensures NotTo(bs, b.target) == Without(bs, b)
  {
    if bs[0] == b {
      forall x | x in bs[1..] ensures x.target != b.target {
        var k :| 0 <= k < |bs[1..]| && bs[1..][k] == x;
        assert bs[k + 1] == x;
      }
      NotToNone(bs[1..], b.target);
    } else {
      assert b in bs[1..];
      var k :| 0 <= k < |bs[1..]| && bs[1..][k] == b;
      assert bs[k + 1] == b;
      NotToOne(bs[1..], b);
    }
  }

  lemma ConfigTargetsDistinct(c: Config)
    requires LiveConfig(c)
    ensures TargetsDistinct(c.bindings)
  {
    assert GadgetOk(c.parent, c.parent.parent.fs.tree[c.parent.name]);
  }

  lemma SubMapReflexive(m: map<string, string>)
    ensures SubMap(m, m)
  {}

  lemma SubMapLess(m: map<string, string>, n: string, l: map<string, string>)
    requires SubMap(m, l)
    ensures SubMap(m - {n}, l)
  {}

  /** The traversal of one configuration: the list is edited while it is walked. */
  method UnbindFrom(c: Config, f: Function) returns (ret: int)
    requires LiveConfig(c) && f in c.parent.functions
    modifies c`bindings, c.parent.parent.fs
    ensures ret <= 0 && LiveConfig(c)
    ensures c.bindings == if ret == 0 then NotTo(old(c.bindings), f) else old(c.bindings)
    ensures var t := old(c.parent.parent.fs.tree); var u := c.parent.parent.fs.tree;
      HasConfig(t, c.parent.name, c.name) && HasConfig(u, c.parent.name, c.name) &&
      SubMap(u[c.parent.name].configs[c.name].links, t[c.parent.name].configs[c.name].links) &&
      u == WithLinks(t, c.parent.name, c.name, u[c.parent.name].configs[c.name].links)
    ensures old(c.parent.parent.fs.Quiet()) ==> c.parent.parent.fs.Quiet() && ret == 0
  {
    hide GadgetOk, State.Agrees, Live, WithLinks, NotTo, Without, TargetsDistinct, SubMap;
    var g := c.parent;
    var fs := g.parent.fs;
    ConfigExists(c);
    ConfigTargetsDistinct(c);
    WithLinksSame(fs.tree, g.name, c.name);
    SubMapReflexive(fs.tree[g.name].configs[c.name].links);
    ghost var bs := c.bindings;
    ghost var removed := false;
    var i := 0;
    ret := 0;
    while i < |c.bindings|
      invariant ret == 0 && LiveConfig(c) && i <= |c.bindings|
      invariant !removed ==> c.bindings == bs
      invariant removed ==> c.bindings == NotTo(bs, f)
      invariant !removed ==> forall k :: 0 <= k < i ==> bs[k].target != f
      invariant HasConfig(fs.tree, g.name, c.name)
      invariant SubMap(fs.tree[g.name].configs[c.name].links, old(fs.tree)[g.name].configs[c.name].links)
      invariant fs.tree == WithLinks(old(fs.tree), g.name, c.name, fs.tree[g.name].configs[c.name].links)
      invariant old(fs.Quiet()) ==> fs.Quiet()
      decreases |c.bindings| - i
    {
      var b := c.bindings[i];
      if b.target == f {
        ghost var links := fs.tree[g.name].configs[c.name].links;
        ConfigExists(c);
        ret := RmBinding(b);
        if ret != 0 { return; }
        WithLinksTwice(old(fs.tree), g.name, c.name, links, links - {b.name});
        WithLinksHas(old(fs.tree), g.name, c.name, links - {b.name});
        SubMapLess(links, b.name, old(fs.tree)[g.name].configs[c.name].links);
        NotToOne(bs, b);
        removed := true;
      } else {
        i := i + 1;
      }
    }
    if !removed { NotToNone(bs, f); }
  }

  /** What is left of the links of a configuration whose bindings to `f` are gone. */
  lemma LinksAfterNotTo(c: Config, bs: seq<Binding>, f: Function, fns: seq<Function>, k: KConfig, l: KConfig)
    requires BindingsOk(c, bs, fns, k) && BindingsOk(c, NotTo(bs, f), fns, l) && f in fns
    requires forall i, j :: 0 <= i < j < |fns| ==> Below(fns[i].name, fns[j].name)
    requires l == k.(links := l.links)
    ensures l == WithoutLinksTo(k, f.name)
  {
    hide NotTo;
    forall b | b in bs ensures b.target.name == f.name <==> b.target == f {
      assert BindingOk(c, b, fns, k);
      if b.target != f { NamesDiffer(fns, (x: Function) => x.name, b.target, f); }
    }
    forall n | n in k.links && k.links[n] != f.name ensures n in l.links && l.links[n] == k.links[n] {
      var b :| b in bs && b.name == n;
      assert BindingOk(c, b, fns, k) && b in NotTo(bs, f);
      assert BindingOk(c, b, fns, l);
    }
    forall n | n in l.links ensures n in k.links && k.links[n] != f.name {
      var b :| b in NotTo(bs, f) && b.name == n;
      assert BindingOk(c, b, fns, k);
    }
    assert l.links == WithoutLinksTo(k, f.name).links;
  }

  /** The configurations of a gadget after those named in `done` have lost their links to `f`. */
  ghost function UnlinkedIn(configs: map<string, KConfig>, done: set<string>, f: string): map<string, KConfig> {
    map n | n in configs :: if n in done then WithoutLinksTo(configs[n], f) else configs[n]
  }

  lemma NextConfigName(configs: seq<Config>, i: nat)
    requires i < |configs| && forall i, j :: 0 <= i < j < |configs| ==> Below(configs[i].name, configs[j].name)
    ensures ConfigNames(configs[..i + 1]) == ConfigNames(configs[..i]) + {configs[i].name}
    ensures configs[i].name !in ConfigNames(configs[..i])
  {
    BelowIrreflexive(configs[i].name);
    assert configs[..i + 1] == configs[..i] + [configs[i]];
  }

  /** How far the walk over the configurations has come: those named in `done` have lost their bindings
      to `f`; `before` are the lists and `t` the tree it started from. */
  ghost predicate UnbindProgress(f: Function, done: set<string>, before: map<Config, seq<Binding>>, t: Tree)
    reads *
  {
    var g := f.parent;
    UnbindStopped(f, done, before, t) && g.parent.fs.tree[g.name].configs == UnlinkedIn(t[g.name].configs, done, f.name)
  }

  /** The same when the walk stopped with an error. */
  ghost predicate UnbindStopped(f: Function, done: set<string>, before: map<Config, seq<Binding>>, t: Tree)
    reads *
  {
    var g := f.parent;
    Live(g) && f in g.functions &&
    (forall c <- g.configs :: c in before && c.bindings == if c.name in done then NotTo(before[c], f) else before[c]) &&
    OnlyGadget(t, g.parent.fs.tree, g.name) && FewerLinks(t[g.name], g.parent.fs.tree[g.name])
  }

  /** `UnbindFrom` on the next configuration. */
  method UnbindFromNext(f: Function, c: Config, ghost done: set<string>, ghost before: map<Config, seq<Binding>>, ghost t: Tree)
    returns (ret: int)
    requires UnbindProgress(f, done, before, t) && c in f.parent.configs && c.name !in done
    modifies c, f.parent.parent.fs
    ensures ret <= 0
    ensures if ret == 0 then UnbindProgress(f, done + {c.name}, before, t) else UnbindStopped(f, done, before, t)
    ensures old(f.parent.parent.fs.Quiet()) ==> f.parent.parent.fs.Quiet() && ret == 0
  {
    hide Live, NotTo, OnlyGadget, FewerLinks, UnlinkedIn, BindingsOk, WithoutLinksTo, SubMap, State.Agrees;
    var g := f.parent;
    var fs := g.parent.fs;
    ConfigParts(g, c);
    ConfigsSorted(g);
    forall d | d in g.configs && d != c ensures d.name != c.name {
      NamesDiffer(g.configs, (x: Config) => x.name, c, d);
    }
    ghost var u := fs.tree;
    ghost var bs := c.bindings;
    ret := UnbindFrom(c, f);
    ghost var v := fs.tree;
    FewerLinksStep(t, u, g.name, c.name, v[g.name].configs[c.name].links);
    if ret == 0 {
      ConfigParts(g, c);
      LinksAfterNotTo(c, bs, f, g.functions, u[g.name].configs[c.name], v[g.name].configs[c.name]);
      UnlinkedInNext(t[g.name].configs, done, f.name, c.name);
    }
  }

  lemma UnlinkedInNext(configs: map<string, KConfig>, done: set<string>, f: string, c: string)
    requires c in configs && c !in done
    ensures UnlinkedIn(configs, done, f)[c] == configs[c]
    ensures UnlinkedIn(configs, done + {c}, f) == UnlinkedIn(configs, done, f)[c := WithoutLinksTo(configs[c], f)]
  {}

  /** The recursive part of `usbg_rm_function`. */
  method UnbindAll(f: Function, ghost before: map<Config, seq<Binding>>) returns (ret: int, ghost done: set<string>)
    requires Live(f.parent) && f in f.parent.functions
    requires forall c <- f.parent.configs :: c in before && before[c] == c.bindings
    modifies f.parent.configs, f.parent.parent.fs
    ensures ret <= 0
    ensures if ret == 0 then done == ConfigNames(f.parent.configs) && UnbindProgress(f, done, before, old(f.parent.parent.fs.tree))
      else UnbindStopped(f, done, before, old(f.parent.parent.fs.tree))
    ensures old(f.parent.parent.fs.Quiet()) ==> f.parent.parent.fs.Quiet() && ret == 0
  {
    var g := f.parent;
    ghost var t := g.parent.fs.tree;
    UnbindStart(f, before);
    ConfigsSorted(g);
    assert ConfigNames(g.configs[..0]) == {};
    hide *;
    ret, done := 0, {};
    var i := 0;
    while i < |g.configs|
      invariant ret == 0 && i <= |g.configs| && UnbindProgress(f, done, before, t)
      invariant done == ConfigNames(g.configs[..i])
      invariant old(g.parent.fs.Quiet()) ==> g.parent.fs.Quiet()
    {
      NextConfigName(g.configs, i);
      ret := UnbindFromNext(f, g.configs[i], done, before, t);
      if ret != 0 { return; }
      done := done + {g.configs[i].name};
      i := i + 1;
    }
    assert g.configs[..i] == g.configs;
  }

  lemma FunctionsWithout(g: Gadget, fns: seq<Function>, configs: seq<Config>, osDesc: Config?, k: KGadget, f: Function)
    requires PartsOk(g, fns, configs, osDesc, k) && f in fns && !Linked(k, f.name)
    ensures PartsOk(g, Without(fns, f), configs, osDesc, k.(functions := k.functions - {f.name}))
  {
    var l := k.(functions := k.functions - {f.name});
    BelowIrreflexive(f.name);
    WithoutPairwise(fns, f, (x: Function, y: Function) => Below(x.name, y.name));
    forall h | h in Without(fns, f) ensures FunctionOk(g, h, l) {
      NamesDiffer(fns, (x: Function) => x.name, f, h);
    }
    hide FunctionOk;
    forall c | c in configs ensures ConfigOk(g, c, l) && BindingsOk(c, c.bindings, Without(fns, f), l.configs[c.name]) {
      BindingsWithout(c, c.bindings, fns, k.configs[c.name], f);
    }
    hide BindingsOk;
  }

  /** The kernel removes a function directory only when no link leads to it; so no binding dangles. */
  lemma BindingsWithout(c: Config, bs: seq<Binding>, fns: seq<Function>, kc: KConfig, f: Function)
    requires BindingsOk(c, bs, fns, kc) && f.name !in kc.links.Values
    ensures BindingsOk(c, bs, Without(fns, f), kc)
  {
    forall b | b in bs ensures BindingOk(c, b, Without(fns, f), kc) {
      assert BindingOk(c, b, fns, kc);
      assert kc.links[b.name] in kc.links.Values;
    }
  }

  lemma LiveParts(g: Gadget)
    requires Live(g)
    ensures g.name in g.parent.fs.tree && PartsOk(g, g.functions, g.configs, g.osDesc, g.parent.fs.tree[g.name])
  {
    assert GadgetOk(g, g.parent.fs.tree[g.name]);
  }

  /** What the type of a function does before its directory is removed. */
  method EmptyFunction(f: Function) returns (ret: int)
    requires Live(f.parent) && f in f.parent.functions
    modifies f.ms, f.parent.parent.fs
    ensures ret <= 0 && Live(f.parent)
    ensures OnlyFunction(old(f.parent.parent.fs.tree), f.parent.parent.fs.tree, f.parent.name, f.name)
    ensures old(f.parent.parent.fs.Quiet()) ==> f.parent.parent.fs.Quiet()
    ensures HasFunction(old(f.parent.parent.fs.tree), f.parent.name, f.name) && HasFunction(f.parent.parent.fs.tree, f.parent.name, f.name)
    ensures old(Emptiable(f, f.parent.parent.fs.tree[f.parent.name].functions[f.name])) ==>
      Emptiable(f, f.parent.parent.fs.tree[f.parent.name].functions[f.name])
    ensures old(f.parent.parent.fs.Quiet() && Emptiable(f, f.parent.parent.fs.tree[f.parent.name].functions[f.name])) ==>
      ret == 0 && f.parent.parent.fs.tree[f.parent.name].functions[f.name].luns.Keys <= {0}
  {
    hide State.Agrees, SameShape;
    var g := f.parent;
    var fs := g.parent.fs;
    ghost var t := fs.tree;
    FunctionParts(g, f);
    OnlyFunctionReflexive(t, g.name, f.name);
    ret := 0;
    if f.ms != null {
      ret := f.ms.Remove();
      OnlyLunsOnlyFunction(t, fs.tree, g.name, f.name);
      OnlyFunctionSameShape(t, fs.tree, g.name, f.name);
      ShapeKept(g, t, fs.tree);
    }
  }

  /** The part of `usbg_rm_function` after the bindings: what the type does first, and the directory. */
  method RmFunctionDir(f: Function) returns (ret: int)
    requires Live(f.parent) && f in f.parent.functions
    modifies f.parent`functions, f.ms, f.parent.parent.fs
    ensures ret <= 0 && Live(f.parent)
    ensures var g := f.parent; var t := old(g.parent.fs.tree);
      if ret == 0 then
        g.functions == Without(old(g.functions), f) && g.name in t && !Linked(t[g.name], f.name) &&
        g.parent.fs.tree == t[g.name := t[g.name].(functions := t[g.name].functions - {f.name})]
      else g.functions == old(g.functions) && OnlyFunction(t, g.parent.fs.tree, g.name, f.name)
    ensures old(f.parent.parent.fs.Quiet()) ==> f.parent.parent.fs.Quiet()
    ensures HasFunction(old(f.parent.parent.fs.tree), f.parent.name, f.name)
    ensures ret != 0 && old(Emptiable(f, f.parent.parent.fs.tree[f.parent.name].functions[f.name])) ==>
      Emptiable(f, f.parent.parent.fs.tree[f.parent.name].functions[f.name])
    ensures old(f.parent.parent.fs.Quiet() && Emptiable(f, f.parent.parent.fs.tree[f.parent.name].functions[f.name])) ==>
      ret == if Linked(old(f.parent.parent.fs.tree)[f.parent.name], f.name) then BUSY else SUCCESS
  {
    hide PartsOk, GadgetOk, State.Agrees, Emptiable, Without, OnlyFunction, Linked;
    var g := f.parent;
    var fs := g.parent.fs;
    ghost var t := fs.tree;
    LiveParts(g);
    ret := EmptyFunction(f);
    if ret != 0 { return; }
    ghost var u := fs.tree;
    LunsThenRemoved(t, u, g.name, f.name);
    ret := fs.Rmdir(FunctionDir(g.name, f.name));
    if ret != 0 { return; }
    FunctionsWithout(g, g.functions, g.configs, g.osDesc, t[g.name], f);
    g.functions := Without(g.functions, f);
    GadgetFromParts(g, fs.tree[g.name]);
    OneGadgetChanged(g);
  }

  lemma LunsThenRemoved(t: Tree, u: Tree, g: string, f: string)
    requires OnlyFunction(t, u, g, f)
    ensures u[g := u[g].(functions := u[g].functions - {f})] == t[g := t[g].(functions := t[g].functions - {f})]
    ensures Linked(u[g], f) == Linked(t[g], f)
  {
    assert u[g].functions - {f} == t[g].functions - {f};
    UpdateTwice(t, g, u[g], u[g].(functions := u[g].functions - {f}));
  }

  lemma NoLinksLeft(k: KGadget, f: string)
    requires !Linked(k, f)
    ensures forall n <- k.configs :: WithoutLinksTo(k.configs[n], f) == k.configs[n]
  {
    forall n | n in k.configs ensures WithoutLinksTo(k.configs[n], f) == k.configs[n] {
      forall l | l in k.configs[n].links ensures k.configs[n].links[l] != f {
        assert k.configs[n].links[l] in k.configs[n].links.Values;
      }
      assert WithoutLinksTo(k.configs[n], f).links == k.configs[n].links;
    }
  }

  /** The gadget without a function: its directory and every link to it are gone, nothing else is. */
  function WithoutFunction(k: KGadget, f: string): KGadget {
    k.(functions := k.functions - {f}, configs := map n | n in k.configs :: WithoutLinksTo(k.configs[n], f))
  }

  lemma UnlinkedThenRemoved(k: KGadget, l: KGadget, done: set<string>, f: string)
    requires FewerLinks(k, l) && l.configs == UnlinkedIn(k.configs, done, f) && !Linked(l, f)
    ensures l.(functions := l.functions - {f}) == WithoutFunction(k, f)
  {
    NoLinksLeft(l, f);
    forall n | n in k.configs ensures l.configs[n] == WithoutLinksTo(k.configs[n], f) {
      assert WithoutLinksTo(l.configs[n], f) == l.configs[n];
    }
    assert l.configs == WithoutFunction(k, f).configs;
  }

  lemma GadgetReplaced(t: Tree, u: Tree, g: string, k: KGadget)
    requires OnlyGadget(t, u, g) && k.udc == u[g].udc
    ensures OnlyGadget(t, u[g := k], g) && u[g := k][g] == k && g in u
  {
    UpdateTwice(t, g, u[g], k);
  }

  /** A configuration other than those named in `done` has a link to the function. */
  ghost predicate LinkedBeyond(k: KGadget, done: set<string>, f: string) {
    exists c <- k.configs :: c !in done && f in k.configs[c].links.Values
  }

  lemma LinkedBeyondIff(k: KGadget, done: set<string>, f: string, l: KGadget)
    requires l.configs == UnlinkedIn(k.configs, done, f)
    ensures Linked(l, f) <==> LinkedBeyond(k, done, f)
  {
    forall c | c in l.configs ensures f in l.configs[c].links.Values <==> c !in done && f in k.configs[c].links.Values {
      assert l.configs[c] == if c in done then WithoutLinksTo(k.configs[c], f) else k.configs[c];
    }
  }

  lemma LinkedBeyondNone(k: KGadget, f: string)
    ensures LinkedBeyond(k, {}, f) <==> Linked(k, f)
    ensures !LinkedBeyond(k, k.configs.Keys, f)
  {}

  /** The same directories, and the contents of every function directory but one's. */
  ghost predicate OtherDirsKept(k: KGadget, l: KGadget, f: string) {
    f in l.functions && l.functions == k.functions[f := l.functions[f]] && l.configs.Keys == k.configs.Keys &&
    l.osLinks == k.osLinks && l.langs == k.langs
  }

  lemma OtherDirsAfter(t: Tree, u: Tree, v: Tree, g: string, f: string)
    requires OnlyGadget(t, u, g) && FewerLinks(t[g], u[g]) && OnlyFunction(u, v, g, f)
    ensures OtherDirsKept(t[g], v[g], f)
  {
    UpdateSame(t[g].functions, f);
  }

  lemma OtherDirsAfterUnbind(k: KGadget, l: KGadget, f: string)
    requires FewerLinks(k, l) && f in k.functions
    ensures OtherDirsKept(k, l, f) && l.functions[f] == k.functions[f]
  {
    UpdateSame(k.functions, f);
  }

  /** The end of `usbg_rm_function`, with the bindings in the configurations named in `done` gone. */
  method RmUnbound(f: Function, ghost done: set<string>, ghost before: map<Config, seq<Binding>>, ghost t: Tree)
    returns (ret: int)
    requires UnbindProgress(f, done, before, t)
    modifies f.parent`functions, f.ms, f.parent.parent.fs
    ensures ret <= 0 && Live(f.parent)
    ensures OnlyGadget(t, f.parent.parent.fs.tree, f.parent.name)
    ensures ret == 0 ==> f.parent.functions == Without(old(f.parent.functions), f)
    ensures ret == 0 ==> f.parent.parent.fs.tree[f.parent.name] == WithoutFunction(t[f.parent.name], f.name)
    ensures ret != 0 ==> f.parent.functions == old(f.parent.functions)
    ensures old(f.parent.parent.fs.Quiet()) ==> f.parent.parent.fs.Quiet()
    ensures HasFunction(t, f.parent.name, f.name)
    ensures ret != 0 ==> HasFunction(f.parent.parent.fs.tree, f.parent.name, f.name)
    ensures ret != 0 ==> var l := f.parent.parent.fs.tree[f.parent.name];
      OtherDirsKept(t[f.parent.name], l, f.name) &&
      (old(Emptiable(f, t[f.parent.name].functions[f.name])) ==> Emptiable(f, l.functions[f.name]))
    ensures old(f.parent.parent.fs.Quiet() && Emptiable(f, t[f.parent.name].functions[f.name])) ==>
      ret == if LinkedBeyond(t[f.parent.name], done, f.name) then BUSY else SUCCESS
  {
    var g := f.parent;
    var fs := g.parent.fs;
    ghost var u := fs.tree;
    FunctionParts(g, f);
    LinkedBeyondIff(t[g.name], done, f.name, u[g.name]);
    hide Live, UnlinkedIn, WithoutFunction, Linked, LinkedBeyond, Emptiable, OnlyGadget, OnlyFunction;
    ret := RmFunctionDir(f);
    if ret == 0 {
      UnlinkedThenRemoved(t[g.name], u[g.name], done, f.name);
      GadgetReplaced(t, u, g.name, u[g.name].(functions := u[g.name].functions - {f.name}));
    } else {
      OtherDirsAfter(t, u, fs.tree, g.name, f.name);
      OnlyFunctionSameShape(u, fs.tree, g.name, f.name);
      OnlyGadgetTransitive(t, u, fs.tree, g.name);
    }
  }

  lemma UnbindStart(f: Function, before: map<Config, seq<Binding>>)
    requires Live(f.parent) && f in f.parent.functions
    requires forall c <- f.parent.configs :: c in before && before[c] == c.bindings
    ensures UnbindProgress(f, {}, before, f.parent.parent.fs.tree)
  {
    var t := f.parent.parent.fs.tree;
    OnlyGadgetReflexive(t, f.parent.name);
    assert t[f.parent.name].configs == UnlinkedIn(t[f.parent.name].configs, {}, f.name);
  }

  /** Links of configurations memory does not know, or any link when bindings are to stay, keep the directory. */
  ghost function RmFunctionCode(k: KGadget, done: set<string>, f: string): int {
    if LinkedBeyond(k, done, f) then BUSY else SUCCESS
  }

  /** `usbg_rm_function`. Success takes out the function and, with the recursive flag, exactly the bindings
      that lead to it; the other bindings keep their order. */
  method RmFunction(f: Function, recurse: bool, ghost before: map<Config, seq<Binding>>) returns (ret: int, ghost done: set<string>)
    requires Live(f.parent) && f in f.parent.functions
    requires forall c <- f.parent.configs :: c in before && before[c] == c.bindings
    modifies f.parent.configs, f.parent`functions, f.ms, f.parent.parent.fs
    ensures ret <= 0 && Live(f.parent)
    ensures f.parent.configs == old(f.parent.configs)
    ensures forall c <- f.parent.configs :: c.bindings == if c.name in done then NotTo(before[c], f) else before[c]
    ensures OnlyGadget(old(f.parent.parent.fs.tree), f.parent.parent.fs.tree, f.parent.name)
    ensures !recurse ==> done == {}
    ensures ret == 0 && recurse ==> done == ConfigNames(f.parent.configs)
    ensures ret == 0 ==> f.parent.functions == Without(old(f.parent.functions), f)
    ensures ret == 0 ==>
      f.parent.parent.fs.tree[f.parent.name] == WithoutFunction(old(f.parent.parent.fs.tree)[f.parent.name], f.name)
    ensures ret != 0 ==> f.parent.functions == old(f.parent.functions)
    ensures old(f.parent.parent.fs.Quiet()) ==> f.parent.parent.fs.Quiet()
    ensures HasFunction(old(f.parent.parent.fs.tree), f.parent.name, f.name)
    ensures ret != 0 ==> HasFunction(f.parent.parent.fs.tree, f.parent.name, f.name)
    ensures ret != 0 ==> var k := old(f.parent.parent.fs.tree)[f.parent.name]; var l := f.parent.parent.fs.tree[f.parent.name];
      OtherDirsKept(k, l, f.name) &&
      (old(Emptiable(f, f.parent.parent.fs.tree[f.parent.name].functions[f.name])) ==> Emptiable(f, l.functions[f.name]))
    ensures old(f.parent.parent.fs.Quiet() && Emptiable(f, f.parent.parent.fs.tree[f.parent.name].functions[f.name])) ==>
      ret == RmFunctionCode(old(f.parent.parent.fs.tree)[f.parent.name], if recurse then ConfigNames(f.parent.configs) else {}, f.name)
  {
    hide UnlinkedIn, Live, Linked, LinkedBeyond, OnlyGadget, FewerLinks, WithoutFunction, ConfigNames, NotTo, Emptiable;
    FunctionParts(f.parent, f);
    ghost var t := f.parent.parent.fs.tree;
    UnbindStart(f, before);
    ret, done := 0, {};
    if recurse { ret, done := UnbindAll(f, before); }
    if ret != 0 {
      OnlyGadgetHas(t, f.parent.parent.fs.tree, f.parent.name);
      OtherDirsAfterUnbind(t[f.parent.name], f.parent.parent.fs.tree[f.parent.name], f.name);
      return;
    }
    ret := RmUnbound(f, done, before, t);
  }

  /** Nothing the kernel keeps in their directories stands in the way of removing the functions. */
  ghost predicate Clear(fns: seq<Function>, k: KGadget)
    reads set f <- fns | f.ms != null :: f.ms
  {
    forall f <- fns :: f.name in k.functions && Emptiable(f, k.functions[f.name])
  }

  /** Memory knows every configuration and function directory of the gadget, and each can be emptied. */
  ghost predicate Known(configs: seq<Config>, fns: seq<Function>, k: KGadget)
    reads set f <- fns | f.ms != null :: f.ms
  {
    ConfigNames(configs) == k.configs.Keys && FunctionNames(fns) == k.functions.Keys && Clear(fns, k)
  }

  /** The recorded configuration is there, but its link in `os_desc` is already gone:
      no recursive removal of that configuration can succeed. */
  ghost predicate StuckIn(configs: seq<Config>, osDesc: Config?, osLinks: map<string, string>) {
    osDesc != null && osDesc in configs && osLinks == map[]
  }

  ghost predicate Stuck(g: Gadget)
    reads g, g.parent.fs`tree
  {
    g.name in g.parent.fs.tree && StuckIn(g.configs, g.osDesc, g.parent.fs.tree[g.name].osLinks)
  }

  /** Directories of the gadget that memory does not know. */
  ghost function StrayFunctions(g: Gadget, t: Tree): set<string>
    requires g.name in t
    reads g`functions
  {
    t[g.name].functions.Keys - FunctionNames(g.functions)
  }

  ghost function StrayConfigs(g: Gadget, t: Tree): set<string>
    requires g.name in t
    reads g`configs
  {
    t[g.name].configs.Keys - ConfigNames(g.configs)
  }

  twostate predicate StraysKept(g: Gadget)
    reads g, g.parent.fs`tree
  {
    g.name in old(g.parent.fs.tree) && g.name in g.parent.fs.tree &&
    StrayFunctions(g, g.parent.fs.tree) == old(StrayFunctions(g, g.parent.fs.tree)) &&
    StrayConfigs(g, g.parent.fs.tree) == old(StrayConfigs(g, g.parent.fs.tree))
  }

  /** Memory knows every function and configuration directory of the gadget. */
  ghost predicate NoStrays(g: Gadget)
    reads g, g.parent.fs`tree
  {
    g.name in g.parent.fs.tree && StrayFunctions(g, g.parent.fs.tree) == {} && StrayConfigs(g, g.parent.fs.tree) == {}
  }

  lemma FirstNameGone<T>(xs: seq<T>, name: T -> string)
    requires xs != [] && forall i, j :: 0 <= i < j < |xs| ==> Below(name(xs[i]), name(xs[j]))
    ensures (set x <- xs[1..] :: name(x)) == (set x <- xs :: name(x)) - {name(xs[0])}
  {
    forall x | x in xs[1..] ensures name(x) != name(xs[0]) {
      var i :| 0 <= i < |xs[1..]| && xs[1..][i] == x;
      BelowIrreflexive(name(x));
      assert xs[i + 1] == x;
    }
    assert xs == [xs[0]] + xs[1..];
  }

  lemma FirstConfigGone(configs: seq<Config>, k: KGadget)
    requires configs != [] && forall i, j :: 0 <= i < j < |configs| ==> Below(configs[i].name, configs[j].name)
    ensures k.configs.Keys - {configs[0].name} - ConfigNames(configs[1..]) == k.configs.Keys - ConfigNames(configs)
  {
    FirstNameGone(configs, (c: Config) => c.name);
    assert ConfigNames(configs[1..]) == set c <- configs[1..] :: ((x: Config) => x.name)(c);
    assert ConfigNames(configs) == set c <- configs :: ((x: Config) => x.name)(c);
    assert configs[0] in configs;
  }

  lemma FirstFunctionGone(fns: seq<Function>, k: KGadget)
    requires fns != [] && forall i, j :: 0 <= i < j < |fns| ==> Below(fns[i].name, fns[j].name)
    ensures k.functions.Keys - {fns[0].name} - FunctionNames(fns[1..]) == k.functions.Keys - FunctionNames(fns)
  {
    FirstNameGone(fns, (f: Function) => f.name);
    assert FunctionNames(fns[1..]) == set f <- fns[1..] :: ((x: Function) => x.name)(f);
    assert FunctionNames(fns) == set f <- fns :: ((x: Function) => x.name)(f);
    assert fns[0] in fns;
  }

  lemma StuckWithoutFirst(configs: seq<Config>, osDesc: Config?, o: map<string, string>)
    requires configs != [] && configs[0] !in configs[1..]
    requires osDesc == configs[0] ==> o != map[]
    ensures StuckIn(configs[1..], osDesc, if osDesc == configs[0] then map[] else o) <==> StuckIn(configs, osDesc, o)
  {}

  /** Removal of the first configuration, and what it means for the removals to come. */
  method RmFirstConfig(g: Gadget) returns (ret: int)
    requires Live(g) && g.configs != []
    modifies g.configs[0], g`configs, g`osDesc, g.parent.fs
    ensures ret <= 0 && Live(g) && g.osDesc == old(g.osDesc)
    ensures OnlyGadget(old(g.parent.fs.tree), g.parent.fs.tree, g.name)
    ensures g.parent.fs.tree[g.name].functions == old(g.parent.fs.tree)[g.name].functions
    ensures g.configs == if ret == 0 then old(g.configs)[1..] else old(g.configs)
    ensures ret == 0 ==> (Stuck(g) <==> old(Stuck(g)))
    ensures ret != 0 ==> old(Stuck(g)) ==> Stuck(g)
    ensures StraysKept(g)
    ensures old(g.parent.fs.Quiet()) ==> g.parent.fs.Quiet() && (!old(Stuck(g)) ==> ret == 0) && (ret == 0 || ret == NOT_FOUND)
  {
    hide StuckIn, Live, Without, LiveConfig, BindingsOk, OnlyGadget, PartlyStripped, Suffix, ConfigNames, FunctionNames;
    var c := g.configs[0];
    ghost var configs := g.configs;
    ghost var u := g.parent.fs.tree;
    ConfigParts(g, c);
    ConfigsSorted(g);
    SuffixReflexive(configs);
    SuffixTail(configs, configs);
    BelowIrreflexive(c.name);
    assert c !in configs[1..];
    OnlyGadgetReflexive(u, g.name);
    FirstConfigGone(configs, u[g.name]);
    ret := RmConfig(c, true);
    ghost var v := g.parent.fs.tree;
    if ret == 0 {
      ghost var o := v[g.name].osLinks;
      GadgetReplaced(u, u, g.name, u[g.name].(configs := u[g.name].configs - {c.name}, osLinks := o));
      StuckWithoutFirst(configs, g.osDesc, u[g.name].osLinks);
    } else {
      ConfigReplaced(u, u, v, g.name, c.name, g.osDesc == c);
      StuckHere(configs, c);
    }
  }

  lemma StuckHere(configs: seq<Config>, c: Config)
    requires c in configs
    ensures StuckIn(configs, c, map[])
  {}

  lemma ConfigReplaced(t: Tree, u: Tree, v: Tree, g: string, c: string, recorded: bool)
    requires OnlyGadget(t, u, g) && PartlyStripped(u, v, g, c, recorded)
    ensures OnlyGadget(t, v, g) && v[g].functions == u[g].functions && v[g].configs.Keys == u[g].configs.Keys
    ensures v[g].osLinks == u[g].osLinks || (recorded && v[g].osLinks == map[])
  {
    UpdateTwice(t, g, u[g], v[g]);
  }

  /** `Known` for a gadget as it stands. */
  ghost predicate AllKnown(g: Gadget)
    reads g, g.parent.fs`tree, set f <- g.functions | f.ms != null :: f.ms
  {
    g.name in g.parent.fs.tree && Known(g.configs, g.functions, g.parent.fs.tree[g.name])
  }

  /** `Clear` for a gadget as it stands. */
  ghost predicate AllClear(g: Gadget)
    reads g`functions, g.parent.fs`tree, set f <- g.functions | f.ms != null :: f.ms
  {
    g.name in g.parent.fs.tree && Clear(g.functions, g.parent.fs.tree[g.name])
  }

  lemma KnownIff(g: Gadget)
    requires Live(g)
    ensures g.name in g.parent.fs.tree
    ensures AllKnown(g) <==>
      AllClear(g) && StrayFunctions(g, g.parent.fs.tree) == {} && StrayConfigs(g, g.parent.fs.tree) == {}
  {
    hide Clear, FunctionName, ConfigName, BindingsOk, OsDescOk;
    LiveParts(g);
    var k := g.parent.fs.tree[g.name];
    assert FunctionNames(g.functions) <= k.functions.Keys by { assert forall f <- g.functions :: FunctionOk(g, f, k); }
    assert ConfigNames(g.configs) <= k.configs.Keys by { assert forall c <- g.configs :: ConfigOk(g, c, k); }
    NothingBeyond(k.functions.Keys, FunctionNames(g.functions));
    NothingBeyond(k.configs.Keys, ConfigNames(g.configs));
  }

  lemma NothingBeyond<T>(a: set<T>, b: set<T>)
    requires b <= a
    ensures a - b == {} <==> a == b
  {
    if a - b == {} {
      forall x | x in a ensures x in b { assert x !in a - b; }
    }
  }

  /** The first loop of the recursive `usbg_rm_gadget`: removes configurations from the front. */
  method RmAllConfigs(g: Gadget) returns (ret: int)
    requires Live(g)
    modifies g.configs, g`configs, g`osDesc, g.parent.fs
    ensures ret <= 0 && Live(g) && g.osDesc == old(g.osDesc)
    ensures OnlyGadget(old(g.parent.fs.tree), g.parent.fs.tree, g.name)
    ensures Suffix(g.configs, old(g.configs))
    ensures ret == 0 ==> g.configs == [] && !old(Stuck(g))
    ensures old(Stuck(g)) ==> Stuck(g)
    ensures g.parent.fs.tree[g.name].functions == old(g.parent.fs.tree)[g.name].functions
    ensures StraysKept(g)
    ensures old(g.parent.fs.Quiet()) ==> g.parent.fs.Quiet() && ret == if old(Stuck(g)) then NOT_FOUND else SUCCESS
  {
    ghost var t := g.parent.fs.tree;
    assert g.name in t;
    OnlyGadgetReflexive(t, g.name);
    hide Live, StuckIn, OnlyGadget, ConfigNames, FunctionNames;
    ret := 0;
    ghost var cs := g.configs;
    while g.configs != []
      invariant ret == 0 && Live(g) && g.osDesc == old(g.osDesc)
      invariant OnlyGadget(t, g.parent.fs.tree, g.name) && StraysKept(g)
      invariant Suffix(g.configs, cs)
      invariant Stuck(g) <==> old(Stuck(g))
      invariant g.parent.fs.tree[g.name].functions == t[g.name].functions
      invariant old(g.parent.fs.Quiet()) ==> g.parent.fs.Quiet()
      decreases |g.configs|
    {
      ghost var u := g.parent.fs.tree;
      SuffixTail(g.configs, cs);
      ret := RmFirstConfig(g);
      OnlyGadgetTransitive(t, u, g.parent.fs.tree, g.name);
      if ret != 0 { return; }
    }
    NothingStuck(g);
  }

  lemma NothingStuck(g: Gadget)
    requires g.configs == []
    ensures !Stuck(g)
  {}

  lemma ClearWithoutFunction(fns: seq<Function>, k: KGadget, f: Function)
    requires forall h <- fns :: h.name in k.functions && h.name != f.name && Emptiable(h, k.functions[h.name])
    ensures Clear(fns, WithoutFunction(k, f.name))
  {
    hide Emptiable;
  }

  lemma ClearOtherDirs(fns: seq<Function>, k: KGadget, l: KGadget, f: Function)
    requires forall h <- fns | h != f :: h.name in k.functions && h.name != f.name && Emptiable(h, k.functions[h.name])
    requires OtherDirsKept(k, l, f.name) && Emptiable(f, l.functions[f.name])
    ensures Clear(fns, l)
  {
    hide Emptiable;
  }

  lemma DirsAfter(k: KGadget, l: KGadget, f: string)
    ensures l == WithoutFunction(k, f) ==> l.functions.Keys == k.functions.Keys - {f} && l.configs.Keys == k.configs.Keys
    ensures OtherDirsKept(k, l, f) && f in k.functions ==> l.functions.Keys == k.functions.Keys && l.configs.Keys == k.configs.Keys
  {}

  lemma FirstClear(g: Gadget, f: Function)
    requires Live(g) && f in g.functions
    ensures AllClear(g) ==> Emptiable(f, g.parent.fs.tree[g.name].functions[f.name])
    ensures AllKnown(g) ==> RmFunctionCode(g.parent.fs.tree[g.name], ConfigNames(g.configs), f.name) == SUCCESS
  {
    hide Emptiable;
    if AllKnown(g) { LinkedBeyondNone(g.parent.fs.tree[g.name], f.name); }
  }

  /** Removal of the first function, once all configurations are gone. */
  method RmFirstFunction(g: Gadget) returns (ret: int)
    requires Live(g) && g.functions != [] && g.configs == []
    modifies g`functions, g.functions[0].ms, g.parent.fs
    ensures ret <= 0 && Live(g)
    ensures OnlyGadget(old(g.parent.fs.tree), g.parent.fs.tree, g.name)
    ensures g.functions == if ret == 0 then old(g.functions)[1..] else old(g.functions)
    ensures old(AllClear(g)) ==> AllClear(g)
    ensures StraysKept(g)
    ensures old(g.parent.fs.Quiet()) ==> g.parent.fs.Quiet()
    ensures old(g.parent.fs.Quiet() && AllClear(g)) ==> (ret == 0 || ret == BUSY) && (old(NoStrays(g)) ==> ret == 0)
  {
    hide Live, Emptiable, OnlyGadget, OtherDirsKept, WithoutFunction, ConfigNames, FunctionNames, Suffix, Without;
    var f := g.functions[0];
    ghost var fns := g.functions;
    ghost var t := g.parent.fs.tree;
    ghost var clear := AllClear(g);
    KnownIff(g);
    FunctionsApart(g);
    FunctionParts(g, f);
    SuffixReflexive(fns);
    SuffixTail(fns, fns);
    BelowIrreflexive(f.name);
    assert fns == [f] + fns[1..];
    FirstFunctionGone(fns, t[g.name]);
    FirstClear(g, f);
    ghost var done;
    ret, done := RmFunction(f, true, map[]);
    OnlyGadgetHas(t, g.parent.fs.tree, g.name);
    DirsAfter(t[g.name], g.parent.fs.tree[g.name], f.name);
    if clear {
      if ret == 0 {
        ClearWithoutFunction(fns[1..], t[g.name], f);
      } else {
        ClearOtherDirs(fns, t[g.name], g.parent.fs.tree[g.name], f);
      }
    }
  }

  /** The second loop: removes functions from the front. */
  method RmAllFunctions(g: Gadget) returns (ret: int)
    requires Live(g) && g.configs == []
    modifies g`functions, set f <- g.functions | f.ms != null :: f.ms, g.parent.fs
    ensures ret <= 0 && Live(g)
    ensures OnlyGadget(old(g.parent.fs.tree), g.parent.fs.tree, g.name)
    ensures Suffix(g.functions, old(g.functions))
    ensures ret == 0 ==> g.functions == []
    ensures old(AllClear(g)) ==> AllClear(g)
    ensures StraysKept(g)
    ensures old(g.parent.fs.Quiet()) ==> g.parent.fs.Quiet()
    ensures old(g.parent.fs.Quiet() && AllClear(g)) ==> (ret == 0 || ret == BUSY) && (old(NoStrays(g)) ==> ret == 0)
  {
    ghost var t := g.parent.fs.tree;
    assert g.name in t;
    OnlyGadgetReflexive(t, g.name);
    hide Live, Clear, OnlyGadget, AllClear, StrayFunctions, StrayConfigs, Suffix, ConfigNames, FunctionNames;
    assert Suffix(g.functions, g.functions) by { SuffixReflexive(g.functions); }
    ret := 0;
    ghost var fns := g.functions;
    while g.functions != []
      invariant ret == 0 && Live(g) && g.configs == []
      invariant OnlyGadget(t, g.parent.fs.tree, g.name) && StraysKept(g)
      invariant Suffix(g.functions, fns) && forall f <- g.functions :: f in fns
      invariant old(AllClear(g)) ==> AllClear(g)
      invariant old(g.parent.fs.Quiet()) ==> g.parent.fs.Quiet()
      decreases |g.functions|
    {
      ghost var u := g.parent.fs.tree;
      SuffixTail(g.functions, fns);
      ret := RmFirstFunction(g);
      OnlyGadgetTransitive(t, u, g.parent.fs.tree, g.name);
      if ret != 0 { return; }
    }
  }

  lemma SuffixReflexive<T>(a: seq<T>)
    ensures Suffix(a, a)
  {}

  lemma EmptiedGadget(g: Gadget)
    requires g.configs == [] && g.functions == [] && g.name in g.parent.fs.tree
    ensures var k := g.parent.fs.tree[g.name];
      k.functions == map[] && k.configs == map[] <==>
      StrayFunctions(g, g.parent.fs.tree) == {} && StrayConfigs(g, g.parent.fs.tree) == {}
  {
    var k := g.parent.fs.tree[g.name];
    assert k.functions.Keys - FunctionNames([]) == k.functions.Keys;
    assert k.configs.Keys - ConfigNames([]) == k.configs.Keys;
  }

  lemma NoOsLinkWithoutConfigs(g: Gadget)
    requires Live(g) && g.configs == []
    ensures g.name in g.parent.fs.tree && g.parent.fs.tree[g.name].osLinks == map[]
  {
    assert GadgetOk(g, g.parent.fs.tree[g.name]);
  }

  twostate lemma GadgetGone(g: Gadget)
    requires old(Live(g)) && g.parent.gadgets == Without(old(g.parent.gadgets), g) && g.parent.udcs == old(g.parent.udcs)
    requires forall h <- g.parent.gadgets | h != g ::
      unchanged(h`functions) && unchanged(h`configs) && unchanged(h`osDesc) && forall c <- h.configs :: unchanged(c)
    requires forall n <- old(g.parent.fs.tree) | n != g.name :: n in g.parent.fs.tree && g.parent.fs.tree[n] == old(g.parent.fs.tree[n])
    ensures g.parent.Valid() && g !in g.parent.gadgets
  {
    var s := g.parent;
    BelowIrreflexive(g.name);
    WithoutPairwise(old(s.gadgets), g, (x: Gadget, y: Gadget) => Below(x.name, y.name));
    forall h | h in s.gadgets ensures h.parent == s && h.name in s.fs.tree && GadgetOk(h, s.fs.tree[h.name]) {
      NamesDiffer(old(s.gadgets), (x: Gadget) => x.name, g, h);
      assert old(GadgetOk(h, s.fs.tree[h.name]));
    }
  }

  /** The recursive part of `usbg_rm_gadget`. */
  method StripGadget(g: Gadget) returns (ret: int)
    requires Live(g)
    modifies g.configs, g`configs, g`osDesc, g`functions, set f <- g.functions | f.ms != null :: f.ms, g.parent.fs
    ensures ret <= 0 && Live(g)
    ensures OnlyGadget(old(g.parent.fs.tree), g.parent.fs.tree, g.name)
    ensures Suffix(g.configs, old(g.configs)) && Suffix(g.functions, old(g.functions)) && g.osDesc == old(g.osDesc)
    ensures ret == 0 ==> g.configs == [] && g.functions == [] && g.parent.fs.tree[g.name].langs == map[] && !old(Stuck(g))
    ensures old(Stuck(g)) ==> Stuck(g)
    ensures old(AllClear(g)) ==> AllClear(g)
    ensures StraysKept(g)
    ensures old(g.parent.fs.Quiet()) ==> g.parent.fs.Quiet()
    ensures old(g.parent.fs.Quiet() && Stuck(g)) ==> ret == NOT_FOUND
    ensures old(g.parent.fs.Quiet() && AllClear(g) && !Stuck(g)) ==> (ret == 0 || ret == BUSY) && (old(NoStrays(g)) ==> ret == 0)
  {
    ghost var t := g.parent.fs.tree;
    SuffixReflexive(g.functions);
    hide Live, Clear, OnlyGadget, Suffix, Stuck, ConfigNames, FunctionNames;
    ret := RmAllConfigs(g);
    ghost var u := g.parent.fs.tree;
    if ret != 0 { return; }
    ret := RmAllFunctions(g);
    ghost var v := g.parent.fs.tree;
    OnlyGadgetTransitive(t, u, v, g.name);
    if ret != 0 { return; }
    ret := RmGadgetLangs(g);
    OnlyGadgetTransitive(t, v, g.parent.fs.tree, g.name);
  }

  method RmGadgetLangs(g: Gadget) returns (ret: int)
    requires Live(g)
    modifies g.parent.fs
    ensures ret <= 0 && Live(g)
    ensures OnlyGadget(old(g.parent.fs.tree), g.parent.fs.tree, g.name)
    ensures ret == 0 ==> g.parent.fs.tree[g.name].langs == map[]
    ensures Stuck(g) <==> old(Stuck(g))
    ensures old(AllClear(g)) ==> AllClear(g)
    ensures StraysKept(g)
    ensures old(g.parent.fs.Quiet()) ==> g.parent.fs.Quiet() && ret == 0
  {
    ghost var t := g.parent.fs.tree;
    assert g.name in t;
    hide GadgetOk, PartsOk, Emptiable;
    ret := RmAllDirs(g.parent.fs, GadgetLangs(g.name));
    UpdateSame(t, g.name);
    ShapeKept(g, t, g.parent.fs.tree);
  }

  /** The plain removal at the end of `usbg_rm_gadget`. */
  method RmGadgetDir(g: Gadget) returns (ret: int)
    requires Live(g)
    modifies g.parent`gadgets, g.parent.fs
    ensures ret <= 0 && g.parent.Valid()
    ensures ret == 0 ==> g.parent.gadgets == Without(old(g.parent.gadgets), g) && g !in g.parent.gadgets
    ensures ret == 0 ==> g.parent.fs.tree == old(g.parent.fs.tree) - {g.name}
    ensures ret == 0 ==> RmdirError(old(g.parent.fs.tree), GadgetDir(g.name)) == SUCCESS
    ensures ret != 0 ==> g.parent.gadgets == old(g.parent.gadgets) && g.parent.fs.tree == old(g.parent.fs.tree)
    ensures old(g.parent.fs.Quiet()) ==> g.parent.fs.Quiet()
    ensures old(g.parent.fs.Quiet()) ==> ret == RmdirError(old(g.parent.fs.tree), GadgetDir(g.name))
  {
    var s := g.parent;
    ret := s.fs.Rmdir(GadgetDir(g.name));
    if ret != 0 { return; }
    s.gadgets := Without(s.gadgets, g);
    hide Without, GadgetOk;
    GadgetGone(g);
  }

  /** `usbg_rm_gadget`. Success removes exactly the gadget's subtree from memory and from configfs. A recursive
      removal that fails leaves a gadget in agreement, with suffixes of its lists; the next one succeeds
      when calls no longer fail, unless the gadget is stuck. */
  method RmGadget(g: Gadget, recurse: bool) returns (ret: int)
    requires Live(g)
    modifies g.parent`gadgets, g.configs, g`configs, g`osDesc, g`functions,
      set f <- g.functions | f.ms != null :: f.ms, g.parent.fs
    ensures ret <= 0 && g.parent.Valid()
    ensures ret == 0 ==> g.parent.gadgets == Without(old(g.parent.gadgets), g) && g !in g.parent.gadgets
    ensures ret == 0 ==> g.parent.fs.tree == old(g.parent.fs.tree) - {g.name}
    ensures ret == 0 && recurse ==> !old(Stuck(g))
    ensures ret != 0 ==> g.parent.gadgets == old(g.parent.gadgets)
    ensures ret != 0 ==> OnlyGadget(old(g.parent.fs.tree), g.parent.fs.tree, g.name)
    ensures g.osDesc == old(g.osDesc)
    ensures ret != 0 ==> Suffix(g.configs, old(g.configs)) && Suffix(g.functions, old(g.functions))
    ensures ret != 0 && old(Stuck(g)) ==> Stuck(g)
    ensures ret != 0 && old(AllClear(g)) ==> AllClear(g)
    ensures ret != 0 && !recurse ==> g.parent.fs.tree == old(g.parent.fs.tree)
    ensures !recurse ==> g.configs == old(g.configs) && g.functions == old(g.functions)
    ensures ret != 0 ==> StraysKept(g)
    ensures ret == 0 && recurse ==> old(NoStrays(g))
    ensures old(g.parent.fs.Quiet()) ==> g.parent.fs.Quiet()
    ensures !recurse && old(g.parent.fs.Quiet()) ==> ret == RmdirError(old(g.parent.fs.tree), GadgetDir(g.name))
    ensures recurse && old(g.parent.fs.Quiet() && Stuck(g)) ==> ret == NOT_FOUND
    ensures recurse && old(g.parent.fs.Quiet() && AllClear(g) && !Stuck(g)) ==>
      (ret == 0 <==> old(NoStrays(g))) && (ret == 0 || ret == BUSY || ret == NOT_EMPTY)
  {
    hide AllClear, Stuck, Suffix, State.Agrees, Without, ConfigNames, FunctionNames;
    var s := g.parent;
    ghost var t := s.fs.tree;
    LiveParts(g);
    OnlyGadgetReflexive(t, g.name);
    SuffixReflexive(g.functions);
    SuffixReflexive(g.configs);
    ret := 0;
    if recurse {
      ret := StripGadget(g);
      if ret != 0 { return; }
      NoOsLinkWithoutConfigs(g);
      EmptiedGadget(g);
    }
    ghost var u := s.fs.tree;
    ret := RmGadgetDir(g);
    if ret == 0 { assert u - {g.name} == t - {g.name}; }
  }
}
