/** The live handle tree: what the library remembers of the gadgets, functions, configurations and
    bindings it has parsed or made, next to the configfs tree it mirrors. */
module Handles {
  import opened Errors
  import opened Text
  import opened Names
  import opened Kernel
  import opened MassStorage

  class Udc {
    const parent: State
    const name: string
    var gadget: Gadget?

    constructor (parent: State, name: string)
      ensures this.parent == parent && this.name == name && gadget == null
    {
      this.parent, this.name, gadget := parent, name, null;
    }
  }

  class Function {
    const parent: Gadget
    const ftype: FunctionType
    const instance: string
    const name: string
    const ms: MsFunction?
    var lbl: Option<string>

    constructor (parent: Gadget, ftype: FunctionType, instance: string)
      ensures this.parent == parent && this.ftype == ftype && this.instance == instance
      ensures name == FunctionName(ftype, instance) && lbl == None
      ensures (ms != null <==> ftype == MassStorage)
      ensures ms != null ==> fresh(ms) && ms.fs == parent.parent.fs && ms.g == parent.name && ms.f == name
      ensures ms != null ==> !ms.initiated && forall i: LunId :: !ms.luns[i]
    {
      var m: MsFunction? := null;
      if ftype == MassStorage {
        m := new MsFunction(parent.parent.fs, parent.name, FunctionName(ftype, instance));
      }
      this.parent, this.ftype, this.instance := parent, ftype, instance;
      name, ms, lbl := FunctionName(ftype, instance), m, None;
    }
  }

  class Binding {
    const parent: Config
    const name: string
    const target: Function

    constructor (parent: Config, name: string, target: Function)
      ensures this.parent == parent && this.name == name && this.target == target
    {
      this.parent, this.name, this.target := parent, name, target;
    }
  }

  class Config {
    const parent: Gadget
    const lbl: string
    const id: int
    const name: string
    var bindings: seq<Binding>

    constructor (parent: Gadget, lbl: string, id: int)
      ensures this.parent == parent && this.lbl == lbl && this.id == id
      ensures name == ConfigName(lbl, id) && bindings == []
    {
      this.parent, this.lbl, this.id, name, bindings := parent, lbl, id, ConfigName(lbl, id), [];
    }
  }

  class Gadget {
    const parent: State
    const name: string
    var configs: seq<Config>
    var functions: seq<Function>
    var udc: Udc?
    var osDesc: Config?

    constructor (parent: State, name: string)
      ensures this.parent == parent && this.name == name
      ensures configs == [] && functions == [] && udc == null && osDesc == null
    {
      this.parent, this.name, configs, functions, udc, osDesc := parent, name, [], [], null, null;
    }
  }

  class State {
    const fs: ConfigFs
    var gadgets: seq<Gadget>
    var udcs: seq<Udc>

    constructor (fs: ConfigFs)
      ensures this.fs == fs && gadgets == [] && udcs == []
    {
      this.fs, gadgets, udcs := fs, [], [];
    }

    /** Memory agrees with configfs: every handle stands for a directory or link of that name, lists are in
        the order of the directory listings, keys are unique, and bindings lead to live functions.
        Configfs may hold more directories than memory knows, where the rollback of a failed creation failed. */
    ghost predicate Agrees(t: Tree)
      reads this`gadgets, this`udcs, set g <- gadgets :: g, set g <- gadgets, c <- g.configs :: c
    {
      && (forall i, j :: 0 <= i < j < |gadgets| ==> Below(gadgets[i].name, gadgets[j].name))
      && (forall g <- gadgets :: g.parent == this && g.name in t && GadgetOk(g, t[g.name]))
      && (forall u <- udcs :: u.parent == this && u.name != "")
      && (forall i, j :: 0 <= i < j < |udcs| ==> Below(udcs[i].name, udcs[j].name))
    }

    ghost predicate Valid()
      reads this`gadgets, this`udcs, fs`tree, set g <- gadgets :: g, set g <- gadgets, c <- g.configs :: c
    {
      Agrees(fs.tree)
    }
  }

  ghost predicate FunctionOk(g: Gadget, f: Function, kg: KGadget) {
    && f.parent == g && f.instance != "" && f.name == FunctionName(f.ftype, f.instance) && f.name in kg.functions
    && (f.ms != null <==> f.ftype == MassStorage)
    && (f.ms != null ==> f.ms.fs == g.parent.fs && f.ms.g == g.name && f.ms.f == f.name)
  }

  ghost predicate BindingOk(c: Config, b: Binding, fns: seq<Function>, kc: KConfig) {
    b.parent == c && b.target in fns && b.name in kc.links && kc.links[b.name] == b.target.name
  }

  /** The bindings of a configuration are exactly its links. */
  ghost predicate BindingsOk(c: Config, bs: seq<Binding>, fns: seq<Function>, kc: KConfig) {
    && (forall b <- bs :: BindingOk(c, b, fns, kc))
    && kc.links.Keys == (set b <- bs :: b.name)
    && (forall i, j :: 0 <= i < j < |bs| ==> Below(bs[i].name, bs[j].name) && bs[i].target != bs[j].target)
  }

  ghost predicate ConfigOk(g: Gadget, c: Config, kg: KGadget) {
    c.parent == g && 1 <= c.id <= 255 && c.name == ConfigName(c.lbl, c.id) && c.name in kg.configs
  }

  /** A link in `os_desc` leads to the configuration the gadget has recorded. */
  ghost predicate OsDescOk(configs: seq<Config>, osDesc: Config?, kg: KGadget) {
    kg.osLinks == map[] || (osDesc != null && osDesc in configs && kg.osLinks == map[osDesc.name := osDesc.name])
  }

  /** Agreement of a gadget whose lists are the given ones. */
  ghost predicate PartsOk(g: Gadget, fns: seq<Function>, configs: seq<Config>, osDesc: Config?, kg: KGadget)
    reads set c <- configs :: c
  {
    && (forall f <- fns :: FunctionOk(g, f, kg))
    && (forall i, j :: 0 <= i < j < |fns| ==> Below(fns[i].name, fns[j].name))
    && (forall c <- configs :: ConfigOk(g, c, kg) && BindingsOk(c, c.bindings, fns, kg.configs[c.name]))
    && (forall i, j :: 0 <= i < j < |configs| ==> Below(configs[i].name, configs[j].name) && configs[i].id != configs[j].id)
    && OsDescOk(configs, osDesc, kg)
  }

  ghost predicate GadgetOk(g: Gadget, kg: KGadget)
    reads g, set c <- g.configs :: c
  {
    PartsOk(g, g.functions, g.configs, g.osDesc, kg)
  }

  // ----- handles a caller may hold

  ghost predicate Live(g: Gadget)
    reads g.parent`gadgets, g.parent`udcs, g.parent.fs`tree, set h <- g.parent.gadgets :: h,
          set h <- g.parent.gadgets, c <- h.configs :: c
  {
    g.parent.Valid() && g in g.parent.gadgets
  }

  /** Nothing the kernel keeps in the directory of `f` stands in the way of its removal, bindings apart. */
  ghost predicate Emptiable(f: Function, k: KFunction)
    reads f.ms
  {
    if f.ms == null then k.luns.Keys <= {0} else f.ms.AgreesWith(k.luns)
  }

  // ----- one gadget changes

  lemma NamesDiffer<T>(s: seq<T>, name: T -> string, x: T, y: T)
    requires forall i, j :: 0 <= i < j < |s| ==> Below(name(s[i]), name(s[j]))
    requires x in s && y in s && x != y
    ensures name(x) != name(y)
  {
    BelowIrreflexive(name(x));
  }

  /** A step that touches a single gadget, in memory and in configfs, keeps the tree valid
      when it keeps that gadget in agreement. */
  twostate lemma OneGadgetChanged(g: Gadget)
    requires old(Live(g)) && g.parent.gadgets == old(g.parent.gadgets) && g.parent.udcs == old(g.parent.udcs)
    requires forall h <- g.parent.gadgets | h != g ::
      unchanged(h`functions) && unchanged(h`configs) && unchanged(h`osDesc) && forall c <- h.configs :: unchanged(c)
    requires OnlyGadget(old(g.parent.fs.tree), g.parent.fs.tree, g.name)
    requires GadgetOk(g, g.parent.fs.tree[g.name])
    ensures Live(g)
  {
    var s := g.parent;
    forall h | h in s.gadgets ensures h.name in s.fs.tree && GadgetOk(h, s.fs.tree[h.name]) {
      if h != g {
        NamesDiffer(s.gadgets, (x: Gadget) => x.name, g, h);
        assert old(GadgetOk(h, s.fs.tree[h.name]));
      }
    }
  }

  ghost predicate LiveConfig(c: Config)
    reads c.parent, c.parent.parent`gadgets, c.parent.parent`udcs, c.parent.parent.fs`tree, set h <- c.parent.parent.gadgets :: h,
          set h <- c.parent.parent.gadgets, d <- h.configs :: d
  {
    Live(c.parent) && c in c.parent.configs
  }

  ghost predicate LiveBinding(b: Binding)
    reads b.parent, b.parent.parent, b.parent.parent.parent`gadgets, b.parent.parent.parent`udcs, b.parent.parent.parent.fs`tree,
          set h <- b.parent.parent.parent.gadgets :: h,
          set h <- b.parent.parent.parent.gadgets, d <- h.configs :: d
  {
    LiveConfig(b.parent) && b in b.parent.bindings
  }

  /** A step that changes the bindings of one configuration and the links in its directory. */
  twostate lemma OneConfigChanged(c: Config)
    requires old(LiveConfig(c)) && c.parent.parent.gadgets == old(c.parent.parent.gadgets)
    requires c.parent.parent.udcs == old(c.parent.parent.udcs)
    requires forall h <- c.parent.parent.gadgets ::
      unchanged(h`functions) && unchanged(h`configs) && unchanged(h`osDesc) && forall d <- h.configs | d != c :: unchanged(d)
    requires HasConfig(c.parent.parent.fs.tree, c.parent.name, c.name)
    requires c.parent.parent.fs.tree ==
      SetConfig(old(c.parent.parent.fs.tree), c.parent.name, c.name, c.parent.parent.fs.tree[c.parent.name].configs[c.name])
    requires BindingsOk(c, c.bindings, c.parent.functions, c.parent.parent.fs.tree[c.parent.name].configs[c.name])
    ensures LiveConfig(c)
  {
    var g := c.parent;
    var kg := g.parent.fs.tree[g.name];
    assert old(GadgetOk(g, g.parent.fs.tree[g.name]));
    hide BindingsOk, FunctionOk;
    forall d | d in g.configs ensures ConfigOk(g, d, kg) && BindingsOk(d, d.bindings, g.functions, kg.configs[d.name]) {
      if d != c {
        NamesDiffer(g.configs, (x: Config) => x.name, c, d);
      }
    }
    FunctionsStay(g, g.functions, old(g.parent.fs.tree[g.name]), kg);
    assert GadgetOk(g, kg);
    assert forall h <- g.parent.gadgets, d <- h.configs | h != g :: d != c by {
      forall h, d | h in g.parent.gadgets && h != g && d in h.configs ensures d != c {
        assert old(GadgetOk(h, g.parent.fs.tree[h.name]));
      }
    }
    OneGadgetChanged(g);
  }

  /** A step in configfs alone that takes no directory and no link away from one gadget,
      and links nothing but new directories. */
  lemma GrownKept(g: Gadget, t: Tree, u: Tree)
    requires g.parent.Agrees(t) && g in g.parent.gadgets
    requires OnlyGadget(t, u, g.name) && Grown(t[g.name], u[g.name])
    ensures g.parent.Agrees(u)
  {
    var s := g.parent;
    forall h | h in s.gadgets ensures h.name in u && GadgetOk(h, u[h.name]) {
      if h == g {
        var k, l := t[g.name], u[g.name];
        assert GadgetOk(g, k);
        FunctionsStay(g, g.functions, k, l);
        forall c | c in g.configs ensures ConfigOk(g, c, l) && BindingsOk(c, c.bindings, g.functions, l.configs[c.name]) {
          assert ConfigOk(g, c, k) && BindingsOk(c, c.bindings, g.functions, k.configs[c.name]);
        }
        hide BindingsOk, FunctionOk;
      } else {
        NamesDiffer(s.gadgets, (x: Gadget) => x.name, g, h);
      }
    }
  }

  lemma ShapeKept(g: Gadget, t: Tree, u: Tree)
    requires g.parent.Agrees(t) && g in g.parent.gadgets
    requires OnlyGadget(t, u, g.name) && SameShape(t[g.name], u[g.name])
    ensures g.parent.Agrees(u)
  {
    hide State.Agrees, OnlyGadget;
    GrownKept(g, t, u);
  }

  lemma ConfigExists(c: Config)
    requires LiveConfig(c)
    ensures HasConfig(c.parent.parent.fs.tree, c.parent.name, c.name)
    ensures forall b <- c.bindings :: b.parent == c && LiveBinding(b)
    ensures c.parent.parent.fs.tree[c.parent.name].configs[c.name].links.Keys == set b <- c.bindings :: b.name
  {
    var g := c.parent;
    assert GadgetOk(g, g.parent.fs.tree[g.name]);
    assert ConfigOk(g, c, g.parent.fs.tree[g.name]);
    assert forall b <- c.bindings :: BindingOk(c, b, g.functions, g.parent.fs.tree[g.name].configs[c.name]);
  }

  lemma FunctionsStay(g: Gadget, fns: seq<Function>, k: KGadget, l: KGadget)
    requires k.functions.Keys <= l.functions.Keys && forall f <- fns :: FunctionOk(g, f, k)
    ensures forall f <- fns :: FunctionOk(g, f, l)
  {}

  lemma GadgetFromParts(g: Gadget, k: KGadget)
    requires PartsOk(g, g.functions, g.configs, g.osDesc, k)
    ensures GadgetOk(g, k)
  {}

  ghost function ConfigNames(configs: seq<Config>): set<string> { set c <- configs :: c.name }

  lemma ConfigParts(g: Gadget, c: Config)
    requires Live(g) && c in g.configs
    ensures LiveConfig(c) && c.parent == g && HasConfig(g.parent.fs.tree, g.name, c.name)
    ensures BindingsOk(c, c.bindings, g.functions, g.parent.fs.tree[g.name].configs[c.name])
    ensures forall i, j :: 0 <= i < j < |g.functions| ==> Below(g.functions[i].name, g.functions[j].name)
  {
    assert GadgetOk(g, g.parent.fs.tree[g.name]);
    assert ConfigOk(g, c, g.parent.fs.tree[g.name]);
  }

  lemma ConfigsSorted(g: Gadget)
    requires Live(g)
    ensures forall i, j :: 0 <= i < j < |g.configs| ==> Below(g.configs[i].name, g.configs[j].name)
  {
    assert GadgetOk(g, g.parent.fs.tree[g.name]);
  }

  lemma FunctionParts(g: Gadget, f: Function)
    requires Live(g) && f in g.functions
    ensures f.parent == g && HasFunction(g.parent.fs.tree, g.name, f.name)
    ensures f.ms != null ==> f.ms.fs == g.parent.fs && f.ms.g == g.name && f.ms.f == f.name && f.ms.Present()
    ensures f.name == FunctionName(f.ftype, f.instance) && (f.ms != null <==> f.ftype == MassStorage)
  {
    assert GadgetOk(g, g.parent.fs.tree[g.name]);
    assert FunctionOk(g, f, g.parent.fs.tree[g.name]);
  }

  // ----- removal of a gadget

  ghost function FunctionNames(fns: seq<Function>): set<string> { set f <- fns :: f.name }

  lemma FunctionsApart(g: Gadget)
    requires Live(g)
    ensures forall i, j :: 0 <= i < j < |g.functions| ==> Below(g.functions[i].name, g.functions[j].name)
    ensures forall f <- g.functions, h <- g.functions | f != h :: f.name != h.name && (f.ms == null || f.ms != h.ms)
  {
    forall f, h | f in g.functions && h in g.functions && f != h ensures f.name != h.name && (f.ms == null || f.ms != h.ms) {
      FunctionParts(g, f);
      FunctionParts(g, h);
      assert GadgetOk(g, g.parent.fs.tree[g.name]);
      NamesDiffer(g.functions, (x: Function) => x.name, f, h);
    }
    assert GadgetOk(g, g.parent.fs.tree[g.name]);
  }
}
