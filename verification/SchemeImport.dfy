/** Importing schemes: the walk over a setting tree that makes functions, configurations and gadgets,
    and takes back what it made when something fails. */
module SchemeImport {
  import opened Errors
  import opened Text
  import opened Numbers
  import opened Names
  import opened Settings
  import opened Kernel
  import opened Attributes
  import opened MassStorage
  import opened Records
  import opened Strings
  import opened OsDescs
  import opened Handles
  import opened Removal
  import opened Creation
  import opened Schemes
  import opened SchemeExport

  // ----- functions

  /** The handle and the directory it stands for, while the function is being filled in. */
  ghost predicate Wired(f: Function)
    reads f.parent.parent.fs`tree
  {
    HasFunction(f.parent.parent.fs.tree, f.parent.name, f.name) &&
    (f.ms != null <==> f.ftype == MassStorage) &&
    (f.ms != null ==> f.ms.fs == f.parent.parent.fs && f.ms.g == f.parent.name && f.ms.f == f.name)
  }

  ghost function DirOf(f: Function): KFunction
    requires HasFunction(f.parent.parent.fs.tree, f.parent.name, f.name)
    reads f.parent.parent.fs`tree
  {
    f.parent.parent.fs.tree[f.parent.name].functions[f.name]
  }

  /** The importer of the function's type. */
  method ImportFunctionAttrs(f: Function, root: Setting) returns (ret: int)
    requires Wired(f) && Emptiable(f, DirOf(f))
    modifies f.ms, f.parent.parent.fs
    ensures ret <= 0 && OnlyFunction(old(f.parent.parent.fs.tree), f.parent.parent.fs.tree, f.parent.name, f.name)
    ensures Wired(f) && Emptiable(f, DirOf(f))
    ensures ret == 0 ==> ImportAttrsOf(f.ftype, root, old(DirOf(f)), f.parent.parent.fs.defaults) == Ok(DirOf(f))
    ensures old(f.parent.parent.fs.Quiet()) ==> f.parent.parent.fs.Quiet()
    ensures old(f.parent.parent.fs.Quiet() && (f.ms != null ==> 0 in DirOf(f).luns)) ==>
      ret == Code(ImportAttrsOf(f.ftype, root, old(DirOf(f)), f.parent.parent.fs.defaults))
  {
    hide ImportMs, ImportFrom, OnlyFiles;
    var fs := f.parent.parent.fs;
    var g := f.parent.name;
    ghost var t := fs.tree;
    OnlyFunctionReflexive(t, g, f.name);
    if f.ms != null {
      ret := f.ms.Import(root);
      OnlyLunsOnlyFunction(t, fs.tree, g, f.name);
    } else {
      match AttrTable(f.ftype)
      case None => ret := NOT_SUPPORTED;
      case Some(table) =>
        TablesWellFormed(f.ftype);
        ret := ImportAttrs(fs, FunctionDir(g, f.name), table, root);
        FilesOnlyFunction(t, fs.tree, g, f.name);
    }
  }

  lemma IfacesOnlyFunction(t: Tree, u: Tree, g: string, f: string)
    requires OnlyIfaces(t, u, g, f)
    ensures OnlyFunction(t, u, g, f) && u[g].functions[f] == t[g].functions[f].(ifaces := u[g].functions[f].ifaces)
  {}

  /** Attributes and OS descriptors of a new function, both optional. */
  method FillNewFunction(f: Function, root: Setting) returns (ret: int)
    requires Wired(f) && Emptiable(f, DirOf(f))
    modifies f.ms, f.parent.parent.fs
    ensures ret <= 0 && OnlyFunction(old(f.parent.parent.fs.tree), f.parent.parent.fs.tree, f.parent.name, f.name)
    ensures Wired(f) && Emptiable(f, DirOf(f))
    ensures ret == 0 ==> FillFunction(f.ftype, root, old(DirOf(f)), f.parent.parent.fs.defaults) == Ok(DirOf(f))
    ensures old(f.parent.parent.fs.Quiet()) ==> f.parent.parent.fs.Quiet()
    ensures old(f.parent.parent.fs.Quiet() && (f.ms != null ==> 0 in DirOf(f).luns)) ==>
      ret == Code(FillFunction(f.ftype, root, old(DirOf(f)), f.parent.parent.fs.defaults))
  {
    hide ImportAttrsOf, ImportIfaces, OnlyIfaces, OnlyFunction, Get;
    var fs := f.parent.parent.fs;
    var g := f.parent.name;
    ghost var t := fs.tree;
    OnlyFunctionReflexive(t, g, f.name);
    ret := 0;
    var node := Get(root, "attrs");
    if node.Some? {
      ret := ImportFunctionAttrs(f, node.value);
      if ret != 0 { return; }
    }
    ghost var u := fs.tree;
    node := Get(root, "os_descs");
    if node.Some? {
      ret := ImportIfaceList(fs, g, f.name, f.ftype, Children(node.value));
      IfacesOnlyFunction(u, fs.tree, g, f.name);
      OnlyFunctionTransitive(t, u, fs.tree, g, f.name);
    }
  }

  lemma NewFunctionErrors(t: Tree, g: string, ftype: FunctionType, instance: string, d: Defaults)
    requires g in t
    ensures CreateFunctionError(t, g, ftype, instance, d) == NewFunctionError(t[g], ftype, instance, d)
  {
    TypePartOfName(ftype, instance);
  }

  /** Handles and tree after a function was created: `f` is at its place in the list. */
  twostate predicate FunctionCreated(g: Gadget, new f: Function, at: nat)
    reads g, f, g.parent.fs`tree
  {
    fresh(f) && (f.ms != null ==> fresh(f.ms)) && f.parent == g && f.lbl == None &&
    at <= |old(g.functions)| && g.functions == old(g.functions)[..at] + [f] + old(g.functions)[at..] &&
    FunctionMade(old(g.parent.fs.tree), g.parent.fs.tree, g.name, f.name)
  }

  /** `usbg_import_function_run`. When attributes or descriptors fail, the function stays: the caller has to
      take it back, if anyone. */
  method ImportFunctionRun(g: Gadget, root: Setting, instance: string) returns (ret: int, f: Function?, ghost at: nat)
    requires Live(g) && LunDefaults(g.parent.fs.defaults)
    modifies g`functions, g.parent.fs
    ensures ret <= 0 && Live(g)
    ensures f == null ==> ret != 0 && g.functions == old(g.functions) && g.parent.fs.tree == old(g.parent.fs.tree)
    ensures f != null ==> FunctionCreated(g, f, at) && Wired(f) && Emptiable(f, DirOf(f))
    ensures ret == 0 ==> g.name in old(g.parent.fs.tree) && g.name in g.parent.fs.tree
    ensures ret == 0 ==>
      ImportFunction(old(g.parent.fs.tree)[g.name], root, instance, g.parent.fs.defaults) == Ok(WithFunction(g.parent.fs.tree[g.name], f.name))
    ensures old(g.parent.fs.Quiet()) ==> g.parent.fs.Quiet() && g.name in old(g.parent.fs.tree)
    ensures old(g.parent.fs.Quiet()) ==>
      ret == Code(ImportFunction(old(g.parent.fs.tree)[g.name], root, instance, g.parent.fs.defaults))
  {
    hide State.Agrees, FillFunction, Emptiable, FunctionName, NewFunctionError, FunctionMade, OnlyFunction, ValidName, LunDefaults;
    f, at := null, 0;
    ghost var t := g.parent.fs.tree;
    GadgetExists(g);
    var node := Get(root, "type");
    if node.None? { return MISSING_TAG, null, 0; }
    if !node.value.SStr? { return INVALID_TYPE, null, 0; }
    var i := LookupFunctionType(node.value.s);
    if i < 0 { return NOT_SUPPORTED, null, 0; }
    var ftype := TYPE_TABLE[i];
    NewFunctionErrors(t, g.name, ftype, instance, g.parent.fs.defaults);
    ret, f, at := CreateFunction(g, ftype, instance, NoAttrs);
    if ret != 0 { f := null; return; }
    ghost var u := g.parent.fs.tree;
    FunctionMadeNames(t, u, g.name, f.name);
    FunctionNamed(g, f);
    NewLuns(ftype, g.parent.fs.defaults);
    ret := FillNewFunction(f, root);
    FunctionMadeAgain(t, u, g.parent.fs.tree, g.name, f.name);
    FunctionFilled(g, u, g.parent.fs.tree, f.name);
    FunctionMadeNames(t, g.parent.fs.tree, g.name, f.name);
  }

  lemma GadgetExists(g: Gadget)
    requires Live(g)
    ensures g.name in g.parent.fs.tree
  {}

  lemma FunctionMadeNames(t: Tree, u: Tree, g: string, f: string)
    requires FunctionMade(t, u, g, f)
    ensures g in t && f !in t[g].functions && HasFunction(u, g, f)
    ensures u[g] == t[g].(functions := t[g].functions[f := u[g].functions[f]])
  {}

  lemma FunctionMadeOnly(t: Tree, u: Tree, g: string, f: string)
    requires FunctionMade(t, u, g, f)
    ensures OnlyGadget(t, u, g)
  {}

  lemma FunctionFilled(g: Gadget, t: Tree, u: Tree, f: string)
    requires g.parent.Agrees(t) && g in g.parent.gadgets && OnlyFunction(t, u, g.name, f)
    ensures g.parent.Agrees(u)
  {
    hide State.Agrees;
    OnlyFunctionSameShape(t, u, g.name, f);
    ShapeKept(g, t, u);
  }

  // ----- what memory knows in the course of an import

  ghost predicate Tracks(configs: seq<Config>, fns: seq<Function>, k: KGadget, labels: Labels)
    reads fns, set f <- fns | f.ms != null :: f.ms
  {
    Known(configs, fns, k) && LabelsOf(fns, labels) && labels.Keys <= FunctionNames(fns)
  }

  /** Memory knows every directory of the gadget, every function can be taken back, and `labels` lists the labels. */
  ghost predicate Tracked(g: Gadget, labels: Labels)
    reads g, g.functions, g.parent.fs`tree, set f <- g.functions | f.ms != null :: f.ms
  {
    g.name in g.parent.fs.tree && Tracks(g.configs, g.functions, g.parent.fs.tree[g.name], labels)
  }

  lemma TracksNewFunction(configs: seq<Config>, fns: seq<Function>, at: nat, f: Function, k: KGadget, kf: KFunction, labels: Labels)
    requires Tracks(configs, fns, k, labels) && at <= |fns|
    requires f.name !in k.functions && Emptiable(f, kf) && f.lbl == None
    ensures Tracks(configs, fns[..at] + [f] + fns[at..], k.(functions := k.functions[f.name := kf]), labels)
  {
    hide Emptiable;
    var more := fns[..at] + [f] + fns[at..];
    Inserted(fns, f, at);
    assert FunctionNames(more) == FunctionNames(fns) + {f.name};
    assert f.name !in FunctionNames(fns);
  }

  lemma TracksLabel(configs: seq<Config>, fns: seq<Function>, f: Function, k: KGadget, labels: Labels, lbl: string)
    requires Known(configs, fns, k) && f in fns && f.lbl == Some(lbl) && labels.Keys <= FunctionNames(fns)
    requires forall h <- fns | h != f :: h.name != f.name
    requires forall h <- fns | h != f :: (h.name in labels <==> h.lbl.Some?) && (h.lbl.Some? ==> labels[h.name] == h.lbl.value)
    ensures Tracks(configs, fns, k, labels[f.name := lbl])
  {
    hide Known;
    assert f.name in FunctionNames(fns);
  }

  /** What a call knows while it adds to a gadget: with `labels`, that memory knows every directory; without,
      only that every function memory knows can be taken back. */
  ghost predicate Followed(g: Gadget, labels: Option<Labels>)
    reads g, g.functions, g.parent.fs`tree, set f <- g.functions | f.ms != null :: f.ms
  {
    g.name in g.parent.fs.tree && Follows(g.configs, g.functions, g.parent.fs.tree[g.name], labels)
  }

  ghost predicate Follows(configs: seq<Config>, fns: seq<Function>, k: KGadget, labels: Option<Labels>)
    reads fns, set f <- fns | f.ms != null :: f.ms
  {
    if labels.Some? then Tracks(configs, fns, k, labels.value) else Clear(fns, k)
  }

  lemma FollowsNewFunction(configs: seq<Config>, fns: seq<Function>, at: nat, f: Function, k: KGadget, kf: KFunction,
                           labels: Option<Labels>)
    requires Follows(configs, fns, k, labels) && at <= |fns|
    requires f.name !in k.functions && Emptiable(f, kf) && f.lbl == None
    ensures Follows(configs, fns[..at] + [f] + fns[at..], k.(functions := k.functions[f.name := kf]), labels)
  {
    hide Emptiable;
    Inserted(fns, f, at);
    if labels.Some? { TracksNewFunction(configs, fns, at, f, k, kf, labels.value); }
  }

  /** Functions and configurations may have been added, and nothing that was there differs but configuration `c`. */
  ghost predicate Extended(k: KGadget, l: KGadget, c: Option<string>) {
    l == k.(functions := l.functions, configs := l.configs) && SubMap(k.functions, l.functions) &&
    k.configs.Keys <= l.configs.Keys && forall n <- k.configs :: c == Some(n) || l.configs[n] == k.configs[n]
  }

  lemma ExtendedTransitive(k: KGadget, l: KGadget, m: KGadget, c: Option<string>)
    requires Extended(k, l, c) && Extended(l, m, c)
    ensures Extended(k, m, c)
  {}

  lemma ExtendedByFunction(k: KGadget, f: string, kf: KFunction, c: Option<string>)
    requires f !in k.functions
    ensures Extended(k, k.(functions := k.functions[f := kf]), c)
  {}

  lemma ExtendedSame(k: KGadget, c: Option<string>)
    ensures Extended(k, k, c)
  {}

  lemma FunctionNamesWith(fns: seq<Function>, f: Function, at: nat)
    requires at <= |fns|
    ensures FunctionNames(fns[..at] + [f] + fns[at..]) == FunctionNames(fns) + {f.name}
  {
    Inserted(fns, f, at);
  }

  /** The functions a step may have added are new ones. */
  twostate predicate FunctionsGrown(g: Gadget)
    reads g
  {
    (forall h <- old(g.functions) :: h in g.functions) &&
    (forall h <- g.functions :: h in old(g.functions) || (fresh(h) && (h.ms != null ==> fresh(h.ms))))
  }

  /** What every step of an import does to a gadget, apart from configuration `c`, whether it succeeds or not. */
  twostate predicate Enlarged(g: Gadget, c: Option<string>)
    reads g, g.parent.fs`tree
  {
    OnlyGadget(old(g.parent.fs.tree), g.parent.fs.tree, g.name) && FunctionsGrown(g) && StraysKept(g) &&
    Extended(old(g.parent.fs.tree[g.name]), g.parent.fs.tree[g.name], c)
  }

  lemma TrackedFollowed(g: Gadget, labels: Option<Labels>)
    ensures Followed(g, labels) && labels.Some? ==> Tracked(g, labels.value)
    ensures labels.Some? && Tracked(g, labels.value) ==> Followed(g, labels)
    ensures Followed(g, labels) ==> AllClear(g)
  {}

  /** A function imported into a gadget that memory knows completely: it still does. */
  method ImportTracked(g: Gadget, root: Setting, instance: string, ghost labels: Labels) returns (ret: int, f: Function?)
    requires Live(g) && LunDefaults(g.parent.fs.defaults) && Tracked(g, labels)
    modifies g`functions, g.parent.fs
    ensures ret <= 0 && Live(g) && Tracked(g, labels) && FunctionsGrown(g) && g.name in old(g.parent.fs.tree)
    ensures OnlyGadget(old(g.parent.fs.tree), g.parent.fs.tree, g.name)
    ensures g.parent.fs.tree[g.name].osLinks == old(g.parent.fs.tree)[g.name].osLinks
    ensures ret == 0 ==> f != null && fresh(f) && f in g.functions
    ensures ret == 0 ==>
      Schemes.ImportFunction(old(g.parent.fs.tree)[g.name], root, instance, g.parent.fs.defaults) == Ok(WithFunction(g.parent.fs.tree[g.name], f.name))
    ensures old(g.parent.fs.Quiet()) ==> g.parent.fs.Quiet()
    ensures old(g.parent.fs.Quiet()) ==>
      ret == Code(Schemes.ImportFunction(old(g.parent.fs.tree)[g.name], root, instance, g.parent.fs.defaults))
  {
    hide State.Agrees, Emptiable, LunDefaults, Schemes.ImportFunction, OnlyGadget, Tracks, FunctionMade;
    ghost var t := g.parent.fs.tree;
    OnlyGadgetReflexive(t, g.name);
    ghost var fns := g.functions;
    ghost var at;
    ret, f, at := ImportFunctionRun(g, root, instance);
    if f == null { return; }
    Inserted(fns, f, at);
    FunctionMadeOnly(t, g.parent.fs.tree, g.name, f.name);
    FunctionMadeNames(t, g.parent.fs.tree, g.name, f.name);
    TracksNewFunction(g.configs, fns, at, f, t[g.name], DirOf(f), labels);
  }

  /** One group of the `functions` section. */
  method ImportLabelledFunction(g: Gadget, m: Member, ghost labels: Labels) returns (ret: int, ghost more: Labels)
    requires Live(g) && LunDefaults(g.parent.fs.defaults) && Tracked(g, labels)
    modifies g`functions, g.parent.fs
    ensures ret <= 0 && Live(g) && Tracked(g, more) && FunctionsGrown(g)
    ensures OnlyGadget(old(g.parent.fs.tree), g.parent.fs.tree, g.name)
    ensures g.parent.fs.tree[g.name].osLinks == old(g.parent.fs.tree)[g.name].osLinks
    ensures ret == 0 ==>
      ImportLabelled(Draft(old(g.parent.fs.tree)[g.name], labels), m, g.parent.fs.defaults) == Ok(Draft(g.parent.fs.tree[g.name], more))
    ensures old(g.parent.fs.Quiet()) ==> g.parent.fs.Quiet()
    ensures old(g.parent.fs.Quiet()) ==>
      ret == Code(ImportLabelled(Draft(old(g.parent.fs.tree)[g.name], labels), m, g.parent.fs.defaults))
  {
    hide State.Agrees, LunDefaults, Schemes.ImportFunction, OnlyGadget, Known, LabelsOf, Get, FunctionNames;
    more := labels;
    OnlyGadgetReflexive(g.parent.fs.tree, g.name);
    if !m.value.SGroup? { return INVALID_TYPE, labels; }
    var node := Get(m.value, "instance");
    if node.None? { return MISSING_TAG, labels; }
    if !node.value.SStr? { return INVALID_TYPE, labels; }
    var f;
    ret, f := ImportTracked(g, m.value, node.value.s, labels);
    if ret != 0 { return; }
    FunctionsApart(g);
    LabelsListed(g.functions, labels);
    f.lbl := Some(m.name);
    TracksLabel(g.configs, g.functions, f, g.parent.fs.tree[g.name], labels, m.name);
    more := labels[f.name := m.name];
  }

  lemma LabelsListed(fns: seq<Function>, labels: Labels)
    requires LabelsOf(fns, labels)
    ensures forall f <- fns :: (f.name in labels <==> f.lbl.Some?) && (f.lbl.Some? ==> labels[f.name] == f.lbl.value)
  {}

  /** `usbg_import_gadget_functions`. */
  method ImportGadgetFunctions(g: Gadget, ms: seq<Member>, ghost labels: Labels) returns (ret: int, ghost more: Labels)
    requires Live(g) && LunDefaults(g.parent.fs.defaults) && Tracked(g, labels)
    modifies g`functions, g.parent.fs
    ensures ret <= 0 && Live(g) && Tracked(g, more) && FunctionsGrown(g)
    ensures OnlyGadget(old(g.parent.fs.tree), g.parent.fs.tree, g.name)
    ensures g.parent.fs.tree[g.name].osLinks == old(g.parent.fs.tree)[g.name].osLinks
    ensures ret == 0 ==>
      ImportFunctions(Draft(old(g.parent.fs.tree)[g.name], labels), ms, g.parent.fs.defaults) == Ok(Draft(g.parent.fs.tree[g.name], more))
    ensures old(g.parent.fs.Quiet()) ==> g.parent.fs.Quiet()
    ensures old(g.parent.fs.Quiet()) ==>
      ret == Code(ImportFunctions(Draft(old(g.parent.fs.tree)[g.name], labels), ms, g.parent.fs.defaults))
  {
    hide State.Agrees, Tracks, LunDefaults, ImportLabelled, OnlyGadget;
    ghost var t := g.parent.fs.tree;
    OnlyGadgetReflexive(t, g.name);
    ghost var whole := ImportFunctions(Draft(t[g.name], labels), ms, g.parent.fs.defaults);
    ret, more := 0, labels;
    var i := 0;
    assert ms[0..] == ms;
    while i < |ms|
      invariant 0 <= i <= |ms| && ret == 0 && Live(g) && Tracked(g, more) && FunctionsGrown(g)
      invariant OnlyGadget(t, g.parent.fs.tree, g.name) && g.parent.fs.tree[g.name].osLinks == t[g.name].osLinks
      invariant ImportFunctions(Draft(g.parent.fs.tree[g.name], more), ms[i..], g.parent.fs.defaults) == whole
      invariant old(g.parent.fs.Quiet()) ==> g.parent.fs.Quiet()
    {
      assert ms[i..][1..] == ms[i + 1..];
      ghost var u := g.parent.fs.tree;
      ret, more := ImportLabelledFunction(g, ms[i], more);
      OnlyGadgetTransitive(t, u, g.parent.fs.tree, g.name);
      if ret != 0 { return; }
      i := i + 1;
    }
  }

  // ----- bindings

  /** The first function in the list that carries the label is the one with the least name. */
  lemma FirstOwner(g: Gadget, labels: Labels, lbl: string, i: nat)
    requires Live(g) && Tracked(g, labels) && i < |g.functions| && g.functions[i].lbl == Some(lbl)
    requires forall j :: 0 <= j < i ==> g.functions[j].lbl != Some(lbl)
    ensures Owners(labels, lbl) != {} && Least(Owners(labels, lbl)) == g.functions[i].name
  {
    hide State.Agrees, Emptiable, Least;
    var f := g.functions[i];
    FunctionsApart(g);
    var owners := Owners(labels, lbl);
    assert f.name in owners;
    forall n | n in owners ensures n == f.name || Below(f.name, n) {
      assert n in FunctionNames(g.functions);
      var h :| h in g.functions && h.name == n;
      var j :| 0 <= j < |g.functions| && g.functions[j] == h;
    }
    assert IsLeast(owners, f.name);
    LeastUnique(owners, f.name, Least(owners));
  }

  lemma NoOwner(g: Gadget, labels: Labels, lbl: string)
    requires Tracked(g, labels) && forall f <- g.functions :: f.lbl != Some(lbl)
    ensures Owners(labels, lbl) == {}
  {
    hide Emptiable;
    forall n | n in labels ensures labels[n] != lbl {
      assert n in FunctionNames(g.functions);
    }
  }

  /** A function with the given key is there exactly when its directory is. */
  lemma FunctionThere(g: Gadget, labels: Labels, ftype: FunctionType, instance: string)
    requires Live(g) && Tracked(g, labels)
    ensures (exists f <- g.functions :: f.ftype == ftype && f.instance == instance) <==>
      instance != "" && FunctionName(ftype, instance) in g.parent.fs.tree[g.name].functions
    ensures forall f <- g.functions :: f.ftype == ftype && f.instance == instance ==> f.name == FunctionName(ftype, instance)
  {
    hide State.Agrees, Emptiable, FunctionName;
    forall f | f in g.functions
      ensures f.name == FunctionName(f.ftype, f.instance) && f.instance != "" && f.name in g.parent.fs.tree[g.name].functions
    {
      FunctionNamed(g, f);
      FunctionParts(g, f);
    }
    if instance != "" && FunctionName(ftype, instance) in g.parent.fs.tree[g.name].functions {
      assert FunctionName(ftype, instance) in FunctionNames(g.functions);
      var f :| f in g.functions && f.name == FunctionName(ftype, instance);
      FunctionNameInjective(f.ftype, f.instance, ftype, instance);
    }
  }

  /** `usbg_lookup_function`. */
  method LookupFunction(g: Gadget, lbl: string, ghost labels: Option<Labels>) returns (f: Function?)
    requires Live(g) && Followed(g, labels)
    ensures f != null ==> f in g.functions
    ensures labels.Some? ==>
      Lookup(g.parent.fs.tree[g.name], labels.value, lbl) == if f != null then Some(f.name) else None
  {
    TrackedFollowed(g, labels);
    hide State.Agrees, Followed, Tracks, SplitLabel, Owners, Least, FunctionName;
    var i := 0;
    while i < |g.functions|
      invariant 0 <= i <= |g.functions|
      invariant forall j :: 0 <= j < i ==> g.functions[j].lbl != Some(lbl)
    {
      if g.functions[i].lbl == Some(lbl) {
        if labels.Some? { FirstOwner(g, labels.value, lbl, i); }
        return g.functions[i];
      }
      i := i + 1;
    }
    if labels.Some? { NoOwner(g, labels.value, lbl); }
    var key := SplitFunctionLabel(lbl);
    if key.None? { return null; }
    if labels.Some? { FunctionThere(g, labels.value, key.value.ftype, key.value.instance); }
    f := GetFunction(g, key.value.ftype, key.value.instance);
  }

  /** Memory and kernel refuse a binding for the same reasons the specification gives. */
  lemma AddLinkErrors(c: Config, name: string, f: Function)
    requires LiveConfig(c) && f in c.parent.functions && f.parent == c.parent
    ensures c.parent.name in c.parent.parent.fs.tree && c.name in c.parent.parent.fs.tree[c.parent.name].configs
    ensures var t := c.parent.parent.fs.tree;
      AddFunctionError(t, c, name, f) == Code(AddLink(t[c.parent.name], c.name, name, f.name))
  {
    hide Live, State.Agrees, ValidName, HasConfig, HasFunction, SortedNames, BindingNameList, IsFunctionName, IsConfigName, LinksNamed;
    var g := c.parent;
    LiveParts(c);
    FunctionNamed(g, f);
    ConfigExists(c);
    TargetLinked(g, c, f);
    SameLinkErrors(g.parent.fs.tree, c, name, f);
  }

  lemma LiveParts(c: Config)
    requires LiveConfig(c)
    ensures Live(c.parent) && c in c.parent.configs
  {}

  lemma SameLinkErrors(t: Tree, c: Config, name: string, f: Function)
    requires HasConfig(t, c.parent.name, c.name) && HasFunction(t, c.parent.name, f.name) && f.parent == c.parent
    requires var links := t[c.parent.name].configs[c.name].links;
      links.Keys == (set b <- c.bindings :: b.name) && (f.name in links.Values <==> exists b <- c.bindings :: b.target == f)
    ensures AddFunctionError(t, c, name, f) == Code(AddLink(t[c.parent.name], c.name, name, f.name))
  {
    hide ValidName;
    assert name in t[c.parent.name].configs[c.name].links <==> exists b <- c.bindings :: b.name == name;
  }

  lemma TargetLinked(g: Gadget, c: Config, f: Function)
    requires Live(g) && c in g.configs && f in g.functions && HasConfig(g.parent.fs.tree, g.name, c.name)
    ensures f.name in g.parent.fs.tree[g.name].configs[c.name].links.Values <==> exists b <- c.bindings :: b.target == f
  {
    ConfigNamed(g, c);
    FunctionsApart(g);
    ConfigExists(c);
    hide State.Agrees;
    var links := g.parent.fs.tree[g.name].configs[c.name].links;
    if f.name in links.Values {
      var n :| n in links && links[n] == f.name;
      var b :| b in c.bindings && b.name == n;
      assert b.target == f;
    }
    if b :| b in c.bindings && b.target == f {
      assert links[b.name] in links.Values;
    }
  }

  lemma LinkedGadget(t: Tree, g: string, c: string, name: string, f: string)
    requires HasConfig(t, g, c) && AddLink(t[g], c, name, f).Ok?
    ensures var u := AfterLink(t, g, c, name, f);
      OnlyGadget(t, u, g) && u[g] == AddLink(t[g], c, name, f).value && u[g].functions == t[g].functions &&
      u[g].configs.Keys == t[g].configs.Keys && Extended(t[g], u[g], Some(c))
  {}

  /** Binds a function of the same gadget. */
  method BindFunction(c: Config, name: string, f: Function, ghost labels: Option<Labels>) returns (ret: int)
    requires LiveConfig(c) && f in c.parent.functions && Followed(c.parent, labels)
    modifies c`bindings, c.parent.parent.fs
    ensures ret <= 0 && LiveConfig(c) && Followed(c.parent, labels) && Enlarged(c.parent, Some(c.name))
    ensures c.name in old(c.parent.parent.fs.tree)[c.parent.name].configs
    ensures ret == 0 ==>
      AddLink(old(c.parent.parent.fs.tree)[c.parent.name], c.name, name, f.name) == Ok(c.parent.parent.fs.tree[c.parent.name])
    ensures old(c.parent.parent.fs.Quiet()) ==> c.parent.parent.fs.Quiet()
    ensures old(c.parent.parent.fs.Quiet()) ==>
      ret == Code(AddLink(old(c.parent.parent.fs.tree)[c.parent.name], c.name, name, f.name))
  {
    hide State.Agrees, LabelsOf, OnlyGadget, Extended, AddFunctionError, AddLink, FunctionNames, ConfigNames, Follows;
    var g := c.parent;
    ghost var t := g.parent.fs.tree;
    FunctionNamed(g, f);
    AddLinkErrors(c, name, f);
    OnlyGadgetReflexive(t, g.name);
    ExtendedSame(t[g.name], Some(c.name));
    var b;
    ghost var at;
    ret, b, at := AddConfigFunction(c, Some(name), f);
    if ret == 0 {
      LinkedGadget(t, g.name, c.name, name, f.name);
      SameDirsFollowed(g.configs, g.functions, t[g.name], g.parent.fs.tree[g.name], labels);
    }
  }

  lemma SameDirsFollowed(configs: seq<Config>, fns: seq<Function>, k: KGadget, l: KGadget, labels: Option<Labels>)
    requires Follows(configs, fns, k, labels) && l.functions == k.functions && l.configs.Keys == k.configs.Keys
    ensures Follows(configs, fns, l, labels)
  {
    hide Emptiable, LabelsOf;
  }

  /** The function a binding group is for. */
  method ImportBindingTarget(g: Gadget, root: Setting, ghost labels: Option<Labels>) returns (ret: int, f: Function?)
    requires Live(g) && LunDefaults(g.parent.fs.defaults) && Followed(g, labels)
    modifies g`functions, g.parent.fs
    ensures ret <= 0 && Live(g) && Followed(g, labels) && Enlarged(g, None)
    ensures g.parent.fs.tree[g.name].configs == old(g.parent.fs.tree)[g.name].configs
    ensures ret == 0 ==> f != null && f in g.functions
    ensures ret == 0 && labels.Some? ==>
      ImportTarget(Draft(old(g.parent.fs.tree)[g.name], labels.value), root, g.parent.fs.defaults) == Ok(WithFunction(g.parent.fs.tree[g.name], f.name))
    ensures old(g.parent.fs.Quiet()) ==> g.parent.fs.Quiet()
    ensures old(g.parent.fs.Quiet()) && labels.Some? ==>
      ret == Code(ImportTarget(Draft(old(g.parent.fs.tree)[g.name], labels.value), root, g.parent.fs.defaults))
  {
    hide State.Agrees, Follows, LunDefaults, ImportFunction, OnlyGadget, Extended, Lookup, Get, FunctionMade, Emptiable,
      FunctionNames, ConfigNames;
    f := null;
    ghost var t := g.parent.fs.tree;
    OnlyGadgetReflexive(t, g.name);
    ExtendedSame(t[g.name], None);
    var node := Get(root, "function");
    if node.None? { return MISSING_TAG, null; }
    if node.value.SStr? {
      f := LookupFunction(g, node.value.s, labels);
      ret := if f == null then NOT_FOUND else 0;
    } else if node.value.SGroup? {
      var inst := Get(node.value, "instance");
      if inst.None? { return MISSING_TAG, null; }
      if !inst.value.SStr? { return OTHER_ERROR, null; }
      ghost var fns := g.functions;
      ghost var at;
      ret, f, at := ImportFunctionRun(g, node.value, inst.value.s);
      if f == null { return; }
      Inserted(fns, f, at);
      FunctionMadeNames(t, g.parent.fs.tree, g.name, f.name);
      FunctionMadeOnly(t, g.parent.fs.tree, g.name, f.name);
      FunctionNamesWith(fns, f, at);
      ExtendedByFunction(t[g.name], f.name, DirOf(f), None);
      FollowsNewFunction(g.configs, fns, at, f, t[g.name], DirOf(f), labels);
    } else {
      ret := INVALID_TYPE;
    }
  }

  /** `usbg_import_binding_string` and `usbg_import_binding_group`. */
  method ImportBindingNode(c: Config, node: Setting, ghost labels: Option<Labels>) returns (ret: int)
    requires LiveConfig(c) && LunDefaults(c.parent.parent.fs.defaults) && Followed(c.parent, labels)
    modifies c`bindings, c.parent`functions, c.parent.parent.fs
    ensures ret <= 0 && LiveConfig(c) && Followed(c.parent, labels) && Enlarged(c.parent, Some(c.name))
    ensures c.name in old(c.parent.parent.fs.tree)[c.parent.name].configs
    ensures ret == 0 && labels.Some? ==>
      ImportBinding(Draft(old(c.parent.parent.fs.tree)[c.parent.name], labels.value), c.name, node, c.parent.parent.fs.defaults)
      == Ok(c.parent.parent.fs.tree[c.parent.name])
    ensures old(c.parent.parent.fs.Quiet()) ==> c.parent.parent.fs.Quiet()
    ensures old(c.parent.parent.fs.Quiet()) && labels.Some? ==>
      ret == Code(ImportBinding(Draft(old(c.parent.parent.fs.tree)[c.parent.name], labels.value), c.name, node, c.parent.parent.fs.defaults))
  {
    hide State.Agrees, Follows, LunDefaults, ImportTarget, OnlyGadget, Extended, Lookup, Get, AddLink, StrayFunctions, StrayConfigs;
    var g := c.parent;
    ghost var t := g.parent.fs.tree;
    OnlyGadgetReflexive(t, g.name);
    ExtendedSame(t[g.name], Some(c.name));
    ConfigExists(c);
    var target;
    if node.SStr? {
      target := LookupFunction(g, node.s, labels);
      if target == null { return NOT_FOUND; }
      ret := BindFunction(c, target.name, target, labels);
    } else if node.SGroup? {
      ret, target := ImportBindingTarget(g, node, labels);
      ghost var u := g.parent.fs.tree;
      ExtendedExcept(t[g.name], u[g.name], c.name);
      if ret != 0 { return; }
      var name := Get(node, "name");
      if name.Some? && !name.value.SStr? { return INVALID_TYPE; }
      ret := BindFunction(c, if name.Some? then name.value.s else target.name, target, labels);
      OnlyGadgetTransitive(t, u, g.parent.fs.tree, g.name);
      ExtendedTransitive(t[g.name], u[g.name], g.parent.fs.tree[g.name], Some(c.name));
    } else {
      ret := INVALID_TYPE;
    }
  }

  lemma ExtendedExcept(k: KGadget, l: KGadget, c: string)
    requires Extended(k, l, None)
    ensures Extended(k, l, Some(c))
  {}

  /** `usbg_import_config_bindings`. */
  method ImportConfigBindings(c: Config, elems: seq<Setting>, ghost labels: Option<Labels>) returns (ret: int)
    requires LiveConfig(c) && LunDefaults(c.parent.parent.fs.defaults) && Followed(c.parent, labels)
    modifies c`bindings, c.parent`functions, c.parent.parent.fs
    ensures ret <= 0 && LiveConfig(c) && Followed(c.parent, labels) && Enlarged(c.parent, Some(c.name))
    ensures c.name in old(c.parent.parent.fs.tree)[c.parent.name].configs
    ensures ret == 0 && labels.Some? ==>
      ImportBindings(Draft(old(c.parent.parent.fs.tree)[c.parent.name], labels.value), c.name, elems, c.parent.parent.fs.defaults)
      == Ok(c.parent.parent.fs.tree[c.parent.name])
    ensures old(c.parent.parent.fs.Quiet()) ==> c.parent.parent.fs.Quiet()
    ensures old(c.parent.parent.fs.Quiet()) && labels.Some? ==>
      ret == Code(ImportBindings(Draft(old(c.parent.parent.fs.tree)[c.parent.name], labels.value), c.name, elems, c.parent.parent.fs.defaults))
  {
    hide State.Agrees, Follows, LunDefaults, ImportBinding, OnlyGadget, Extended, StrayFunctions, StrayConfigs;
    var g := c.parent;
    ghost var t := g.parent.fs.tree;
    OnlyGadgetReflexive(t, g.name);
    ExtendedSame(t[g.name], Some(c.name));
    ConfigExists(c);
    ghost var ls := if labels.Some? then labels.value else map[];
    ghost var whole := ImportBindings(Draft(t[g.name], ls), c.name, elems, g.parent.fs.defaults);
    ret := 0;
    var i := 0;
    assert elems[0..] == elems;
    while i < |elems|
      invariant 0 <= i <= |elems| && ret == 0 && LiveConfig(c) && Followed(g, labels) && Enlarged(g, Some(c.name))
      invariant c.name in g.parent.fs.tree[g.name].configs
      invariant labels.Some? ==>
        ImportBindings(Draft(g.parent.fs.tree[g.name], ls), c.name, elems[i..], g.parent.fs.defaults) == whole
      invariant old(g.parent.fs.Quiet()) ==> g.parent.fs.Quiet()
    {
      assert elems[i..][1..] == elems[i + 1..];
      ghost var u := g.parent.fs.tree;
      ret := ImportBindingNode(c, elems[i], labels);
      OnlyGadgetTransitive(t, u, g.parent.fs.tree, g.name);
      ExtendedTransitive(t[g.name], u[g.name], g.parent.fs.tree[g.name], Some(c.name));
      if ret != 0 { return; }
      ConfigExists(c);
      i := i + 1;
    }
  }

  // ----- configurations

  /** Ids in memory are the ids in the names of the directories. */
  lemma NewConfigErrors(g: Gadget, id: int, lbl: string, labels: Labels)
    requires Live(g) && Tracked(g, labels)
    ensures g.name in g.parent.fs.tree
    ensures CreateConfigError(g.parent.fs.tree, g.name, id, lbl, IdTaken(g, id), g.parent.fs.defaults) ==
      NewConfigError(g.parent.fs.tree[g.name], id, lbl)
  {
    hide State.Agrees, ValidName, ConfigName, Emptiable, LabelsOf;
    var k := g.parent.fs.tree[g.name];
    if 1 <= id <= 255 {
      forall c | c in g.configs ensures c.name == ConfigName(c.lbl, c.id) && c.name in k.configs && 1 <= c.id <= 255 {
        ConfigNamed(g, c);
      }
      if IdUsed(k, id) {
        var l :| ConfigName(l, id) in k.configs;
        assert ConfigName(l, id) in ConfigNames(g.configs);
        var c :| c in g.configs && c.name == ConfigName(l, id);
        ConfigNameInjective(c.lbl, c.id, l, id);
      }
      assert IdTaken(g, id) <==> IdUsed(k, id);
    }
  }

  /** Attributes and strings of a new configuration. */
  method FillNewConfig(c: Config, root: Setting) returns (ret: int)
    requires LiveConfig(c)
    modifies c.parent.parent.fs
    ensures ret <= 0 && LiveConfig(c)
    ensures OnlyContents(old(c.parent.parent.fs.tree), c.parent.parent.fs.tree, c.parent.name, c.name)
    ensures ret == 0 ==>
      FillConfig(root, old(c.parent.parent.fs.tree)[c.parent.name].configs[c.name], c.parent.parent.fs.defaults)
      == Ok(c.parent.parent.fs.tree[c.parent.name].configs[c.name])
    ensures old(c.parent.parent.fs.Quiet()) ==> c.parent.parent.fs.Quiet()
    ensures old(c.parent.parent.fs.Quiet()) ==>
      ret == Code(FillConfig(root, old(c.parent.parent.fs.tree)[c.parent.name].configs[c.name], c.parent.parent.fs.defaults))
  {
    hide State.Agrees, ImportFields, ImportStrings, SetLangs, OnlyFiles, Get, SetConfig, GadgetOk, BindingsOk, OnlyContents, SameShape,
      ImportLang;
    var g := c.parent;
    var fs := g.parent.fs;
    ConfigExists(c);
    ghost var t := fs.tree;
    OnlyContentsSame(t, g.name, c.name);
    var attrs := Get(root, "attrs");
    ret := 0;
    if attrs.Some? {
      if !attrs.value.SGroup? { return INVALID_TYPE; }
      ret := ImportAllFields(fs, ConfigDir(g.name, c.name), CONFIG_TAGS, attrs.value);
      ConfigFilesOnly(t, fs.tree, g.name, c.name);
      OnlyContentsKeeps(t, fs.tree, g.name, c.name);
      ShapeKept(g, t, fs.tree);
      if ret != 0 { return; }
    }
    ghost var u := fs.tree;
    var strs := Get(root, "strings");
    if strs.Some? {
      if !strs.value.SList? { return INVALID_TYPE; }
      ret := ImportLangList(fs, ConfigLangs(g.name, c.name), strs.value.elems);
      ConfigLangsOnly(u, fs.tree, g.name, c.name);
      OnlyContentsKeeps(u, fs.tree, g.name, c.name);
      ShapeKept(g, u, fs.tree);
      OnlyContentsTransitive(t, u, fs.tree, g.name, c.name);
    }
  }

  lemma OnlyContentsSame(t: Tree, g: string, c: string)
    requires HasConfig(t, g, c)
    ensures OnlyContents(t, t, g, c)
  {
    UpdateSame(t[g].configs, c);
    UpdateSame(t, g);
  }

  lemma OnlyContentsTransitive(t: Tree, u: Tree, v: Tree, g: string, c: string)
    requires OnlyContents(t, u, g, c) && OnlyContents(u, v, g, c)
    ensures OnlyContents(t, v, g, c)
  {
    UpdateTwice(t[g].configs, c, u[g].configs[c], v[g].configs[c]);
    UpdateTwice(t, g, u[g], v[g]);
  }

  lemma ContentsFollowed(configs: seq<Config>, fns: seq<Function>, t: Tree, u: Tree, g: string, c: string, labels: Option<Labels>)
    requires OnlyContents(t, u, g, c) && Follows(configs, fns, t[g], labels)
    ensures g in u && Follows(configs, fns, u[g], labels) && OnlyGadget(t, u, g) && Extended(t[g], u[g], Some(c))
    ensures u[g] == t[g].(configs := t[g].configs[c := u[g].configs[c]])
  {
    hide Emptiable, LabelsOf;
  }

  /** The recursive removal an import falls back on. */
  method TakeBackConfig(c: Config, ghost labels: Option<Labels>) returns (ret: int)
    requires LiveConfig(c) && Followed(c.parent, labels) && c.parent.osDesc != c
    modifies c`bindings, c.parent`configs, c.parent`osDesc, c.parent.parent.fs
    ensures ret <= 0 && Live(c.parent) && c.parent.osDesc == old(c.parent.osDesc) && Followed(c.parent, labels)
    ensures OnlyGadget(old(c.parent.parent.fs.tree), c.parent.parent.fs.tree, c.parent.name) && StraysKept(c.parent)
    ensures var k := old(c.parent.parent.fs.tree[c.parent.name]); var l := c.parent.parent.fs.tree[c.parent.name];
      l == k.(configs := l.configs) && l.configs - {c.name} == k.configs - {c.name}
    ensures c.parent.configs == if ret == 0 then Without(old(c.parent.configs), c) else old(c.parent.configs)
    ensures old(c.parent.parent.fs.Quiet()) ==> c.parent.parent.fs.Quiet() && ret == 0
  {
    hide State.Agrees, Follows, OnlyGadget, PartlyStripped, Without, Suffix, FunctionNames, ConfigNames;
    var g := c.parent;
    ghost var u := g.parent.fs.tree;
    ghost var configs := g.configs;
    ConfigExists(c);
    ConfigsSorted(g);
    OnlyGadgetReflexive(u, g.name);
    ret := RmConfig(c, true);
    ghost var v := g.parent.fs.tree;
    if ret == 0 {
      ghost var l := u[g.name].(configs := u[g.name].configs - {c.name});
      GadgetReplaced(u, u, g.name, l);
      ConfigNamesWithout(configs, c);
      FollowsWithoutConfig(configs, g.functions, u[g.name], c, labels);
    } else {
      ConfigReplaced(u, u, v, g.name, c.name, false);
      OtherConfigsKept(u, v, g.name, c.name);
      SameDirsFollowed(configs, g.functions, u[g.name], v[g.name], labels);
    }
  }

  lemma OtherConfigsKept(u: Tree, v: Tree, g: string, c: string)
    requires PartlyStripped(u, v, g, c, false)
    ensures g in u && g in v && v[g] == u[g].(configs := v[g].configs) && v[g].configs - {c} == u[g].configs - {c}
  {}

  lemma ConfigNamesWithout(configs: seq<Config>, c: Config)
    requires c in configs && forall i, j :: 0 <= i < j < |configs| ==> Below(configs[i].name, configs[j].name)
    ensures ConfigNames(Without(configs, c)) == ConfigNames(configs) - {c.name} && c.name in ConfigNames(configs)
  {
    BelowIrreflexive(c.name);
    WithoutPairwise(configs, c, (x: Config, y: Config) => Below(x.name, y.name));
    forall d | d in Without(configs, c) ensures d.name != c.name { NamesDiffer(configs, (x: Config) => x.name, c, d); }
  }

  lemma FollowsWithoutConfig(configs: seq<Config>, fns: seq<Function>, k: KGadget, c: Config, labels: Option<Labels>)
    requires Follows(configs, fns, k, labels) && c in configs
    requires forall i, j :: 0 <= i < j < |configs| ==> Below(configs[i].name, configs[j].name)
    ensures Follows(Without(configs, c), fns, k.(configs := k.configs - {c.name}), labels)
  {
    hide Emptiable, LabelsOf;
    ConfigNamesWithout(configs, c);
  }

  /** Attributes, strings and bindings of a configuration that was just made. */
  method CompleteNewConfig(c: Config, root: Setting, ghost labels: Option<Labels>) returns (ret: int)
    requires LiveConfig(c) && LunDefaults(c.parent.parent.fs.defaults) && Followed(c.parent, labels)
    modifies c`bindings, c.parent`functions, c.parent.parent.fs
    ensures ret <= 0 && LiveConfig(c) && Followed(c.parent, labels) && Enlarged(c.parent, Some(c.name))
    ensures c.name in old(c.parent.parent.fs.tree)[c.parent.name].configs
    ensures ret == 0 && labels.Some? ==>
      CompleteConfig(Draft(old(c.parent.parent.fs.tree)[c.parent.name], labels.value), c.name, root, c.parent.parent.fs.defaults)
      == Ok(c.parent.parent.fs.tree[c.parent.name])
    ensures old(c.parent.parent.fs.Quiet()) ==> c.parent.parent.fs.Quiet()
    ensures old(c.parent.parent.fs.Quiet()) && labels.Some? ==>
      ret == Code(CompleteConfig(Draft(old(c.parent.parent.fs.tree)[c.parent.name], labels.value), c.name, root, c.parent.parent.fs.defaults))
  {
    hide State.Agrees, Follows, LunDefaults, OnlyGadget, OnlyContents, Extended, Get, FillConfig, ImportBindings;
    var g := c.parent;
    ConfigExists(c);
    ghost var t := g.parent.fs.tree;
    ret := FillNewConfig(c, root);
    ghost var u := g.parent.fs.tree;
    ContentsFollowed(g.configs, g.functions, t, u, g.name, c.name, labels);
    if ret != 0 { return; }
    var node := Get(root, "functions");
    if node.Some? {
      if !node.value.SList? { return INVALID_TYPE; }
      ret := ImportConfigBindings(c, node.value.elems, labels);
      OnlyGadgetTransitive(t, u, g.parent.fs.tree, g.name);
      ExtendedTransitive(t[g.name], u[g.name], g.parent.fs.tree[g.name], Some(c.name));
    }
  }

  lemma NewConfigMade(t: Tree, u: Tree, g: string, c: string, d: Defaults)
    requires ConfigMade(t, u, g, c) && ConfigSetup(d, None, None) == Ok(u[g].configs[c])
    ensures g in t && g in u && u[g] == t[g].(configs := t[g].configs[c := NewConfig(d)]) && OnlyGadget(t, u, g)
    ensures u[g].configs[c] == NewConfig(d) && c !in t[g].configs
  {}

  lemma TakenOut<T>(list: seq<T>, x: T, at: nat)
    requires at <= |list| && x !in list
    ensures Without(list[..at] + [x] + list[at..], x) == list
  {
    var r := list[..at] + [x] + list[at..];
    assert r[..at] == list[..at];
    WithoutAt(r, x, at);
    assert r[..at] + r[at + 1..] == list;
  }

  lemma ConfigNamesWith(configs: seq<Config>, c: Config, at: nat)
    requires at <= |configs|
    ensures ConfigNames(configs[..at] + [c] + configs[at..]) == ConfigNames(configs) + {c.name}
  {
    Inserted(configs, c, at);
  }

  lemma FollowsNewConfig(configs: seq<Config>, fns: seq<Function>, at: nat, c: Config, k: KGadget, kc: KConfig, labels: Option<Labels>)
    requires Follows(configs, fns, k, labels) && at <= |configs|
    ensures Follows(configs[..at] + [c] + configs[at..], fns, k.(configs := k.configs[c.name := kc]), labels)
  {
    hide Emptiable, LabelsOf;
    ConfigNamesWith(configs, c, at);
  }

  /** The configuration an import starts with. */
  method StartConfig(g: Gadget, id: int, lbl: string, ghost labels: Option<Labels>) returns (ret: int, c: Config?)
    requires Live(g) && Followed(g, labels)
    modifies g`configs, g.parent.fs
    ensures ret <= 0 && Live(g) && Followed(g, labels) && Enlarged(g, None)
    ensures ret == 0 ==> c != null && fresh(c) && c.parent == g && c.name == ConfigName(lbl, id) && LiveConfig(c)
    ensures ret == 0 ==> (forall d <- g.configs :: d == c || d in old(g.configs)) && forall d <- old(g.configs) :: d in g.configs
    ensures ret == 0 ==> Without<Config>(g.configs, c) == old(g.configs)
    ensures ret == 0 ==> var k := old(g.parent.fs.tree)[g.name];
      c.name !in k.configs && g.parent.fs.tree[g.name] == k.(configs := k.configs[c.name := NewConfig(g.parent.fs.defaults)])
    ensures ret == 0 && labels.Some? ==> NewConfigError(old(g.parent.fs.tree)[g.name], id, lbl) == SUCCESS
    ensures ret != 0 ==> g.configs == old(g.configs) && g.parent.fs.tree == old(g.parent.fs.tree)
    ensures old(g.parent.fs.Quiet()) ==> g.parent.fs.Quiet()
    ensures old(g.parent.fs.Quiet()) && labels.Some? ==> ret == NewConfigError(old(g.parent.fs.tree)[g.name], id, lbl)
    ensures old(g.parent.fs.Quiet()) ==>
      ret == CreateConfigError(old(g.parent.fs.tree), g.name, id, lbl, old(IdTaken(g, id)), g.parent.fs.defaults)
  {
    hide State.Agrees, Tracks, Clear, OnlyGadget, NewConfigError, CreateConfigError, ConfigName, Without, ConfigMade, MkdirError,
      ConfigSetup, Extended, FunctionNames, ConfigNames;
    ghost var t := g.parent.fs.tree;
    OnlyGadgetReflexive(t, g.name);
    ExtendedSame(t[g.name], None);
    if labels.Some? { NewConfigErrors(g, id, lbl, labels.value); }
    EmptySetup(g.parent.fs.defaults);
    ghost var configs := g.configs;
    ghost var at;
    ret, c, at := CreateConfig(g, id, Some(lbl), None, None);
    if ret != 0 { return; }
    ghost var u := g.parent.fs.tree;
    NewConfigMade(t, u, g.name, c.name, g.parent.fs.defaults);
    FollowsNewConfig(configs, g.functions, at, c, t[g.name], u[g.name].configs[c.name], labels);
    Inserted<Config>(configs, c, at);
    TakenOut<Config>(configs, c, at);
    ConfigNamesWith(configs, c, at);
    ExtendedByConfig(t[g.name], c.name, u[g.name].configs[c.name]);
  }

  lemma ExtendedByConfig(k: KGadget, c: string, kc: KConfig)
    requires c !in k.configs
    ensures Extended(k, k.(configs := k.configs[c := kc]), None)
  {}

  /** Steps on a configuration that was not there leave everything that was. */
  lemma ExtendedBeyond(k: KGadget, l: KGadget, m: KGadget, c: string)
    requires c !in k.configs && Extended(k, l, None) && Extended(l, m, Some(c))
    ensures Extended(k, m, None)
  {}

  /** The same when the configuration is removed again, or stripped. */
  lemma ExtendedStripped(k: KGadget, l: KGadget, m: KGadget, c: string)
    requires c !in k.configs && Extended(k, l, None) && m == l.(configs := m.configs) && m.configs - {c} == l.configs - {c}
    ensures Extended(k, m, None)
  {
    forall n | n in k.configs ensures n in m.configs && m.configs[n] == k.configs[n] {
      assert n in l.configs - {c};
      assert (m.configs - {c})[n] == (l.configs - {c})[n];
    }
  }

  /** `usbg_import_config_run`. On failure the new configuration is removed again, and whether that worked (`rb`) is not
      looked at; functions defined in place of a binding stay. What was in the gadget is as before in any case. */
  method ImportConfigRun(g: Gadget, root: Setting, id: int, ghost labels: Option<Labels>) returns (ret: int, c: Config?, ghost rb: int)
    requires Live(g) && LunDefaults(g.parent.fs.defaults) && Followed(g, labels)
    modifies g`functions, g`configs, g`osDesc, g.parent.fs
    ensures ret <= 0 && Live(g) && Followed(g, labels) && Enlarged(g, None) && g.osDesc == old(g.osDesc)
    ensures forall d <- g.configs :: d in old(g.configs) || fresh(d)
    ensures forall d <- old(g.configs) :: d in g.configs
    ensures ret == 0 ==> c != null && c in g.configs
    ensures ret == 0 && labels.Some? ==>
      Schemes.ImportConfig(Draft(old(g.parent.fs.tree)[g.name], labels.value), root, id, g.parent.fs.defaults) == Ok(g.parent.fs.tree[g.name])
    ensures ret != 0 && rb == 0 ==> g.configs == old(g.configs)
    ensures old(g.parent.fs.Quiet()) ==> g.parent.fs.Quiet() && rb == 0
    ensures old(g.parent.fs.Quiet()) && labels.Some? ==>
      ret == Code(Schemes.ImportConfig(Draft(old(g.parent.fs.tree)[g.name], labels.value), root, id, g.parent.fs.defaults))
  {
    hide State.Agrees, Follows, LunDefaults, OnlyGadget, Extended, Get, NewConfigError, CreateConfigError, CompleteConfig, ConfigName,
      Without, StrayFunctions, StrayConfigs;
    ghost var t := g.parent.fs.tree;
    OnlyGadgetReflexive(t, g.name);
    ExtendedSame(t[g.name], None);
    c, rb := null, 0;
    var name := Get(root, "name");
    if name.None? { return MISSING_TAG, null, 0; }
    if !name.value.SStr? { return INVALID_TYPE, null, 0; }
    ret, c := StartConfig(g, id, name.value.s, labels);
    if ret != 0 { return; }
    ghost var u := g.parent.fs.tree;
    ret := CompleteNewConfig(c, root, labels);
    ghost var v := g.parent.fs.tree;
    OnlyGadgetTransitive(t, u, v, g.name);
    ExtendedBeyond(t[g.name], u[g.name], v[g.name], c.name);
    if ret != 0 {
      var ignored := TakeBackConfig(c, labels);
      rb := ignored;
      OnlyGadgetTransitive(t, v, g.parent.fs.tree, g.name);
      ExtendedStripped(t[g.name], v[g.name], g.parent.fs.tree[g.name], c.name);
    }
  }

  lemma EmptySetup(d: Defaults)
    ensures ConfigSetup(d, None, None) == Ok(NewConfig(d))
    ensures GadgetSetup(d, [], None) == Ok(NewGadget(d))
  {}

  /** One element of the `configs` list. */
  method ImportNumberedConfig(g: Gadget, node: Setting, ghost labels: Labels) returns (ret: int)
    requires Live(g) && LunDefaults(g.parent.fs.defaults) && Tracked(g, labels)
    modifies g`functions, g`configs, g`osDesc, g.parent.fs
    ensures ret <= 0 && Live(g) && Tracked(g, labels) && FunctionsGrown(g) && g.osDesc == old(g.osDesc)
    ensures OnlyGadget(old(g.parent.fs.tree), g.parent.fs.tree, g.name)
    ensures g.parent.fs.tree[g.name].osLinks == old(g.parent.fs.tree)[g.name].osLinks
    ensures forall d <- g.configs :: d in old(g.configs) || fresh(d)
    ensures ret == 0 ==>
      ImportNumbered(Draft(old(g.parent.fs.tree)[g.name], labels), node, g.parent.fs.defaults) == Ok(g.parent.fs.tree[g.name])
    ensures old(g.parent.fs.Quiet()) ==> g.parent.fs.Quiet()
    ensures old(g.parent.fs.Quiet()) ==>
      ret == Code(ImportNumbered(Draft(old(g.parent.fs.tree)[g.name], labels), node, g.parent.fs.defaults))
  {
    hide State.Agrees, Tracks, Followed, Extended, LunDefaults, OnlyGadget, Get, Schemes.ImportConfig, StraysKept;
    ghost var t := g.parent.fs.tree;
    OnlyGadgetReflexive(t, g.name);
    if !node.SGroup? { return INVALID_TYPE; }
    var id := Get(node, "id");
    if id.None? { return MISSING_TAG; }
    if !id.value.SInt? { return INVALID_TYPE; }
    var c;
    ghost var rb;
    TrackedFollowed(g, Some(labels));
    ret, c, rb := ImportConfigRun(g, node, id.value.i, Some(labels));
    TrackedFollowed(g, Some(labels));
    ExtendedLinks(t[g.name], g.parent.fs.tree[g.name]);
  }

  lemma ExtendedLinks(k: KGadget, l: KGadget)
    requires Extended(k, l, None)
    ensures l.osLinks == k.osLinks
  {}

  /** `usbg_import_gadget_configs`. */
  method ImportGadgetConfigs(g: Gadget, elems: seq<Setting>, ghost labels: Labels) returns (ret: int)
    requires Live(g) && LunDefaults(g.parent.fs.defaults) && Tracked(g, labels)
    modifies g`functions, g`configs, g`osDesc, g.parent.fs
    ensures ret <= 0 && Live(g) && Tracked(g, labels) && FunctionsGrown(g) && g.osDesc == old(g.osDesc)
    ensures OnlyGadget(old(g.parent.fs.tree), g.parent.fs.tree, g.name)
    ensures g.parent.fs.tree[g.name].osLinks == old(g.parent.fs.tree)[g.name].osLinks
    ensures forall d <- g.configs :: d in old(g.configs) || fresh(d)
    ensures ret == 0 ==>
      ImportConfigs(Draft(old(g.parent.fs.tree)[g.name], labels), elems, g.parent.fs.defaults) == Ok(g.parent.fs.tree[g.name])
    ensures old(g.parent.fs.Quiet()) ==> g.parent.fs.Quiet()
    ensures old(g.parent.fs.Quiet()) ==>
      ret == Code(ImportConfigs(Draft(old(g.parent.fs.tree)[g.name], labels), elems, g.parent.fs.defaults))
  {
    hide State.Agrees, Tracks, LunDefaults, OnlyGadget, ImportNumbered;
    ghost var t := g.parent.fs.tree;
    OnlyGadgetReflexive(t, g.name);
    ghost var whole := ImportConfigs(Draft(t[g.name], labels), elems, g.parent.fs.defaults);
    ret := 0;
    var i := 0;
    assert elems[0..] == elems;
    while i < |elems|
      invariant 0 <= i <= |elems| && ret == 0 && Live(g) && Tracked(g, labels) && FunctionsGrown(g)
      invariant g.osDesc == old(g.osDesc)
      invariant OnlyGadget(t, g.parent.fs.tree, g.name) && g.parent.fs.tree[g.name].osLinks == t[g.name].osLinks
      invariant forall d <- g.configs :: d in old(g.configs) || fresh(d)
      invariant ImportConfigs(Draft(g.parent.fs.tree[g.name], labels), elems[i..], g.parent.fs.defaults) == whole
      invariant old(g.parent.fs.Quiet()) ==> g.parent.fs.Quiet()
    {
      assert elems[i..][1..] == elems[i + 1..];
      ghost var u := g.parent.fs.tree;
      ret := ImportNumberedConfig(g, elems[i], labels);
      OnlyGadgetTransitive(t, u, g.parent.fs.tree, g.name);
      if ret != 0 { return; }
      i := i + 1;
    }
  }

  // ----- OS descriptors

  /** Searching memory for a configuration id finds the directory the specification names. */
  lemma ConfigFound(g: Gadget, id: int, labels: Labels)
    requires Live(g) && Tracked(g, labels)
    ensures g.name in g.parent.fs.tree
    ensures forall c <- g.configs :: c.id == id ==> ConfigWithId(g.parent.fs.tree[g.name].configs.Keys, id) == Some(c.name)
    ensures (forall c <- g.configs :: c.id != id) ==> ConfigWithId(g.parent.fs.tree[g.name].configs.Keys, id) == None
  {
    hide State.Agrees, ConfigName, Emptiable, LabelsOf;
    var k := g.parent.fs.tree[g.name];
    var found := ConfigWithId(k.configs.Keys, id);
    forall c | c in g.configs ensures c.name == ConfigName(c.lbl, c.id) && c.name in k.configs && 1 <= c.id <= 255 {
      ConfigNamed(g, c);
    }
    if found.Some? {
      var l :| found.value == ConfigName(l, id);
      assert found.value in ConfigNames(g.configs);
      var c :| c in g.configs && c.name == found.value;
      ConfigNameInjective(c.lbl, c.id, l, id);
      forall d | d in g.configs && d.id == id ensures d == c { IdsDiffer(g, c, d); }
    }
  }

  lemma IdsDiffer(g: Gadget, c: Config, d: Config)
    requires Live(g) && c in g.configs && d in g.configs && c.id == d.id
    ensures c == d
  {
    assert GadgetOk(g, g.parent.fs.tree[g.name]);
  }

  lemma DescsTracked(configs: seq<Config>, fns: seq<Function>, t: Tree, u: Tree, g: string, labels: Labels)
    requires OnlyFiles(t, u, OsDescDir(g)) && Tracks(configs, fns, t[g], labels)
    ensures g in u && OnlyGadget(t, u, g) && SameShape(t[g], u[g]) && Tracks(configs, fns, u[g], labels)
    ensures u[g] == t[g].(osDesc := u[g].osDesc)
  {
    hide Emptiable, LabelsOf;
  }

  lemma LinkTracked(configs: seq<Config>, fns: seq<Function>, t: Tree, u: Tree, g: string, labels: Labels)
    requires g in t && g in u && u == t[g := t[g].(osLinks := u[g].osLinks)] && Tracks(configs, fns, t[g], labels)
    ensures OnlyGadget(t, u, g) && Tracks(configs, fns, u[g], labels)
  {
    hide Emptiable, LabelsOf;
  }

  /** A configuration is recorded for the OS descriptors exactly when configfs has a link to one. */
  ghost predicate OsDescSynced(g: Gadget)
    reads g`osDesc, g.parent.fs`tree
  {
    g.name in g.parent.fs.tree && (g.osDesc == null <==> g.parent.fs.tree[g.name].osLinks == map[])
  }

  /** Records the configuration for the OS descriptors; an error is dropped. */
  method LinkOsDesc(g: Gadget, c: Config, ghost labels: Labels)
    requires Live(g) && Tracked(g, labels) && c in g.configs
    requires g.osDesc == null && g.parent.fs.tree[g.name].osLinks == map[]
    modifies g`osDesc, g.parent.fs
    ensures Live(g) && Tracked(g, labels) && OsDescSynced(g)
    ensures OnlyGadget(old(g.parent.fs.tree), g.parent.fs.tree, g.name)
    ensures var k := old(g.parent.fs.tree)[g.name]; var l := g.parent.fs.tree[g.name];
      l == k || l == k.(osLinks := map[c.name := c.name])
    ensures old(g.parent.fs.Quiet()) ==> g.parent.fs.Quiet()
    ensures old(g.parent.fs.Quiet()) ==>
      g.parent.fs.tree[g.name] == old(g.parent.fs.tree)[g.name].(osLinks := map[c.name := c.name])
  {
    hide State.Agrees, Tracks, OnlyGadget;
    ghost var t := g.parent.fs.tree;
    var ignored := SetOsDescConfig(g, c);
    ghost var u := g.parent.fs.tree;
    assert ignored == 0 ==> c.name in u[g.name].osLinks;
    UpdateSame(t, g.name);
    LinkTracked(g.configs, g.functions, t, u, g.name, labels);
  }

  /** `usbg_import_gadget_os_descs`, for a gadget that has no link in `os_desc` yet. */
  method ImportGadgetOsDescs(g: Gadget, root: Setting, ghost labels: Labels) returns (ret: int)
    requires Live(g) && Tracked(g, labels) && g.osDesc == null && g.parent.fs.tree[g.name].osLinks == map[]
    modifies g`osDesc, g.parent.fs
    ensures ret <= 0 && Live(g) && Tracked(g, labels) && OsDescSynced(g)
    ensures OnlyGadget(old(g.parent.fs.tree), g.parent.fs.tree, g.name)
    ensures ret == 0 ==> var r := ImportOsDescs(old(g.parent.fs.tree)[g.name], root);
      r.Ok? && UpToLink(g.parent.fs.tree[g.name], r.value)
    ensures old(g.parent.fs.Quiet()) ==> g.parent.fs.Quiet()
    ensures old(g.parent.fs.Quiet()) ==> var r := ImportOsDescs(old(g.parent.fs.tree)[g.name], root);
      ret == Code(r) && (ret == 0 ==> r == Ok(g.parent.fs.tree[g.name]))
  {
    hide State.Agrees, Tracks, OnlyGadget, Get, ParseOsDescs, Written, OnlyFiles, SameShape, ConfigWithId, OsDescWrites;
    var fs := g.parent.fs;
    ghost var t := fs.tree;
    OnlyGadgetReflexive(t, g.name);
    var o := ParseOsDescs(root);
    if o.Err? { return o.code; }
    ret := SetOsDescs(fs, g.name, o.value);
    ghost var u := fs.tree;
    DescsTracked(g.configs, g.functions, t, u, g.name, labels);
    ShapeKept(g, t, u);
    var node := Get(root, "config_id");
    if node.None? || !node.value.SInt? { return; }
    ConfigFound(g, node.value.i, labels);
    var target := GetConfig(g, node.value.i, None);
    if target == null { return NOT_FOUND; }
    LinkOsDesc(g, target, labels);
    OnlyGadgetTransitive(t, u, fs.tree, g.name);
  }

  // ----- gadgets

  /** Nothing but the attributes and strings of a gadget differs. */
  ghost predicate OnlyDetails(t: Tree, u: Tree, g: string) {
    g in t && g in u && u == t[g := t[g].(files := u[g].files, langs := u[g].langs)]
  }

  lemma DetailsKeepShape(t: Tree, u: Tree, g: string)
    requires OnlyDetails(t, u, g)
    ensures OnlyGadget(t, u, g) && SameShape(t[g], u[g])
  {}

  lemma DetailsTransitive(t: Tree, u: Tree, v: Tree, g: string)
    requires OnlyDetails(t, u, g) && OnlyDetails(u, v, g)
    ensures OnlyDetails(t, v, g)
  {
    UpdateTwice(t, g, u[g], v[g]);
  }

  lemma GadgetFilesOnly(t: Tree, u: Tree, g: string)
    requires OnlyFiles(t, u, GadgetDir(g))
    ensures OnlyDetails(t, u, g) && u[g] == t[g].(files := u[g].files)
  {}

  lemma GadgetLangsOnly(t: Tree, u: Tree, g: string)
    requires g in t && g in u && u == SetLangs(t, GadgetLangs(g), u[g].langs)
    ensures OnlyDetails(t, u, g) && u[g] == t[g].(langs := u[g].langs)
  {}

  lemma NoDetails(t: Tree, g: string)
    requires g in t
    ensures OnlyDetails(t, t, g)
  {
    UpdateSame(t, g);
  }

  /** Attributes of a new gadget. */
  method FillGadgetFiles(g: Gadget, root: Setting) returns (ret: int)
    requires Live(g) && g.name in g.parent.fs.tree && g.parent.fs.tree[g.name] == NewGadget(g.parent.fs.defaults)
    modifies g.parent.fs
    ensures ret <= 0 && Live(g) && OnlyDetails(old(g.parent.fs.tree), g.parent.fs.tree, g.name)
    ensures g.name in g.parent.fs.tree &&
      g.parent.fs.tree[g.name] == NewGadget(g.parent.fs.defaults).(files := g.parent.fs.tree[g.name].files)
    ensures ret == 0 ==> GadgetFiles(root, g.parent.fs.defaults) == Ok(g.parent.fs.tree[g.name].files)
    ensures old(g.parent.fs.Quiet()) ==> g.parent.fs.Quiet() && ret == Code(GadgetFiles(root, g.parent.fs.defaults))
  {
    hide State.Agrees, ImportFields, SetLangs, OnlyFiles, Get, OnlyDetails, SameShape, OnlyGadget;
    var fs := g.parent.fs;
    ghost var t := fs.tree;
    NoDetails(t, g.name);
    var attrs := Get(root, "attrs");
    ret := 0;
    if attrs.Some? {
      if !attrs.value.SGroup? { return INVALID_TYPE; }
      ret := ImportAllFields(fs, GadgetDir(g.name), GADGET_ATTRS, attrs.value);
      GadgetFilesOnly(t, fs.tree, g.name);
      DetailsKeepShape(t, fs.tree, g.name);
      ShapeKept(g, t, fs.tree);
    }
  }

  /** Attributes and strings of a new gadget. */
  method FillNewGadget(g: Gadget, root: Setting) returns (ret: int)
    requires Live(g) && g.name in g.parent.fs.tree && g.parent.fs.tree[g.name] == NewGadget(g.parent.fs.defaults)
    modifies g.parent.fs
    ensures ret <= 0 && Live(g) && OnlyDetails(old(g.parent.fs.tree), g.parent.fs.tree, g.name)
    ensures ret == 0 ==> FillGadget(root, g.parent.fs.defaults) == Ok(g.parent.fs.tree[g.name])
    ensures old(g.parent.fs.Quiet()) ==> g.parent.fs.Quiet() && ret == Code(FillGadget(root, g.parent.fs.defaults))
  {
    hide State.Agrees, GadgetFiles, ImportStrings, SetLangs, OnlyFiles, Get, OnlyDetails, SameShape, OnlyGadget;
    var fs := g.parent.fs;
    ghost var t := fs.tree;
    ret := FillGadgetFiles(g, root);
    if ret != 0 { return; }
    ghost var u := fs.tree;
    var strs := Get(root, "strings");
    if strs.Some? {
      if !strs.value.SList? { return INVALID_TYPE; }
      ret := ImportLangList(fs, GadgetLangs(g.name), strs.value.elems);
      GadgetLangsOnly(u, fs.tree, g.name);
      DetailsKeepShape(u, fs.tree, g.name);
      ShapeKept(g, u, fs.tree);
      DetailsTransitive(t, u, fs.tree, g.name);
    }
  }

  lemma DetailsTracked(t: Tree, u: Tree, g: string)
    requires OnlyDetails(t, u, g) && t[g].functions == map[] && t[g].configs == map[]
    ensures g in u && Tracks([], [], u[g], map[]) && u[g].osLinks == t[g].osLinks && OnlyGadget(t, u, g)
  {}

  /** Everything memory has of the gadget was made since the call. */
  twostate predicate AllNew(new g: Gadget)
    reads g
  {
    (forall c <- g.configs :: fresh(c)) && forall f <- g.functions :: fresh(f) && (f.ms != null ==> fresh(f.ms))
  }

  /** The functions and configurations of a new gadget. */
  method ImportParts(g: Gadget, root: Setting) returns (ret: int, ghost labels: Labels)
    requires Live(g) && LunDefaults(g.parent.fs.defaults) && Tracked(g, map[])
    requires g.configs == [] && g.functions == [] && g.osDesc == null
    modifies g`functions, g`configs, g`osDesc, g.parent.fs
    ensures ret <= 0 && Live(g) && Tracked(g, labels) && AllNew(g) && g.osDesc == null
    ensures OnlyGadget(old(g.parent.fs.tree), g.parent.fs.tree, g.name)
    ensures g.parent.fs.tree[g.name].osLinks == old(g.parent.fs.tree)[g.name].osLinks
    ensures ret == 0 ==>
      ImportInto(old(g.parent.fs.tree)[g.name], root, g.parent.fs.defaults) == Ok(Draft(g.parent.fs.tree[g.name], labels))
    ensures old(g.parent.fs.Quiet()) ==> g.parent.fs.Quiet()
    ensures old(g.parent.fs.Quiet()) ==> ret == Code(ImportInto(old(g.parent.fs.tree)[g.name], root, g.parent.fs.defaults))
  {
    hide State.Agrees, Tracks, LunDefaults, OnlyGadget, Get, ImportFunctions, ImportConfigs;
    ghost var t := g.parent.fs.tree;
    OnlyGadgetReflexive(t, g.name);
    labels := map[];
    ret := 0;
    var functions := Get(root, "functions");
    if functions.Some? {
      if !functions.value.SGroup? { return INVALID_TYPE, map[]; }
      ret, labels := ImportGadgetFunctions(g, functions.value.members, map[]);
      if ret != 0 { return; }
    }
    ghost var u := g.parent.fs.tree;
    var configs := Get(root, "configs");
    if configs.Some? {
      if !configs.value.SList? { return INVALID_TYPE, labels; }
      ret := ImportGadgetConfigs(g, configs.value.elems, labels);
      OnlyGadgetTransitive(t, u, g.parent.fs.tree, g.name);
    }
  }

  /** The sections of a scheme, read into a new gadget. */
  method FillWholeGadget(g: Gadget, root: Setting) returns (ret: int, ghost labels: Labels)
    requires Live(g) && LunDefaults(g.parent.fs.defaults)
    requires g.configs == [] && g.functions == [] && g.osDesc == null
    requires g.name in g.parent.fs.tree && g.parent.fs.tree[g.name] == NewGadget(g.parent.fs.defaults)
    modifies g`functions, g`configs, g`osDesc, g.parent.fs
    ensures ret <= 0 && Live(g) && Tracked(g, labels) && AllNew(g) && OsDescSynced(g)
    ensures OnlyGadget(old(g.parent.fs.tree), g.parent.fs.tree, g.name)
    ensures ret == 0 ==> var r := Schemes.ImportGadget(root, g.parent.fs.defaults);
      r.Ok? && r.value.labels == labels && UpToLink(g.parent.fs.tree[g.name], r.value.k)
    ensures old(g.parent.fs.Quiet()) ==> g.parent.fs.Quiet()
    ensures old(g.parent.fs.Quiet()) ==> var r := Schemes.ImportGadget(root, g.parent.fs.defaults);
      ret == Code(r) && (ret == 0 ==> r == Ok(Draft(g.parent.fs.tree[g.name], labels)))
  {
    hide State.Agrees, Tracks, LunDefaults, OnlyGadget, Get, FillGadget, ImportInto, OnlyDetails, ImportOsDescs;
    ghost var t := g.parent.fs.tree;
    labels := map[];
    ret := FillNewGadget(g, root);
    ghost var u := g.parent.fs.tree;
    DetailsTracked(t, u, g.name);
    if ret != 0 { return; }
    ret, labels := ImportParts(g, root);
    ghost var v := g.parent.fs.tree;
    OnlyGadgetTransitive(t, u, v, g.name);
    if ret != 0 { return; }
    var descs := Get(root, "os_descs");
    if descs.Some? {
      if !descs.value.SGroup? { return INVALID_TYPE, labels; }
      ret := ImportGadgetOsDescs(g, descs.value, labels);
      OnlyGadgetTransitive(t, v, g.parent.fs.tree, g.name);
    }
  }

  lemma TrackedIsKnown(g: Gadget, labels: Labels)
    requires Tracked(g, labels) && OsDescSynced(g)
    ensures AllClear(g) && NoStrays(g) && !Stuck(g)
  {}

  /** Removal of a gadget that was just made, from a tree that had none of that name, gives back that tree. */
  lemma MadeThenRemoved(t: Tree, u: Tree, v: Tree, name: string, d: Defaults)
    requires Started(t, u, name, d) && OnlyGadget(u, v, name)
    ensures v - {name} == t && name !in t && name in v && v == t[name := v[name]] && v[name].udc == u[name].udc
  {
    UpdateTwice(t, name, u[name], v[name]);
  }

  /** The recursive removal an import of a gadget falls back on: `t` is the tree without the gadget. */
  method TakeBackGadget(g: Gadget, ghost labels: Labels, ghost t: Tree) returns (rb: int)
    requires Live(g) && Tracked(g, labels) && OsDescSynced(g)
    requires g.name !in t && g.parent.fs.tree - {g.name} == t && forall n <- t :: n in g.parent.fs.tree && g.parent.fs.tree[n] == t[n]
    modifies g.parent`gadgets, g.configs, g`configs, g`osDesc, g`functions,
      set f <- g.functions | f.ms != null :: f.ms, g.parent.fs
    ensures rb <= 0 && g.parent.Valid()
    ensures rb == 0 ==> g.parent.gadgets == Without(old(g.parent.gadgets), g) && g.parent.fs.tree == t
    ensures rb != 0 ==> g.parent.gadgets == old(g.parent.gadgets) && AllClear(g) && NoStrays(g)
    ensures rb != 0 ==> (forall c <- g.configs :: c in old(g.configs)) && forall f <- g.functions :: f in old(g.functions)
    ensures rb != 0 ==> OnlyGadget(old(g.parent.fs.tree), g.parent.fs.tree, g.name)
    ensures old(g.parent.fs.Quiet()) ==> g.parent.fs.Quiet() && rb == 0
  {
    hide State.Agrees, Stuck, OsDescSynced, Tracks, Suffix, Without;
    TrackedIsKnown(g, labels);
    ghost var configs, functions := g.configs, g.functions;
    rb := RmGadget(g, true);
    if rb != 0 {
      SuffixElements(g.configs, configs);
      SuffixElements(g.functions, functions);
    }
  }

  /** `usbg_import_gadget_run`: all or nothing. A success adds exactly one gadget, at its place in the list, with the
      contents the scheme describes. After a failure the gadgets and configfs are exactly as before, provided the
      removal the import falls back on succeeded (`rb`), which it does unless calls are made to fail. */
  method ImportGadgetRun(s: State, root: Setting, name: string)
    returns (ret: int, g: Gadget?, ghost at: nat, ghost labels: Labels, ghost rb: int)
    requires s.Valid() && LunDefaults(s.fs.defaults)
    modifies s`gadgets, s.fs
    ensures ret <= 0 && s.Valid()
    ensures ret == 0 ==> g != null && fresh(g) && g.parent == s && g.name == name && Live(g) && Tracked(g, labels)
    ensures ret == 0 ==> at <= |old(s.gadgets)| && s.gadgets == old(s.gadgets)[..at] + [g] + old(s.gadgets)[at..]
    ensures ret == 0 ==> name !in old(s.fs.tree) && name in s.fs.tree && s.fs.tree == old(s.fs.tree)[name := s.fs.tree[name]]
    ensures ret == 0 ==> s.fs.tree[name].udc == "" && g.udc == null && OsDescSynced(g) && AllNew(g)
    ensures ret == 0 ==> var r := Schemes.ImportGadget(root, s.fs.defaults);
      r.Ok? && r.value.labels == labels && UpToLink(s.fs.tree[name], r.value.k)
    ensures ret != 0 && rb == 0 ==> s.gadgets == old(s.gadgets) && s.fs.tree == old(s.fs.tree)
    ensures forall n <- old(s.fs.tree) :: n in s.fs.tree && s.fs.tree[n] == old(s.fs.tree)[n]
    ensures forall n <- s.fs.tree :: n in old(s.fs.tree) || (n == name && s.fs.tree[n].udc == "")
    ensures forall h <- old(s.gadgets) :: h in s.gadgets
    ensures forall h <- s.gadgets :: h in old(s.gadgets) || (fresh(h) && h.udc == null && h.name == name && AllNew(h))
    ensures ret != 0 ==> forall h <- s.gadgets :: h in old(s.gadgets) || (name !in old(s.fs.tree) && AllClear(h) && NoStrays(h))
    ensures old(s.fs.Quiet()) ==> s.fs.Quiet() && rb == 0
    ensures old(s.fs.Quiet()) ==> var e := MkdirError(old(s.fs.tree), GadgetDir(name), s.fs.defaults);
      var r := Schemes.ImportGadget(root, s.fs.defaults);
      ret == (if e != SUCCESS then e else Code(r)) && (ret == 0 ==> r == Ok(Draft(s.fs.tree[name], labels)))
  {
    hide State.Agrees, Tracked, LunDefaults, OnlyGadget, Schemes.ImportGadget, MkdirError, Without, Started,
      UpToLink, OsDescSynced, AllClear, NoStrays, GadgetSetup, AfterMkdir, CreateGadgetError, LeavesGadget;
    ghost var t := s.fs.tree;
    ghost var gadgets := s.gadgets;
    labels := map[];
    PlainGadget(t, name, s.fs.defaults);
    ret, g, at, rb := CreateGadget(s, name, None, None);
    if ret != 0 {
      ResidueOnly(t, s.fs.tree, name, s.fs.defaults);
      return;
    }
    ghost var u := s.fs.tree;
    Inserted<Gadget>(gadgets, g, at);
    TakenOut<Gadget>(gadgets, g, at);
    StartedHere(t, u, name, s.fs.defaults);
    ret, labels := FillWholeGadget(g, root);
    ghost var v := s.fs.tree;
    MadeThenRemoved(t, u, v, name, s.fs.defaults);
    forall i | 0 <= i < |g.configs| ensures fresh(g.configs[i]) {
      assert g.configs[i] in g.configs;
    }
    if ret != 0 {
      var ignored := TakeBackGadget(g, labels, t);
      rb := ignored;
      if ignored != 0 { OthersKept(t, v, s.fs.tree, name); }
    }
  }

  /** Creation without attributes and strings can only fail where the directory cannot be made. */
  lemma PlainGadget(t: Tree, name: string, d: Defaults)
    ensures GadgetSetup(d, AttrWrites(None), None) == Ok(NewGadget(d))
    ensures CreateGadgetError(t, name, None, None, d) == MkdirError(t, GadgetDir(name), d) && !LeavesGadget(t, name, None, None, d)
  {
    hide MkdirError;
  }

  lemma SuffixElements<T>(a: seq<T>, b: seq<T>)
    requires Suffix(a, b)
    ensures forall x <- a :: x in b
  {}

  lemma StartedHere(t: Tree, u: Tree, name: string, d: Defaults)
    requires Started(t, u, name, d)
    ensures name in u && name !in t && u[name].udc == ""
  {}

  lemma ResidueOnly(t: Tree, u: Tree, name: string, d: Defaults)
    requires u == t || Started(t, u, name, d)
    ensures forall n <- t :: n in u && u[n] == t[n]
    ensures forall n <- u :: n in t || (n == name && u[n].udc == "")
  {}

  lemma OthersKept(t: Tree, u: Tree, v: Tree, name: string)
    requires name !in t && name in u && u == t[name := u[name]] && OnlyGadget(u, v, name)
    ensures forall n <- t :: n in v && v[n] == t[n]
    ensures forall n <- v :: n in t || (n == name && v[n].udc == u[name].udc)
  {}
}
