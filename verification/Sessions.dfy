/** What a program sees over several calls: what every reachable state promises; parse, run and parse again; a gadget copied
    through a scheme; LUNs set and read back; a gadget taken down. */
module Sessions {
  import opened Errors
  import opened Text
  import opened Numbers
  import opened Names
  import opened Settings
  import opened Kernel
  import opened MassStorage
  import opened Handles
  import opened Removal
  import opened Creation
  import opened Schemes
  import opened SchemeExport
  import opened SchemeImport
  import opened UdcLinks
  import opened Parsing
  import opened RoundTrip
  import opened Exports
  import opened Machine
  import opened Traces
  import opened Runs

  // ----- every reachable state

  /** Lists are sorted, and keys are unique. */
  lemma KeysUnique(s: State, g: Gadget)
    requires Sound(s) && g in s.gadgets
    ensures InOrder(s.gadgets, (x: Gadget) => x.name) && InOrder(g.functions, (x: Function) => x.name)
    ensures InOrder(g.configs, (x: Config) => x.name)
    ensures forall h <- s.gadgets | h.name == g.name :: h == g
    ensures forall f <- g.functions, h <- g.functions | f.ftype == h.ftype && f.instance == h.instance :: f == h
    ensures forall c <- g.configs, d <- g.configs | c.id == d.id :: c == d
    ensures forall c <- g.configs, b <- c.bindings, e <- c.bindings | b.name == e.name || b.target == e.target :: b == e
  {
    hide UdcsOk, AllRemovable, BindingOk, ConfigName, FunctionName;
    GadgetNamesDiffer(s);
    assert GadgetOk(g, s.fs.tree[g.name]);
    forall f, h | f in g.functions && h in g.functions && f.ftype == h.ftype && f.instance == h.instance ensures f == h {
      assert f.name == h.name;
      if f != h { NamesDiffer(g.functions, (x: Function) => x.name, f, h); }
    }
    forall c, b, e | c in g.configs && b in c.bindings && e in c.bindings && (b.name == e.name || b.target == e.target) ensures b == e {
      assert BindingsOk(c, c.bindings, g.functions, s.fs.tree[g.name].configs[c.name]);
      if b.name == e.name && b != e { NamesDiffer(c.bindings, (x: Binding) => x.name, b, e); }
    }
  }

  /** No binding ever dangles: its target is in the function list of the same gadget, and configfs has the link. */
  lemma NoBindingDangles(s: State, g: Gadget, c: Config, b: Binding)
    requires Sound(s) && g in s.gadgets && c in g.configs && b in c.bindings
    ensures b.target in g.functions && b.target.parent == g && HasFunction(s.fs.tree, g.name, b.target.name)
    ensures HasConfig(s.fs.tree, g.name, c.name)
    ensures b.name in s.fs.tree[g.name].configs[c.name].links && s.fs.tree[g.name].configs[c.name].links[b.name] == b.target.name
  {
    hide UdcsOk, AllRemovable;
    GadgetParents(s);
    ConfigParts(g, c);
    assert BindingOk(c, b, g.functions, s.fs.tree[g.name].configs[c.name]);
    FunctionParts(g, b.target);
  }

  /** A link in `os_desc` leads to the recorded configuration, which is one of the gadget's. The record itself may be
      stale, or lead to a configuration that is gone, once the link has been removed. */
  lemma OsDescLinked(s: State, g: Gadget)
    requires Sound(s) && g in s.gadgets
    ensures g.name in s.fs.tree
    ensures s.fs.tree[g.name].osLinks != map[] ==>
      g.osDesc != null && g.osDesc in g.configs && s.fs.tree[g.name].osLinks == map[g.osDesc.name := g.osDesc.name]
  {
    hide UdcsOk, AllRemovable;
    GadgetParents(s);
    LiveOk(g);
  }

  // ----- parse, run, parse again

  /** No function but those for mass storage has LUNs above 0. */
  ghost predicate LunsApart(t: Tree) {
    forall n <- t, ftype: FunctionType, i: string | ftype != MassStorage && FunctionName(ftype, i) in t[n].functions ::
      t[n].functions[FunctionName(ftype, i)].luns.Keys <= {0}
  }

  lemma ParsedClear(s: State, g: Gadget)
    requires Exact(s) && g in s.gadgets && Unlabelled(g) && LunsApart(s.fs.tree)
    ensures g.parent == s && AllClear(g)
  {
    hide FunctionName, BindingsOk, OsDescOk, ConfigOk, LunsApart;
    GadgetParents(s);
    var k := s.fs.tree[g.name];
    forall f | f in g.functions ensures f.name in k.functions && Emptiable(f, k.functions[f.name]) {
      assert FunctionOk(g, f, k);
      if f.ms == null { LunsHere(s.fs.tree, g.name, f.ftype, f.instance); }
    }
  }

  lemma LunsHere(t: Tree, n: string, ftype: FunctionType, i: string)
    requires LunsApart(t) && n in t && ftype != MassStorage && FunctionName(ftype, i) in t[n].functions
    ensures t[n].functions[FunctionName(ftype, i)].luns.Keys <= {0}
  {}

  /** What `usbg_init` builds can be run on. */
  lemma ParsedSound(s: State)
    requires Exact(s) && UdcsOk(s) && LunDefaults(s.fs.defaults) && LunsApart(s.fs.tree) && forall g <- s.gadgets :: Unlabelled(g)
    ensures Sound(s)
  {
    hide UdcsOk, GadgetExact, UdcRead, Unlabelled, LunsApart, LunDefaults, AllClear, State.Agrees;
    forall g | g in s.gadgets ensures g.parent == s && AllClear(g) { ParsedClear(s, g); }
  }

  lemma UdcNamesOf(s: State, t: State, names: seq<string>)
    requires UdcNameList(s.udcs) == names && UdcsListed(t.udcs, names)
    ensures UdcNames(s.udcs) == UdcNames(t.udcs)
  {
    assert UdcNameList(s.udcs) == UdcNameList(t.udcs);
    NamesAsElements(s.udcs, (u: Udc) => u.name, names);
    NamesAsElements(t.udcs, (u: Udc) => u.name, names);
  }

  lemma UdcsInOrder(s: State, names: seq<string>)
    requires UdcsListed(s.udcs, names)
    ensures UdcNameList(s.udcs) == names
  {}

  lemma SoundForParse(s: State)
    requires Sound(s)
    ensures s.Valid() && UdcsKnown(s)
  {}

  /** Parsing configfs again. The fresh tree has the handles of the live one, in the same order, if and only if the live one
      mirrors configfs completely; and then the parse, if nothing is made to fail, succeeds exactly when every configuration
      has a label. */
  method Refresh(live: State) returns (again: State?)
    requires "" !in live.fs.udcs
    modifies live.fs`faults
    ensures again != null ==> again.fs == live.fs
    ensures again != null && CanonicalTree(live.fs.tree) && UdcNames(live.udcs) == UdcNames(again.udcs) ==>
      live.Valid() && UdcsKnown(live) ==> (SameTrees(live, again) <==> Exact(live))
    ensures old(live.fs.Quiet()) && again != null ==> UdcsListed(again.udcs, SortedKeys(live.fs.udcs))
    ensures old(live.fs.Quiet()) && Exact(live) ==> (again != null <==> forall g <- live.gadgets, c <- g.configs :: c.lbl != "")
  {
    hide CanonicalTree, UdcsExclusive, Unlabelled, Exact, Matched, UdcsOk, SameTrees, UdcNames, ParseableTree, SortedKeys, State.Agrees,
      UdcsKnown;
    if Exact(live) { ExactParses(live); }
    var ret;
    ret, again := Init(live.fs);
    if ret != 0 { again := null; return; }
    if live.Valid() && UdcsKnown(live) && CanonicalTree(live.fs.tree) && UdcNames(live.udcs) == UdcNames(again.udcs) {
      FreshParseAgrees(live, again);
    }
  }

  /** `usbg_init`, seen as the start of a run. */
  method Start(fs: ConfigFs) returns (live: State?)
    requires "" !in fs.udcs && CanonicalTree(fs.tree) && UdcsExclusive(fs.tree) && LunsApart(fs.tree) && LunDefaults(fs.defaults)
    modifies fs`faults
    ensures live != null ==> live.fs == fs && fresh(Reach(live) - {fs})
    ensures live != null ==> Sound(live) && Exact(live) && Matched(live)
    ensures old(fs.Quiet()) ==> fs.Quiet() && (live != null <==> ParseableTree(fs.tree))
    ensures old(fs.Quiet()) && live != null ==> UdcNameList(live.udcs) == SortedKeys(fs.udcs)
  {
    hide CanonicalTree, UdcsExclusive, Unlabelled, LunsApart, LunDefaults, Exact, Matched, UdcsOk, Sound, ParseableTree, SortedKeys;
    ghost var quiet := fs.Quiet();
    var ret;
    ret, live := Init(fs);
    if ret != 0 { live := null; return; }
    ParsedSound(live);
    if quiet { UdcsInOrder(live, SortedKeys(fs.udcs)); }
  }

  /** A program parses configfs, makes any calls, whichever of them fail, and parses again. The fresh tree has the handles of
      the live one, in the same order, if and only if every gap that an event of the run opened was closed by a later
      one. */
  method ParseAgain(fs: ConfigFs, requests: seq<Request>)
    returns (live: State?, again: State?, rets: seq<int>, ghost view: View, ghost events: seq<Event>)
    requires "" !in fs.udcs && CanonicalTree(fs.tree) && UdcsExclusive(fs.tree) && LunsApart(fs.tree) && LunDefaults(fs.defaults)
    requires forall r <- requests :: Fit(r)
    modifies fs
    ensures live != null ==> live.fs == fs && Trace(EnvOf(live), events, view, Here(live))
    ensures live != null ==> Complete(EnvOf(live), view) && MatchedView(view) && view.tree == old(fs.tree)
    ensures again != null ==> live != null && again.fs == fs
    ensures live != null && (forall ev <- events :: !Dangles(ev)) ==>
      (again != null && CanonicalTree(fs.tree) && UdcNames(live.udcs) == UdcNames(again.udcs) ==>
        (SameTrees(live, again) <==> forall x :: !Lasting(EnvOf(live), events, view, x))) &&
      (old(fs.Quiet()) && again != null ==> UdcNames(live.udcs) == UdcNames(again.udcs)) &&
      (old(fs.Quiet()) && (forall x :: !Lasting(EnvOf(live), events, view, x)) ==>
        (again != null <==> forall g <- live.gadgets, c <- g.configs :: c.lbl != ""))
  {
    hide CanonicalTree, UdcsExclusive, LunsApart, LunDefaults, Exact, Matched, MatchedView, Complete, Sound, Fit, Reach,
      SameTrees, UdcNames, UdcNameList, EnvOf, Memory, Runs.Owners, Trace, Lasting, Dangles, ParseableTree, SortedKeys, State.Agrees, UdcsKnown;
    live, again, rets, view, events := null, null, [], View(map[], map[], map[]), [];
    ghost var quiet := fs.Quiet();
    live := Start(fs);
    if live == null { return; }
    ExactIff(live);
    MatchedIff(live);
    view := Here(live);
    EnvParts(live);
    rets, events := Run(live, requests);
    EnvParts(live);
    if forall ev <- events :: !Dangles(ev) { SoundForParse(live); }
    again := Refresh(live);
    if quiet && again != null { UdcNamesOf(live, again, SortedKeys(fs.udcs)); }
  }

  // ----- a gadget taken down

  /** Detaching a gadget makes no difference to what a removal needs. */
  lemma DetachedSame(v: View, g: string, w: View)
    requires g in v.tree && g in v.memory && (w == v || w == LetGo(v, g) || w == LetGo(v, g).(tree := WithUdc(v.tree, g, "")))
    ensures (KnownWhole(w, g) <==> KnownWhole(v, g)) && (StuckView(w, g) <==> StuckView(v, g))
    ensures w.tree - {g} == v.tree - {g} && w.memory - {g} == v.memory - {g}
  {}

  lemma DetachedIsUnclaimed(e: Env, v: View, g: string, w: View)
    requires Agreeing(e, v) && g in v.memory && w.owners == LetGo(v, g).owners
    ensures !Claimed(w, g)
  {}

  /** After a query without an answer a UDC points at the gadget only if one did and the UDC file could not be read. */
  lemma AskedClaim(e: Env, v: View, g: string, w: View, o: Outcome, quiet: bool)
    requires Agreeing(e, v) && AskUdcStep(v, g, w, o, quiet) && o.answer == None
    ensures Claimed(w, g) <==> o.hidden != 0 && Claimed(v, g)
  {
    if Noticed(v, g, o) { DetachedIsUnclaimed(e, v, g, w); }
  }

  lemma ClaimedSame(g: Gadget)
    requires Sound(g.parent) && g in g.parent.gadgets
    ensures Claimed(Here(g.parent), g.name) <==> exists u <- g.parent.udcs :: u.gadget == g
  {
    hide Sound, Claimed, Memory, Runs.Owners, KnownWhole, StuckView, Stuck, NoStrays;
    DropView(g);
  }

  /** `remove_gadget` of the example program: ask for the UDC, disable the gadget if there is one, remove it with all its parts.
      Memory ends up with a UDC that points at a removed gadget exactly when the removal succeeded although the UDC file of an
      attached gadget could not be read. When nothing fails, the gadget goes if and only if memory knows all its directories and
      its record for the OS descriptors is not stale. */
  method TakeDown(g: Gadget) returns (ret: int, ghost read: int)
    requires Sound(g.parent) && g in g.parent.gadgets
    modifies g`udc, g.parent.udcs, g.parent`gadgets, g.configs, g`configs, g`osDesc, g`functions,
      set f <- g.functions | f.ms != null :: f.ms, g.parent.fs
    ensures Sound(g.parent) <==> !(ret == 0 && read != 0 && old(exists u <- g.parent.udcs :: u.gadget == g))
    ensures ret == 0 ==> old(NoStrays(g) && !Stuck(g)) && g.parent.fs.tree == old(g.parent.fs.tree) - {g.name}
    ensures ret == 0 ==> Memory(g.parent) == old(Memory(g.parent)) - {g.name}
    ensures old(g.parent.fs.Quiet()) ==> read == 0 && (ret == 0 <==> old(NoStrays(g) && !Stuck(g)))
  {
    hide Sound, Claimed, Memory, Runs.Owners, KnownWhole, StuckView, Stuck, NoStrays, EnvOf, Agreeing, LetGo, WithUdc;
    ghost var v := Here(g.parent);
    ClaimedSame(g);
    DropView(g);
    SoundView(g.parent);
    var u;
    u, read := RunAskUdc(g);
    ret := 0;
    ghost var w := Here(g.parent);
    DetachedSame(v, g.name, w);
    if u == null { AskedClaim(EnvOf(g.parent), v, g.name, w, Outcome(0, read, None, false), old(g.parent.fs.Quiet())); }
    if u != null {
      SoundView(g.parent);
      ret := RunDetach(g);
      if ret != 0 { return; }
      DetachedSame(w, g.name, Here(g.parent));
      DetachedIsUnclaimed(EnvOf(g.parent), w, g.name, Here(g.parent));
    }
    ret := RunDropGadget(g, true);
  }

  // ----- a gadget copied through a scheme

  /** Memory mirrors the directory of the gadget completely, and its bitmaps can be relied on. */
  ghost predicate Copyable(g: Gadget, k: KGadget)
    reads g, g.configs, g.parent.fs`tree, set f <- g.functions | f.ms != null :: f.ms,
          set f <- g.functions | f.ms != null :: f.ms.fs
  {
    g.name in g.parent.fs.tree && g.parent.fs.tree[g.name] == k && GadgetExact(g, k) && NamesValid(k) && forall f <- g.functions :: Ready(f)
  }

  /** A completely mirrored gadget can be exported, its lists being in the order of its directories. */
  lemma Exportable(g: Gadget, k: KGadget)
    requires Live(g) && Copyable(g, k)
    ensures LabelsOf(g.functions, LabelMap(g.functions)) && WellNamed(k)
    ensures g.osDesc != null ==> g.osDesc in g.configs && IsInt(g.osDesc.id)
    ensures FunctionNameList(g.functions) == SortedNames(k.functions.Keys) && ConfigNameList(g.configs) == SortedNames(k.configs.Keys)
  {
    hide GadgetExact, State.Agrees, LabelMap, LabelsOf, GadgetOk, NamesValid, WellNamed, SortedNames, Ready;
    LiveOk(g);
    LabelsMapped(g);
    RecordedConfig(g, k);
    ExactWellNamed(g, k);
    FunctionListSorted(g, k);
    ConfigListSorted(g, k);
  }

  /** The gadget can be exported, the name can be taken, and each part of the gadget survives. */
  ghost predicate CopySurvives(t: Tree, k: KGadget, labels: Labels, name: string, d: Defaults) {
    WellNamed(k) && GadgetTellable(k, labels) && MkdirError(t, GadgetDir(name), d) == SUCCESS && GadgetSurvives(k, labels, d)
  }

  ghost predicate Copied(k: KGadget, t: Tree, name: string) { name in t && RoundTrip.SameGadget(k, t[name]) }

  /** What the import of an exported gadget amounts to. */
  lemma CopiedIff(g: Gadget, t: Tree, u: Tree, k: KGadget, labels: Labels, root: Setting, name: string, d: Defaults, ret: int)
    requires GadgetExact(g, k) && NamesValid(k) && GadgetDefaults(d) && WellNamed(k) && (g.osDesc != null ==> IsInt(g.osDesc.id))
    requires (forall n <- FunctionNameList(g.functions) :: n in k.functions && IsFunctionName(n))
    requires forall n <- ConfigNameList(g.configs) :: n in k.configs && IsConfigName(n) && LinksNamed(k.configs[n])
    requires Schemes.ExportGadget(FunctionNameList(g.functions), ConfigNameList(g.configs), k, labels, OsDescId(g)) == Ok(root)
    requires FunctionNameList(g.functions) == SortedNames(k.functions.Keys) && ConfigNameList(g.configs) == SortedNames(k.configs.Keys)
    requires var e, r := MkdirError(t, GadgetDir(name), d), Schemes.ImportGadget(root, d);
      ret == (if e != SUCCESS then e else Code(r)) && (ret == 0 ==> name in u && r.Ok? && r.value.k == u[name])
    ensures (ret == 0 && Copied(k, u, name)) <==> CopySurvives(t, k, labels, name, d)
  {
    hide GadgetExact, NamesValid, WellNamed, GadgetDefaults, Schemes.ExportGadget, Schemes.ImportGadget, GadgetSurvives,
      RoundTrip.SameGadget, MkdirError, LinksNamed, IsFunctionName, SortedNames, FunctionNameList, ConfigNameList, GadgetTellable, GadgetTold;
    LiveGadgetRoundTrip(g, k, labels, d);
    GadgetExport(k, labels, OsDescId(g));
  }

  lemma NotExported(g: Gadget, t: Tree, k: KGadget, labels: Labels, name: string, d: Defaults)
    requires WellNamed(k) && (g.osDesc != null ==> IsInt(g.osDesc.id))
    requires (forall n <- FunctionNameList(g.functions) :: n in k.functions && IsFunctionName(n))
    requires forall n <- ConfigNameList(g.configs) :: n in k.configs && IsConfigName(n) && LinksNamed(k.configs[n])
    requires Schemes.ExportGadget(FunctionNameList(g.functions), ConfigNameList(g.configs), k, labels, OsDescId(g)).Err?
    requires FunctionNameList(g.functions) == SortedNames(k.functions.Keys) && ConfigNameList(g.configs) == SortedNames(k.configs.Keys)
    ensures !CopySurvives(t, k, labels, name, d)
  {
    hide WellNamed, Schemes.ExportGadget, GadgetSurvives, LinksNamed, IsFunctionName, SortedNames, FunctionNameList, ConfigNameList, GadgetTellable,
      GadgetTold;
    GadgetExport(k, labels, OsDescId(g));
  }

  /** An import when nothing fails, up to what configfs shows. */
  method ImportQuiet(s: State, root: Setting, name: string) returns (ret: int)
    requires s.Valid() && LunDefaults(s.fs.defaults) && s.fs.Quiet()
    modifies s`gadgets, s.fs
    ensures var e, r := MkdirError(old(s.fs.tree), GadgetDir(name), s.fs.defaults), Schemes.ImportGadget(root, s.fs.defaults);
      ret == (if e != SUCCESS then e else Code(r)) && (ret == 0 ==> name in s.fs.tree && r.Ok? && r.value.k == s.fs.tree[name])
  {
    hide State.Agrees, MkdirError, Schemes.ImportGadget, UpToLink, Tracked, LunDefaults, OsDescSynced, NoStrays, AllClear, AllNew;
    ghost var at, made, rb;
    var h;
    ret, h, at, made, rb := ImportGadgetRun(s, root, name);
  }

  /** A completely mirrored gadget, exported and imported under another name when nothing fails: the copy is made and says
      the same as the original if and only if the original can be exported, the name can be taken, and each part of it survives. */
  method Copy(g: Gadget, name: string, ghost k: KGadget, ghost labels: Labels) returns (ret: int)
    requires g in g.parent.gadgets && g.parent.fs.Quiet() && Sound(g.parent) && Copyable(g, k)
    requires GadgetDefaults(g.parent.fs.defaults) && labels == LabelMap(g.functions)
    modifies set f <- g.functions | f.ms != null :: f.ms, g.parent`gadgets, g.parent.fs
    ensures (ret == 0 && Copied(k, g.parent.fs.tree, name)) <==>
      CopySurvives(old(g.parent.fs.tree), k, labels, name, g.parent.fs.defaults)
  {
    hide Sound, GadgetExact, State.Agrees, NamesValid, GadgetDefaults, Ready, LabelMap, LabelsOf, WellNamed, Copied, SortedNames, OsIdOf,
      MkdirError, GadgetSurvives, Schemes.ImportGadget, Schemes.ExportGadget, UdcsOk, LunDefaults, CopySurvives, IsFunctionName,
      IsConfigName, LinksNamed, FunctionNameList, ConfigNameList, ConfigKeyOf;
    ghost var t := g.parent.fs.tree;
    SoundLinks(g.parent);
    SoundDefaults(g.parent);
    GadgetParents(g.parent);
    Exportable(g, k);
    var root;
    ret, root := ExportGadgetScheme(g, labels);
    if ret != 0 {
      NotExported(g, t, k, labels, name, g.parent.fs.defaults);
      return;
    }
    ret := ImportQuiet(g.parent, root, name);
    CopiedIff(g, t, g.parent.fs.tree, k, labels, root, name, g.parent.fs.defaults, ret);
  }

  // ----- LUNs set and read back

  /** Every LUN there is has its attribute files, and so will the ones to be made. */
  ghost predicate LunsComplete(dirs: map<LunId, Files>, d: Defaults) { LunFiles(d.lun) && forall k <- dirs :: LunFiles(dirs[k]) }

  /** A list of entries with ids that are negative or their position. */
  predicate Positional(reqs: seq<LunAttrs>) {
    0 < |reqs| <= MAX_LUNS && ByPosition(reqs) && forall a <- reqs :: Clean(a)
  }

  lemma PositionalWanted(reqs: seq<LunAttrs>)
    requires Positional(reqs)
    ensures InBounds(reqs) && forall k: LunId :: Wanted(reqs, k) <==> k < |reqs|
  {
    forall k: LunId ensures Wanted(reqs, k) <==> k < |reqs| { PositionEntry(reqs, |reqs|, k); }
  }

  /** The reconciliation with such a list gets through. */
  lemma PositionalPasses(reqs: seq<LunAttrs>, before: map<LunId, Files>, d: Defaults)
    requires Positional(reqs) && LunsComplete(before, d) && 0 in before
    ensures FirstStop(reqs, before, d, 0) == MAX_LUNS
  {
    hide Wanted, SetLun;
    PositionalWanted(reqs);
    forall k: LunId ensures !Stops(reqs, before, d, k) {
      if k < |reqs| {
        assert Clean(reqs[k]);
        SetLunOk(reqs[k], Base(before, d, k));
      }
    }
  }

  lemma {:induction false} CountBelow(dirs: map<LunId, Files>, m: nat, n: nat)
    requires n <= MAX_LUNS && forall k: LunId :: k in dirs <==> k < m
    ensures LunCount(dirs, n) == if n <= m then n else m
  {
    if n > 0 { CountBelow(dirs, m, n - 1); }
  }

  /** The entries with their ids filled in, and the NULL that ends the list. */
  function Answer(reqs: seq<LunAttrs>): (r: seq<Option<LunAttrs>>)
    requires |reqs| <= MAX_LUNS
    ensures |r| == |reqs| + 1 && r[|reqs|] == None && forall k :: 0 <= k < |reqs| ==> r[k] == Some(reqs[k].(id := k))
  {
    seq(|reqs|, k requires 0 <= k < |reqs| => Some(reqs[k].(id := k))) + [None]
  }

  lemma PositionalRead(reqs: seq<LunAttrs>, before: map<LunId, Files>, after: map<LunId, Files>, d: Defaults)
    requires Positional(reqs) && forall k: LunId :: Reconciled(reqs, before, after, d, k)
    ensures InArray(after) && ReadLuns(after, 0, NoSlots(after)) == Ok(Answer(reqs))
  {
    hide ReadLun, Reconciled, LunCount, Clean, ReadLuns, ByPosition, Wanted, EntryFor;
    PositionalWanted(reqs);
    SetThenGet(reqs, before, after, d);
    CountBelow(after, |reqs|, MAX_LUNS);
    SlotsFilled(after, 0, NoSlots(after));
    var r := ReadLuns(after, 0, NoSlots(after)).value;
    forall k | 0 <= k < |r| ensures r[k] == Answer(reqs)[k] {
      if k < |reqs| { assert ReadLun(k, after[k]) == Ok(reqs[k].(id := k)); }
    }
    assert r == Answer(reqs);
  }

  /** A mass storage function is given LUNs by a list of entries with ids that are negative or their position, and asked for
      its attributes: both calls succeed, each field is in the file of its name, and the answer is the list with the ids
      filled in. */
  method SetAndGet(ms: MsFunction, stall: bool, reqs: seq<LunAttrs>)
    returns (ret: int, crash: bool, got: int, back: bool, slots: seq<Option<LunAttrs>>)
    requires ms.InSync() && 0 in ms.Dirs() && "stall" in ms.OwnFiles() && ms.fs.Quiet()
    requires Positional(reqs) && LunsComplete(ms.Dirs(), ms.fs.defaults)
    modifies ms, ms.fs
    ensures ret == 0 && !crash && got == 0 && back == stall && slots == Answer(reqs)
    ensures ms.Present() && "stall" in ms.OwnFiles() && ms.OwnFiles()["stall"] == Flag(stall)
    ensures forall k: LunId | k < |reqs| :: k in ms.Dirs() && FieldsIn(reqs[k], ms.Dirs()[k])
  {
    hide Positional, LunsComplete, InBounds, Reconciled, FirstStop, RoundError, Crashes, Wanted, StoppedAt, FieldsIn, Flag;
    ghost var dirs := ms.Dirs();
    PositionalWanted(reqs);
    PositionalPasses(reqs, dirs, ms.fs.defaults);
    ghost var at;
    ret, crash, at := ms.SetAttrs(stall, reqs);
    PositionalRead(reqs, dirs, ms.Dirs(), ms.fs.defaults);
    WrittenBool(stall);
    FlagText(stall);
    forall k: LunId | k < |reqs| ensures k in ms.Dirs() && FieldsIn(reqs[k], ms.Dirs()[k]) {
      ReconciledByField(reqs, dirs, ms.Dirs(), ms.fs.defaults, k);
    }
    got, back, slots := ms.GetAttrs();
  }

  /** LUN `k` has the attributes of the entry that asked for it. */
  ghost predicate HasOwn(reqs: seq<LunAttrs>, dirs: map<LunId, Files>, k: LunId)
    requires Wanted(reqs, k)
  {
    k in dirs && ReadLun(k, dirs[k]) == Ok(reqs[EntryFor(reqs, |reqs|, k)].(id := k))
  }

  /** LUN `k` should get the attributes it does get: those at its position, or, behind the list, those of a new LUN. */
  ghost predicate ShouldHave(reqs: seq<LunAttrs>, d: Defaults, k: LunId)
    requires Wanted(reqs, k)
  {
    var own := reqs[EntryFor(reqs, |reqs|, k)];
    if k < |reqs| then SameValues(reqs[k], own) else ReadLun(k, d.lun) == Ok(own.(id := k))
  }

  /** LUNs set by any list of entries: which of them get what was asked for them can be told from the list. */
  method SetAny(ms: MsFunction, stall: bool, reqs: seq<LunAttrs>) returns (ret: int, crash: bool)
    requires ms.InSync() && (ms.initiated || ms.fs.Quiet()) && InBounds(reqs) && forall a <- reqs :: Clean(a)
    modifies ms, ms.fs
    ensures ms.Valid()
    ensures ret == 0 && !crash ==>
      forall k: LunId | Wanted(reqs, k) :: HasOwn(reqs, ms.Dirs(), k) <==> ShouldHave(reqs, ms.fs.defaults, k)
  {
    hide Reconciled, FirstStop, RoundError, Crashes, Wanted, StoppedAt, Clean, ReadLun;
    ghost var dirs := ms.Dirs();
    ghost var at;
    ret, crash, at := ms.SetAttrs(stall, reqs);
    if ret == 0 && !crash {
      forall k: LunId | Wanted(reqs, k) ensures HasOwn(reqs, ms.Dirs(), k) <==> ShouldHave(reqs, ms.fs.defaults, k) {
        OwnIff(reqs, dirs, ms.Dirs(), ms.fs.defaults, k);
      }
    }
  }

  lemma OwnIff(reqs: seq<LunAttrs>, before: map<LunId, Files>, after: map<LunId, Files>, d: Defaults, k: LunId)
    requires Wanted(reqs, k) && Reconciled(reqs, before, after, d, k) && forall a <- reqs :: Clean(a)
    ensures HasOwn(reqs, after, k) <==> ShouldHave(reqs, d, k)
  {
    hide ReadLun, SetLun, Clean;
    OwnAttributesIff(reqs, before, after, d, k);
  }
}
