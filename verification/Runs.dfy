/** Runs: the calls on handles follow the steps of module `Machine`, one by one and in any finite sequence, with the kernel
    detaching gadgets in between and any system call made to fail. */
module Runs {
  import opened Errors
  import opened Text
  import opened Numbers
  import opened Names
  import opened Settings
  import opened Kernel
  import opened MassStorage
  import opened Records
  import opened Handles
  import opened Removal
  import opened Creation
  import opened Schemes
  import opened SchemeExport
  import opened SchemeImport
  import opened UdcLinks
  import opened Parsing
  import opened Machine
  import opened Traces

  /** Every function memory knows can be taken away again: no bitmap has lost track of its LUNs. */
  ghost predicate AllRemovable(s: State)
    reads s`gadgets, s.gadgets, s.fs`tree, set g <- s.gadgets, f <- g.functions | f.ms != null :: f.ms
  {
    forall g <- s.gadgets :: g.parent == s && AllClear(g)
  }

  /** What holds in every reachable state: memory agrees with configfs, lists are sorted, keys are unique, no binding
      dangles, the links between gadgets and UDCs are sound, and LUN bitmaps can be relied on. */
  ghost predicate Sound(s: State)
    reads s`gadgets, s`udcs, s.fs`tree, s.gadgets, s.udcs, set g <- s.gadgets, c <- g.configs :: c,
          set g <- s.gadgets, f <- g.functions | f.ms != null :: f.ms
  {
    s.Valid() && UdcsOk(s) && LunDefaults(s.fs.defaults) && AllRemovable(s)
  }

  // ----- what there is, in names

  ghost function RecordIn(configs: seq<Config>, osDesc: Config?): Record {
    if osDesc == null then NoRecord else if osDesc in configs then Recorded(osDesc.name) else Lost
  }

  ghost function ImageOf(g: Gadget): Image
    reads g
  {
    Image(FunctionNames(g.functions), ConfigNames(g.configs), if g.udc != null then Some(g.udc.name) else None,
          RecordIn(g.configs, g.osDesc))
  }

  ghost function GadgetNamed(gadgets: seq<Gadget>, n: string): Gadget
    requires exists g <- gadgets :: g.name == n
  {
    var g :| g in gadgets && g.name == n;
    g
  }

  ghost function Memory(s: State): map<string, Image>
    reads s`gadgets, s.gadgets
  {
    map n | n in (set g <- s.gadgets :: g.name) :: ImageOf(GadgetNamed(s.gadgets, n))
  }

  ghost function OwnerNamed(udcs: seq<Udc>, n: string): Gadget
    requires exists u <- udcs :: u.gadget != null && u.name == n
    reads udcs
  {
    var u :| u in udcs && u.gadget != null && u.name == n;
    u.gadget
  }

  ghost function Owners(s: State): map<string, string>
    reads s`udcs, s.udcs
  {
    map n | n in (set u | u in s.udcs && u.gadget != null :: u.name) :: OwnerNamed(s.udcs, n).name
  }

  ghost function Here(s: State): View
    reads s`gadgets, s`udcs, s.gadgets, s.udcs, s.fs`tree
  {
    View(s.fs.tree, Memory(s), Owners(s))
  }

  ghost function UdcNameList(udcs: seq<Udc>): (r: seq<string>)
    ensures |r| == |udcs| && forall i :: 0 <= i < |udcs| ==> r[i] == udcs[i].name
  {
    seq(|udcs|, i requires 0 <= i < |udcs| => udcs[i].name)
  }

  ghost function EnvOf(s: State): Env
    reads s`udcs
  {
    Env(s.fs.defaults, s.fs.udcs, UdcNameList(s.udcs))
  }

  /** Each gadget is under its name in the view. */
  lemma MemoryHas(s: State)
    requires s.Valid()
    ensures Memory(s).Keys == set g <- s.gadgets :: g.name
    ensures forall g <- s.gadgets :: g.name in Memory(s) && Memory(s)[g.name] == ImageOf(g)
    ensures forall g <- s.gadgets, h <- s.gadgets :: g.name == h.name ==> g == h
  {
    hide State.Valid, ImageOf;
    GadgetNamesDiffer(s);
    forall g | g in s.gadgets ensures g.name in Memory(s) && Memory(s)[g.name] == ImageOf(g) {
      assert GadgetNamed(s.gadgets, g.name) == g;
    }
  }

  lemma OwnersHave(s: State)
    requires s.Valid()
    ensures forall n <- Owners(s) :: exists u <- s.udcs :: u.name == n && u.gadget != null
    ensures forall u <- s.udcs :: (u.name in Owners(s) <==> u.gadget != null) && (u.gadget != null ==> Owners(s)[u.name] == u.gadget.name)
    ensures forall u <- s.udcs, v <- s.udcs :: u.name == v.name ==> u == v
  {
    hide State.Valid;
    UdcNamesDiffer(s);
    forall u | u in s.udcs
      ensures (u.name in Owners(s) <==> u.gadget != null) && (u.gadget != null ==> Owners(s)[u.name] == u.gadget.name)
    {
      if u.gadget != null { assert OwnerNamed(s.udcs, u.name) == u.gadget; }
    }
  }

  lemma ListedUdc(s: State, n: string)
    ensures n in EnvOf(s).listed <==> exists u <- s.udcs :: u.name == n
  {
    if u :| u in s.udcs && u.name == n {
      var i :| 0 <= i < |s.udcs| && s.udcs[i] == u;
      assert EnvOf(s).listed[i] == n;
    }
    if n in EnvOf(s).listed {
      var i :| 0 <= i < |s.udcs| && EnvOf(s).listed[i] == n;
      assert s.udcs[i] in s.udcs && s.udcs[i].name == n;
    }
  }

  /** The gadgets are those of the memory `m`, and so is every image but one's. */
  lemma MemoryMoved(g: Gadget, m: map<string, Image>)
    requires g.parent.Valid() && g in g.parent.gadgets && m.Keys == set h <- g.parent.gadgets :: h.name
    requires forall h <- g.parent.gadgets | h != g :: m[h.name] == ImageOf(h)
    ensures Memory(g.parent) == m[g.name := ImageOf(g)]
  {
    hide State.Valid, ImageOf, Memory;
    var s := g.parent;
    MemoryHas(s);
    forall n | n in m ensures n in Memory(s) && Memory(s)[n] == m[g.name := ImageOf(g)][n] {
      var h :| h in s.gadgets && h.name == n;
    }
  }

  lemma MemorySame(s: State, m: map<string, Image>)
    requires s.Valid() && m.Keys == set h <- s.gadgets :: h.name
    requires forall h <- s.gadgets :: m[h.name] == ImageOf(h)
    ensures Memory(s) == m
  {
    hide State.Valid, ImageOf, Memory;
    MemoryHas(s);
    forall n | n in m ensures n in Memory(s) && Memory(s)[n] == m[n] {
      var h :| h in s.gadgets && h.name == n;
    }
  }

  /** The owners are those of the map `o`. */
  lemma OwnersAre(s: State, o: map<string, string>)
    requires s.Valid() && forall n <- o :: exists u <- s.udcs :: u.name == n
    requires forall u <- s.udcs :: (u.name in o <==> u.gadget != null) && (u.gadget != null ==> o[u.name] == u.gadget.name)
    ensures Owners(s) == o
  {
    hide State.Valid, Owners;
    OwnersHave(s);
    forall n | n in o ensures n in Owners(s) && Owners(s)[n] == o[n] {
      var u :| u in s.udcs && u.name == n;
    }
    forall n | n in Owners(s) ensures n in o {
      var u :| u in s.udcs && u.name == n && u.gadget != null;
    }
  }

  lemma ImageAgrees(g: Gadget, k: KGadget)
    requires GadgetOk(g, k) && forall u <- g.parent.udcs :: u.name != ""
    requires g.udc != null ==> g.udc in g.parent.udcs
    ensures ImageOk(EnvOf(g.parent), k, ImageOf(g))
  {
    hide BindingsOk, FunctionName, ConfigName;
    var m := ImageOf(g);
    assert m.functions <= k.functions.Keys by { assert forall f <- g.functions :: FunctionOk(g, f, k); }
    assert m.configs <= k.configs.Keys by { assert forall c <- g.configs :: ConfigOk(g, c, k); }
    if g.udc != null { ListedUdc(g.parent, g.udc.name); }
  }

  /** Every sound state is seen as an agreeing view. */
  lemma SoundView(s: State)
    requires Sound(s)
    ensures Agreeing(EnvOf(s), Here(s))
  {
    hide AllRemovable, ImageOf, ImageOk, EnvOf, Memory, Owners, LunDefaults, State.Agrees;
    MemoryHas(s);
    OwnersHave(s);
    GadgetNamesDiffer(s);
    GadgetParents(s);
    forall n | n in Memory(s) ensures n in s.fs.tree && ImageOk(EnvOf(s), s.fs.tree[n], Memory(s)[n]) {
      var g :| g in s.gadgets && g.name == n;
      LiveOk(g);
      ImageAgrees(g, s.fs.tree[n]);
    }
    forall n | n in Owners(s)
      ensures n in EnvOf(s).listed && Owners(s)[n] in Memory(s) && Memory(s)[Owners(s)[n]].udc == Some(n)
    {
      var u :| u in s.udcs && u.name == n && u.gadget != null;
      ListedUdc(s, n);
      UdcOfImage(u.gadget);
    }
    if "" in EnvOf(s).listed { ListedUdc(s, ""); }
    KnownFromOk(s);
  }

  lemma UdcOfImage(g: Gadget)
    ensures ImageOf(g).udc == if g.udc != null then Some(g.udc.name) else None
  {}

  lemma LiveOk(g: Gadget)
    requires Live(g)
    ensures g.name in g.parent.fs.tree && GadgetOk(g, g.parent.fs.tree[g.name])
  {}

  lemma UdcReadIff(s: State, g: Gadget, k: KGadget)
    requires g.udc != null ==> g.udc in s.udcs
    ensures UdcRead(g, s.udcs, k.udc) <==>
      if ImageOf(g).udc.Some? then ImageOf(g).udc.value == k.udc else k.udc !in EnvOf(s).listed
  {
    ListedUdc(s, k.udc);
  }

  lemma GadgetCompleteIff(s: State, g: Gadget)
    requires Sound(s) && g in s.gadgets
    ensures g.name in s.fs.tree
    ensures NoGapAt(EnvOf(s), Here(s), g.name) <==>
      GadgetExact(g, s.fs.tree[g.name]) && UdcRead(g, s.udcs, s.fs.tree[g.name].udc)
  {
    var e, v := EnvOf(s), Here(s);
    hide AllRemovable, EnvOf, Memory, Owners, LunDefaults, State.Agrees, UdcsExclusive, BackLinks, GadgetOk, UdcRead;
    MemoryHas(s);
    GadgetNamesDiffer(s);
    GadgetParents(s);
    LiveOk(g);
    var n := g.name;
    var k := s.fs.tree[n];
    UdcReadIff(s, g, k);
    SoundView(s);
    AgreeingOn(e, v, n);
    hide Agreeing, ImageOk;
    NoGapIff(e, v, n);
    hide NoGapAt;
  }

  /** The mirror is complete exactly when there is no gap. */
  lemma ExactIff(s: State)
    requires Sound(s)
    ensures Exact(s) <==> Complete(EnvOf(s), Here(s))
  {
    var e, v := EnvOf(s), Here(s);
    hide AllRemovable, EnvOf, Memory, Owners, LunDefaults, State.Agrees, UdcsOk, GadgetExact, UdcRead;
    MemoryHas(s);
    forall g | g in s.gadgets
      ensures g.name in s.fs.tree
      ensures NoGapAt(e, v, g.name) <==> GadgetExact(g, s.fs.tree[g.name]) && UdcRead(g, s.udcs, s.fs.tree[g.name].udc)
    {
      GadgetCompleteIff(s, g);
    }
    assert forall n <- s.fs.tree :: Open(e, v, LeftGadget(n)) <==> n !in (set g <- s.gadgets :: g.name);
    if Complete(e, v) {
      assert forall n <- s.fs.tree :: !Open(e, v, LeftGadget(n));
      forall g | g in s.gadgets ensures NoGapAt(e, v, g.name) {}
    }
    if Exact(s) {
      forall x ensures !Open(e, v, x) {
        if x.g in s.fs.tree {
          var g :| g in s.gadgets && g.name == x.g;
          assert NoGapAt(e, v, g.name);
        }
      }
    }
  }

  lemma MatchedIff(s: State)
    requires Sound(s)
    ensures Matched(s) <==> MatchedView(Here(s))
  {
    hide AllRemovable, EnvOf, Memory, Owners, LunDefaults, State.Agrees, UdcsExclusive, ImageOf;
    MemoryHas(s);
    OwnersHave(s);
    GadgetNamesDiffer(s);
    forall g | g in s.gadgets ensures ImageOf(g).udc == if g.udc != null then Some(g.udc.name) else None { UdcOfImage(g); }
    forall n | n in Memory(s) ensures exists g <- s.gadgets :: g.name == n {}
  }

  // ----- what a call may touch

  /** The objects of the handle tree. */
  ghost function Reach(s: State): set<object>
    reads s, s.gadgets
  {
    {s, s.fs} + (set u: object | u in s.udcs) + (set g: object | g in s.gadgets) + (set g <- s.gadgets, o <- Parts(g) :: o)
  }

  /** Whatever the handle tree gained was made by the call. */
  twostate predicate Grew(s: State)
    reads s, s.gadgets
  {
    s.udcs == old(s.udcs) &&
    (forall g <- s.gadgets :: g in old(s.gadgets) || fresh(g)) &&
    forall g <- s.gadgets, o <- Parts(g) :: (g in old(s.gadgets) && o in old(Parts(g))) || fresh(o)
  }

  twostate lemma ReachGrew(s: State)
    requires Grew(s)
    ensures forall o <- Reach(s) :: o in old(Reach(s)) || fresh(o)
  {}

  /** The same gadgets, one of which gained or lost parts. */
  twostate lemma PartsGrew(g: Gadget)
    requires g.parent.gadgets == old(g.parent.gadgets) && g.parent.udcs == old(g.parent.udcs)
    requires forall h <- g.parent.gadgets | h != g :: unchanged(h`configs) && unchanged(h`functions)
    requires forall o <- Parts(g) :: o in old(Parts(g)) || fresh(o)
    ensures Grew(g.parent)
  {
    forall h, o | h in g.parent.gadgets && o in Parts(h) ensures (h in old(g.parent.gadgets) && o in old(Parts(h))) || fresh(o) {
      if h != g { assert Parts(h) == old(Parts(h)); }
    }
  }

  // ----- what keeps a state sound

  /** A call that leaves UDC links and UDC files alone keeps them sound. */
  twostate lemma LinksUntouched(s: State)
    requires old(UdcsOk(s)) && s.gadgets == old(s.gadgets) && s.udcs == old(s.udcs)
    requires (forall g <- s.gadgets :: unchanged(g`udc)) && forall u <- s.udcs :: unchanged(u`gadget)
    requires forall n <- s.fs.tree :: n in old(s.fs.tree) && s.fs.tree[n].udc == old(s.fs.tree)[n].udc
    ensures UdcsOk(s)
  {}

  lemma OnlyGadgetUdcs(t: Tree, u: Tree, g: string)
    requires OnlyGadget(t, u, g)
    ensures forall n <- u :: n in t && u[n].udc == t[n].udc
  {}

  /** A call on one gadget leaves the functions of the others removable. */
  twostate lemma RemovableKept(g: Gadget)
    requires old(AllRemovable(g.parent)) && g.parent.Valid() && g.parent.gadgets == old(g.parent.gadgets) && g in g.parent.gadgets
    requires forall n <- old(g.parent.fs.tree) | n != g.name :: n in g.parent.fs.tree && g.parent.fs.tree[n] == old(g.parent.fs.tree)[n]
    requires forall h <- g.parent.gadgets | h != g :: unchanged(h`functions) && forall f <- h.functions | f.ms != null :: unchanged(f.ms)
    requires AllClear(g)
    ensures AllRemovable(g.parent)
  {
    hide State.Agrees;
    var s := g.parent;
    GadgetNamesDiffer(s);
    forall h | h in s.gadgets ensures h.parent == s && AllClear(h) {
      if h != g {
        assert old(AllClear(h));
        forall f | f in h.functions ensures f.name in s.fs.tree[h.name].functions && Emptiable(f, s.fs.tree[h.name].functions[f.name]) {
          assert old(Emptiable(f, s.fs.tree[h.name].functions[f.name]));
        }
      }
    }
  }

  lemma OthersInTree(t: Tree, u: Tree, g: string)
    requires OnlyGadget(t, u, g)
    ensures forall n <- t | n != g :: n in u && u[n] == t[n]
  {}

  lemma SoundParts(s: State)
    requires Sound(s)
    ensures s.Valid() && UdcsOk(s) && LunDefaults(s.fs.defaults)
    ensures forall g <- s.gadgets :: g.parent == s && Live(g) && AllClear(g) && g.name in s.fs.tree
  {
    GadgetParents(s);
    GadgetNamesDiffer(s);
  }

  /** Apart from the lists and the record of one gadget, memory is as before. */
  twostate predicate Within(g: Gadget)
    reads g.parent, g.parent.gadgets, g.parent.udcs, set h <- g.parent.gadgets, f <- h.functions | f.ms != null :: f.ms
  {
    g in g.parent.gadgets && g.parent.gadgets == old(g.parent.gadgets) && g.parent.udcs == old(g.parent.udcs) &&
    (forall h <- g.parent.gadgets :: unchanged(h`udc)) && (forall u <- g.parent.udcs :: unchanged(u`gadget)) &&
    forall h <- g.parent.gadgets | h != g ::
      unchanged(h`functions) && unchanged(h`configs) && unchanged(h`osDesc) && forall f <- h.functions | f.ms != null :: unchanged(f.ms)
  }

  /** A call inside one gadget that keeps memory and configfs in agreement keeps the state sound, and changes
      only what the view shows of that gadget. */
  twostate lemma InsideGadget(g: Gadget)
    requires old(Sound(g.parent)) && g.parent.Valid() && Within(g)
    requires OnlyGadget(old(g.parent.fs.tree), g.parent.fs.tree, g.name) && AllClear(g)
    requires forall o <- Parts(g) :: o in old(Parts(g)) || fresh(o)
    ensures Sound(g.parent) && Grew(g.parent) && EnvOf(g.parent) == old(EnvOf(g.parent))
    ensures old(g.name in Memory(g.parent) && Memory(g.parent)[g.name] == ImageOf(g))
    ensures Here(g.parent) == View(g.parent.fs.tree, old(Memory(g.parent))[g.name := ImageOf(g)], old(Owners(g.parent)))
  {
    hide State.Agrees, OnlyGadget, AllClear, Parts, Memory, Owners, UdcsOk, AllRemovable, LunDefaults;
    var s := g.parent;
    var t, u := old(s.fs.tree), s.fs.tree;
    OnlyGadgetUdcs(t, u, g.name);
    OthersInTree(t, u, g.name);
    assert UdcsOk(s) by { LinksUntouched(s); }
    assert AllRemovable(s) by { RemovableKept(g); }
    assert Grew(s) by { PartsGrew(g); }
    OldView(s);
    forall h | h in s.gadgets && h != g ensures ImageOf(h) == old(ImageOf(h)) {}
    hide ImageOf;
    MemoryMoved(g, old(Memory(s)));
    OwnersAre(s, old(Owners(s)));
  }

  /** What the view showed before a call on the same gadgets and UDCs. */
  twostate lemma OldView(s: State)
    requires s.Valid() && s.gadgets == old(s.gadgets) && s.udcs == old(s.udcs)
    ensures old(Memory(s)).Keys == set g <- s.gadgets :: g.name
    ensures forall g <- s.gadgets :: g.name in old(Memory(s)) && old(Memory(s))[g.name] == old(ImageOf(g))
    ensures forall n <- old(Owners(s)) :: exists u <- s.udcs :: u.name == n
    ensures forall u <- s.udcs ::
      (u.name in old(Owners(s)) <==> old(u.gadget) != null) && (old(u.gadget) != null ==> old(Owners(s))[u.name] == old(u.gadget).name)
  {
    hide State.Valid, ImageOf, Owners;
    OldPointers(s);
    GadgetNamesDiffer(s);
    forall g | g in s.gadgets ensures g.name in old(Memory(s)) && old(Memory(s))[g.name] == old(ImageOf(g)) {
      assert GadgetNamed(s.gadgets, g.name) == g;
    }
  }

  twostate lemma OldPointers(s: State)
    requires s.Valid() && s.udcs == old(s.udcs)
    ensures forall n <- old(Owners(s)) :: exists u <- s.udcs :: u.name == n
    ensures forall u <- s.udcs ::
      (u.name in old(Owners(s)) <==> old(u.gadget) != null) && (old(u.gadget) != null ==> old(Owners(s))[u.name] == old(u.gadget).name)
  {
    hide State.Valid;
    UdcNamesDiffer(s);
    forall u | u in s.udcs
      ensures (u.name in old(Owners(s)) <==> old(u.gadget) != null) && (old(u.gadget) != null ==> old(Owners(s))[u.name] == old(u.gadget).name)
    {
      if old(u.gadget) != null { assert old(OwnerNamed(s.udcs, u.name)) == old(u.gadget); }
    }
  }

  lemma ClearWithFunction(fns: seq<Function>, f: Function, at: nat, k: KGadget, l: KGadget)
    requires at <= |fns| && Clear(fns, k) && f.name !in k.functions && f.name in l.functions && Emptiable(f, l.functions[f.name])
    requires l.functions == k.functions[f.name := l.functions[f.name]]
    ensures Clear(fns[..at] + [f] + fns[at..], l)
  {
    hide Emptiable;
    Inserted(fns, f, at);
  }

  lemma EnvParts(s: State)
    ensures EnvOf(s).d == s.fs.defaults && EnvOf(s).present == s.fs.udcs && EnvOf(s).listed == UdcNameList(s.udcs)
  {}

  /** Functions and configurations may have been added to memory. */
  twostate lemma PartsMore(g: Gadget)
    requires old(Sound(g.parent)) && g.parent.Valid() && Within(g) && FunctionsGrown(g)
    requires forall c <- g.configs :: c in old(g.configs) || fresh(c)
    requires OnlyGadget(old(g.parent.fs.tree), g.parent.fs.tree, g.name) && AllClear(g)
    ensures Sound(g.parent) && Grew(g.parent) && EnvOf(g.parent) == old(EnvOf(g.parent))
    ensures old(g.name in Memory(g.parent) && Memory(g.parent)[g.name] == ImageOf(g))
    ensures Here(g.parent) == View(g.parent.fs.tree, old(Memory(g.parent))[g.name := ImageOf(g)], old(Owners(g.parent)))
  {
    hide Sound, State.Agrees, OnlyGadget, AllClear, Within, Memory, Owners, ImageOf, Grew;
    InsideGadget(g);
  }

  /** Functions may have been added to memory. */
  twostate lemma FunctionsMore(g: Gadget)
    requires old(Sound(g.parent)) && g.parent.Valid() && Within(g) && unchanged(g`configs)
    requires FunctionsGrown(g) && OnlyGadget(old(g.parent.fs.tree), g.parent.fs.tree, g.name) && AllClear(g)
    ensures Sound(g.parent) && Grew(g.parent) && EnvOf(g.parent) == old(EnvOf(g.parent))
    ensures old(g.name in Memory(g.parent) && Memory(g.parent)[g.name] == ImageOf(g))
    ensures Here(g.parent) == View(g.parent.fs.tree, old(Memory(g.parent))[g.name := ImageOf(g)], old(Owners(g.parent)))
  {
    hide Sound, State.Agrees, OnlyGadget, AllClear, Within, Memory, Owners, ImageOf, Grew;
    InsideGadget(g);
  }

  lemma FunctionImage(g: Gadget, fns: seq<Function>, f: Function, at: nat, m: Image)
    requires at <= |fns| && g.functions == fns[..at] + [f] + fns[at..]
    requires m == ImageOf(g).(functions := FunctionNames(fns))
    ensures ImageOf(g) == WithFunctionName(m, f.name)
  {
    FunctionNamesWith(fns, f, at);
  }

  /** A function that is not there yet takes its place: the gadget can still be taken apart. */
  lemma ClearAndGrown(fns: seq<Function>, f: Function, at: nat, t: Tree, u: Tree, g: string)
    requires at <= |fns| && g in t && Clear(fns, t[g]) && FunctionMade(t, u, g, f.name) && Emptiable(f, u[g].functions[f.name])
    ensures OnlyGadget(t, u, g) && g in u && Clear(fns[..at] + [f] + fns[at..], u[g])
    ensures forall h <- fns[..at] + [f] + fns[at..] :: h == f || h in fns
    ensures forall h <- fns :: h in fns[..at] + [f] + fns[at..]
  {
    hide Emptiable;
    Inserted(fns, f, at);
    ClearWithFunction(fns, f, at, t[g], u[g]);
  }

  lemma ClearStays(fns: seq<Function>, k: KGadget, l: KGadget)
    requires Clear(fns, k) && SubMap(k.functions, l.functions)
    ensures Clear(fns, l)
  {
    hide Emptiable;
  }

  lemma MoreFunctionDirs(t: Tree, u: Tree, g: string, f: string)
    requires FunctionMade(t, u, g, f)
    ensures OnlyGadget(t, u, g) && g in u && SubMap(t[g].functions, u[g].functions)
  {}

  lemma SameTree(t: Tree, g: string)
    requires g in t
    ensures OnlyGadget(t, t, g) && SubMap(t[g].functions, t[g].functions)
  {
    OnlyGadgetReflexive(t, g);
  }

  lemma FunctionStepHolds(e: Env, v: View, g: string, ftype: FunctionType, instance: string, vals: FunctionAttrs, w: View,
                          ret: int, quiet: bool)
    requires AttrsFit(ftype, vals) && g in v.memory && w.owners == v.owners
    requires w.memory == if ret == 0 then v.memory[g := WithFunctionName(v.memory[g], FunctionName(ftype, instance))] else v.memory
    requires ret == 0 ==> FunctionMade(v.tree, w.tree, g, FunctionName(ftype, instance)) && TypeName(ftype) in e.d.functions
    requires ret == 0 && (!vals.Luns? || quiet) ==>
      AttrsSet(ftype, vals, NewFunction(ftype, e.d), w.tree[g].functions[FunctionName(ftype, instance)], e.d)
    requires ret != 0 ==> w.tree == v.tree || FunctionMade(v.tree, w.tree, g, FunctionName(ftype, instance))
    requires ret != 0 && vals.NoAttrs? ==> w.tree == v.tree
    requires quiet ==> ret == NewFunctionCode(v.tree, g, ftype, instance, vals, e.d)
    requires quiet && ret != 0 ==> (w.tree != v.tree <==> LeavesFunction(v.tree, g, ftype, instance, vals, e.d))
    ensures FunctionStep(e, v, g, ftype, instance, vals, w, Outcome(ret, 0, None, false), quiet)
  {
    hide FunctionMade, FunctionName, TypeName, AttrsFit, AttrsSet, NewFunctionCode, LeavesFunction;
  }

  /** `usbg_create_function` follows its step. */
  method RunMakeFunction(g: Gadget, ftype: FunctionType, instance: string, vals: FunctionAttrs) returns (ret: int)
    requires Sound(g.parent) && g in g.parent.gadgets && AttrsFit(ftype, vals)
    modifies g`functions, g.parent.fs
    ensures Sound(g.parent) && Grew(g.parent)
    ensures FunctionStep(EnvOf(g.parent), old(Here(g.parent)), g.name, ftype, instance, vals, Here(g.parent),
                         Outcome(ret, 0, None, false), old(g.parent.fs.Quiet()))
    ensures old(g.parent.fs.Quiet()) ==> g.parent.fs.Quiet()
  {
    hide Sound, UdcsOk, EnvOf, FunctionStep, State.Agrees, FunctionMade, OnlyGadget, FunctionName, Grew, LunDefaults, TypeName, AttrsFit, AttrsSet, SubMap,
      NewFunctionCode, LeavesFunction, NewFunction, Clear, Emptiable, Memory, Owners, CreateFunctionError;
    ghost var s := g.parent;
    ghost var t := s.fs.tree;
    ghost var fns := g.functions;
    ghost var m := ImageOf(g);
    ghost var e, v := EnvOf(s), Here(s);
    EnvParts(s);
    ghost var quiet := s.fs.Quiet();
    SoundParts(s);
    ghost var at;
    var f;
    ret, f, at := CreateFunction(g, ftype, instance, vals);
    if ret == 0 {
      ClearAndGrown(fns, f, at, t, s.fs.tree, g.name);
      FunctionImage(g, fns, f, at, m);
    } else if s.fs.tree != t {
      MoreFunctionDirs(t, s.fs.tree, g.name, FunctionName(ftype, instance));
      ClearStays(fns, t[g.name], s.fs.tree[g.name]);
    } else {
      SameTree(t, g.name);
    }
    FunctionsMore(g);
    FunctionStepHolds(e, v, g.name, ftype, instance, vals, Here(s), ret, quiet);
  }

  lemma RecordWithConfig(configs: seq<Config>, c: Config, at: nat, osDesc: Config?)
    requires at <= |configs| && osDesc != c
    ensures RecordIn(configs[..at] + [c] + configs[at..], osDesc) == RecordIn(configs, osDesc)
    ensures ConfigNames(configs[..at] + [c] + configs[at..]) == ConfigNames(configs) + {c.name}
    ensures forall d <- configs[..at] + [c] + configs[at..] :: d == c || d in configs
  {
    Inserted(configs, c, at);
  }

  /** Memory finds an id exactly when it knows a directory whose name ends in it. */
  lemma IdsKnown(g: Gadget, id: int)
    requires Live(g) && 1 <= id <= 255
    ensures IdTaken(g, id) <==> IdKnown(ImageOf(g), id)
  {
    hide ConfigName, FunctionNames, BindingsOk, State.Agrees;
    ConfigNamesSorted(g);
    if IdKnown(ImageOf(g), id) {
      var l :| ConfigName(l, id) in ImageOf(g).configs;
      var c :| c in g.configs && c.name == ConfigName(l, id);
      ConfigNameInjective(c.lbl, c.id, l, id);
    }
    if c :| c in g.configs && c.id == id { assert ConfigName(c.lbl, id) in ImageOf(g).configs; }
  }

  lemma ConfigCodes(g: Gadget, t: Tree, id: int, lbl: string, attrs: Option<seq<Int>>, str: Option<Option<string>>, d: Defaults)
    requires Live(g) && (attrs.Some? ==> |attrs.value| == |CONFIG_ATTRS|)
    ensures var a, b := IdTaken(g, id), IdKnown(ImageOf(g), id);
      NewConfigCode(t, g.name, id, lbl, a, attrs, str, d) == NewConfigCode(t, g.name, id, lbl, b, attrs, str, d) &&
      (LeavesConfig(t, g.name, id, lbl, a, attrs, str, d) <==> LeavesConfig(t, g.name, id, lbl, b, attrs, str, d))
  {
    hide ConfigName, MkdirError, ConfigSetup, Written, ConfigWrites, IdTaken, IdKnown, ImageOf, Live;
    if 1 <= id <= 255 { IdsKnown(g, id); }
  }

  lemma ConfigDirs(t: Tree, u: Tree, g: string, c: string)
    requires ConfigMade(t, u, g, c)
    ensures OnlyGadget(t, u, g) && g in t && g in u && u[g].functions == t[g].functions
  {}

  /** Configurations may have been added to memory. */
  twostate lemma ConfigsMore(g: Gadget)
    requires old(Sound(g.parent)) && g.parent.Valid() && Within(g) && unchanged(g`functions)
    requires forall f <- g.functions | f.ms != null :: unchanged(f.ms)
    requires forall c <- g.configs :: c in old(g.configs) || fresh(c)
    requires OnlyGadget(old(g.parent.fs.tree), g.parent.fs.tree, g.name)
    requires g.parent.fs.tree[g.name].functions == old(g.parent.fs.tree)[g.name].functions
    ensures Sound(g.parent) && Grew(g.parent) && EnvOf(g.parent) == old(EnvOf(g.parent))
    ensures old(g.name in Memory(g.parent) && Memory(g.parent)[g.name] == ImageOf(g))
    ensures Here(g.parent) == View(g.parent.fs.tree, old(Memory(g.parent))[g.name := ImageOf(g)], old(Owners(g.parent)))
  {
    hide Sound, State.Agrees, OnlyGadget, Memory, Owners, ImageOf, Grew, AllClear;
    OnlyGadgetHas(old(g.parent.fs.tree), g.parent.fs.tree, g.name);
    SameFunctionsClear(g);
    InsideGadget(g);
  }

  twostate lemma SameFunctionsClear(g: Gadget)
    requires old(Sound(g.parent)) && g in old(g.parent.gadgets) && unchanged(g`functions) && g.name in g.parent.fs.tree
    requires forall f <- g.functions | f.ms != null :: unchanged(f.ms)
    requires g.name in old(g.parent.fs.tree) && g.parent.fs.tree[g.name].functions == old(g.parent.fs.tree)[g.name].functions
    ensures AllClear(g)
  {
    hide State.Valid, UdcsOk;
    assert old(AllClear(g));
    forall f | f in g.functions
      ensures f.name in g.parent.fs.tree[g.name].functions && Emptiable(f, g.parent.fs.tree[g.name].functions[f.name])
    {
      assert old(Emptiable(f, g.parent.fs.tree[g.name].functions[f.name]));
    }
  }

  lemma ConfigStepHolds(e: Env, v: View, g: string, id: int, lbl: string, attrs: Option<seq<Int>>, str: Option<Option<string>>,
                        w: View, ret: int, quiet: bool)
    requires (attrs.Some? ==> |attrs.value| == |CONFIG_ATTRS|) && g in v.memory && w.owners == v.owners
    requires w.memory == if ret == 0 then v.memory[g := WithConfigName(v.memory[g], ConfigName(lbl, id))] else v.memory
    requires ret == 0 ==>
      ConfigMade(v.tree, w.tree, g, ConfigName(lbl, id)) && ConfigSetup(e.d, attrs, str) == Ok(w.tree[g].configs[ConfigName(lbl, id)])
    requires ret != 0 ==> w.tree == v.tree || ConfigMade(v.tree, w.tree, g, ConfigName(lbl, id))
    requires ret != 0 && attrs.None? && str.None? ==> w.tree == v.tree
    requires quiet ==> ret == NewConfigCode(v.tree, g, id, lbl, IdKnown(v.memory[g], id), attrs, str, e.d)
    requires quiet && ret != 0 ==>
      (w.tree != v.tree <==> LeavesConfig(v.tree, g, id, lbl, IdKnown(v.memory[g], id), attrs, str, e.d))
    ensures ConfigStep(e, v, g, id, lbl, attrs, str, w, Outcome(ret, 0, None, false), quiet)
  {
    hide ConfigMade, ConfigName, ConfigSetup, NewConfigCode, LeavesConfig, IdKnown;
  }

  /** `usbg_create_config` follows its step. */
  method RunMakeConfig(g: Gadget, id: int, named: Option<string>, attrs: Option<seq<Int>>, str: Option<Option<string>>)
    returns (ret: int)
    requires Sound(g.parent) && g in g.parent.gadgets && (attrs.Some? ==> RecordFits(CONFIG_ATTRS, attrs.value))
    modifies g`configs, g.parent.fs
    ensures Sound(g.parent) && Grew(g.parent)
    ensures ConfigStep(EnvOf(g.parent), old(Here(g.parent)), g.name, id, LabelOr(named), attrs, str, Here(g.parent),
                       Outcome(ret, 0, None, false), old(g.parent.fs.Quiet()))
    ensures old(g.parent.fs.Quiet()) ==> g.parent.fs.Quiet()
  {
    hide Sound, UdcsOk, EnvOf, ConfigStep, State.Agrees, ConfigMade, OnlyGadget, ConfigName, Grew, LunDefaults, AllClear, Memory, Owners,
      CreateConfigError, NewConfigCode, LeavesConfig, ConfigSetup, LabelOr, IdTaken, IdKnown, ConfigNames, RecordIn;
    ghost var s := g.parent;
    ghost var t := s.fs.tree;
    ghost var configs := g.configs;
    ghost var e, v := EnvOf(s), Here(s);
    ghost var quiet := s.fs.Quiet();
    EnvParts(s);
    SoundParts(s);
    ConfigCodes(g, t, id, LabelOr(named), attrs, str, s.fs.defaults);
    ghost var at;
    var c;
    ret, c, at := CreateConfig(g, id, named, attrs, str);
    if s.fs.tree != t || ret == 0 {
      ConfigDirs(t, s.fs.tree, g.name, ConfigName(LabelOr(named), id));
    } else {
      SameTree(t, g.name);
    }
    if ret == 0 { RecordWithConfig(configs, c, at, g.osDesc); }
    ConfigsMore(g);
    ConfigStepHolds(e, v, g.name, id, LabelOr(named), attrs, str, Here(s), ret, quiet);
  }

  // ----- imports into a gadget

  lemma FunctionImportHolds(e: Env, v: View, g: string, root: Setting, instance: string, f: string, w: View, ret: int, quiet: bool)
    requires g in v.tree && g in w.tree && w.owners == v.owners
    requires if f == "" then ret != 0 && w == v else FunctionGained(v, g, f, w)
    requires f != "" && ret == 0 ==> Schemes.ImportFunction(v.tree[g], root, instance, e.d) == Ok(WithFunction(w.tree[g], f))
    requires quiet ==> ret == Code(Schemes.ImportFunction(v.tree[g], root, instance, e.d))
    ensures FunctionImportStep(e, v, g, root, instance, w, Outcome(ret, 0, None, false), quiet)
  {
    hide Schemes.ImportFunction, FunctionGained;
  }

  lemma NamesAreSome(g: Gadget, f: Function)
    requires Live(g) && f in g.functions
    ensures f.name != ""
  {
    FunctionParts(g, f);
    assert '.' in FunctionName(f.ftype, f.instance);
  }

  /** `usbg_import_function` follows its step. */
  method RunImportFunction(g: Gadget, root: Setting, instance: string) returns (ret: int)
    requires Sound(g.parent) && g in g.parent.gadgets
    modifies g`functions, g.parent.fs
    ensures Sound(g.parent) && Grew(g.parent)
    ensures FunctionImportStep(EnvOf(g.parent), old(Here(g.parent)), g.name, root, instance, Here(g.parent),
                               Outcome(ret, 0, None, false), old(g.parent.fs.Quiet()))
    ensures old(g.parent.fs.Quiet()) ==> g.parent.fs.Quiet()
  {
    hide Sound, UdcsOk, EnvOf, FunctionImportStep, State.Agrees, FunctionMade, OnlyGadget, Grew, LunDefaults, Clear, Emptiable, Memory,
      Owners, Schemes.ImportFunction;
    ghost var s := g.parent;
    ghost var t := s.fs.tree;
    ghost var fns := g.functions;
    ghost var m := ImageOf(g);
    ghost var e, v := EnvOf(s), Here(s);
    ghost var quiet := s.fs.Quiet();
    EnvParts(s);
    SoundParts(s);
    ghost var at;
    var f;
    ret, f, at := ImportFunctionRun(g, root, instance);
    if f != null {
      ClearAndGrown(fns, f, at, t, s.fs.tree, g.name);
      FunctionImage(g, fns, f, at, m);
      NamesAreSome(g, f);
    } else {
      SameTree(t, g.name);
    }
    FunctionsMore(g);
    FunctionImportHolds(e, v, g.name, root, instance, if f != null then f.name else "", Here(s), ret, quiet);
  }

  /** The labels the functions of a gadget have. */
  ghost function LabelMap(fns: seq<Function>): Labels
    reads fns
  {
    map n | n in (set f | f in fns && f.lbl.Some? :: f.name) :: LabelNamed(fns, n)
  }

  ghost function LabelNamed(fns: seq<Function>, n: string): string
    requires exists f <- fns :: f.lbl.Some? && f.name == n
    reads fns
  {
    var f :| f in fns && f.lbl.Some? && f.name == n;
    f.lbl.value
  }

  lemma LabelsMapped(g: Gadget)
    requires Live(g)
    ensures LabelsOf(g.functions, LabelMap(g.functions)) && LabelMap(g.functions).Keys <= FunctionNames(g.functions)
  {
    FunctionsApart(g);
    forall f | f in g.functions && f.lbl.Some? ensures LabelMap(g.functions)[f.name] == f.lbl.value {
      var h :| h in g.functions && h.lbl.Some? && h.name == f.name && LabelNamed(g.functions, f.name) == h.lbl.value;
    }
  }

  /** What an import knows of a gadget of a sound state. */
  ghost function LabelsKnown(g: Gadget): Option<Labels>
    reads g, g.functions, g.parent.fs`tree
  {
    if NoStrays(g) then Some(LabelMap(g.functions)) else None
  }

  lemma FollowedHere(g: Gadget)
    requires Sound(g.parent) && g in g.parent.gadgets
    ensures Followed(g, LabelsKnown(g))
    ensures KnownWhole(Here(g.parent), g.name) ==> LabelsKnown(g).Some?
  {
    hide Clear, State.Agrees, UdcsOk, Memory, LabelMap, LabelsOf, Owners;
    SoundParts(g.parent);
    MemoryHas(g.parent);
    KnownIff(g);
    if NoStrays(g) { LabelsMapped(g); }
  }

  lemma EnrichedHolds(g: Gadget, v: View, w: View)
    requires g.name in v.tree && g.name in w.tree && g.name in v.memory && w.memory == v.memory[g.name := ImageOf(g)]
    requires OnlyGadget(v.tree, w.tree, g.name) && Extended(v.tree[g.name], w.tree[g.name], None)
    requires var m, n := v.memory[g.name], ImageOf(g);
      m.functions <= n.functions && m.configs <= n.configs && m.udc == n.udc && m.record == n.record &&
      w.tree[g.name].functions.Keys - n.functions == v.tree[g.name].functions.Keys - m.functions &&
      w.tree[g.name].configs.Keys - n.configs == v.tree[g.name].configs.Keys - m.configs
    ensures Enriched(v, g.name, w)
  {
    hide OnlyGadget, Extended, ImageOf;
  }

  lemma ConfigImportHolds(e: Env, v: View, g: string, root: Setting, id: int, w: View, ret: int, rb: int, labels: Option<Labels>, quiet: bool)
    requires id >= 0 && w.owners == v.owners && Enriched(v, g, w)
    requires quiet ==> rb == 0
    requires ret != 0 && rb == 0 ==> w.memory[g].configs == v.memory[g].configs
    requires KnownWhole(v, g) ==> labels.Some?
    requires labels.Some? ==> ConfigImported(v.tree[g], labels.value, root, id, w.tree[g], ret, e.d, quiet)
    ensures ConfigImportStep(e, v, g, root, id, w, Outcome(ret, rb, None, false), quiet)
  {
    hide Enriched, ConfigImported, KnownWhole;
  }

  /** `usbg_import_config` follows its step. */
  method RunImportConfig(g: Gadget, root: Setting, id: int) returns (ret: int, ghost rb: int)
    requires Sound(g.parent) && g in g.parent.gadgets
    modifies g`functions, g`configs, g`osDesc, g.parent.fs
    ensures Sound(g.parent) && Grew(g.parent)
    ensures ConfigImportStep(EnvOf(g.parent), old(Here(g.parent)), g.name, root, id, Here(g.parent),
                             Outcome(ret, rb, None, false), old(g.parent.fs.Quiet()))
    ensures old(g.parent.fs.Quiet()) ==> g.parent.fs.Quiet()
  {
    if id < 0 {
      NothingDone(g.parent);
      return INVALID_PARAM, 0;
    }
    ret, rb := ImportConfigHere(g, root, id);
  }

  twostate lemma NothingDone(s: State)
    requires s.gadgets == old(s.gadgets) && s.udcs == old(s.udcs) && forall g <- s.gadgets :: unchanged(g`configs) && unchanged(g`functions)
    ensures Grew(s)
  {
    forall g | g in s.gadgets ensures Parts(g) == old(Parts(g)) {}
  }

  method ImportConfigHere(g: Gadget, root: Setting, id: int) returns (ret: int, ghost rb: int)
    requires Sound(g.parent) && g in g.parent.gadgets && id >= 0
    modifies g`functions, g`configs, g`osDesc, g.parent.fs
    ensures Sound(g.parent) && Grew(g.parent)
    ensures ConfigImportStep(EnvOf(g.parent), old(Here(g.parent)), g.name, root, id, Here(g.parent),
                             Outcome(ret, rb, None, false), old(g.parent.fs.Quiet()))
    ensures old(g.parent.fs.Quiet()) ==> g.parent.fs.Quiet()
  {
    hide Sound, UdcsOk, EnvOf, ConfigImportStep, State.Agrees, OnlyGadget, Extended, Grew, LunDefaults, AllClear, Followed, Memory, Owners,
      Schemes.ImportConfig, Enriched, KnownWhole, LabelsKnown;
    ghost var s := g.parent;
    ghost var e, v := EnvOf(s), Here(s);
    ghost var quiet := s.fs.Quiet();
    ghost var labels := LabelsKnown(g);
    EnvParts(s);
    SoundParts(s);
    FollowedHere(g);
    var c;
    ret, c, rb := ImportConfigRun(g, root, id, labels);
    TrackedFollowed(g, labels);
    PartsMore(g);
    EnrichedHolds(g, v, Here(s));
    ConfigImportHolds(e, v, g.name, root, id, Here(s), ret, rb, labels, quiet);
  }

  // ----- links

  /** Memory and kernel refuse a binding for the reasons the names give. */
  lemma BindCodes(c: Config, n: string, f: Function)
    requires LiveConfig(c) && Live(f.parent) && f in f.parent.functions && f.parent.parent == c.parent.parent
    ensures AddFunctionError(c.parent.parent.fs.tree, c, n, f) ==
      BindError(c.parent.parent.fs.tree, c.parent.name, c.name, n, f.parent.name, f.name)
  {
    hide State.Agrees, LinkError;
    var g := c.parent;
    ConfigExists(c);
    var links := g.parent.fs.tree[g.name].configs[c.name].links;
    assert (exists b <- c.bindings :: b.name == n) <==> n in links;
    if f.parent.name == g.name {
      SameGadget(g, f.parent, g.parent.fs.tree);
      TargetLinked(g, c, f);
    } else {
      OthersTargets(g, c, f);
    }
  }

  lemma OthersTargets(g: Gadget, c: Config, f: Function)
    requires Live(g) && c in g.configs && f.parent != g
    ensures forall b <- c.bindings :: b.target != f
  {
    ConfigParts(g, c);
    forall b | b in c.bindings ensures b.target.parent == g {
      assert BindingOk(c, b, g.functions, g.parent.fs.tree[g.name].configs[c.name]);
      FunctionParts(g, b.target);
    }
  }

  lemma LinkedOnly(t: Tree, g: string, c: string, n: string, f: string)
    requires HasConfig(t, g, c)
    ensures var u := AfterLink(t, g, c, n, f); OnlyGadget(t, u, g) && g in u && u[g].functions == t[g].functions
  {}

  lemma UnlinkedOnly(t: Tree, g: string, c: string, n: string)
    requires HasConfig(t, g, c)
    ensures var u := AfterUnlink(t, g, c, n); OnlyGadget(t, u, g) && g in u && u[g].functions == t[g].functions
  {}

  /** `usbg_add_config_function` follows its step. */
  method RunBind(c: Config, link: Option<string>, f: Function) returns (ret: int)
    requires Sound(c.parent.parent) && c.parent in c.parent.parent.gadgets && c in c.parent.configs
    requires f.parent in c.parent.parent.gadgets && f in f.parent.functions
    modifies c`bindings, c.parent.parent.fs
    ensures Sound(c.parent.parent) && Grew(c.parent.parent)
    ensures BindStep(old(Here(c.parent.parent)), c.parent.name, c.name, if link.Some? then link.value else f.name, f.parent.name, f.name,
                     Here(c.parent.parent), Outcome(ret, 0, None, false), old(c.parent.parent.fs.Quiet()))
    ensures old(c.parent.parent.fs.Quiet()) ==> c.parent.parent.fs.Quiet()
  {
    hide Sound, UdcsOk, State.Agrees, OnlyGadget, Grew, AfterLink, AddFunctionError, BindError, LunDefaults, AllClear, Memory, Owners, ImageOf;
    ghost var g := c.parent;
    ghost var s := g.parent;
    ghost var t := s.fs.tree;
    ghost var n := if link.Some? then link.value else f.name;
    SoundParts(s);
    BindCodes(c, n, f);
    ghost var at;
    var b;
    ret, b, at := AddConfigFunction(c, link, f);
    if ret == 0 { LinkedOnly(t, g.name, c.name, n, f.name); } else { SameTree(t, g.name); }
    ConfigsMore(g);
    UpdateSame(Memory(s), g.name);
  }

  /** `usbg_rm_binding` follows its step. */
  method RunUnbind(b: Binding) returns (ret: int)
    requires Sound(b.parent.parent.parent) && b.parent.parent in b.parent.parent.parent.gadgets
    requires b.parent in b.parent.parent.configs && b in b.parent.bindings
    modifies b.parent`bindings, b.parent.parent.parent.fs
    ensures Sound(b.parent.parent.parent) && Grew(b.parent.parent.parent)
    ensures UnbindStep(old(Here(b.parent.parent.parent)), b.parent.parent.name, b.parent.name, b.name, Here(b.parent.parent.parent),
                       Outcome(ret, 0, None, false), old(b.parent.parent.parent.fs.Quiet()))
    ensures old(b.parent.parent.parent.fs.Quiet()) ==> b.parent.parent.parent.fs.Quiet()
  {
    hide Sound, UdcsOk, State.Agrees, OnlyGadget, Grew, AfterUnlink, LunDefaults, AllClear, Memory, Owners, ImageOf, Without;
    ghost var c := b.parent;
    ghost var g := c.parent;
    ghost var s := g.parent;
    ghost var t := s.fs.tree;
    SoundParts(s);
    ConfigExists(c);
    ret := RmBinding(b);
    if ret == 0 { UnlinkedOnly(t, g.name, c.name, b.name); } else { SameTree(t, g.name); }
    ConfigsMore(g);
    UpdateSame(Memory(s), g.name);
  }

  lemma OsLinksOnly(t: Tree, g: string, o: map<string, string>)
    requires g in t
    ensures var u := WithOsLinks(t, g, o); OnlyGadget(t, u, g) && u[g] == t[g].(osLinks := o)
  {}

  /** `usbg_set_os_desc_config` with a configuration follows its step. */
  method RunSetOs(g: Gadget, c: Config) returns (ret: int)
    requires Sound(g.parent) && g in g.parent.gadgets && c in g.configs
    modifies g`osDesc, g.parent.fs
    ensures Sound(g.parent) && Grew(g.parent)
    ensures SetOsStep(old(Here(g.parent)), g.name, c.name, Here(g.parent), Outcome(ret, 0, None, false), old(g.parent.fs.Quiet()))
    ensures old(g.parent.fs.Quiet()) ==> g.parent.fs.Quiet()
  {
    hide Sound, UdcsOk, State.Agrees, OnlyGadget, Grew, LunDefaults, AllClear, Memory, Owners, FunctionNames, ConfigNames;
    ghost var s := g.parent;
    ghost var t := s.fs.tree;
    SoundParts(s);
    SameTree(t, g.name);
    ret := SetOsDescConfig(g, c);
    if ret == 0 { OsLinksOnly(t, g.name, map[c.name := c.name]); }
    ConfigsMore(g);
    UpdateSame(Memory(s), g.name);
  }

  /** `usbg_set_os_desc_config` without one, which takes the link away, follows its step. */
  method RunClearOs(g: Gadget) returns (ret: int)
    requires Sound(g.parent) && g in g.parent.gadgets
    modifies g`osDesc, g.parent.fs
    ensures Sound(g.parent) && Grew(g.parent)
    ensures ClearOsStep(old(Here(g.parent)), g.name, Here(g.parent), Outcome(ret, 0, None, false), old(g.parent.fs.Quiet()))
    ensures old(g.parent.fs.Quiet()) ==> g.parent.fs.Quiet()
  {
    hide Sound, UdcsOk, State.Agrees, OnlyGadget, Grew, LunDefaults, AllClear, Memory, Owners, FunctionNames, ConfigNames;
    ghost var s := g.parent;
    ghost var t := s.fs.tree;
    SoundParts(s);
    SameTree(t, g.name);
    ret := SetOsDescConfig(g, null);
    if ret == 0 { OsLinksOnly(t, g.name, map[]); }
    ConfigsMore(g);
    UpdateSame(Memory(s), g.name);
  }

  // ----- removals

  lemma RecordWithout(configs: seq<Config>, c: Config, osDesc: Config?)
    requires c in configs && forall i, j :: 0 <= i < j < |configs| ==> Below(configs[i].name, configs[j].name)
    ensures RecordIn(configs, osDesc) == Recorded(c.name) <==> osDesc == c
    ensures RecordIn(Without(configs, c), osDesc) == if osDesc == c then Lost else RecordIn(configs, osDesc)
  {
    BelowIrreflexive(c.name);
    WithoutPairwise(configs, c, (x: Config, y: Config) => Below(x.name, y.name));
    if osDesc != null && osDesc in configs && osDesc != c {
      var o: Config := osDesc;
      NamesDiffer(configs, (x: Config) => x.name, c, o);
    }
  }

  lemma ConfigDirGone(t: Tree, g: string, c: string, o: map<string, string>)
    requires g in t
    ensures var k := t[g].(configs := t[g].configs - {c}, osLinks := o);
      OnlyGadget(t, t[g := k], g) && t[g := k][g].functions == t[g].functions
  {}

  lemma StrippedOnly(t: Tree, u: Tree, g: string, c: string, recorded: bool)
    requires PartlyStripped(t, u, g, c, recorded)
    ensures OnlyGadget(t, u, g) && g in u && g in t && u[g].functions == t[g].functions
  {
    StrippedDirs(t, u, g, c, recorded);
  }

  /** `usbg_rm_config` follows its step. */
  method RunDropConfig(c: Config, recurse: bool) returns (ret: int)
    requires Sound(c.parent.parent) && c.parent in c.parent.parent.gadgets && c in c.parent.configs
    modifies c`bindings, c.parent`configs, c.parent`osDesc, c.parent.parent.fs
    ensures Sound(c.parent.parent) && Grew(c.parent.parent)
    ensures DropConfigStep(old(Here(c.parent.parent)), c.parent.name, c.name, recurse, Here(c.parent.parent),
                           Outcome(ret, 0, None, false), old(c.parent.parent.fs.Quiet()))
    ensures old(c.parent.parent.fs.Quiet()) ==> c.parent.parent.fs.Quiet()
  {
    hide Sound, UdcsOk, State.Agrees, OnlyGadget, Grew, LunDefaults, AllClear, Memory, Owners, FunctionNames, ConfigNames, RecordIn,
      Without, PartlyStripped, Suffix, RmConfigCode;
    ghost var g := c.parent;
    ghost var s := g.parent;
    ghost var t := s.fs.tree;
    ghost var configs := g.configs;
    SoundParts(s);
    ConfigsSorted(g);
    RecordWithout(configs, c, g.osDesc);
    ConfigNamesWithout(configs, c);
    ret := RmConfig(c, recurse);
    if ret == 0 {
      ConfigDirGone(t, g.name, c.name, s.fs.tree[g.name].osLinks);
    } else {
      StrippedOnly(t, s.fs.tree, g.name, c.name, g.osDesc == c);
    }
    ConfigsMore(g);
    UpdateSame(Memory(s), g.name);
  }

  lemma FunctionGone(fns: seq<Function>, f: Function)
    requires f in fns && forall i, j :: 0 <= i < j < |fns| ==> Below(fns[i].name, fns[j].name)
    ensures FunctionNames(Without(fns, f)) == FunctionNames(fns) - {f.name}
    ensures forall h <- Without(fns, f) :: h in fns && h != f && h.name != f.name
  {
    BelowIrreflexive(f.name);
    WithoutPairwise(fns, f, (x: Function, y: Function) => Below(x.name, y.name));
    forall h | h in Without(fns, f) ensures h.name != f.name { NamesDiffer(fns, (x: Function) => x.name, f, h); }
  }

  /** No bitmap belongs to two functions. */
  lemma MsApart(g: Gadget, f: Function)
    requires Live(g) && f in g.functions
    ensures forall h <- g.parent.gadgets, k <- h.functions | h != g :: k.ms == null || k.ms != f.ms
    ensures forall k <- g.functions | k != f :: k.name != f.name && (k.ms == null || k.ms != f.ms)
    ensures forall i, j :: 0 <= i < j < |g.functions| ==> Below(g.functions[i].name, g.functions[j].name)
  {
    FunctionsApart(g);
    FunctionParts(g, f);
    forall h, k | h in g.parent.gadgets && k in h.functions && h != g ensures k.ms == null || k.ms != f.ms {
      GadgetParents(g.parent);
      FunctionParts(h, k);
      NamesDiffer(g.parent.gadgets, (x: Gadget) => x.name, g, h);
    }
  }

  /** `usbg_rm_function`, as far as the lists of the gadget and configfs go. */
  method DropFunctionHere(f: Function, recurse: bool) returns (ret: int)
    requires Live(f.parent) && f in f.parent.functions && AllClear(f.parent)
    modifies f.parent.configs, f.parent`functions, f.ms, f.parent.parent.fs
    ensures Live(f.parent) && AllClear(f.parent) && f.parent.configs == old(f.parent.configs)
    ensures f.parent.functions == if ret == 0 then Without(old(f.parent.functions), f) else old(f.parent.functions)
    ensures var g := f.parent; var t := old(g.parent.fs.tree);
      OnlyGadget(t, g.parent.fs.tree, g.name) && g.name in t && g.name in g.parent.fs.tree &&
      if ret == 0 then g.parent.fs.tree[g.name] == WithoutFunction(t[g.name], f.name)
      else OtherDirsKept(t[g.name], g.parent.fs.tree[g.name], f.name)
    ensures old(f.parent.parent.fs.Quiet()) ==> f.parent.parent.fs.Quiet()
    ensures old(f.parent.parent.fs.Quiet()) ==>
      ret == RmFunctionCode(old(f.parent.parent.fs.tree)[f.parent.name], if recurse then ConfigNames(f.parent.configs) else {}, f.name)
  {
    hide State.Agrees, OnlyGadget, Without, OtherDirsKept, WithoutFunction, NotTo, Emptiable, RmFunctionCode, ConfigNames;
    ghost var g := f.parent;
    ghost var t := g.parent.fs.tree;
    ghost var fns := g.functions;
    MsApart(g, f);
    FunctionGone(fns, f);
    ghost var done;
    ret, done := RmFunction(f, recurse, map c | c in g.configs :: c.bindings);
    OnlyGadgetHas(t, g.parent.fs.tree, g.name);
    if ret == 0 {
      ClearWithoutFunction(g.functions, t[g.name], f);
    } else {
      ClearOtherDirs(fns, t[g.name], g.parent.fs.tree[g.name], f);
    }
  }

  /** `usbg_rm_function` follows its step. */
  method RunDropFunction(f: Function, recurse: bool) returns (ret: int)
    requires Sound(f.parent.parent) && f.parent in f.parent.parent.gadgets && f in f.parent.functions
    modifies f.parent.configs, f.parent`functions, f.ms, f.parent.parent.fs
    ensures Sound(f.parent.parent) && Grew(f.parent.parent)
    ensures DropFunctionStep(old(Here(f.parent.parent)), f.parent.name, f.name, recurse, Here(f.parent.parent),
                             Outcome(ret, 0, None, false), old(f.parent.parent.fs.Quiet()))
    ensures old(f.parent.parent.fs.Quiet()) ==> f.parent.parent.fs.Quiet()
  {
    hide Sound, UdcsOk, State.Agrees, OnlyGadget, Grew, LunDefaults, AllClear, Memory, Owners, FunctionNames, ConfigNames, RecordIn,
      Without, WithoutFunction, OtherDirsKept, RmFunctionCode;
    ghost var g := f.parent;
    ghost var s := g.parent;
    ghost var fns := g.functions;
    SoundParts(s);
    MsApart(g, f);
    FunctionGone(fns, f);
    ret := DropFunctionHere(f, recurse);
    InsideGadget(g);
    UpdateSame(Memory(s), g.name);
  }

  // ----- UDCs

  /** A call that moves UDC pointers and writes UDC files at most. */
  twostate lemma PointersMoved(s: State)
    requires old(Sound(s)) && OnlyLinks(s) && s.Valid() && UdcsOk(s)
    requires forall g <- s.gadgets, f <- g.functions | f.ms != null :: unchanged(f.ms)
    requires forall n <- old(s.fs.tree) :: n in s.fs.tree && s.fs.tree[n] == old(s.fs.tree)[n].(udc := s.fs.tree[n].udc)
    ensures Sound(s) && Grew(s) && EnvOf(s) == old(EnvOf(s))
  {
    hide State.Agrees, UdcsOk, LunDefaults;
    GadgetNamesDiffer(s);
    forall g | g in s.gadgets ensures AllClear(g) {
      assert old(AllClear(g));
      forall f | f in g.functions
        ensures f.name in s.fs.tree[g.name].functions && Emptiable(f, s.fs.tree[g.name].functions[f.name])
      {
        assert old(Emptiable(f, s.fs.tree[g.name].functions[f.name]));
      }
    }
    NothingDone(s);
  }

  lemma UdcOnly(t: Tree, g: string, udc: string)
    requires g in t
    ensures forall n <- t :: n in WithUdc(t, g, udc) && WithUdc(t, g, udc)[n] == t[n].(udc := WithUdc(t, g, udc)[n].udc)
  {}

  lemma TreeItself(t: Tree)
    ensures forall n <- t :: t[n] == t[n].(udc := t[n].udc)
  {}

  /** The owners after the UDC `from` has been let go and `to` taken by the gadget. */
  lemma OwnersMoved(s: State, o: map<string, string>, from: Udc?, to: Udc?, g: string)
    requires s.Valid() && forall n <- o :: exists u <- s.udcs :: u.name == n
    requires (from != null ==> from in s.udcs) && (to != null ==> to in s.udcs && to.gadget != null && to.gadget.name == g)
    requires forall u <- s.udcs | u != to :: u.gadget != null ==> u != from && u.name in o && o[u.name] == u.gadget.name
    requires forall u <- s.udcs | u != to && u.gadget == null :: u == from || u.name !in o
    ensures var p := Released(o, if from != null then Some(from.name) else None);
      Owners(s) == if to != null then p[to.name := g] else p
  {
    hide State.Valid, Owners;
    UdcNamesDiffer(s);
    var p := Released(o, if from != null then Some(from.name) else None);
    OwnersAre(s, if to != null then p[to.name := g] else p);
  }

  lemma ChosenName(s: State, udc: Udc?)
    ensures ChosenUdc(EnvOf(s), if udc != null then Some(udc.name) else None) ==
      if Chosen(s, udc) != null then Some(Chosen(s, udc).name) else None
  {
    if udc == null && s.udcs != [] { assert EnvOf(s).listed[0] == s.udcs[0].name; }
  }

  lemma SoundLinks(s: State)
    requires Sound(s)
    ensures s.Valid() && UdcsOk(s)
  {}

  /** The pointer of one gadget moved, at most. */
  twostate lemma PointerMoved(g: Gadget)
    requires g.parent.Valid() && g in g.parent.gadgets && OnlyLinks(g.parent)
    requires forall h <- g.parent.gadgets | h != g :: unchanged(h`udc)
    ensures g.name in g.parent.fs.tree && g.name in old(Memory(g.parent))
    ensures old(Memory(g.parent)[g.name].udc) == if old(g.udc) != null then Some(old(g.udc).name) else None
    ensures Memory(g.parent) == old(Memory(g.parent))[g.name := old(Memory(g.parent))[g.name].(udc := ImageOf(g).udc)]
  {
    hide State.Agrees, Memory, FunctionNames, ConfigNames, RecordIn;
    OldView(g.parent);
    GadgetNamesDiffer(g.parent);
    MemoryMoved(g, old(Memory(g.parent)));
  }

  /** The pointers of UDCs after `g` moved from its UDC to `to`. */
  twostate lemma OwnersAfter(g: Gadget)
    requires g.parent.Valid() && g.parent.gadgets == old(g.parent.gadgets) && g.parent.udcs == old(g.parent.udcs)
    requires old(UdcsOk(g.parent)) && g in g.parent.gadgets && (g.udc != null ==> g.udc in g.parent.udcs)
    requires forall u <- g.parent.udcs :: u.gadget == if u == g.udc then g else if u == old(g.udc) then null else old(u.gadget)
    ensures var p := Released(old(Owners(g.parent)), if old(g.udc) != null then Some(old(g.udc).name) else None);
      Owners(g.parent) == if g.udc != null then p[g.udc.name := g.name] else p
  {
    hide State.Agrees, Owners, UdcsExclusive;
    OldView(g.parent);
    OwnersMoved(g.parent, old(Owners(g.parent)), old(g.udc), g.udc, g.name);
  }

  /** `usbg_enable_gadget` follows its step. */
  method RunAttach(g: Gadget, udc: Udc?) returns (ret: int)
    requires Sound(g.parent) && g in g.parent.gadgets && (udc != null ==> udc in g.parent.udcs)
    modifies g`udc, g.parent.udcs, g.parent.fs
    ensures Sound(g.parent) && Grew(g.parent)
    ensures AttachStep(EnvOf(g.parent), old(Here(g.parent)), g.name, if udc != null then Some(udc.name) else None, Here(g.parent),
                       Outcome(ret, 0, None, false), old(g.parent.fs.Quiet()))
    ensures old(g.parent.fs.Quiet()) ==> g.parent.fs.Quiet()
  {
    hide Sound, UdcsOk, State.Agrees, EnvOf, Grew, Matched, Memory, Owners, FunctionNames, ConfigNames, RecordIn, UdcError, AttachStep;
    ghost var s := g.parent;
    ghost var quiet := s.fs.Quiet();
    ghost var e, v := EnvOf(s), Here(s);
    SoundLinks(s);
    ret := EnableGadget(g, udc);
    if ret == 0 { UdcOnly(v.tree, g.name, Chosen(s, udc).name); } else { TreeItself(v.tree); }
    PointersMoved(s);
    PointerMoved(g);
    if ret == 0 {
      OwnersAfter(g);
    } else {
      SamePointers(s);
      UpdateSame(v.memory, g.name);
    }
    EnvParts(s);
    ChosenName(s, udc);
    AttachHolds(e, v, g.name, if udc != null then Some(udc.name) else None, Here(s), ret, quiet);
  }

  /** No UDC pointer moved. */
  twostate lemma SamePointers(s: State)
    requires s.Valid() && s.gadgets == old(s.gadgets) && s.udcs == old(s.udcs) && forall u <- s.udcs :: u.gadget == old(u.gadget)
    ensures Owners(s) == old(Owners(s))
  {
    hide State.Agrees, Owners;
    OldView(s);
    OwnersAre(s, old(Owners(s)));
  }

  lemma AttachHolds(e: Env, v: View, g: string, udc: Option<string>, w: View, ret: int, quiet: bool)
    requires g in v.tree && g in v.memory
    requires ret == 0 ==> var u := ChosenUdc(e, udc);
      u.Some? && w.tree == WithUdc(v.tree, g, u.value) && w.memory == v.memory[g := v.memory[g].(udc := u)] &&
      w.owners == Released(v.owners, v.memory[g].udc)[u.value := g]
    requires ret != 0 ==> w == v
    requires quiet ==> ret == if ChosenUdc(e, udc).None? then INVALID_PARAM else UdcError(v.tree, g, ChosenUdc(e, udc).value, e.present)
    ensures AttachStep(e, v, g, udc, w, Outcome(ret, 0, None, false), quiet)
  {
    hide UdcError;
  }

  lemma DetachHolds(v: View, g: string, w: View, ret: int, quiet: bool)
    requires g in v.tree && g in v.memory
    requires ret == 0 ==>
      w.tree == WithUdc(v.tree, g, "") && w.memory == v.memory[g := v.memory[g].(udc := None)] && w.owners == Released(v.owners, v.memory[g].udc)
    requires (ret != 0 ==> w == v) && (quiet ==> ret == 0)
    ensures DetachStep(v, g, w, Outcome(ret, 0, None, false), quiet)
  {}

  /** `usbg_disable_gadget` follows its step. */
  method RunDetach(g: Gadget) returns (ret: int)
    requires Sound(g.parent) && g in g.parent.gadgets
    modifies g`udc, g.parent.udcs, g.parent.fs
    ensures Sound(g.parent) && Grew(g.parent) && EnvOf(g.parent) == old(EnvOf(g.parent))
    ensures DetachStep(old(Here(g.parent)), g.name, Here(g.parent), Outcome(ret, 0, None, false), old(g.parent.fs.Quiet()))
    ensures old(g.parent.fs.Quiet()) ==> g.parent.fs.Quiet()
  {
    hide Sound, UdcsOk, State.Agrees, EnvOf, Grew, Matched, Memory, Owners, FunctionNames, ConfigNames, RecordIn, DetachStep;
    ghost var s := g.parent;
    ghost var quiet := s.fs.Quiet();
    ghost var v := Here(s);
    SoundLinks(s);
    ret := DisableGadget(g);
    if ret == 0 { UdcOnly(v.tree, g.name, ""); } else { TreeItself(v.tree); }
    PointersMoved(s);
    PointerMoved(g);
    if ret == 0 {
      OwnersAfter(g);
    } else {
      SamePointers(s);
      UpdateSame(v.memory, g.name);
    }
    DetachHolds(v, g.name, Here(s), ret, quiet);
  }

  /** `usbg_get_gadget_udc` follows its step. */
  method RunAskUdc(g: Gadget) returns (u: Udc?, ghost read: int)
    requires Sound(g.parent) && g in g.parent.gadgets
    modifies g`udc, g.parent.udcs, g.parent.fs`faults
    ensures Sound(g.parent) && Grew(g.parent) && EnvOf(g.parent) == old(EnvOf(g.parent))
    ensures AskUdcStep(old(Here(g.parent)), g.name, Here(g.parent),
                       Outcome(0, read, if u != null then Some(u.name) else None, false), old(g.parent.fs.Quiet()))
    ensures u != null ==> u == g.udc
    ensures old(g.parent.fs.Quiet()) ==> g.parent.fs.Quiet()
  {
    hide Sound, UdcsOk, State.Agrees, EnvOf, Grew, Matched, Memory, Owners, FunctionNames, ConfigNames, RecordIn;
    ghost var s := g.parent;
    ghost var v := Here(s);
    ghost var from := g.udc;
    SoundLinks(s);
    u, read := GetGadgetUdc(g);
    TreeItself(v.tree);
    PointersMoved(s);
    PointerMoved(g);
    if g.udc != from {
      OwnersAfter(g);
    } else {
      SamePointers(s);
      UpdateSame(v.memory, g.name);
    }
  }

  /** `usbg_get_udc_gadget` follows its step. */
  method RunAskGadget(u: Udc) returns (g: Gadget?, crash: bool, ghost read: int)
    requires Sound(u.parent) && u in u.parent.udcs
    modifies u.parent.gadgets, u.parent.udcs, u.parent.fs`faults
    ensures Sound(u.parent) && Grew(u.parent) && EnvOf(u.parent) == old(EnvOf(u.parent))
    ensures AskGadgetStep(old(Here(u.parent)), u.name, Here(u.parent),
                          Outcome(0, read, if g != null then Some(g.name) else None, crash), old(u.parent.fs.Quiet()))
    ensures old(u.parent.fs.Quiet()) ==> u.parent.fs.Quiet()
  {
    hide Sound, UdcsOk, State.Agrees, EnvOf, Grew, Matched, Memory, Owners, FunctionNames, ConfigNames, RecordIn;
    ghost var s := u.parent;
    ghost var v := Here(s);
    ghost var h := u.gadget;
    SoundLinks(s);
    OwnerOf(u);
    crash, g, read := GetUdcGadget(u);
    TreeItself(v.tree);
    PointersMoved(s);
    if h != null {
      GadgetParents(s);
      PointerMoved(h);
      if g == null {
        OwnersAfter(h);
      } else {
        SamePointers(s);
        UpdateSame(v.memory, h.name);
      }
    } else {
      SameMemory(s);
      SamePointers(s);
    }
  }

  lemma OwnerOf(u: Udc)
    requires u.parent.Valid() && UdcsOk(u.parent) && u in u.parent.udcs
    ensures u.name in Owners(u.parent) <==> u.gadget != null
    ensures u.gadget != null ==> Owners(u.parent)[u.name] == u.gadget.name && u.gadget in u.parent.gadgets && u.gadget.udc == u
  {
    OwnersHave(u.parent);
  }

  twostate lemma SameMemory(s: State)
    requires s.Valid() && OnlyLinks(s) && forall g <- s.gadgets :: unchanged(g`udc)
    ensures Memory(s) == old(Memory(s))
  {
    hide State.Agrees, Memory, FunctionNames, ConfigNames, RecordIn;
    OldView(s);
    MemorySame(s, old(Memory(s)));
  }

  /** A directory memory does not know is no concern of the handles. */
  lemma StrangeUdcApart(s: State, t: Tree, n: string, udc: string)
    requires s.Agrees(t) && n in t && forall g <- s.gadgets :: g.name != n
    ensures s.Agrees(WithUdc(t, n, udc))
  {}

  /** The kernel takes a gadget off its UDC. */
  method RunKernel(s: State, n: string)
    requires Sound(s) && n in s.fs.tree
    modifies s.fs`tree
    ensures Sound(s) && Grew(s) && EnvOf(s) == old(EnvOf(s))
    ensures KernelStep(old(Here(s)), n, Here(s), Outcome(0, 0, None, false))
  {
    hide Sound, UdcsExclusive, State.Agrees, EnvOf, Grew, Matched, Memory, Owners, FunctionNames, ConfigNames, RecordIn;
    ghost var t := s.fs.tree;
    SoundLinks(s);
    GadgetParents(s);
    if g :| g in s.gadgets && g.name == n {
      UdcFileApart(g, t, "");
    } else {
      StrangeUdcApart(s, t, n, "");
    }
    AttachExclusive(t, n, "", {});
    s.fs.Detach(n);
    UdcOnly(t, n, "");
    PointersMoved(s);
    SameMemory(s);
    SamePointers(s);
  }

  // ----- whole gadgets

  /** What the view showed before a call that changes the list of gadgets. */
  twostate lemma OldMemory(s: State)
    requires old(s.Valid())
    ensures old(Memory(s)).Keys == set g <- old(s.gadgets) :: g.name
    ensures forall g <- old(s.gadgets) :: g.name in old(Memory(s)) && old(Memory(s))[g.name] == old(ImageOf(g)) && g.name in old(s.fs.tree)
    ensures forall g <- old(s.gadgets), h <- old(s.gadgets) :: g.name == h.name ==> g == h
  {
    hide ImageOf, GadgetOk;
    var gadgets := old(s.gadgets);
    forall g, h | g in gadgets && h in gadgets && g != h ensures g.name != h.name { NamesDiffer<Gadget>(gadgets, (x: Gadget) => x.name, g, h); }
    forall g | g in gadgets ensures old(Memory(s))[g.name] == old(ImageOf(g)) { assert GadgetNamed(gadgets, g.name) == g; }
  }

  twostate lemma OldOwners(s: State)
    requires s.Valid() && s.udcs == old(s.udcs) && forall u <- s.udcs :: unchanged(u`gadget)
    ensures Owners(s) == old(Owners(s))
  {
    hide State.Valid, Owners;
    OldPointers(s);
    OwnersAre(s, old(Owners(s)));
  }

  /** Gadgets may have come that are not attached, and directories whose UDC file is empty. */
  twostate predicate Joined(s: State)
    reads s, s.fs, s.gadgets, s.udcs, set g <- s.gadgets, f <- g.functions | f.ms != null :: f.ms
  {
    s.udcs == old(s.udcs) && (forall u <- s.udcs :: unchanged(u`gadget)) &&
    (forall g <- old(s.gadgets) :: g in s.gadgets && unchanged(g) && forall f <- g.functions | f.ms != null :: unchanged(f.ms)) &&
    (forall g <- s.gadgets :: g.parent == s) &&
    (forall g <- s.gadgets :: g in old(s.gadgets) || (fresh(g) && g.udc == null && AllNew(g) && g.name !in old(s.fs.tree) && AllClear(g))) &&
    (forall n <- old(s.fs.tree) :: n in s.fs.tree && s.fs.tree[n] == old(s.fs.tree)[n]) &&
    (forall n <- s.fs.tree :: n in old(s.fs.tree) || s.fs.tree[n].udc == "")
  }

  twostate lemma JoinedSound(s: State)
    requires old(Sound(s)) && s.Valid() && Joined(s)
    ensures Sound(s) && Grew(s) && EnvOf(s) == old(EnvOf(s)) && Owners(s) == old(Owners(s))
  {
    hide Owners, LunDefaults, State.Agrees, Parts, Emptiable;
    GadgetParents(s);
    GadgetNamesDiffer(s);
    assert UdcsOk(s);
    forall g | g in s.gadgets ensures AllClear(g) {
      if g in old(s.gadgets) { JoinedClear(s); }
    }
    JoinedGrew(s);
    OldOwners(s);
  }

  twostate lemma JoinedClear(s: State)
    requires old(AllRemovable(s)) && Joined(s)
    ensures forall g <- old(s.gadgets) :: AllClear(g)
  {
    forall g | g in old(s.gadgets) ensures AllClear(g) {
      assert old(AllClear(g));
      forall f | f in g.functions
        ensures f.name in s.fs.tree[g.name].functions && Emptiable(f, s.fs.tree[g.name].functions[f.name])
      {
        assert old(Emptiable(f, s.fs.tree[g.name].functions[f.name]));
      }
    }
  }

  twostate lemma JoinedGrew(s: State)
    requires Joined(s)
    ensures Grew(s)
  {
    hide AllClear;
    forall g, o | g in s.gadgets && o in Parts(g) ensures (g in old(s.gadgets) && o in old(Parts(g))) || fresh(o) {
      if g in old(s.gadgets) { assert Parts(g) == old(Parts(g)); }
    }
  }

  /** What the view shows when at most one gadget has joined. */
  lemma MemoryGained(s: State, m: map<string, Image>, before: seq<Gadget>)
    requires s.Valid() && m.Keys == (set h <- before :: h.name) && forall h <- before :: h in s.gadgets && m[h.name] == ImageOf(h)
    ensures (forall h <- s.gadgets :: h in before) ==> Memory(s) == m
    ensures forall g <- s.gadgets :: (forall h <- s.gadgets :: h in before || h == g) ==> Memory(s) == m[g.name := ImageOf(g)]
  {
    hide State.Valid, ImageOf, Memory;
    MemoryHas(s);
    if forall h <- s.gadgets :: h in before { MemorySame(s, m); }
    forall g | g in s.gadgets && forall h <- s.gadgets :: h in before || h == g ensures Memory(s) == m[g.name := ImageOf(g)] {
      forall n | n in Memory(s) ensures n in m[g.name := ImageOf(g)] && Memory(s)[n] == m[g.name := ImageOf(g)][n] {
        var h :| h in s.gadgets && h.name == n;
      }
      forall n | n in m ensures n in Memory(s) {
        var h :| h in before && h.name == n;
      }
    }
  }

  lemma StartedMore(t: Tree, u: Tree, n: string, d: Defaults)
    requires Started(t, u, n, d)
    ensures n !in t && n in u && (forall m <- t :: m in u && u[m] == t[m]) && forall m <- u :: m in t || u[m].udc == ""
  {
    NewGadgetHas(t, u, n, d);
  }

  lemma BareImage(g: Gadget)
    requires g.configs == [] && g.functions == [] && g.udc == null && g.osDesc == null
    ensures ImageOf(g) == Image({}, {}, None, NoRecord)
  {}

  lemma GadgetStepHolds(e: Env, v: View, n: string, attrs: Option<seq<Int>>, strs: Option<seq<Option<string>>>, w: View, ret: int,
                        rb: int, quiet: bool)
    requires (attrs.Some? ==> |attrs.value| == |GADGET_ATTRS|) && w.owners == v.owners
    requires ret == 0 ==> Started(v.tree, w.tree, n, e.d) && GadgetSetup(e.d, AttrWrites(attrs), strs) == Ok(w.tree[n])
    requires w.memory == if ret == 0 then v.memory[n := Image({}, {}, None, NoRecord)] else v.memory
    requires ret != 0 ==> NothingOrResidue(v.tree, w.tree, n, e.d) && (rb == 0 ==> w.tree == v.tree)
    requires quiet ==> ret == CreateGadgetError(v.tree, n, attrs, strs, e.d)
    requires quiet && ret != 0 ==> (w.tree != v.tree <==> LeavesGadget(v.tree, n, attrs, strs, e.d))
    ensures GadgetStep(e, v, n, attrs, strs, w, Outcome(ret, rb, None, false), quiet)
  {
    hide Started, NothingOrResidue, GadgetSetup, AttrWrites, CreateGadgetError, LeavesGadget;
  }

  /** `usbg_create_gadget` follows its step. */
  method RunMakeGadget(s: State, name: string, attrs: Option<seq<Int>>, strs: Option<seq<Option<string>>>)
    returns (ret: int, ghost rb: int)
    requires Sound(s) && (attrs.Some? ==> RecordFits(GADGET_ATTRS, attrs.value))
    modifies s`gadgets, s.fs
    ensures Sound(s) && Grew(s)
    ensures GadgetStep(EnvOf(s), old(Here(s)), name, attrs, strs, Here(s), Outcome(ret, rb, None, false), old(s.fs.Quiet()))
    ensures old(s.fs.Quiet()) ==> s.fs.Quiet()
  {
    hide Sound, UdcsOk, State.Agrees, EnvOf, Grew, Memory, Owners, ImageOf, GadgetStep, Started, GadgetSetup, CreateGadgetError,
      LeavesGadget, AttrWrites, RecordFits;
    ghost var t := s.fs.tree;
    ghost var gadgets := s.gadgets;
    ghost var quiet := s.fs.Quiet();
    ghost var e, v := EnvOf(s), Here(s);
    SoundLinks(s);
    AttrsLength(attrs);
    ghost var at;
    var g;
    ret, g, at, rb := CreateGadget(s, name, attrs, strs);
    if s.fs.tree != t || ret == 0 { StartedMore(t, s.fs.tree, name, s.fs.defaults); }
    if ret == 0 { Inserted<Gadget>(gadgets, g, at); }
    GadgetParents(s);
    JoinedSound(s);
    OldMemory(s);
    MemoryGained(s, v.memory, gadgets);
    if ret == 0 { BareImage(g); }
    EnvParts(s);
    GadgetStepHolds(e, v, name, attrs, strs, Here(s), ret, rb, quiet);
  }

  lemma AttrsLength(attrs: Option<seq<Int>>)
    requires attrs.Some? ==> RecordFits(GADGET_ATTRS, attrs.value)
    ensures attrs.Some? ==> |attrs.value| == |GADGET_ATTRS|
  {}

  lemma SchemeStepHolds(e: Env, v: View, n: string, root: Setting, w: View, ret: int, rb: int, quiet: bool)
    requires w.owners == v.owners
    requires ret == 0 ==>
      n !in v.tree && n in w.tree && w.tree == v.tree[n := w.tree[n]] && w.tree[n].udc == "" &&
      n in w.memory && w.memory == v.memory[n := w.memory[n]] && Mirrors(w.memory[n], w.tree[n]) &&
      (w.memory[n].record == NoRecord <==> w.tree[n].osLinks == map[]) &&
      Schemes.ImportGadget(root, e.d).Ok? && UpToLink(w.tree[n], Schemes.ImportGadget(root, e.d).value.k)
    requires ret != 0 ==> if rb == 0 then w == v else Leftover(v, n, w)
    requires quiet ==> rb == 0 && ret == ImportGadgetError(v.tree, n, root, e.d)
    requires quiet && ret == 0 ==> Schemes.ImportGadget(root, e.d).value.k == w.tree[n]
    ensures SchemeStep(e, v, n, root, w, Outcome(ret, rb, None, false), quiet)
  {
    hide Mirrors, Leftover, UpToLink, Schemes.ImportGadget, ImportGadgetError;
  }

  /** A new gadget all of which memory knows. */
  lemma NewMirrored(g: Gadget)
    requires Live(g) && g.udc == null && NoStrays(g)
    ensures g.name in g.parent.fs.tree && Mirrors(ImageOf(g), g.parent.fs.tree[g.name])
    ensures RecordIn(g.configs, g.osDesc) == NoRecord <==> g.osDesc == null
  {
    hide State.Agrees;
    LiveOk(g);
    var k := g.parent.fs.tree[g.name];
    hide BindingsOk, FunctionName, ConfigName;
    assert FunctionNames(g.functions) <= k.functions.Keys by { assert forall f <- g.functions :: FunctionOk(g, f, k); }
    assert ConfigNames(g.configs) <= k.configs.Keys by { assert forall c <- g.configs :: ConfigOk(g, c, k); }
    NothingBeyond(k.functions.Keys, FunctionNames(g.functions));
    NothingBeyond(k.configs.Keys, ConfigNames(g.configs));
  }

  lemma TrackedClear(g: Gadget, labels: Labels)
    requires Tracked(g, labels) && OsDescSynced(g)
    ensures AllClear(g) && NoStrays(g) && (g.osDesc == null <==> g.parent.fs.tree[g.name].osLinks == map[])
  {
    TrackedIsKnown(g, labels);
  }

  /** The view showed these gadgets, as they still are. */
  ghost predicate Shown(v: View, gadgets: seq<Gadget>)
    reads gadgets
  {
    v.memory.Keys == (set h <- gadgets :: h.name) && forall h <- gadgets :: v.memory[h.name] == ImageOf(h)
  }

  lemma LeftoverHolds(s: State, v: View, before: seq<Gadget>, name: string)
    requires s.Valid() && Shown(v, before) && forall h <- before :: h in s.gadgets
    requires (forall m <- v.tree :: m in s.fs.tree && s.fs.tree[m] == v.tree[m])
    requires forall m <- s.fs.tree :: m in v.tree || (m == name && s.fs.tree[m].udc == "")
    requires forall h <- s.gadgets :: h in before || (h.name == name && h.udc == null && name !in v.tree && NoStrays(h))
    ensures Leftover(v, name, Here(s))
  {
    hide State.Agrees, Memory, Owners, ImageOf, NoStrays, Mirrors;
    MemoryGained(s, v.memory, before);
    GadgetParents(s);
    if h :| h in s.gadgets && h !in before {
      NewMirrored(h);
      OnlyOneNew(s, before, h, name);
    }
  }

  /** What a successful import of a gadget shows. */
  lemma ImportedHolds(s: State, v: View, before: seq<Gadget>, g: Gadget)
    requires s.Valid() && Shown(v, before) && g in s.gadgets && forall h <- before :: h in s.gadgets
    requires (forall h <- s.gadgets :: h in before || h == g) && g.udc == null && NoStrays(g) && g.parent == s
    requires g.osDesc == null <==> g.name in s.fs.tree && s.fs.tree[g.name].osLinks == map[]
    ensures var w := Here(s);
      g.name in w.tree && g.name in w.memory && w.memory == v.memory[g.name := w.memory[g.name]] &&
      Mirrors(w.memory[g.name], w.tree[g.name]) && (w.memory[g.name].record == NoRecord <==> w.tree[g.name].osLinks == map[])
  {
    hide State.Agrees, Memory, Owners, NoStrays, FunctionNames, ConfigNames, RecordIn;
    MemoryGained(s, v.memory, before);
    NewMirrored(g);
  }

  /** `usbg_import_gadget`, up to what the view shows. */
  method ImportJoined(s: State, root: Setting, name: string) returns (ret: int, g: Gadget?, ghost rb: int)
    requires s.Valid() && LunDefaults(s.fs.defaults)
    modifies s`gadgets, s.fs
    ensures s.Valid() && Joined(s)
    ensures ret == 0 ==> g != null && g in s.gadgets && g.name == name && g.parent == s && g.udc == null && NoStrays(g)
    ensures ret == 0 ==> forall h <- s.gadgets :: h in old(s.gadgets) || h == g
    ensures ret == 0 ==>
      name !in old(s.fs.tree) && name in s.fs.tree && s.fs.tree == old(s.fs.tree)[name := s.fs.tree[name]] && s.fs.tree[name].udc == "" &&
      (g.osDesc == null <==> s.fs.tree[name].osLinks == map[])
    ensures ret == 0 ==> var r := Schemes.ImportGadget(root, s.fs.defaults); r.Ok? && UpToLink(s.fs.tree[name], r.value.k)
    ensures ret != 0 && rb == 0 ==> s.gadgets == old(s.gadgets) && s.fs.tree == old(s.fs.tree)
    ensures ret != 0 ==> forall m <- s.fs.tree :: m in old(s.fs.tree) || (m == name && s.fs.tree[m].udc == "")
    ensures ret != 0 ==>
      forall h <- s.gadgets :: h in old(s.gadgets) || (h.name == name && h.udc == null && name !in old(s.fs.tree) && NoStrays(h))
    ensures old(s.fs.Quiet()) ==> s.fs.Quiet() && rb == 0 && ret == ImportGadgetError(old(s.fs.tree), name, root, s.fs.defaults)
    ensures old(s.fs.Quiet()) && ret == 0 ==> Schemes.ImportGadget(root, s.fs.defaults).value.k == s.fs.tree[name]
  {
    hide State.Agrees, Schemes.ImportGadget, UpToLink, Tracked, OsDescSynced, AllClear, NoStrays, MkdirError, LunDefaults;
    ghost var gadgets := s.gadgets;
    ghost var at, labels;
    ret, g, at, labels, rb := ImportGadgetRun(s, root, name);
    if ret == 0 {
      TrackedClear(g, labels);
      Inserted<Gadget>(gadgets, g, at);
    }
    GadgetParents(s);
  }

  /** `usbg_import_gadget` follows its step. */
  method RunImportGadget(s: State, root: Setting, name: string) returns (ret: int, ghost rb: int)
    requires Sound(s)
    modifies s`gadgets, s.fs
    ensures Sound(s) && Grew(s)
    ensures SchemeStep(EnvOf(s), old(Here(s)), name, root, Here(s), Outcome(ret, rb, None, false), old(s.fs.Quiet()))
    ensures old(s.fs.Quiet()) ==> s.fs.Quiet()
  {
    hide Sound, UdcsOk, State.Agrees, EnvOf, Grew, Memory, Owners, SchemeStep, Schemes.ImportGadget, UpToLink, ImportGadgetError,
      NoStrays, LunDefaults, ImageOf, Mirrors, Leftover;
    ghost var gadgets := s.gadgets;
    ghost var quiet := s.fs.Quiet();
    ghost var e, v := EnvOf(s), Here(s);
    SoundLinks(s);
    SoundDefaults(s);
    var g;
    ret, g, rb := ImportJoined(s, root, name);
    OldMemory(s);
    JoinedSound(s);
    if ret == 0 { ImportedHolds(s, v, gadgets, g); } else { LeftoverHolds(s, v, gadgets, name); }
    if ret != 0 && rb == 0 { MemorySame(s, v.memory); }
    EnvParts(s);
    SchemeStepHolds(e, v, name, root, Here(s), ret, rb, quiet);
  }

  lemma SoundDefaults(s: State)
    requires Sound(s)
    ensures LunDefaults(s.fs.defaults)
  {}

  lemma OnlyOneNew(s: State, before: seq<Gadget>, g: Gadget, name: string)
    requires s.Valid() && g in s.gadgets && g.name == name && forall h <- s.gadgets :: h in before || h.name == name
    ensures forall h <- s.gadgets :: h in before || h == g
  {
    GadgetNamesDiffer(s);
  }

  /** A gadget has left memory and configfs. */
  twostate predicate Departed(g: Gadget)
    reads g.parent, g.parent.fs, g.parent.gadgets, g.parent.udcs,
      set h <- g.parent.gadgets, f <- h.functions | f.ms != null :: f.ms
  {
    var s := g.parent;
    g in old(s.gadgets) && s.gadgets == Without(old(s.gadgets), g) && s.udcs == old(s.udcs) && (forall u <- s.udcs :: unchanged(u`gadget)) &&
    (forall h <- s.gadgets | h != g :: unchanged(h) && forall f <- h.functions | f.ms != null :: unchanged(f.ms)) &&
    s.fs.tree == old(s.fs.tree) - {g.name}
  }

  twostate lemma DepartedMemory(g: Gadget)
    requires old(g.parent.Valid()) && g.parent.Valid() && Departed(g)
    ensures forall h <- g.parent.gadgets :: h in old(g.parent.gadgets) && h != g && h.name != g.name
    ensures Memory(g.parent) == old(Memory(g.parent)) - {g.name} && g.parent.fs.tree == old(g.parent.fs.tree) - {g.name}
  {
    hide State.Valid, ImageOf, Memory;
    var s := g.parent;
    OldMemory(s);
    OldSorted(s);
    WithoutPairwise<Gadget>(old(s.gadgets), g, (x: Gadget, y: Gadget) => Below(x.name, y.name));
    BelowIrreflexive(g.name);
    forall n | n in old(Memory(s)) - {g.name} ensures exists h <- s.gadgets :: h.name == n {
      var h :| h in old(s.gadgets) && h.name == n;
    }
    MemorySame(s, old(Memory(s)) - {g.name});
  }

  twostate lemma OldSorted(s: State)
    requires old(s.Valid())
    ensures forall i, j :: 0 <= i < j < |old(s.gadgets)| ==> Below(old(s.gadgets)[i].name, old(s.gadgets)[j].name)
  {}

  twostate lemma DepartedRest(g: Gadget)
    requires old(Sound(g.parent)) && g.parent.Valid() && Departed(g)
    requires forall h <- g.parent.gadgets :: h in old(g.parent.gadgets) && h != g && h.name != g.name
    ensures AllRemovable(g.parent) && Grew(g.parent) && EnvOf(g.parent) == old(EnvOf(g.parent)) && Owners(g.parent) == old(Owners(g.parent))
  {
    hide Owners, LunDefaults, State.Agrees, UdcsOk, Without;
    var s := g.parent;
    GadgetParents(s);
    OldOwners(s);
    forall h | h in s.gadgets ensures AllClear(h) {
      assert old(AllClear(h));
      forall f | f in h.functions
        ensures f.name in s.fs.tree[h.name].functions && Emptiable(f, s.fs.tree[h.name].functions[f.name])
      {
        assert old(Emptiable(f, s.fs.tree[h.name].functions[f.name]));
      }
    }
    forall h | h in s.gadgets ensures Parts(h) == old(Parts(h)) {}
  }

  lemma AllMsApart(g: Gadget)
    requires Live(g)
    ensures forall h <- g.parent.gadgets, k <- h.functions, f <- g.functions | h != g :: k.ms == null || k.ms != f.ms
    ensures forall h <- g.parent.gadgets, c <- h.configs | h != g :: c !in g.configs
  {
    forall f | f in g.functions ensures forall h <- g.parent.gadgets, k <- h.functions | h != g :: k.ms == null || k.ms != f.ms {
      MsApart(g, f);
    }
    forall h, c | h in g.parent.gadgets && c in h.configs && h != g ensures c !in g.configs {
      GadgetParents(g.parent);
      ConfigParts(h, c);
      if c in g.configs { ConfigParts(g, c); }
    }
  }

  lemma ClaimedIff(g: Gadget)
    requires Sound(g.parent) && g in g.parent.gadgets
    ensures Claimed(Here(g.parent), g.name) <==> exists u <- g.parent.udcs :: u.gadget == g
  {
    hide AllRemovable, State.Agrees, LunDefaults, UdcsExclusive, Memory, Owners;
    var s := g.parent;
    OwnersHave(s);
    GadgetNamesDiffer(s);
    if u :| u in s.udcs && u.gadget == g { assert u.name in Owners(s) && Owners(s)[u.name] == g.name; }
    if n :| n in Owners(s) && Owners(s)[n] == g.name {
      var u :| u in s.udcs && u.name == n && u.gadget != null;
      assert u.gadget in s.gadgets && u.gadget.name == g.name;
    }
  }

  lemma KnownWholeIff(g: Gadget)
    requires Live(g)
    ensures g.name in g.parent.fs.tree
    ensures NoStrays(g) <==>
      FunctionNames(g.functions) == g.parent.fs.tree[g.name].functions.Keys && ConfigNames(g.configs) == g.parent.fs.tree[g.name].configs.Keys
    ensures Stuck(g) <==> RecordIn(g.configs, g.osDesc).Recorded? && g.parent.fs.tree[g.name].osLinks == map[]
  {
    hide State.Agrees;
    LiveOk(g);
    hide BindingsOk, FunctionName, ConfigName;
    var k := g.parent.fs.tree[g.name];
    assert FunctionNames(g.functions) <= k.functions.Keys by { assert forall f <- g.functions :: FunctionOk(g, f, k); }
    assert ConfigNames(g.configs) <= k.configs.Keys by { assert forall c <- g.configs :: ConfigOk(g, c, k); }
    NothingBeyond(k.functions.Keys, FunctionNames(g.functions));
    NothingBeyond(k.configs.Keys, ConfigNames(g.configs));
  }

  lemma DropGadgetHolds(v: View, g: string, recurse: bool, w: View, ret: int, quiet: bool)
    requires g in v.tree && g in v.memory && w.owners == v.owners
    requires ret == 0 ==> w.tree == v.tree - {g} && w.memory == v.memory - {g} && (recurse ==> KnownWhole(v, g) && !StuckView(v, g))
    requires ret != 0 ==> if recurse then PartlyDropped(v, g, w) else w == v
    requires quiet && !recurse ==> ret == RmdirError(v.tree, GadgetDir(g))
    requires quiet && recurse ==>
      if StuckView(v, g) then ret == NOT_FOUND
      else (ret == 0 <==> KnownWhole(v, g)) && (ret == 0 || ret == BUSY || ret == NOT_EMPTY)
    ensures DropGadgetStep(v, g, recurse, w, Outcome(ret, 0, None, ret == 0 && Claimed(v, g)), quiet)
  {
    hide Claimed, KnownWhole, StuckView, PartlyDropped, RmdirError;
  }

  /** What a view says of a gadget that can be removed. */
  lemma DropView(g: Gadget)
    requires Sound(g.parent) && g in g.parent.gadgets
    ensures var v := Here(g.parent);
      g.name in v.tree && g.name in v.memory && v.memory[g.name] == ImageOf(g) && (KnownWhole(v, g.name) <==> NoStrays(g)) &&
      (StuckView(v, g.name) <==> Stuck(g)) && (Claimed(v, g.name) <==> exists u <- g.parent.udcs :: u.gadget == g)
  {
    hide AllRemovable, State.Agrees, LunDefaults, UdcsOk, Memory, Owners, Stuck, NoStrays, FunctionNames, ConfigNames, RecordIn, Claimed;
    MemoryHas(g.parent);
    GadgetNamesDiffer(g.parent);
    KnownWholeIff(g);
    ClaimedIff(g);
  }

  lemma PartlyDroppedHolds(g: Gadget, v: View, w: View, before: seq<Config>)
    requires g.name in v.tree && g.name in w.tree && g.name in v.memory && w.memory == v.memory[g.name := ImageOf(g)]
    requires OnlyGadget(v.tree, w.tree, g.name) && Suffix(g.configs, before)
    requires v.memory[g.name].configs == ConfigNames(before) && v.memory[g.name].record == RecordIn(before, g.osDesc)
    requires forall i, j :: 0 <= i < j < |before| ==> Below(before[i].name, before[j].name)
    requires v.memory[g.name].udc == ImageOf(g).udc && ImageOf(g).functions <= v.memory[g.name].functions
    requires w.tree[g.name].functions.Keys - ImageOf(g).functions == v.tree[g.name].functions.Keys - v.memory[g.name].functions
    requires w.tree[g.name].configs.Keys - ImageOf(g).configs == v.tree[g.name].configs.Keys - v.memory[g.name].configs
    requires StuckView(v, g.name) ==> StuckView(w, g.name)
    ensures PartlyDropped(v, g.name, w)
  {
    hide OnlyGadget, StuckView, FunctionNames;
    SuffixElements(g.configs, before);
    hide Suffix;
    if g.osDesc != null && g.osDesc in before && g.osDesc !in g.configs {
      var o: Config := g.osDesc;
      if o.name in ConfigNames(g.configs) {
        var c :| c in g.configs && c.name == o.name;
        NamesDiffer(before, (x: Config) => x.name, c, o);
      }
    }
  }

  lemma SoundFrom(s: State)
    requires s.Valid() && UdcsOk(s) && LunDefaults(s.fs.defaults) && AllRemovable(s)
    ensures Sound(s)
  {}

  lemma UnsoundFrom(s: State)
    requires !UdcsOk(s)
    ensures !Sound(s)
  {}

  twostate lemma PartsLess(g: Gadget)
    requires Suffix(g.configs, old(g.configs)) && Suffix(g.functions, old(g.functions))
    ensures forall o <- Parts(g) :: o in old(Parts(g))
  {
    SuffixElements(g.configs, old(g.configs));
    SuffixElements(g.functions, old(g.functions));
  }

  lemma FewerFunctionNames(a: seq<Function>, b: seq<Function>)
    requires Suffix(a, b)
    ensures FunctionNames(a) <= FunctionNames(b)
  {
    SuffixElements(a, b);
  }

  /** `usbg_rm_gadget`, up to what the view shows. */
  method DropGadgetHere(g: Gadget, recurse: bool) returns (ret: int)
    requires Sound(g.parent) && g in g.parent.gadgets
    modifies g.parent`gadgets, g.configs, g`configs, g`osDesc, g`functions,
      set f <- g.functions | f.ms != null :: f.ms, g.parent.fs
    ensures g.parent.Valid() && (ret != 0 ==> g.osDesc == old(g.osDesc))
    ensures ret == 0 ==> Departed(g) && (recurse ==> old(NoStrays(g) && !Stuck(g)))
    ensures ret == 0 ==> (UdcsOk(g.parent) <==> forall u <- g.parent.udcs :: u.gadget != g)
    ensures ret != 0 ==> Within(g) && OnlyGadget(old(g.parent.fs.tree), g.parent.fs.tree, g.name) && AllClear(g) && StraysKept(g)
    ensures ret != 0 ==> Suffix(g.configs, old(g.configs)) && Suffix(g.functions, old(g.functions)) && (old(Stuck(g)) ==> Stuck(g))
    ensures ret != 0 && !recurse ==>
      g.parent.fs.tree == old(g.parent.fs.tree) && g.configs == old(g.configs) && g.functions == old(g.functions)
    ensures old(g.parent.fs.Quiet()) ==> g.parent.fs.Quiet()
    ensures !recurse && old(g.parent.fs.Quiet()) ==> ret == RmdirError(old(g.parent.fs.tree), GadgetDir(g.name))
    ensures recurse && old(g.parent.fs.Quiet() && Stuck(g)) ==> ret == NOT_FOUND
    ensures recurse && old(g.parent.fs.Quiet() && !Stuck(g)) ==>
      (ret == 0 <==> old(NoStrays(g))) && (ret == 0 || ret == BUSY || ret == NOT_EMPTY)
  {
    hide Sound, UdcsOk, Matched, State.Agrees, OnlyGadget, AllClear, NoStrays, Stuck, StraysKept, Suffix, Without, RmdirError, LunDefaults;
    SoundParts(g.parent);
    AllMsApart(g);
    ret := RemoveGadget(g, recurse);
  }

  /** `usbg_rm_gadget` follows its step. The state stays sound unless a UDC points at the gadget that is gone. */
  method RunDropGadget(g: Gadget, recurse: bool) returns (ret: int)
    requires Sound(g.parent) && g in g.parent.gadgets
    modifies g.parent`gadgets, g.configs, g`configs, g`osDesc, g`functions,
      set f <- g.functions | f.ms != null :: f.ms, g.parent.fs
    ensures Grew(g.parent) && EnvOf(g.parent) == old(EnvOf(g.parent))
    ensures Sound(g.parent) <==> ret != 0 || !old(Claimed(Here(g.parent), g.name))
    ensures DropGadgetStep(old(Here(g.parent)), g.name, recurse, Here(g.parent),
                           Outcome(ret, 0, None, ret == 0 && old(Claimed(Here(g.parent), g.name))), old(g.parent.fs.Quiet()))
    ensures old(g.parent.fs.Quiet()) ==> g.parent.fs.Quiet()
  {
    hide Sound, UdcsOk, State.Agrees, EnvOf, Grew, Memory, Owners, OnlyGadget, AllClear, NoStrays, Stuck, Suffix, Without, RmdirError,
      Departed, DropGadgetStep, KnownWhole, StuckView, Claimed, PartlyDropped, FunctionNames, ConfigNames, RecordIn;
    ghost var s := g.parent;
    ghost var quiet := s.fs.Quiet();
    ghost var v := Here(s);
    ghost var configs := g.configs;
    ghost var functions := g.functions;
    SoundLinks(s);
    SoundDefaults(s);
    ConfigsSorted(g);
    DropView(g);
    ret := DropGadgetHere(g, recurse);
    if ret == 0 {
      DepartedMemory(g);
      DepartedRest(g);
      if !Claimed(v, g.name) { SoundFrom(s); } else { UnsoundFrom(s); }
    } else {
      PartsLess(g);
      InsideGadget(g);
      UpdateSame(v.memory, g.name);
      FewerFunctionNames(g.functions, functions);
      if recurse {
        DropView(g);
        PartlyDroppedHolds(g, v, Here(s), configs);
      }
    }
    DropGadgetHolds(v, g.name, recurse, Here(s), ret, quiet);
  }

  // ----- requests

  lemma GadgetKnown(s: State, n: string, g: Gadget?)
    requires s.Valid() && (g != null ==> g in s.gadgets && g.name == n) && (g == null ==> forall h <- s.gadgets :: h.name != n)
    ensures g != null <==> n in Memory(s)
    ensures g != null ==> g.parent == s && Memory(s)[n] == ImageOf(g) && Live(g)
  {
    hide State.Agrees, Memory, ImageOf;
    MemoryHas(s);
    GadgetParents(s);
  }

  lemma FunctionKnown(g: Gadget, ftype: FunctionType, instance: string, f: Function?)
    requires Live(g) && (f != null ==> f in g.functions && f.ftype == ftype && f.instance == instance)
    requires f == null ==> forall h <- g.functions :: h.ftype != ftype || h.instance != instance
    ensures f != null <==> FunctionName(ftype, instance) in ImageOf(g).functions
    ensures f != null ==> f.name == FunctionName(ftype, instance) && f.parent == g
  {
    hide State.Agrees, FunctionName;
    forall h | h in g.functions ensures h.name == FunctionName(h.ftype, h.instance) && h.parent == g { FunctionParts(g, h); }
    if FunctionName(ftype, instance) in ImageOf(g).functions {
      var h :| h in g.functions && h.name == FunctionName(ftype, instance);
      FunctionNameInjective(h.ftype, h.instance, ftype, instance);
    }
  }

  lemma ConfigKnown(g: Gadget, id: int, lbl: string, c: Config?)
    requires Live(g) && (c != null ==> c in g.configs && c.id == id && c.lbl == lbl)
    requires c == null ==> forall d <- g.configs :: d.id != id || d.lbl != lbl
    ensures c != null <==> 1 <= id <= 255 && ConfigName(lbl, id) in ImageOf(g).configs
    ensures c != null ==> c.name == ConfigName(lbl, id) && c.parent == g && LiveConfig(c)
  {
    hide State.Agrees, ConfigName;
    forall d | d in g.configs ensures d.name == ConfigName(d.lbl, d.id) && d.parent == g && 1 <= d.id <= 255 {
      LiveOk(g);
      assert ConfigOk(g, d, g.parent.fs.tree[g.name]);
    }
    if 1 <= id <= 255 && ConfigName(lbl, id) in ImageOf(g).configs {
      var d :| d in g.configs && d.name == ConfigName(lbl, id);
      ConfigNameInjective(d.lbl, d.id, lbl, id);
    }
  }

  lemma BindingKnown(c: Config, name: string, b: Binding?)
    requires LiveConfig(c) && (b != null ==> b in c.bindings && b.name == name) && (b == null ==> forall x <- c.bindings :: x.name != name)
    ensures HasConfig(c.parent.parent.fs.tree, c.parent.name, c.name)
    ensures b != null <==> name in c.parent.parent.fs.tree[c.parent.name].configs[c.name].links
    ensures b != null ==> b.parent == c
  {
    ConfigExists(c);
  }

  lemma UdcKnown(s: State, n: string, u: Udc?)
    requires (u != null ==> u in s.udcs && u.name == n) && (u == null ==> forall v <- s.udcs :: v.name != n)
    ensures u != null <==> n in EnvOf(s).listed
  {
    ListedUdc(s, n);
  }

  lemma UdcParents(s: State)
    requires s.Valid()
    ensures forall u <- s.udcs :: u.parent == s
  {}

  /** The call did what its step says, and left a sound state, or one a dangling pointer has spoilt. */
  twostate predicate Performed(s: State, r: Request, o: Outcome)
    reads *
  {
    Step(EnvOf(s), old(Here(s)), r, Here(s), o, old(s.fs.Quiet())) && EnvOf(s) == old(EnvOf(s)) && Grew(s) &&
    (old(s.fs.Quiet()) ==> s.fs.Quiet()) && ((o.halted && r.DropGadget?) || Sound(s))
  }

  lemma ReachHas(s: State)
    ensures s in Reach(s) && s.fs in Reach(s)
    ensures forall g <- s.gadgets :: g in Reach(s)
    ensures forall u <- s.udcs :: u in Reach(s)
    ensures forall i :: 0 <= i < |s.udcs| ==> s.udcs[i] in Reach(s)
    ensures forall g <- s.gadgets, o <- Parts(g) :: o in Reach(s)
    ensures forall g <- s.gadgets, i | 0 <= i < |g.configs| :: g.configs[i] in Reach(s)
    ensures forall g <- s.gadgets, f <- g.functions | f.ms != null :: f.ms in Reach(s)
  {
    forall g, i | g in s.gadgets && 0 <= i < |g.configs| ensures g.configs[i] in Reach(s) { assert g.configs[i] in Parts(g); }
    forall g, f | g in s.gadgets && f in g.functions && f.ms != null ensures f.ms in Reach(s) { assert f.ms in Parts(g); }
  }

  lemma ConfigReached(s: State, g: Gadget, c: Config)
    requires g in s.gadgets && c in g.configs
    ensures c in Reach(s)
  {
    assert c in Parts(g);
  }

  /** Requests that make or import something. */
  method PerformCreation(s: State, r: Request) returns (ret: int, halted: bool, ghost o: Outcome)
    requires Sound(s) && Fit(r)
    requires r.MakeGadget? || r.ImportGadget? || r.MakeFunction? || r.ImportFunction? || r.MakeConfig? || r.ImportConfig?
    modifies Reach(s)
    ensures Performed(s, r, o) && o.ret == ret && o.halted == halted
  {
    hide Sound, UdcsOk, State.Agrees, EnvOf, Parts, Memory, Owners, ImageOf, Reach, AttrsFit, RecordFits, FunctionName,
      ConfigName, GadgetStep, SchemeStep, FunctionStep, FunctionImportStep, ConfigStep, ConfigImportStep, BindStep, UnbindStep,
      SetOsStep, ClearOsStep, AttachStep, DetachStep, AskUdcStep, AskGadgetStep, DropConfigStep, DropFunctionStep,
      DropGadgetStep, KernelStep;
    SoundLinks(s);
    ReachHas(s);
    ghost var rb := 0;
    if r.MakeGadget? {
      ret, rb := RunMakeGadget(s, r.name, r.attrs, r.strs);
    } else if r.ImportGadget? {
      ret, rb := RunImportGadget(s, r.root, r.name);
    } else {
      var g := GetGadget(s, r.g);
      GadgetKnown(s, r.g, g);
      assert Here(s) == old(Here(s)) && EnvOf(s) == old(EnvOf(s));
      if g == null {
        NothingDone(s);
        return NOT_FOUND, false, NO_HANDLE;
      }
      if r.MakeFunction? {
        ret := RunMakeFunction(g, r.ftype, r.instance, r.vals);
      } else if r.ImportFunction? {
        ret := RunImportFunction(g, r.root, r.instance);
      } else if r.MakeConfig? {
        ret := RunMakeConfig(g, r.id, r.named, r.attrs, r.str);
      } else {
        ret, rb := RunImportConfig(g, r.root, r.id);
      }
    }
    halted, o := false, Outcome(ret, rb, None, false);
  }

  method PerformOnConfig(s: State, r: Request, g: Gadget) returns (ret: int, halted: bool, ghost o: Outcome)
    requires Sound(s) && Fit(r) && (r.Bind? || r.Unbind? || r.SetOsConfig? || r.DropConfig?)
    requires g in s.gadgets && g.name == r.g && g.parent == s && Live(g) && r.g in Memory(s) && Memory(s)[r.g] == ImageOf(g)
    modifies Reach(s)
    ensures Performed(s, r, o) && o.ret == ret && o.halted == halted
  {
    hide Sound, UdcsOk, State.Agrees, EnvOf, Parts, Memory, Owners, ImageOf, Reach, AttrsFit, RecordFits, FunctionName,
      ConfigName, GadgetStep, SchemeStep, FunctionStep, FunctionImportStep, ConfigStep, ConfigImportStep, BindStep, UnbindStep,
      SetOsStep, ClearOsStep, AttachStep, DetachStep, AskUdcStep, AskGadgetStep, DropConfigStep, DropFunctionStep,
      DropGadgetStep, KernelStep;
    ReachHas(s);
    var c := GetConfig(g, r.id, Some(r.lbl));
    ConfigKnown(g, r.id, r.lbl, c);
    assert Here(s) == old(Here(s)) && EnvOf(s) == old(EnvOf(s));
    if c == null {
      NothingDone(s);
      return NOT_FOUND, false, NO_HANDLE;
    }
    ConfigReached(s, g, c);
    if r.Bind? {
      ret, halted, o := PerformBind(s, r, c);
    } else if r.Unbind? {
      ret, halted, o := PerformUnbind(s, r, c);
    } else {
      ret, halted, o := PerformRecord(s, r, c);
    }
  }

  /** Requests on the links of a configuration, and its removal. */
  method PerformConfig(s: State, r: Request) returns (ret: int, halted: bool, ghost o: Outcome)
    requires Sound(s) && Fit(r) && (r.Bind? || r.Unbind? || r.SetOsConfig? || r.DropConfig?)
    modifies Reach(s)
    ensures Performed(s, r, o) && o.ret == ret && o.halted == halted
  {
    hide Sound, UdcsOk, State.Agrees, EnvOf, Parts, Memory, Owners, ImageOf, Reach, AttrsFit, RecordFits, FunctionName,
      ConfigName, KnowsConfig, GadgetStep, SchemeStep, FunctionStep, FunctionImportStep, ConfigStep, ConfigImportStep, BindStep, UnbindStep,
      SetOsStep, ClearOsStep, AttachStep, DetachStep, AskUdcStep, AskGadgetStep, DropConfigStep, DropFunctionStep,
      DropGadgetStep, KernelStep;
    SoundLinks(s);
    ReachHas(s);
    var g := GetGadget(s, r.g);
    GadgetKnown(s, r.g, g);
    assert Here(s) == old(Here(s)) && EnvOf(s) == old(EnvOf(s));
    if g == null {
      UnknownConfig(Here(s), r.g, r.lbl, r.id);
      NothingDone(s);
      return NOT_FOUND, false, NO_HANDLE;
    }
    ret, halted, o := PerformOnConfig(s, r, g);
  }

  lemma UnknownConfig(v: View, g: string, lbl: string, id: int)
    requires g !in v.memory
    ensures !KnowsConfig(v, g, lbl, id)
  {}

  method PerformRecord(s: State, r: Request, c: Config) returns (ret: int, halted: bool, ghost o: Outcome)
    requires Sound(s) && (r.SetOsConfig? || r.DropConfig?)
    requires c.parent in s.gadgets && c in c.parent.configs && c.parent.parent == s && c.parent.name == r.g
    requires KnowsConfig(Here(s), r.g, r.lbl, r.id) && c.name == ConfigName(r.lbl, r.id)
    modifies c`bindings, c.parent`configs, c.parent`osDesc, s.fs
    ensures Performed(s, r, o) && o.ret == ret && o.halted == halted
  {
    hide Sound, UdcsOk, State.Agrees, EnvOf, Parts, Memory, Owners, ImageOf, Reach, FunctionName, ConfigName, KnowsConfig,
      GadgetStep, SchemeStep, FunctionStep, FunctionImportStep, ConfigStep, ConfigImportStep, BindStep, UnbindStep, SetOsStep,
      ClearOsStep, AttachStep, DetachStep, AskUdcStep, AskGadgetStep, DropConfigStep, DropFunctionStep, DropGadgetStep,
      KernelStep;
    if r.SetOsConfig? {
      ret := RunSetOs(c.parent, c);
    } else {
      ret := RunDropConfig(c, r.recurse);
    }
    halted, o := false, Outcome(ret, 0, None, false);
  }

  method PerformBind(s: State, r: Request, c: Config) returns (ret: int, halted: bool, ghost o: Outcome)
    requires Sound(s) && r.Bind? && c.parent in s.gadgets && c in c.parent.configs && c.parent.parent == s && c.parent.name == r.g
    requires KnowsConfig(Here(s), r.g, r.lbl, r.id) && c.name == ConfigName(r.lbl, r.id)
    modifies c`bindings, s.fs
    ensures Performed(s, r, o) && o.ret == ret && o.halted == halted
  {
    hide Sound, UdcsOk, State.Agrees, EnvOf, Parts, Memory, Owners, ImageOf, Reach, FunctionName, ConfigName, KnowsConfig,
      GadgetStep, SchemeStep, FunctionStep, FunctionImportStep, ConfigStep, ConfigImportStep, BindStep, UnbindStep, SetOsStep,
      ClearOsStep, AttachStep, DetachStep, AskUdcStep, AskGadgetStep, DropConfigStep, DropFunctionStep, DropGadgetStep,
      KernelStep;
    SoundLinks(s);
    var h := GetGadget(s, r.h);
    GadgetKnown(s, r.h, h);
    assert Here(s) == old(Here(s)) && EnvOf(s) == old(EnvOf(s));
    if h == null {
      NothingDone(s);
      return NOT_FOUND, false, NO_HANDLE;
    }
    var f := GetFunction(h, r.ftype, r.instance);
    FunctionKnown(h, r.ftype, r.instance, f);
    assert Here(s) == old(Here(s)) && EnvOf(s) == old(EnvOf(s));
    if f == null {
      NothingDone(s);
      return NOT_FOUND, false, NO_HANDLE;
    }
    ret := RunBind(c, r.link, f);
    halted, o := false, Outcome(ret, 0, None, false);
  }

  method PerformUnbind(s: State, r: Request, c: Config) returns (ret: int, halted: bool, ghost o: Outcome)
    requires Sound(s) && r.Unbind? && c.parent in s.gadgets && c in c.parent.configs && c.parent.parent == s && c.parent.name == r.g
    requires KnowsConfig(Here(s), r.g, r.lbl, r.id) && c.name == ConfigName(r.lbl, r.id) && LiveConfig(c)
    modifies c`bindings, s.fs
    ensures Performed(s, r, o) && o.ret == ret && o.halted == halted
  {
    hide Sound, UdcsOk, State.Agrees, EnvOf, Parts, Memory, Owners, ImageOf, Reach, FunctionName, ConfigName, KnowsConfig,
      GadgetStep, SchemeStep, FunctionStep, FunctionImportStep, ConfigStep, ConfigImportStep, BindStep, UnbindStep, SetOsStep,
      ClearOsStep, AttachStep, DetachStep, AskUdcStep, AskGadgetStep, DropConfigStep, DropFunctionStep, DropGadgetStep,
      KernelStep;
    var b := GetBinding(c, r.name);
    BindingKnown(c, r.name, b);
    assert Here(s) == old(Here(s)) && EnvOf(s) == old(EnvOf(s));
    if b == null {
      NothingDone(s);
      return NOT_FOUND, false, NO_HANDLE;
    }
    ret := RunUnbind(b);
    halted, o := false, Outcome(ret, 0, None, false);
  }

  /** Requests on a gadget or one of its functions. */
  method PerformOnGadget(s: State, r: Request) returns (ret: int, halted: bool, ghost o: Outcome)
    requires Sound(s) && (r.ClearOsConfig? || r.Detach? || r.AskUdc? || r.DropFunction? || r.DropGadget?)
    modifies Reach(s)
    ensures Performed(s, r, o) && o.ret == ret && o.halted == halted
  {
    hide Sound, UdcsOk, State.Agrees, EnvOf, Parts, Memory, Owners, ImageOf, Reach, AttrsFit, RecordFits, FunctionName,
      ConfigName, Claimed, GadgetStep, SchemeStep, FunctionStep, FunctionImportStep, ConfigStep, ConfigImportStep, BindStep,
      UnbindStep, SetOsStep, ClearOsStep, AttachStep, DetachStep, AskUdcStep, AskGadgetStep, DropConfigStep, DropFunctionStep,
      DropGadgetStep, KernelStep;
    SoundLinks(s);
    ReachHas(s);
    var g := GetGadget(s, r.g);
    GadgetKnown(s, r.g, g);
    assert Here(s) == old(Here(s)) && EnvOf(s) == old(EnvOf(s));
    if g == null {
      NothingDone(s);
      return NOT_FOUND, false, NO_HANDLE;
    }
    if r.DropFunction? {
      ret, halted, o := PerformDropFunction(s, r, g);
    } else if r.DropGadget? {
      ret, halted, o := PerformDropGadget(s, r, g);
    } else {
      ret, halted, o := PerformHere(s, r, g);
    }
  }

  method PerformHere(s: State, r: Request, g: Gadget) returns (ret: int, halted: bool, ghost o: Outcome)
    requires Sound(s) && (r.ClearOsConfig? || r.Detach? || r.AskUdc?)
    requires g in s.gadgets && g.name == r.g && g.parent == s && r.g in Memory(s)
    modifies g`osDesc, g`udc, s.udcs, s.fs
    ensures Performed(s, r, o) && o.ret == ret && o.halted == halted
  {
    hide Sound, UdcsOk, State.Agrees, EnvOf, Parts, Memory, Owners, ImageOf, Reach, FunctionName, ConfigName, KnowsConfig,
      GadgetStep, SchemeStep, FunctionStep, FunctionImportStep, ConfigStep, ConfigImportStep, BindStep, UnbindStep, SetOsStep,
      ClearOsStep, AttachStep, DetachStep, AskUdcStep, AskGadgetStep, DropConfigStep, DropFunctionStep, DropGadgetStep,
      KernelStep;
    if r.ClearOsConfig? {
      ret := RunClearOs(g);
      halted, o := false, Outcome(ret, 0, None, false);
    } else if r.Detach? {
      ret := RunDetach(g);
      halted, o := false, Outcome(ret, 0, None, false);
    } else {
      ghost var read;
      var u;
      u, read := RunAskUdc(g);
      ret, halted, o := 0, false, Outcome(0, read, if u != null then Some(u.name) else None, false);
    }
  }

  method PerformDropGadget(s: State, r: Request, g: Gadget) returns (ret: int, halted: bool, ghost o: Outcome)
    requires Sound(s) && r.DropGadget? && g in s.gadgets && g.name == r.g && g.parent == s && r.g in Memory(s)
    modifies s`gadgets, g.configs, g`configs, g`osDesc, g`functions, set f <- g.functions | f.ms != null :: f.ms, s.fs
    ensures Performed(s, r, o) && o.ret == ret && o.halted == halted
  {
    hide Sound, Claimed, UdcsOk, State.Agrees, EnvOf, Parts, Memory, Owners, ImageOf, Reach, FunctionName, ConfigName, KnowsConfig,
      GadgetStep, SchemeStep, FunctionStep, FunctionImportStep, ConfigStep, ConfigImportStep, BindStep, UnbindStep, SetOsStep,
      ClearOsStep, AttachStep, DetachStep, AskUdcStep, AskGadgetStep, DropConfigStep, DropFunctionStep, DropGadgetStep,
      KernelStep;
    DropView(g);
    var claimed := exists u <- s.udcs :: u.gadget == g;
    ret := RunDropGadget(g, r.recurse);
    halted, o := ret == 0 && claimed, Outcome(ret, 0, None, ret == 0 && claimed);
  }

  method PerformDropFunction(s: State, r: Request, g: Gadget) returns (ret: int, halted: bool, ghost o: Outcome)
    requires Sound(s) && r.DropFunction? && g in s.gadgets && g.name == r.g && Live(g) && g.parent == s
    requires r.g in Memory(s) && Memory(s)[r.g] == ImageOf(g)
    modifies Reach(s)
    ensures Performed(s, r, o) && o.ret == ret && o.halted == halted
  {
    hide Sound, UdcsOk, State.Agrees, EnvOf, Parts, Memory, Owners, ImageOf, Reach, FunctionName, GadgetStep, SchemeStep,
      FunctionStep, FunctionImportStep, ConfigStep, ConfigImportStep, BindStep, UnbindStep, SetOsStep, ClearOsStep, AttachStep,
      DetachStep, AskUdcStep, AskGadgetStep, DropConfigStep, DropFunctionStep, DropGadgetStep, KernelStep;
    ReachHas(s);
    var f := GetFunction(g, r.ftype, r.instance);
    FunctionKnown(g, r.ftype, r.instance, f);
    assert Here(s) == old(Here(s)) && EnvOf(s) == old(EnvOf(s));
    if f == null {
      NothingDone(s);
      return NOT_FOUND, false, NO_HANDLE;
    }
    ret := RunDropFunction(f, r.recurse);
    halted, o := false, Outcome(ret, 0, None, false);
  }

  /** Requests that name a UDC, and what the kernel does. */
  method PerformUdc(s: State, r: Request) returns (ret: int, halted: bool, ghost o: Outcome)
    requires Sound(s) && (r.Attach? || r.AskGadget? || r.KernelTakes?)
    modifies Reach(s)
    ensures Performed(s, r, o) && o.ret == ret && o.halted == halted
  {
    hide Sound, UdcsOk, State.Agrees, EnvOf, Parts, Memory, Owners, ImageOf, Reach, GadgetStep, SchemeStep, FunctionStep,
      FunctionImportStep, ConfigStep, ConfigImportStep, BindStep, UnbindStep, SetOsStep, ClearOsStep, AttachStep, DetachStep,
      AskUdcStep, AskGadgetStep, DropConfigStep, DropFunctionStep, DropGadgetStep, KernelStep;
    SoundLinks(s);
    UdcParents(s);
    ReachHas(s);
    if r.KernelTakes? {
      if r.g !in s.fs.tree {
        NothingDone(s);
        return NOT_FOUND, false, NO_HANDLE;
      }
      RunKernel(s, r.g);
      ret, halted, o := 0, false, Outcome(0, 0, None, false);
    } else if r.AskGadget? {
      var u := GetUdc(s, r.u);
      UdcKnown(s, r.u, u);
      assert Here(s) == old(Here(s)) && EnvOf(s) == old(EnvOf(s));
      if u == null {
        NothingDone(s);
        return NOT_FOUND, false, NO_HANDLE;
      }
      ghost var read;
      var g, crash;
      g, crash, read := RunAskGadget(u);
      ret, halted, o := 0, crash, Outcome(0, read, if g != null then Some(g.name) else None, crash);
    } else {
      ret, halted, o := PerformAttach(s, r);
    }
  }

  method PerformAttach(s: State, r: Request) returns (ret: int, halted: bool, ghost o: Outcome)
    requires Sound(s) && r.Attach?
    modifies Reach(s)
    ensures Performed(s, r, o) && o.ret == ret && o.halted == halted
  {
    hide Sound, UdcsOk, State.Agrees, EnvOf, Parts, Memory, Owners, ImageOf, Reach, GadgetStep, SchemeStep, FunctionStep,
      FunctionImportStep, ConfigStep, ConfigImportStep, BindStep, UnbindStep, SetOsStep, ClearOsStep, AttachStep, DetachStep,
      AskUdcStep, AskGadgetStep, DropConfigStep, DropFunctionStep, DropGadgetStep, KernelStep;
    SoundLinks(s);
    ReachHas(s);
    var g := GetGadget(s, r.g);
    GadgetKnown(s, r.g, g);
    var u: Udc? := null;
    if r.udc.Some? {
      u := GetUdc(s, r.udc.value);
      UdcKnown(s, r.udc.value, u);
    }
    assert Here(s) == old(Here(s)) && EnvOf(s) == old(EnvOf(s));
    if g == null || (r.udc.Some? && u == null) {
      NothingDone(s);
      return NOT_FOUND, false, NO_HANDLE;
    }
    ret := RunAttach(g, u);
    halted, o := false, Outcome(ret, 0, None, false);
  }

  /** One request: the call on handles follows its step, whatever fails. */
  method Perform(s: State, r: Request) returns (ret: int, halted: bool, ghost o: Outcome)
    requires Sound(s) && Fit(r)
    modifies Reach(s)
    ensures Performed(s, r, o) && o.ret == ret && o.halted == halted
  {
    hide Performed, Sound, Reach;
    if r.MakeGadget? || r.ImportGadget? || r.MakeFunction? || r.ImportFunction? || r.MakeConfig? || r.ImportConfig? {
      ret, halted, o := PerformCreation(s, r);
    } else if r.Bind? || r.Unbind? || r.SetOsConfig? || r.DropConfig? {
      ret, halted, o := PerformConfig(s, r);
    } else if r.Attach? || r.AskGadget? || r.KernelTakes? {
      ret, halted, o := PerformUdc(s, r);
    } else {
      ret, halted, o := PerformOnGadget(s, r);
    }
  }

  // ----- runs

  lemma EventHappened(e: Env, v: View, r: Request, w: View, o: Outcome, quiet: bool)
    requires Fit(r) && Agreeing(e, v) && Step(e, v, r, w, o, quiet) && ((o.halted && r.DropGadget?) || Agreeing(e, w))
    ensures Happened(e, Event(v, r, o, w, quiet))
  {
    hide Fit, Agreeing, Step;
  }

  /** One request of a run, as an event. */
  method RunOne(s: State, r: Request) returns (ret: int, halted: bool, ghost ev: Event)
    requires Sound(s) && Fit(r)
    modifies Reach(s)
    ensures EnvOf(s) == old(EnvOf(s)) && Grew(s) && Happened(EnvOf(s), ev)
    ensures ev.before == old(Here(s)) && ev.after == Here(s) && ev.request == r && ev.quiet == old(s.fs.Quiet())
    ensures ev.outcome.ret == ret && ev.outcome.halted == halted
    ensures Dangles(ev) || Sound(s)
    ensures old(s.fs.Quiet()) ==> s.fs.Quiet()
  {
    hide Sound, Reach, Grew, Step, Happened, Agreeing, EnvOf, Memory, Owners;
    ghost var v := Here(s);
    ghost var quiet := s.fs.Quiet();
    SoundView(s);
    ghost var o;
    ret, halted, o := Perform(s, r);
    if !(o.halted && r.DropGadget?) { SoundView(s); }
    EventHappened(EnvOf(s), v, r, Here(s), o, quiet);
    ev := Event(v, r, o, Here(s), quiet);
  }

  lemma NoEvents(e: Env, v: View)
    ensures Trace(e, [], v, v)
  {}

  /** Any finite run, whatever calls are made to fail and whenever the kernel takes a gadget off its UDC: the state follows
      the steps of the requests. It stays sound unless a gadget is removed that a UDC still points at; a run stops there, and where
      `usbg_get_udc_gadget` goes through NULL. */
  method RunAll(s: State, requests: seq<Request>) returns (rets: seq<int>, ghost events: seq<Event>)
    requires Sound(s) && forall r <- requests :: Fit(r)
    modifies Reach(s)
    ensures EnvOf(s) == old(EnvOf(s)) && Trace(EnvOf(s), events, old(Here(s)), Here(s))
    ensures |rets| == |events| <= |requests|
    ensures forall i :: 0 <= i < |events| ==> events[i].request == requests[i] && events[i].outcome.ret == rets[i]
    ensures |events| < |requests| ==> events != [] && events[|events| - 1].outcome.halted
    ensures (forall ev <- events :: !Dangles(ev)) ==> Sound(s)
    ensures old(s.fs.Quiet()) ==> s.fs.Quiet() && forall ev <- events :: ev.quiet
    ensures forall o <- Reach(s) :: o in old(Reach(s)) || fresh(o)
  {
    hide Sound, Reach, Fit, Happened, EnvOf, Memory, Owners, Trace;
    ghost var v := Here(s);
    ghost var e := EnvOf(s);
    NoEvents(e, v);
    rets, events := [], [];
    var halted := false;
    var i := 0;
    while i < |requests| && !halted
      invariant 0 <= i <= |requests| && |rets| == |events| == i
      invariant EnvOf(s) == e && Trace(e, events, v, Here(s))
      invariant forall j :: 0 <= j < i ==> events[j].request == requests[j] && events[j].outcome.ret == rets[j]
      invariant !halted ==> forall ev <- events :: !ev.outcome.halted
      invariant halted ==> i > 0 && events[i - 1].outcome.halted
      invariant (forall ev <- events :: !Dangles(ev)) ==> Sound(s)
      invariant old(s.fs.Quiet()) ==> s.fs.Quiet() && forall ev <- events :: ev.quiet
      invariant forall o <- Reach(s) :: o in old(Reach(s)) || fresh(o)
    {
      assert requests[i] in requests;
      label step:
      var ret;
      ghost var ev;
      ret, halted, ev := RunOne(s, requests[i]);
      ReachGrew@step(s);
      TraceExtended(e, events, v, ev);
      rets, events := rets + [ret], events + [ev];
      i := i + 1;
    }
  }

  /** The gaps at the end of a trace, for a complete mirror. */
  lemma ExactAtTheEnd(s: State, events: seq<Event>, v: View)
    requires Sound(s) && Trace(EnvOf(s), events, v, Here(s)) && forall ev <- events :: !Dangles(ev)
    ensures Exact(s) <==> forall x :: !Lasting(EnvOf(s), events, v, x)
  {
    hide Sound, Exact, EnvOf, Memory, Owners, Trace, Lasting, Open, Dangles;
    ExactIff(s);
    forall x ensures Open(EnvOf(s), Here(s), x) <==> Lasting(EnvOf(s), events, v, x) { GapsAtTheEnd(EnvOf(s), events, v, Here(s), x); }
  }

  /** Runs, in terms of handles. At the end memory mirrors configfs completely exactly when every gap that there was, or that an
      event opened, was closed by a later event; so harmless requests keep a complete mirror whatever fails, and creations
      and imports do as long as nothing fails. Gadgets and UDCs still point at each other unless a UDC was given away
      while it pointed at another gadget. */
  method Run(s: State, requests: seq<Request>) returns (rets: seq<int>, ghost events: seq<Event>)
    requires Sound(s) && forall r <- requests :: Fit(r)
    modifies Reach(s)
    ensures EnvOf(s) == old(EnvOf(s)) && Trace(EnvOf(s), events, old(Here(s)), Here(s))
    ensures |rets| == |events| <= |requests|
    ensures forall i :: 0 <= i < |events| ==> events[i].request == requests[i] && events[i].outcome.ret == rets[i]
    ensures |events| < |requests| ==> events != [] && events[|events| - 1].outcome.halted
    ensures (forall ev <- events :: !Dangles(ev)) ==> Sound(s)
    ensures (forall ev <- events :: !Dangles(ev)) ==> (Exact(s) <==> forall x :: !Lasting(EnvOf(s), events, old(Here(s)), x))
    ensures old(Exact(s)) && (forall ev <- events :: Harmless(ev.request) || (ev.quiet && HarmlessWhenQuiet(ev.request))) ==> Exact(s)
    ensures old(Matched(s)) && (forall ev <- events :: !Dangles(ev) && !Displaces(EnvOf(s), ev.before, ev.request, ev.outcome)) ==>
      Matched(s)
    ensures old(s.fs.Quiet()) ==> s.fs.Quiet() && forall ev <- events :: ev.quiet
    ensures forall o <- Reach(s) :: o in old(Reach(s)) || fresh(o)
  {
    hide Sound, Reach, Fit, EnvOf, Memory, Owners, Trace, Exact, Matched, MatchedView, Complete, Lasting, Harmless, HarmlessWhenQuiet,
      Displaces;
    ghost var v := Here(s);
    ghost var exact := Exact(s);
    ghost var matched := Matched(s);
    ExactIff(s);
    MatchedIff(s);
    rets, events := RunAll(s, requests);
    if forall ev <- events :: !Dangles(ev) {
      ExactAtTheEnd(s, events, v);
      ExactIff(s);
      MatchedIff(s);
      if matched && forall ev <- events :: !Displaces(EnvOf(s), ev.before, ev.request, ev.outcome) {
        MatchingKept(EnvOf(s), events, v, Here(s));
      }
    }
    if exact && forall ev <- events :: Harmless(ev.request) || (ev.quiet && HarmlessWhenQuiet(ev.request)) {
      HarmlessSafe(EnvOf(s), events, v, Here(s));
      CompleteKept(EnvOf(s), events, v, Here(s));
    }
  }

  lemma HarmlessSafe(e: Env, events: seq<Event>, v: View, w: View)
    requires forall ev <- events :: Harmless(ev.request) || (ev.quiet && HarmlessWhenQuiet(ev.request))
    ensures forall ev <- events :: !Dangles(ev)
  {}
}
