/** Adding to the handle tree: gadgets, functions, configurations and bindings, with the rollback of each. */
module Creation {
  import opened Errors
  import opened Text
  import opened Numbers
  import opened Names
  import opened Codecs
  import opened Kernel
  import opened Attributes
  import opened MassStorage
  import opened Records
  import opened Strings
  import opened Handles

  ghost predicate InOrder<T>(list: seq<T>, name: T -> string) {
    forall i, j :: 0 <= i < j < |list| ==> Below(name(list[i]), name(list[j]))
  }

  /** `INSERT_TAILQ_STRING_ORDER`: the item goes in once, before the first name that is not below its own. */
  method InsertInOrder<T>(list: seq<T>, item: T, name: T -> string) returns (r: seq<T>, at: nat)
    requires InOrder(list, name)
    ensures at <= |list| && r == list[..at] + [item] + list[at..]
    ensures forall i :: 0 <= i < at ==> Below(name(list[i]), name(item))
    ensures at < |list| ==> !Below(name(list[at]), name(item))
    ensures (forall x <- list :: name(x) != name(item)) ==> InOrder(r, name)
  {
    at := 0;
    if list == [] || Below(name(item), name(list[0])) {
      r := [item] + list;
      if list != [] { NotBelowBoth(name(item), name(list[0])); }
    } else if Below(name(list[|list| - 1]), name(item)) {
      r, at := list + [item], |list|;
      forall i | 0 <= i < |list| - 1 ensures Below(name(list[i]), name(item)) {
        BelowTransitive(name(list[i]), name(list[|list| - 1]), name(item));
      }
    } else {
      while Below(name(list[at]), name(item))
        invariant 0 <= at < |list|
        invariant forall i :: 0 <= i < at ==> Below(name(list[i]), name(item))
        decreases |list| - at
      {
        at := at + 1;
      }
      r := list[..at] + [item] + list[at..];
    }
    if forall x <- list :: name(x) != name(item) { InsertedInOrder(list, item, name, at); }
  }

  lemma NotBelowBoth(a: string, b: string)
    requires Below(a, b)
    ensures !Below(b, a)
  {
    if Below(b, a) {
      BelowTransitive(a, b, a);
      BelowIrreflexive(a);
    }
  }

  lemma InsertedInOrder<T>(list: seq<T>, item: T, name: T -> string, at: nat)
    requires InOrder(list, name) && at <= |list|
    requires forall x <- list :: name(x) != name(item)
    requires forall i :: 0 <= i < at ==> Below(name(list[i]), name(item))
    requires at < |list| ==> !Below(name(list[at]), name(item))
    ensures InOrder(list[..at] + [item] + list[at..], name)
  {
    forall i | at <= i < |list| ensures Below(name(item), name(list[i])) {
      BelowTotal(name(item), name(list[at]));
      if i > at { BelowTransitive(name(item), name(list[at]), name(list[i])); }
    }
  }

  lemma Inserted<T>(list: seq<T>, item: T, at: nat)
    requires at <= |list|
    ensures var r := list[..at] + [item] + list[at..];
      (forall x <- r :: x == item || x in list) && (forall x <- list :: x in r) && item in r && |r| == |list| + 1
  {
    assert list == list[..at] + list[at..];
  }

  // ----- lookups

  method GetGadget(s: State, name: string) returns (g: Gadget?)
    ensures g != null ==> g in s.gadgets && g.name == name
    ensures g == null ==> forall h <- s.gadgets :: h.name != name
  {
    var i := 0;
    while i < |s.gadgets|
      invariant 0 <= i <= |s.gadgets| && forall k :: 0 <= k < i ==> s.gadgets[k].name != name
    {
      if s.gadgets[i].name == name { return s.gadgets[i]; }
      i := i + 1;
    }
    g := null;
  }

  method GetFunction(g: Gadget, ftype: FunctionType, instance: string) returns (f: Function?)
    ensures f != null ==> f in g.functions && f.ftype == ftype && f.instance == instance
    ensures f == null ==> forall h <- g.functions :: h.ftype != ftype || h.instance != instance
  {
    var i := 0;
    while i < |g.functions|
      invariant 0 <= i <= |g.functions|
      invariant forall k :: 0 <= k < i ==> g.functions[k].ftype != ftype || g.functions[k].instance != instance
    {
      if g.functions[i].ftype == ftype && g.functions[i].instance == instance { return g.functions[i]; }
      i := i + 1;
    }
    f := null;
  }

  method GetConfig(g: Gadget, id: int, lbl: Option<string>) returns (c: Config?)
    ensures c != null ==> c in g.configs && c.id == id && (lbl.Some? ==> c.lbl == lbl.value)
    ensures c == null ==> forall d <- g.configs :: d.id != id || (lbl.Some? && d.lbl != lbl.value)
  {
    var i := 0;
    while i < |g.configs|
      invariant 0 <= i <= |g.configs|
      invariant forall k :: 0 <= k < i ==> g.configs[k].id != id || (lbl.Some? && g.configs[k].lbl != lbl.value)
    {
      var d := g.configs[i];
      if d.id == id && (lbl.None? || d.lbl == lbl.value) { return d; }
      i := i + 1;
    }
    c := null;
  }

  method GetUdc(s: State, name: string) returns (u: Udc?)
    ensures u != null ==> u in s.udcs && u.name == name
    ensures u == null ==> forall v <- s.udcs :: v.name != name
  {
    var i := 0;
    while i < |s.udcs|
      invariant 0 <= i <= |s.udcs| && forall k :: 0 <= k < i ==> s.udcs[k].name != name
    {
      if s.udcs[i].name == name { return s.udcs[i]; }
      i := i + 1;
    }
    u := null;
  }

  method GetBinding(c: Config, name: string) returns (b: Binding?)
    ensures b != null ==> b in c.bindings && b.name == name
    ensures b == null ==> forall x <- c.bindings :: x.name != name
  {
    var i := 0;
    while i < |c.bindings|
      invariant 0 <= i <= |c.bindings| && forall k :: 0 <= k < i ==> c.bindings[k].name != name
    {
      if c.bindings[i].name == name { return c.bindings[i]; }
      i := i + 1;
    }
    b := null;
  }

  method GetLinkBinding(c: Config, f: Function) returns (b: Binding?)
    ensures b != null ==> b in c.bindings && b.target == f
    ensures b == null ==> forall x <- c.bindings :: x.target != f
  {
    var i := 0;
    while i < |c.bindings|
      invariant 0 <= i <= |c.bindings| && forall k :: 0 <= k < i ==> c.bindings[k].target != f
    {
      if c.bindings[i].target == f { return c.bindings[i]; }
      i := i + 1;
    }
    b := null;
  }

  // ----- gadgets

  const LANG_US_ENG: Int := 0x409

  /** What a new gadget contains after its attributes and strings have been set. */
  function GadgetSetup(d: Defaults, ws: seq<Write>, strs: Option<seq<Option<string>>>): Result<KGadget> {
    var files :- Written(d.gadget, ws);
    var langs :- if strs.Some? then SetStrings(OfGadget, map[], LANG_US_ENG, strs.value, d.gadgetLang) else Ok(map[]);
    Ok(NewGadget(d).(files := files, langs := langs))
  }

  /** A gadget directory in which nothing but attributes and strings can have changed. */
  ghost predicate Bare(k: KGadget, d: Defaults) {
    k == NewGadget(d).(files := k.files, langs := k.langs)
  }

  /** The directory of a gadget that is being made, next to an otherwise unchanged tree. */
  ghost predicate Started(t: Tree, u: Tree, name: string, d: Defaults) {
    name !in t && name in u && u == t[name := u[name]] && Bare(u[name], d)
  }

  lemma StartedAgain(t: Tree, u: Tree, v: Tree, name: string, d: Defaults)
    requires Started(t, u, name, d) && name in v && v == u[name := v[name]] && Bare(v[name], d)
    ensures Started(t, v, name, d)
  {
    UpdateTwice(t, name, u[name], v[name]);
  }

  lemma StartedStays(s: State, t: Tree, u: Tree, name: string)
    requires s.Agrees(t) && name !in t && name in u && u == t[name := u[name]]
    ensures s.Agrees(u) && forall g <- s.gadgets :: g.name in t
  {}

  lemma StartedFacts(t: Tree, u: Tree, name: string, d: Defaults)
    requires Started(t, u, name, d)
    ensures name !in t && name in u && u == t[name := u[name]]
  {}

  /** The gadgets of a list agree with their directories. */
  ghost predicate AllOk(s: State, gadgets: seq<Gadget>, t: Tree)
    reads set g <- gadgets :: g, set g <- gadgets, c <- g.configs :: c
  {
    forall g <- gadgets :: g.parent == s && g.name in t && GadgetOk(g, t[g.name])
  }

  lemma GadgetAdded(s: State, before: seq<Gadget>, at: nat, t: Tree)
    requires at <= |before| && at < |s.gadgets| && s.gadgets == before[..at] + [s.gadgets[at]] + before[at..]
    requires AllOk(s, before, t) && forall u <- s.udcs :: u.parent == s && u.name != ""
    requires forall i, j :: 0 <= i < j < |s.udcs| ==> Below(s.udcs[i].name, s.udcs[j].name)
    requires var g := s.gadgets[at]; g.parent == s && g.configs == [] && g.functions == [] && Started(t, s.fs.tree, g.name, s.fs.defaults)
    requires InOrder(s.gadgets, (x: Gadget) => x.name)
    ensures s.Valid()
  {
    var name := (x: Gadget) => x.name;
    var g := s.gadgets[at];
    Inserted(before, g, at);
    assert forall i, j :: 0 <= i < j < |s.gadgets| ==> Below(name(s.gadgets[i]), name(s.gadgets[j]));
    forall h | h in s.gadgets ensures h.parent == s && h.name in s.fs.tree && GadgetOk(h, s.fs.tree[h.name]) {
      if h != g { assert GadgetOk(h, t[h.name]); }
    }
  }

  /** `usbg_create_empty_gadget`. A new gadget's UDC file is empty, and no UDC has an empty name. */
  method CreateEmptyGadget(s: State, name: string) returns (ret: int, g: Gadget?, ghost rb: int)
    requires s.Valid()
    modifies s.fs
    ensures ret <= 0 && s.Valid()
    ensures ret == 0 ==> fresh(g) && g.parent == s && g.name == name
    ensures ret == 0 ==> g.configs == [] && g.functions == [] && g.udc == null && g.osDesc == null
    ensures ret == 0 ==> Started(old(s.fs.tree), s.fs.tree, name, s.fs.defaults) && s.fs.tree[name] == NewGadget(s.fs.defaults)
    ensures ret != 0 ==> g == null
    ensures ret != 0 ==> s.fs.tree == old(s.fs.tree) || Started(old(s.fs.tree), s.fs.tree, name, s.fs.defaults)
    ensures ret != 0 && rb == 0 ==> s.fs.tree == old(s.fs.tree)
    ensures old(s.fs.Quiet()) ==> rb == 0
    ensures old(s.fs.Quiet()) ==> s.fs.Quiet() && (ret != 0 ==> s.fs.tree == old(s.fs.tree))
    ensures old(s.fs.Quiet()) ==> ret == MkdirError(old(s.fs.tree), GadgetDir(name), s.fs.defaults)
  {
    hide State.Agrees, MkdirError, AfterMkdir, Bare, NewGadget, Started;
    ghost var t := s.fs.tree;
    g, rb := null, 0;
    if MkdirError(t, GadgetDir(name), s.fs.defaults) == SUCCESS { GadgetMade(s, t, name, s.fs.defaults); }
    NoEmptyUdc(s);
    ret := s.fs.Mkdir(GadgetDir(name));
    if ret != 0 { return; }
    var udc;
    ret, udc := s.fs.ReadUdc(name);
    if ret != 0 {
      var ignored := s.fs.Rmdir(GadgetDir(name));
      rb := ignored;
      return;
    }
    g := new Gadget(s, name);
    var u := GetUdc(s, udc);
    assert u == null;
    g.udc := u;
  }

  lemma GadgetMade(s: State, t: Tree, name: string, d: Defaults)
    requires s.Agrees(t) && MkdirError(t, GadgetDir(name), d) == SUCCESS
    ensures var u := AfterMkdir(t, GadgetDir(name), d);
      Started(t, u, name, d) && s.Agrees(u) && u[name] == NewGadget(d) && u[name].udc == "" && u - {name} == t &&
      RmdirError(u, GadgetDir(name)) == SUCCESS
  {
    StartedStays(s, t, AfterMkdir(t, GadgetDir(name), d), name);
  }

  lemma NoEmptyUdc(s: State)
    requires s.Valid()
    ensures forall u <- s.udcs :: u.name != ""
  {}

  /** Attributes, then strings, of a gadget that is being made. */
  method SetUpGadget(s: State, name: string, ws: seq<Write>, strs: Option<seq<Option<string>>>, ghost t: Tree) returns (ret: int)
    requires s.Agrees(t) && Started(t, s.fs.tree, name, s.fs.defaults) && s.fs.tree[name] == NewGadget(s.fs.defaults)
    modifies s.fs
    ensures ret <= 0 && s.Agrees(t) && Started(t, s.fs.tree, name, s.fs.defaults)
    ensures ret == 0 ==> GadgetSetup(s.fs.defaults, ws, strs) == Ok(s.fs.tree[name])
    ensures old(s.fs.Quiet()) ==> s.fs.Quiet() && ret == Code(GadgetSetup(s.fs.defaults, ws, strs))
    ensures old(s.fs.Quiet()) ==>
      (s.fs.tree[name].langs != map[] <==> strs.Some? && Written(s.fs.defaults.gadget, ws).Ok?)
  {
    hide SetStrings, Written, State.Agrees, LangName;
    var fs := s.fs;
    ghost var u := fs.tree;
    ret := WriteAll(fs, GadgetDir(name), ws);
    ghost var v := fs.tree;
    StartedAgain(t, u, v, name, fs.defaults);
    if ret != 0 || strs.None? { return; }
    var d := GadgetLangs(name);
    ret := SetLangStrings(fs, d, LANG_US_ENG, strs.value);
    StartedAgain(t, v, fs.tree, name, fs.defaults);
  }

  /** A failed creation leaves configfs as it was, or only the directory it could not take back. */
  ghost predicate NothingOrResidue(t: Tree, u: Tree, name: string, d: Defaults) {
    u == t || Started(t, u, name, d)
  }

  /** What `usbg_create_gadget` and `usbg_create_gadget_vid_pid` share. The plain rmdir of the rollback cannot
      take back a language directory, and its result `rb` is not looked at. */
  method MakeGadget(s: State, name: string, ws: seq<Write>, strs: Option<seq<Option<string>>>)
    returns (ret: int, g: Gadget?, ghost at: nat, ghost rb: int)
    requires s.Valid()
    modifies s`gadgets, s.fs
    ensures ret <= 0 && s.Valid()
    ensures ret == 0 ==> fresh(g) && g.parent == s && g.name == name
    ensures ret == 0 ==> g.configs == [] && g.functions == [] && g.udc == null && g.osDesc == null
    ensures ret == 0 ==> at <= |old(s.gadgets)| && s.gadgets == old(s.gadgets)[..at] + [g] + old(s.gadgets)[at..]
    ensures ret == 0 ==> Started(old(s.fs.tree), s.fs.tree, name, s.fs.defaults)
    ensures ret == 0 ==> GadgetSetup(s.fs.defaults, ws, strs) == Ok(s.fs.tree[name])
    ensures ret != 0 ==> g == null && s.gadgets == old(s.gadgets)
    ensures ret != 0 ==> NothingOrResidue(old(s.fs.tree), s.fs.tree, name, s.fs.defaults)
    ensures ret != 0 && rb == 0 ==> s.fs.tree == old(s.fs.tree)
    ensures old(s.fs.Quiet()) ==> s.fs.Quiet() && (strs.None? ==> rb == 0)
    ensures old(s.fs.Quiet()) ==> var e := MkdirError(old(s.fs.tree), GadgetDir(name), s.fs.defaults);
      ret == if e != SUCCESS then e else Code(GadgetSetup(s.fs.defaults, ws, strs))
    ensures old(s.fs.Quiet()) && ret != 0 ==>
      (s.fs.tree != old(s.fs.tree) <==>
        MkdirError(old(s.fs.tree), GadgetDir(name), s.fs.defaults) == SUCCESS && strs.Some? && Written(s.fs.defaults.gadget, ws).Ok?)
  {
    hide State.Agrees, GadgetSetup, Written, Bare, AllOk, MkdirError, Started, InOrder;
    var fs := s.fs;
    ghost var t := fs.tree;
    at, rb := 0, 0;
    g := GetGadget(s, name);
    if g != null {
      KnownExists(s, g);
      return EXIST, null, 0, 0;
    }
    ret, g, rb := CreateEmptyGadget(s, name);
    if ret != 0 { return; }
    StartedFacts(t, fs.tree, name, fs.defaults);
    ret := SetUpGadget(s, name, ws, strs, t);
    ghost var u := fs.tree;
    StartedFacts(t, u, name, fs.defaults);
    StartedStays(s, t, u, name);
    if ret != 0 {
      g := null;
      RmdirBare(t, u, name, fs.defaults);
      var ignored := fs.Rmdir(GadgetDir(name));
      rb := ignored;
      return;
    }
    SortedGadgets(s, t);
    var r, place := InsertInOrder<Gadget>(s.gadgets, g, (x: Gadget) => x.name);
    at := place;
    ghost var before := s.gadgets;
    s.gadgets := r;
    GadgetAdded(s, before, at, t);
  }

  lemma KnownExists(s: State, g: Gadget)
    requires s.Valid() && g in s.gadgets
    ensures MkdirError(s.fs.tree, GadgetDir(g.name), s.fs.defaults) == EXIST
  {}

  lemma SortedGadgets(s: State, t: Tree)
    requires s.Agrees(t)
    ensures InOrder(s.gadgets, (x: Gadget) => x.name) && AllOk(s, s.gadgets, t)
    ensures forall u <- s.udcs :: u.parent == s && u.name != ""
    ensures forall i, j :: 0 <= i < j < |s.udcs| ==> Below(s.udcs[i].name, s.udcs[j].name)
  {}

  lemma RmdirBare(t: Tree, u: Tree, name: string, d: Defaults)
    requires Started(t, u, name, d)
    ensures RmdirError(u, GadgetDir(name)) == SUCCESS <==> u[name].langs == map[]
    ensures u - {name} == t
  {}

  /** The rollback of a creation cannot take the directory of the gadget away: its strings had been started. */
  ghost predicate LeavesGadget(t: Tree, name: string, attrs: Option<seq<Int>>, strs: Option<seq<Option<string>>>, d: Defaults)
    requires attrs.Some? ==> |attrs.value| == |GADGET_ATTRS|
  {
    MkdirError(t, GadgetDir(name), d) == SUCCESS && strs.Some? && Written(d.gadget, AttrWrites(attrs)).Ok?
  }

  /** Why a gadget cannot be made. */
  function CreateGadgetError(t: Tree, name: string, attrs: Option<seq<Int>>, strs: Option<seq<Option<string>>>, d: Defaults): int
    requires attrs.Some? ==> |attrs.value| == |GADGET_ATTRS|
  {
    var e := MkdirError(t, GadgetDir(name), d);
    if e != SUCCESS then e else Code(GadgetSetup(d, AttrWrites(attrs), strs))
  }

  /** `usbg_create_gadget`. */
  method CreateGadget(s: State, name: string, attrs: Option<seq<Int>>, strs: Option<seq<Option<string>>>)
    returns (ret: int, g: Gadget?, ghost at: nat, ghost rb: int)
    requires s.Valid() && (attrs.Some? ==> RecordFits(GADGET_ATTRS, attrs.value))
    modifies s`gadgets, s.fs
    ensures ret <= 0 && s.Valid()
    ensures ret == 0 ==> fresh(g) && g.parent == s && g.name == name
    ensures ret == 0 ==> g.configs == [] && g.functions == [] && g.udc == null && g.osDesc == null
    ensures ret == 0 ==> at <= |old(s.gadgets)| && s.gadgets == old(s.gadgets)[..at] + [g] + old(s.gadgets)[at..]
    ensures ret == 0 ==> Started(old(s.fs.tree), s.fs.tree, name, s.fs.defaults)
    ensures ret == 0 ==> GadgetSetup(s.fs.defaults, AttrWrites(attrs), strs) == Ok(s.fs.tree[name])
    ensures ret != 0 ==> g == null && s.gadgets == old(s.gadgets)
    ensures ret != 0 ==> NothingOrResidue(old(s.fs.tree), s.fs.tree, name, s.fs.defaults)
    ensures ret != 0 && rb == 0 ==> s.fs.tree == old(s.fs.tree)
    ensures old(s.fs.Quiet()) ==> s.fs.Quiet() && (strs.None? ==> rb == 0)
    ensures old(s.fs.Quiet()) ==> ret == CreateGadgetError(old(s.fs.tree), name, attrs, strs, s.fs.defaults)
    ensures old(s.fs.Quiet()) && ret != 0 ==>
      (s.fs.tree != old(s.fs.tree) <==> LeavesGadget(old(s.fs.tree), name, attrs, strs, s.fs.defaults))
  {
    hide AttrWrites, State.Agrees, GadgetSetup, Written, MkdirError, Started, NothingOrResidue;
    var ws := AttrWrites(attrs);
    ret, g, at, rb := MakeGadget(s, name, ws, strs);
  }

  function AttrWrites(attrs: Option<seq<Int>>): seq<Write>
    requires attrs.Some? ==> |attrs.value| == |GADGET_ATTRS|
  {
    if attrs.Some? then FieldWrites(GADGET_ATTRS, attrs.value) else []
  }

  const ID_FIELDS := [Hex16("idVendor"), Hex16("idProduct")]

  /** `usbg_create_gadget_vid_pid`: all attributes but the two ids are those of a new gadget. */
  method CreateGadgetVidPid(s: State, name: string, vendor: Int, product: Int) returns (ret: int, g: Gadget?, ghost at: nat)
    requires s.Valid() && 0 <= vendor < 0x1_0000 && 0 <= product < 0x1_0000
    modifies s`gadgets, s.fs
    ensures ret <= 0 && s.Valid()
    ensures ret == 0 ==> fresh(g) && g.parent == s && g.name == name
    ensures ret == 0 ==> g.configs == [] && g.functions == [] && g.udc == null && g.osDesc == null
    ensures ret == 0 ==> at <= |old(s.gadgets)| && s.gadgets == old(s.gadgets)[..at] + [g] + old(s.gadgets)[at..]
    ensures ret == 0 ==> Started(old(s.fs.tree), s.fs.tree, name, s.fs.defaults)
    ensures ret == 0 ==> var k := s.fs.tree[name]; var d := s.fs.defaults;
      IdsThere(d) && k == NewGadget(d).(files := d.gadget["idVendor" := WriteHex(vendor, 4)]["idProduct" := WriteHex(product, 4)])
    ensures ret != 0 ==> g == null && s.gadgets == old(s.gadgets)
    ensures ret != 0 ==> NothingOrResidue(old(s.fs.tree), s.fs.tree, name, s.fs.defaults)
    ensures old(s.fs.Quiet()) ==> s.fs.Quiet() && (ret != 0 ==> s.fs.tree == old(s.fs.tree))
    ensures old(s.fs.Quiet()) ==> var e := MkdirError(old(s.fs.tree), GadgetDir(name), s.fs.defaults);
      ret == if e != SUCCESS then e else if IdsThere(s.fs.defaults) then SUCCESS else NOT_FOUND
  {
    hide Written, Started, WriteHex, FieldWrites;
    IdsWritten(vendor, product, s.fs.defaults.gadget);
    var ws := FieldWrites(ID_FIELDS, [vendor, product]);
    ghost var rb;
    ret, g, at, rb := MakeGadget(s, name, ws, None);
  }

  /** A new gadget has files for both ids. */
  predicate IdsThere(d: Defaults) { "idVendor" in d.gadget && "idProduct" in d.gadget }

  lemma IdsWritten(vendor: Int, product: Int, files: Files)
    ensures Written(files, FieldWrites(ID_FIELDS, [vendor, product])) ==
      if "idVendor" in files && "idProduct" in files then Ok(files["idVendor" := WriteHex(vendor, 4)]["idProduct" := WriteHex(product, 4)])
      else Err(NOT_FOUND)
  {
    hide WriteHex;
    var a, b := Write("idVendor", Some(WriteHex(vendor, 4))), Write("idProduct", Some(WriteHex(product, 4)));
    assert FieldWrites(ID_FIELDS, [vendor, product]) == [a, b] && [a, b][1..] == [b];
    if "idVendor" in files { WrittenOne(files["idVendor" := a.text.value], b); }
  }

  /** The ids of a gadget that was made with them are read as they were given. */
  lemma IdsReadBack(vendor: Int, product: Int, files: Files)
    requires 0 <= vendor < 0x1_0000 && 0 <= product < 0x1_0000
    requires "idVendor" in files && "idProduct" in files && files["idVendor"] == WriteHex(vendor, 4) && files["idProduct"] == WriteHex(product, 4)
    ensures ReadField(Hex16("idVendor"), files) == Ok(vendor) && ReadField(Hex16("idProduct"), files) == Ok(product)
  {
    hide ReadField, WriteHex;
    FieldTextReadsBack(Hex16("idVendor"), vendor, files);
    FieldTextReadsBack(Hex16("idProduct"), product, files);
  }

  // ----- functions

  /** Attributes given when a function is created: the values of the type's table, or the LUNs of a mass storage function. */
  datatype FunctionAttrs = NoAttrs | Values(vals: seq<AttrVal>) | Luns(stall: bool, reqs: seq<LunAttrs>)

  /** One value of the right kind for every entry of the table. */
  predicate ValuesFit(table: seq<AttrDef>, vals: seq<AttrVal>) {
    |vals| == |table| && forall i :: 0 <= i < |table| ==> Fits(table[i].kind, vals[i])
  }

  predicate AttrsFit(t: FunctionType, attrs: FunctionAttrs) {
    match attrs
    case NoAttrs => true
    case Values(vals) => AttrTable(t).Some? && ValuesFit(AttrTable(t).value, vals) && t != MassStorage
    case Luns(_, reqs) => t == MassStorage && InBounds(reqs)
  }

  /** Read-only attributes are passed over. */
  function SetValues(table: seq<AttrDef>, vals: seq<AttrVal>, files: Files): Result<Files>
    requires ValuesFit(table, vals) && WellFormed(table)
    decreases |table|
  {
    if table == [] then Ok(files)
    else if table[0].ro then SetValues(table[1..], vals[1..], files)
    else if table[0].name !in files then Err(NOT_FOUND)
    else SetValues(table[1..], vals[1..], files[table[0].name := WriteVal(table[0].kind, vals[0])])
  }

  lemma WellFormedTail(table: seq<AttrDef>, i: nat)
    requires WellFormed(table) && i <= |table|
    ensures WellFormed(table[i..])
  {}

  lemma NoDevWritten(table: seq<AttrDef>)
    requires WellFormed(table)
    ensures forall d <- table :: !d.ro ==> d.kind != Dev
  {}

  /** `usbg_f_net_set_attrs` and `usbg_f_hid_set_attrs`. */
  method SetAllValues(fs: ConfigFs, p: Path, table: seq<AttrDef>, vals: seq<AttrVal>) returns (ret: int)
    requires Exists(fs.tree, p) && WellFormed(table) && ValuesFit(table, vals)
    modifies fs
    ensures ret <= 0 && OnlyFiles(old(fs.tree), fs.tree, p)
    ensures ret == 0 ==> SetValues(table, vals, FilesAt(old(fs.tree), p)) == Ok(FilesAt(fs.tree, p))
    ensures ret == 0 ==> ValuesIn(table, vals, FilesAt(fs.tree, p))
    ensures old(fs.Quiet()) ==> fs.Quiet() && ret == Code(SetValues(table, vals, FilesAt(old(fs.tree), p)))
  {
    hide SetFiles, FilesAt, WriteVal, Fits, WellFormed, Exists, ValuesIn;
    ghost var whole := SetValues(table, vals, FilesAt(fs.tree, p));
    if whole.Ok? { SetValuesIn(table, vals, FilesAt(fs.tree, p)); }
    SetFilesSame(fs.tree, p);
    WellFormedTail(table, 0);
    NoDevWritten(table);
    ret := 0;
    var i := 0;
    assert table[0..] == table && vals[0..] == vals;
    while i < |table|
      invariant 0 <= i <= |table| && ret == 0 && WellFormed(table[i..])
      invariant OnlyFiles(old(fs.tree), fs.tree, p)
      invariant SetValues(table[i..], vals[i..], FilesAt(fs.tree, p)) == whole
      invariant old(fs.Quiet()) ==> fs.Quiet()
    {
      WellFormedTail(table, i + 1);
      assert table[i..][1..] == table[i + 1..] && vals[i..][1..] == vals[i + 1..];
      var d := table[i];
      if !d.ro {
        ghost var mid := fs.tree;
        ret := SetAttrVal(fs, p, d, vals[i]);
        OnlyFilesTransitive(old(fs.tree), mid, fs.tree, p);
        if ret != 0 { return; }
      }
      i := i + 1;
    }
  }

  /** A value for a read-only string, which only an empty one can be: the check of `ether_set_attrs`. */
  predicate Refused(table: seq<AttrDef>, vals: seq<AttrVal>)
    requires ValuesFit(table, vals)
  {
    exists i :: 0 <= i < |table| && table[i].ro && table[i].kind == Str && vals[i] != StrVal("")
  }

  /** The files of a function after its attributes have been set. */
  function SetTable(t: FunctionType, vals: seq<AttrVal>, files: Files): Result<Files>
    requires AttrsFit(t, Values(vals))
  {
    TablesWellFormed(t);
    if Refused(AttrTable(t).value, vals) then Err(INVALID_PARAM) else SetValues(AttrTable(t).value, vals, files)
  }

  /** Setting values succeeds exactly when every writable attribute has a file. Each of these then holds what is written for its
      value, and all others are as before. */
  lemma {:induction false} SetValuesWrites(table: seq<AttrDef>, vals: seq<AttrVal>, files: Files)
    requires ValuesFit(table, vals) && WellFormed(table)
    ensures SetValues(table, vals, files).Ok? <==> forall d <- table | !d.ro :: d.name in files
    ensures SetValues(table, vals, files).Ok? ==>
      var r := SetValues(table, vals, files).value;
      r.Keys == files.Keys &&
      (forall i | 0 <= i < |table| && !table[i].ro :: table[i].kind != Dev && r[table[i].name] == WriteVal(table[i].kind, vals[i])) &&
      forall n <- files | (forall d <- table | !d.ro :: d.name != n) :: r[n] == files[n]
    decreases |table|
  {
    hide WriteVal, Fits;
    if table != [] {
      var d := table[0];
      assert table == [d] + table[1..];
      WellFormedTail(table, 1);
      assert forall i :: 0 < i < |table| ==> table[i] == table[1..][i - 1] && vals[i] == vals[1..][i - 1] && table[i].name != d.name;
      if d.ro {
        SetValuesWrites(table[1..], vals[1..], files);
      } else if d.name in files {
        SetValuesWrites(table[1..], vals[1..], files[d.name := WriteVal(d.kind, vals[0])]);
      }
    }
  }

  /** Each writable attribute has been given its value. */
  ghost predicate ValuesIn(table: seq<AttrDef>, vals: seq<AttrVal>, files: Files)
    requires ValuesFit(table, vals)
  {
    forall i | 0 <= i < |table| && !table[i].ro ::
      table[i].name in files && table[i].kind != Dev && files[table[i].name] == WriteVal(table[i].kind, vals[i])
  }

  lemma SetValuesIn(table: seq<AttrDef>, vals: seq<AttrVal>, files: Files)
    requires ValuesFit(table, vals) && WellFormed(table) && SetValues(table, vals, files).Ok?
    ensures ValuesIn(table, vals, SetValues(table, vals, files).value)
  {
    hide WriteVal, Fits;
    SetValuesWrites(table, vals, files);
    forall i | 0 <= i < |table| && !table[i].ro ensures table[i].name in SetValues(table, vals, files).value { assert table[i] in table; }
  }

  /** Values an attribute file can hold: strings without newline that fit, reports that are not empty and fit. */
  predicate Holds(v: AttrVal) {
    match v
    case StrVal(s) => '\n' !in s && |s| < FILE_SIZE
    case BytesVal(b) => 0 < |b| <= STR_LENGTH
    case _ => true
  }

  lemma WrittenReads(kind: AttrKind, v: AttrVal)
    requires kind != Dev && Fits(kind, v) && Holds(v)
    ensures ReadVal(kind, WriteVal(kind, v)) == Ok(v)
  {
    match v
    case IntVal(n) => DecFile(n);
    case BoolVal(b) => WrittenBool(b);
    case StrVal(s) => WrittenString(s);
    case MacVal(m) =>
      MacParses(m);
      MacFits(m);
    case BytesVal(b) =>
      BytesOfText(b);
      assert |TextOf(b)| <= STR_LENGTH;
  }

  lemma MacFits(m: Mac)
    ensures ReadString(PrintMac(m), STR_LENGTH) == PrintMac(m)
  {
    hide PrintBytes;
    StringFile(PrintMac(m), STR_LENGTH);
  }

  /** Attributes that have been set read back, read-only ones apart. */
  lemma SetValuesReadBack(table: seq<AttrDef>, vals: seq<AttrVal>, files: Files, i: nat)
    requires ValuesFit(table, vals) && WellFormed(table) && SetValues(table, vals, files).Ok?
    requires i < |table| && !table[i].ro && Holds(vals[i])
    ensures ReadAttr(SetValues(table, vals, files).value, table[i]) == Ok(vals[i])
  {
    hide ReadVal, WriteVal, SetValues;
    SetValuesWrites(table, vals, files);
    assert table[i] in table;
    WrittenReads(table[i].kind, vals[i]);
  }

  // ----- the attributes of each type, by name

  datatype NetAttrs = NetAttrs(devAddr: Mac, hostAddr: Mac, ifname: string, qmult: Int, class_: Int, subclass: Int, protocol: Int)

  function NetVals(a: NetAttrs): seq<AttrVal> {
    [MacVal(a.devAddr), MacVal(a.hostAddr), StrVal(a.ifname), IntVal(a.qmult), IntVal(a.class_), IntVal(a.subclass), IntVal(a.protocol)]
  }

  /** What is in the file of one entry after the values have been set. */
  lemma EntrySet(table: seq<AttrDef>, vals: seq<AttrVal>, files: Files, i: nat)
    requires ValuesFit(table, vals) && WellFormed(table) && SetValues(table, vals, files).Ok? && i < |table| && !table[i].ro
    ensures var r := SetValues(table, vals, files).value;
      table[i].name in r && table[i].kind != Dev && r[table[i].name] == WriteVal(table[i].kind, vals[i])
  {
    hide WriteVal, SetValues;
    SetValuesIn(table, vals, files);
  }

  /** Which files the values of a table need, and that no others change. */
  lemma ValuesNeed(table: seq<AttrDef>, vals: seq<AttrVal>, files: Files)
    requires ValuesFit(table, vals) && WellFormed(table)
    ensures SetValues(table, vals, files).Ok? <==> forall i :: 0 <= i < |table| ==> table[i].ro || table[i].name in files
    ensures SetValues(table, vals, files).Ok? ==>
      var r := SetValues(table, vals, files).value;
      r.Keys == files.Keys && forall n <- files | (forall d <- table | !d.ro :: d.name != n) :: r[n] == files[n]
  {
    hide WriteVal, SetValues, WellFormed, ValuesFit;
    SetValuesWrites(table, vals, files);
  }

  predicate NetThere(files: Files) {
    "dev_addr" in files && "host_addr" in files && "qmult" in files && "class_" in files && "subclass" in files && "protocol" in files
  }

  /** The files after the attributes of a network function have been set; no others have changed. */
  ghost predicate NetHolds(a: NetAttrs, before: Files, after: Files) {
    NetThere(after) && after["dev_addr"] == PrintMac(a.devAddr) && after["host_addr"] == PrintMac(a.hostAddr) &&
    after["qmult"] == WriteDec(a.qmult) && after["class_"] == WriteDec(a.class_) && after["subclass"] == WriteDec(a.subclass) &&
    after["protocol"] == WriteDec(a.protocol) &&
    OnlyNamed({"dev_addr", "host_addr", "qmult", "class_", "subclass", "protocol"}, before, after)
  }

  /** A network function is refused an interface name; otherwise each attribute goes to the file of its name. */
  lemma NetByField(t: FunctionType, a: NetAttrs, files: Files)
    requires IsNet(t)
    ensures AttrsFit(t, Values(NetVals(a)))
    ensures a.ifname != "" ==> SetTable(t, NetVals(a), files) == Err(INVALID_PARAM)
    ensures SetTable(t, NetVals(a), files).Ok? <==> a.ifname == "" && NetThere(files)
    ensures SetTable(t, NetVals(a), files).Ok? ==> NetHolds(a, files, SetTable(t, NetVals(a), files).value)
  {
    hide PrintMac, WriteDec, SetValues, WellFormed, Refused, ValuesFit, NetVals, PrintDec, NetHolds, NetThere;
    TablesWellFormed(t);
    assert AttrTable(t) == Some(NET_TABLE);
    RefusedNet(a);
    NetFiles(a, files);
  }

  lemma NetFiles(a: NetAttrs, files: Files)
    requires WellFormed(NET_TABLE) && ValuesFit(NET_TABLE, NetVals(a))
    ensures var r := SetValues(NET_TABLE, NetVals(a), files); (r.Ok? <==> NetThere(files)) && (r.Ok? ==> NetHolds(a, files, r.value))
  {
    hide PrintMac, WriteDec, SetValues, WellFormed, ValuesFit, OnlyNamed, NetThere;
    var table, vals := NET_TABLE, NetVals(a);
    ValuesNeed(table, vals, files);
    NetNames(files);
    if SetValues(table, vals, files).Ok? {
      NetNames(SetValues(table, vals, files).value);
      NetOnly(files, SetValues(table, vals, files).value);
      EntrySet(table, vals, files, 0);
      EntrySet(table, vals, files, 1);
      EntrySet(table, vals, files, 3);
      EntrySet(table, vals, files, 4);
      EntrySet(table, vals, files, 5);
      EntrySet(table, vals, files, 6);
    }
  }

  lemma NetNames(files: Files)
    ensures (forall i :: 0 <= i < |NET_TABLE| ==> NET_TABLE[i].ro || NET_TABLE[i].name in files) <==> NetThere(files)
  {
    var t := NET_TABLE;
    assert (t[0].name in files <==> "dev_addr" in files) && (t[1].name in files <==> "host_addr" in files) && t[2].ro;
    assert (t[3].name in files <==> "qmult" in files) && (t[4].name in files <==> "class_" in files);
    assert (t[5].name in files <==> "subclass" in files) && (t[6].name in files <==> "protocol" in files);
  }

  lemma RefusedNet(a: NetAttrs)
    ensures ValuesFit(NET_TABLE, NetVals(a)) && (Refused(NET_TABLE, NetVals(a)) <==> a.ifname != "")
  {
    if a.ifname != "" { assert NET_TABLE[2].ro && NET_TABLE[2].kind == Str && NetVals(a)[2] != StrVal(""); }
  }

  /** `dev` is read-only. */
  datatype HidAttrs = HidAttrs(major: Int, minor: Int, protocol: Int, reportDesc: seq<Byte>, reportLength: Int, subclass: Int)

  function HidVals(a: HidAttrs): seq<AttrVal> {
    [DevVal(a.major, a.minor), IntVal(a.protocol), BytesVal(a.reportDesc), IntVal(a.reportLength), IntVal(a.subclass)]
  }

  predicate HidThere(files: Files) { "protocol" in files && "report_desc" in files && "report_length" in files && "subclass" in files }

  ghost predicate HidHolds(a: HidAttrs, before: Files, after: Files) {
    HidThere(after) && after["protocol"] == WriteDec(a.protocol) &&
    after["report_desc"] == (if a.reportDesc == [] then [0 as char] else TextOf(a.reportDesc)) &&
    after["report_length"] == WriteDec(a.reportLength) && after["subclass"] == WriteDec(a.subclass) &&
    OnlyNamed({"protocol", "report_desc", "report_length", "subclass"}, before, after)
  }

  lemma HidByField(a: HidAttrs, files: Files)
    ensures AttrsFit(Hid, Values(HidVals(a)))
    ensures SetTable(Hid, HidVals(a), files).Ok? <==> HidThere(files)
    ensures SetTable(Hid, HidVals(a), files).Ok? ==> HidHolds(a, files, SetTable(Hid, HidVals(a), files).value)
  {
    hide SetValues, WellFormed, HidHolds, HidThere;
    TablesWellFormed(Hid);
    assert !Refused(HID_TABLE, HidVals(a));
    HidFiles(a, files);
  }

  lemma HidFiles(a: HidAttrs, files: Files)
    requires WellFormed(HID_TABLE) && ValuesFit(HID_TABLE, HidVals(a))
    ensures var r := SetValues(HID_TABLE, HidVals(a), files); (r.Ok? <==> HidThere(files)) && (r.Ok? ==> HidHolds(a, files, r.value))
  {
    hide WriteDec, TextOf, SetValues, WellFormed, OnlyNamed, ValuesFit, HidThere;
    var table, vals := HID_TABLE, HidVals(a);
    ValuesNeed(table, vals, files);
    HidNames(files);
    if SetValues(table, vals, files).Ok? {
      HidNames(SetValues(table, vals, files).value);
      HidOnly(files, SetValues(table, vals, files).value);
      OneZero();
      EntrySet(table, vals, files, 1);
      EntrySet(table, vals, files, 2);
      EntrySet(table, vals, files, 3);
      EntrySet(table, vals, files, 4);
    }
  }

  lemma HidNames(files: Files)
    ensures (forall i :: 0 <= i < |HID_TABLE| ==> HID_TABLE[i].ro || HID_TABLE[i].name in files) <==> HidThere(files)
  {
    var t := HID_TABLE;
    assert t[0].ro && (t[1].name in files <==> "protocol" in files) && (t[2].name in files <==> "report_desc" in files);
    assert (t[3].name in files <==> "report_length" in files) && (t[4].name in files <==> "subclass" in files);
  }

  lemma OneZero()
    ensures TextOf([0]) == [0 as char]
  {}

  datatype MidiAttrs = MidiAttrs(index: Int, id: string, inPorts: Int, outPorts: Int, buflen: Int, qlen: Int)

  function MidiVals(a: MidiAttrs): seq<AttrVal> {
    [IntVal(a.index), StrVal(a.id), IntVal(a.inPorts), IntVal(a.outPorts), IntVal(a.buflen), IntVal(a.qlen)]
  }

  predicate MidiThere(files: Files) {
    "index" in files && "id" in files && "in_ports" in files && "out_ports" in files && "buflen" in files && "qlen" in files
  }

  ghost predicate MidiHolds(a: MidiAttrs, before: Files, after: Files) {
    MidiThere(after) && after["index"] == WriteDec(a.index) && after["id"] == a.id && after["in_ports"] == WriteDec(a.inPorts) &&
    after["out_ports"] == WriteDec(a.outPorts) && after["buflen"] == WriteDec(a.buflen) && after["qlen"] == WriteDec(a.qlen) &&
    OnlyNamed({"index", "id", "in_ports", "out_ports", "buflen", "qlen"}, before, after)
  }

  lemma MidiByField(a: MidiAttrs, files: Files)
    ensures AttrsFit(Midi, Values(MidiVals(a)))
    ensures SetTable(Midi, MidiVals(a), files).Ok? <==> MidiThere(files)
    ensures SetTable(Midi, MidiVals(a), files).Ok? ==> MidiHolds(a, files, SetTable(Midi, MidiVals(a), files).value)
  {
    hide SetValues, WellFormed, MidiHolds, MidiThere;
    TablesWellFormed(Midi);
    assert !Refused(MIDI_TABLE, MidiVals(a));
    MidiFiles(a, files);
  }

  lemma MidiFiles(a: MidiAttrs, files: Files)
    requires WellFormed(MIDI_TABLE) && ValuesFit(MIDI_TABLE, MidiVals(a))
    ensures var r := SetValues(MIDI_TABLE, MidiVals(a), files); (r.Ok? <==> MidiThere(files)) && (r.Ok? ==> MidiHolds(a, files, r.value))
  {
    hide WriteDec, SetValues, WellFormed, OnlyNamed, ValuesFit, MidiThere;
    var table, vals := MIDI_TABLE, MidiVals(a);
    ValuesNeed(table, vals, files);
    MidiNames(files);
    if SetValues(table, vals, files).Ok? {
      MidiNames(SetValues(table, vals, files).value);
      MidiOnly(files, SetValues(table, vals, files).value);
      EntrySet(table, vals, files, 0);
      EntrySet(table, vals, files, 1);
      EntrySet(table, vals, files, 2);
      EntrySet(table, vals, files, 3);
      EntrySet(table, vals, files, 4);
      EntrySet(table, vals, files, 5);
    }
  }

  lemma MidiNames(files: Files)
    ensures (forall i :: 0 <= i < |MIDI_TABLE| ==> MIDI_TABLE[i].ro || MIDI_TABLE[i].name in files) <==> MidiThere(files)
  {
    var t := MIDI_TABLE;
    assert (t[0].name in files <==> "index" in files) && (t[1].name in files <==> "id" in files) && (t[2].name in files <==> "in_ports" in files);
    assert (t[3].name in files <==> "out_ports" in files) && (t[4].name in files <==> "buflen" in files) && (t[5].name in files <==> "qlen" in files);
  }

  lemma LoopbackByField(buflen: Int, qlen: Int, files: Files)
    ensures AttrsFit(Loopback, Values([IntVal(buflen), IntVal(qlen)]))
    ensures SetTable(Loopback, [IntVal(buflen), IntVal(qlen)], files) ==
      if "buflen" in files && "qlen" in files then Ok(files["buflen" := WriteDec(buflen)]["qlen" := WriteDec(qlen)]) else Err(NOT_FOUND)
  {
    hide WriteDec, WellFormed;
    TablesWellFormed(Loopback);
    assert !Refused(LOOPBACK_TABLE, [IntVal(buflen), IntVal(qlen)]);
  }

  lemma LunsForMassStorage(t: FunctionType, attrs: FunctionAttrs)
    requires AttrsFit(t, attrs)
    ensures attrs.Luns? ==> t == MassStorage
  {}

  /** The directory of a function before and after its attributes have been set. */
  ghost predicate AttrsSet(t: FunctionType, attrs: FunctionAttrs, k: KFunction, l: KFunction, d: Defaults)
    requires AttrsFit(t, attrs)
  {
    match attrs
    case NoAttrs => l == k
    case Values(vals) => SetTable(t, vals, k.files) == Ok(l.files) && l == k.(files := l.files)
    case Luns(stall, reqs) =>
      "stall" in k.files && l.files == k.files["stall" := StallText(stall)] && l == k.(files := l.files, luns := l.luns) &&
      forall i: LunId :: Reconciled(reqs, k.luns, l.luns, d, i)
  }

  /** The error of setting the attributes, when the kernel has no reason of its own to refuse. */
  ghost function AttrsError(t: FunctionType, attrs: FunctionAttrs, k: KFunction, d: Defaults): int
    requires AttrsFit(t, attrs)
  {
    match attrs
    case NoAttrs => SUCCESS
    case Values(vals) => Code(SetTable(t, vals, k.files))
    case Luns(stall, reqs) =>
      if "stall" !in k.files then NOT_FOUND
      else
        var n := FirstStop(reqs, k.luns, d, 0);
        if n < MAX_LUNS then RoundError(reqs, k.luns, d, n) else SUCCESS
  }

  /** Setting the attributes reads through NULL. */
  ghost predicate AttrsCrash(attrs: FunctionAttrs, k: KFunction, d: Defaults) {
    attrs.Luns? && "stall" in k.files &&
    var n := FirstStop(attrs.reqs, k.luns, d, 0); n < MAX_LUNS && Crashes(attrs.reqs, k.luns, n)
  }

  /** A failure leaves LUNs of its own behind: those made before the one the reconciliation stops at. */
  ghost predicate LeavesLuns(attrs: FunctionAttrs, k: KFunction, d: Defaults) {
    attrs.Luns? && "stall" in k.files &&
    exists i: LunId :: i < FirstStop(attrs.reqs, k.luns, d, 0) && Wanted(attrs.reqs, i) && i !in k.luns
  }

  /** `usbg_set_function_attrs`. */
  method SetFunctionAttrs(f: Function, attrs: FunctionAttrs) returns (ret: int, crash: bool)
    requires !attrs.NoAttrs? && AttrsFit(f.ftype, attrs) && HasFunction(f.parent.parent.fs.tree, f.parent.name, f.name)
    requires f.ms != null <==> f.ftype == MassStorage
    requires f.ms != null ==> f.ms.fs == f.parent.parent.fs && f.ms.g == f.parent.name && f.ms.f == f.name && f.ms.InSync()
    modifies f.ms, f.parent.parent.fs
    ensures ret <= 0 && OnlyFunction(old(f.parent.parent.fs.tree), f.parent.parent.fs.tree, f.parent.name, f.name)
    ensures HasFunction(f.parent.parent.fs.tree, f.parent.name, f.name)
    ensures old(f.parent.parent.fs.Quiet()) ==> f.parent.parent.fs.Quiet()
    ensures crash ==>
      attrs.Luns? && exists i: LunId :: Crashes(attrs.reqs, old(f.parent.parent.fs.tree)[f.parent.name].functions[f.name].luns, i)
    ensures ret == 0 && !crash && (attrs.Luns? ==> old(f.ms.initiated || f.parent.parent.fs.Quiet())) ==>
      AttrsSet(f.ftype, attrs, old(f.parent.parent.fs.tree)[f.parent.name].functions[f.name],
               f.parent.parent.fs.tree[f.parent.name].functions[f.name], f.parent.parent.fs.defaults)
    ensures attrs.Luns? && old(f.parent.parent.fs.Quiet() && 0 in f.ms.Dirs()) ==> f.ms.InSync()
    ensures ret == 0 && old(Emptiable(f, f.parent.parent.fs.tree[f.parent.name].functions[f.name])) ==>
      Emptiable(f, f.parent.parent.fs.tree[f.parent.name].functions[f.name])
    ensures old(f.parent.parent.fs.Quiet()) && (attrs.Luns? ==> 0 in old(f.ms.Dirs())) ==>
      var k := old(f.parent.parent.fs.tree)[f.parent.name].functions[f.name]; var d := f.parent.parent.fs.defaults;
      ret == AttrsError(f.ftype, attrs, k, d) && (crash <==> AttrsCrash(attrs, k, d)) &&
      (ret != 0 ==>
        (LeavesLuns(attrs, k, d) <==> !(f.parent.parent.fs.tree[f.parent.name].functions[f.name].luns.Keys <= k.luns.Keys)))
  {
    hide WellFormed, Reconciled, Crashes, RoundError, FirstStop, OnlyFunction, StoppedAt;
    var fs := f.parent.parent.fs;
    var g := f.parent.name;
    ghost var t := fs.tree;
    crash := false;
    TablesWellFormed(f.ftype);
    OnlyFunctionReflexive(t, g, f.name);
    FunctionFilesAt(t, g, f.name);
    match attrs
    case Values(vals) =>
      var table := AttrTable(f.ftype).value;
      if Refused(table, vals) { return INVALID_PARAM, false; }
      ret := SetAllValues(fs, FunctionDir(g, f.name), table, vals);
      FilesOnlyFunction(t, fs.tree, g, f.name);
      OnlyFilesThere(t, fs.tree, g, f.name);
    case Luns(stall, reqs) =>
      ghost var at;
      ret, crash, at := f.ms.SetAttrs(stall, reqs);
      LeftBehind(attrs, t[g].functions[f.name], fs.tree[g].functions[f.name], fs.defaults);
  }

  lemma LeavesOnlyLuns(attrs: FunctionAttrs, k: KFunction, d: Defaults)
    ensures LeavesLuns(attrs, k, d) ==> attrs.Luns?
  {}

  lemma LeftBehind(attrs: FunctionAttrs, k: KFunction, l: KFunction, d: Defaults)
    requires attrs.Luns?
    ensures "stall" in k.files && (var at := FirstStop(attrs.reqs, k.luns, d, 0);
        at < MAX_LUNS && StoppedAt(attrs.reqs, k.luns, l.luns, d, at) && (at in l.luns <==> at in k.luns)) ==>
      (LeavesLuns(attrs, k, d) <==> !(l.luns.Keys <= k.luns.Keys))
  {
    hide FirstStop, StoppedAt, Wanted;
    var at := FirstStop(attrs.reqs, k.luns, d, 0);
    if at < MAX_LUNS && StoppedAt(attrs.reqs, k.luns, l.luns, d, at) && (at in l.luns <==> at in k.luns) {
      FailureUndoneIff(attrs.reqs, k.luns, l.luns, d);
    }
  }

  lemma TypePartOfName(t: FunctionType, instance: string)
    ensures TypePart(FunctionName(t, instance)) == TypeName(t)
  {
    TypeNameHasNoDot(t);
    FirstIndexOf(TypeName(t), '.', instance);
    assert FunctionName(t, instance)[..|TypeName(t)|] == TypeName(t);
  }

  /** One function directory was added to a gadget. */
  ghost predicate FunctionMade(t: Tree, u: Tree, g: string, f: string) {
    g in t && f !in t[g].functions && HasFunction(u, g, f) && u == SetFunction(t, g, f, u[g].functions[f])
  }

  lemma FunctionMadeKeeps(g: Gadget, t: Tree, u: Tree, f: string)
    requires g.parent.Agrees(t) && g in g.parent.gadgets && FunctionMade(t, u, g.name, f)
    ensures g.parent.Agrees(u) && OnlyGadget(t, u, g.name)
    ensures u[g.name] == t[g.name].(functions := t[g.name].functions[f := u[g.name].functions[f]])
  {
    assert OnlyGadget(t, u, g.name) && Grown(t[g.name], u[g.name]);
    hide State.Agrees;
    GrownKept(g, t, u);
  }

  lemma FunctionMadeAgain(t: Tree, u: Tree, v: Tree, g: string, f: string)
    requires FunctionMade(t, u, g, f) && OnlyFunction(u, v, g, f)
    ensures FunctionMade(t, v, g, f)
  {
    UpdateTwice(t[g].functions, f, u[g].functions[f], v[g].functions[f]);
    UpdateTwice(t, g, u[g], v[g]);
  }

  lemma FunctionUnmade(t: Tree, u: Tree, g: string, f: string)
    requires FunctionMade(t, u, g, f)
    ensures u[g := u[g].(functions := u[g].functions - {f})] == t
    ensures RmdirError(u, FunctionDir(g, f)) == SUCCESS <==> u[g].functions[f].luns.Keys <= {0} && !Linked(t[g], f)
    ensures u != t
  {
    assert t[g].functions[f := u[g].functions[f]] - {f} == t[g].functions;
    UpdateTwice(t, g, u[g], t[g]);
    UpdateSame(t, g);
  }

  lemma FunctionsWith(g: Gadget, fns: seq<Function>, configs: seq<Config>, osDesc: Config?, k: KGadget, f: Function,
                      kf: KFunction, at: nat)
    requires PartsOk(g, fns, configs, osDesc, k) && at <= |fns|
    requires var l := k.(functions := k.functions[f.name := kf]); FunctionOk(g, f, l)
    requires InOrder(fns[..at] + [f] + fns[at..], (x: Function) => x.name)
    ensures PartsOk(g, fns[..at] + [f] + fns[at..], configs, osDesc, k.(functions := k.functions[f.name := kf]))
  {
    var l := k.(functions := k.functions[f.name := kf]);
    var more := fns[..at] + [f] + fns[at..];
    var name := (x: Function) => x.name;
    Inserted(fns, f, at);
    FunctionsStay(g, fns, k, l);
    assert forall i, j :: 0 <= i < j < |more| ==> Below(name(more[i]), name(more[j]));
    hide FunctionOk;
    forall c | c in configs ensures ConfigOk(g, c, l) && BindingsOk(c, c.bindings, more, l.configs[c.name]) {
      MoreTargets(c, c.bindings, fns, more, k.configs[c.name]);
    }
    hide BindingsOk;
  }

  lemma MoreTargets(c: Config, bs: seq<Binding>, fns: seq<Function>, more: seq<Function>, kc: KConfig)
    requires BindingsOk(c, bs, fns, kc) && forall f <- fns :: f in more
    ensures BindingsOk(c, bs, more, kc)
  {
    forall b | b in bs ensures BindingOk(c, b, more, kc) { assert BindingOk(c, b, fns, kc); }
  }

  lemma GadgetDirKnown(g: Gadget)
    requires Live(g)
    ensures g.name in g.parent.fs.tree
  {}

  lemma FunctionNamesSorted(g: Gadget)
    requires Live(g)
    ensures InOrder(g.functions, (x: Function) => x.name)
    ensures g.name in g.parent.fs.tree && PartsOk(g, g.functions, g.configs, g.osDesc, g.parent.fs.tree[g.name])
  {
    assert GadgetOk(g, g.parent.fs.tree[g.name]);
  }

  lemma NewFunctionName(g: Gadget, ftype: FunctionType, instance: string)
    requires Live(g) && forall h <- g.functions :: h.ftype != ftype || h.instance != instance
    ensures forall h <- g.functions :: h.name != FunctionName(ftype, instance)
  {
    forall h | h in g.functions ensures h.name != FunctionName(ftype, instance) {
      FunctionParts(g, h);
      if h.name == FunctionName(ftype, instance) { FunctionNameInjective(h.ftype, h.instance, ftype, instance); }
    }
  }

  lemma FunctionTaken(g: Gadget, f: Function)
    requires Live(g) && f in g.functions
    ensures MkdirError(g.parent.fs.tree, FunctionDir(g.name, FunctionName(f.ftype, f.instance)), g.parent.fs.defaults) == EXIST
  {
    FunctionParts(g, f);
  }

  /** Why a function without attributes cannot be made. */
  function CreateFunctionError(t: Tree, g: string, ftype: FunctionType, instance: string, d: Defaults): int {
    if instance == "" then INVALID_PARAM else MkdirError(t, FunctionDir(g, FunctionName(ftype, instance)), d)
  }

  /** The last step of `usbg_create_function`: the new function takes its place in the list. */
  method AddFunction(g: Gadget, f: Function, ghost t: Tree) returns (ghost at: nat)
    requires Live(g) && g.parent.Agrees(t) && FunctionMade(t, g.parent.fs.tree, g.name, f.name)
    requires f.parent == g && f.instance != "" && f.name == FunctionName(f.ftype, f.instance)
    requires f.ms != null <==> f.ftype == MassStorage
    requires f.ms != null ==> f.ms.fs == g.parent.fs && f.ms.g == g.name && f.ms.f == f.name
    requires forall h <- g.functions :: h.name != f.name
    modifies g`functions
    ensures at <= |old(g.functions)| && g.functions == old(g.functions)[..at] + [f] + old(g.functions)[at..]
    ensures Live(g)
  {
    ghost var u := g.parent.fs.tree;
    ghost var kf := u[g.name].functions[f.name];
    assert PartsOk(g, g.functions, g.configs, g.osDesc, t[g.name]) by { assert GadgetOk(g, t[g.name]); }
    FunctionMadeKeeps(g, t, u, f.name);
    FunctionNamesSorted(g);
    OnlyGadgetReflexive(u, g.name);
    assert FunctionOk(g, f, u[g.name]);
    hide PartsOk, GadgetOk, State.Agrees, FunctionMade, FunctionOk;
    var r, place := InsertInOrder<Function>(g.functions, f, (x: Function) => x.name);
    at := place;
    FunctionsWith(g, g.functions, g.configs, g.osDesc, t[g.name], f, kf, at);
    g.functions := r;
    GadgetFromParts(g, u[g.name]);
    OneGadgetChanged(g);
  }

  /** What a new function's directory holds. */
  function NewFunction(t: FunctionType, d: Defaults): KFunction
    requires TypeName(t) in d.functions
  {
    d.functions[TypeName(t)]
  }

  lemma NewLuns(t: FunctionType, d: Defaults)
    requires LunDefaults(d) && TypeName(t) in d.functions
    ensures NewFunction(t, d).luns.Keys <= {0} && (t == MassStorage ==> 0 in NewFunction(t, d).luns)
  {}

  /** A new function with the directory the kernel made for it. */
  lemma FreshEmptiable(f: Function, d: Defaults)
    requires LunDefaults(d) && TypeName(f.ftype) in d.functions && (f.ms != null <==> f.ftype == MassStorage)
    requires f.ms != null ==> !f.ms.initiated && forall i: LunId :: !f.ms.luns[i]
    ensures Emptiable(f, NewFunction(f.ftype, d))
  {}

  /** No attributes given to a new function are read through NULL: it has no LUN but LUN 0. */
  lemma NewNeverCrashes(reqs: seq<LunAttrs>, luns: map<LunId, Files>, i: LunId)
    requires luns.Keys <= {0}
    ensures !Crashes(reqs, luns, i)
  {}

  /** Makes the directory of a function and sets its attributes; on failure removes the directory again,
      if a plain rmdir can, and ignores whether it could. */
  method MakeFunctionDir(f: Function, attrs: FunctionAttrs) returns (ret: int)
    requires Live(f.parent) && AttrsFit(f.ftype, attrs) && f.name == FunctionName(f.ftype, f.instance)
    requires LunDefaults(f.parent.parent.fs.defaults)
    requires f.ms != null <==> f.ftype == MassStorage
    requires f.ms != null ==> f.ms.fs == f.parent.parent.fs && f.ms.g == f.parent.name && f.ms.f == f.name
    requires f.ms != null ==> !f.ms.initiated && forall i: LunId :: !f.ms.luns[i]
    modifies f.ms, f.parent.parent.fs
    ensures ret <= 0 && Live(f.parent)
    ensures ret == 0 ==> FunctionMade(old(f.parent.parent.fs.tree), f.parent.parent.fs.tree, f.parent.name, f.name)
    ensures ret == 0 ==>
      MkdirError(old(f.parent.parent.fs.tree), FunctionDir(f.parent.name, f.name), f.parent.parent.fs.defaults) == SUCCESS
    ensures ret == 0 ==> TypeName(f.ftype) in f.parent.parent.fs.defaults.functions
    ensures ret == 0 && (attrs.Luns? ==> old(f.parent.parent.fs.Quiet())) ==>
      AttrsSet(f.ftype, attrs, NewFunction(f.ftype, f.parent.parent.fs.defaults),
               f.parent.parent.fs.tree[f.parent.name].functions[f.name], f.parent.parent.fs.defaults)
    ensures attrs.NoAttrs? && f.ms != null ==> unchanged(f.ms)
    ensures ret == 0 ==> Emptiable(f, f.parent.parent.fs.tree[f.parent.name].functions[f.name])
    ensures ret != 0 ==>
      f.parent.parent.fs.tree == old(f.parent.parent.fs.tree) ||
      FunctionMade(old(f.parent.parent.fs.tree), f.parent.parent.fs.tree, f.parent.name, f.name)
    ensures ret != 0 && attrs.NoAttrs? ==> f.parent.parent.fs.tree == old(f.parent.parent.fs.tree)
    ensures old(f.parent.parent.fs.Quiet()) ==> f.parent.parent.fs.Quiet()
    ensures old(f.parent.parent.fs.Quiet()) ==> var d := f.parent.parent.fs.defaults;
      var e := MkdirError(old(f.parent.parent.fs.tree), FunctionDir(f.parent.name, f.name), d);
      (e != SUCCESS ==> ret == e && f.parent.parent.fs.tree == old(f.parent.parent.fs.tree)) &&
      (e == SUCCESS ==>
        TypeName(f.ftype) in d.functions && ret == AttrsError(f.ftype, attrs, NewFunction(f.ftype, d), d) &&
        (ret != 0 ==>
          (f.parent.parent.fs.tree != old(f.parent.parent.fs.tree) <==>
            LeavesLuns(attrs, NewFunction(f.ftype, d), d) || Linked(old(f.parent.parent.fs.tree)[f.parent.name], f.name))))
  {
    hide State.Agrees, FunctionName, TypePart, AttrsFit, AttrsSet, FunctionMade, MkdirError, AfterMkdir, RmdirError, OnlyFunction,
      LeavesLuns, Linked, Emptiable;
    var g := f.parent;
    var fs := g.parent.fs;
    ghost var t := fs.tree;
    LunsForMassStorage(f.ftype, attrs);
    NoAttrsSet(f.ftype, attrs, fs.defaults);
    if TypeName(f.ftype) in fs.defaults.functions { FreshEmptiable(f, fs.defaults); }
    TypePartOfName(f.ftype, f.instance);
    var p := FunctionDir(g.name, f.name);
    if MkdirError(t, p, fs.defaults) == SUCCESS { FunctionDirMade(g, t, f.name, fs.defaults); }
    ret := fs.Mkdir(p);
    if ret != 0 || attrs.NoAttrs? { return; }
    ret := SetNewAttrs(f, attrs, t);
  }

  lemma NoAttrsSet(t: FunctionType, attrs: FunctionAttrs, d: Defaults)
    requires AttrsFit(t, attrs)
    ensures attrs.NoAttrs? ==> forall k :: AttrsSet(t, attrs, k, k, d) && AttrsError(t, attrs, k, d) == SUCCESS
  {}

  /** Sets the attributes of a function whose directory was just made. */
  method SetNewAttrs(f: Function, attrs: FunctionAttrs, ghost t: Tree) returns (ret: int)
    requires Live(f.parent) && f.parent.parent.Agrees(t) && FunctionMade(t, f.parent.parent.fs.tree, f.parent.name, f.name)
    requires !attrs.NoAttrs? && AttrsFit(f.ftype, attrs)
    requires f.ms != null <==> f.ftype == MassStorage
    requires f.ms != null ==> f.ms.fs == f.parent.parent.fs && f.ms.g == f.parent.name && f.ms.f == f.name
    requires f.ms != null ==> !f.ms.initiated && forall i: LunId :: !f.ms.luns[i]
    requires TypeName(f.ftype) in f.parent.parent.fs.defaults.functions && LunDefaults(f.parent.parent.fs.defaults)
    requires f.parent.parent.fs.tree[f.parent.name].functions[f.name] == NewFunction(f.ftype, f.parent.parent.fs.defaults)
    modifies f.ms, f.parent.parent.fs
    ensures ret <= 0 && Live(f.parent)
    ensures ret == 0 ==> FunctionMade(t, f.parent.parent.fs.tree, f.parent.name, f.name)
    ensures ret == 0 && (attrs.Luns? ==> old(f.parent.parent.fs.Quiet())) ==>
      AttrsSet(f.ftype, attrs, NewFunction(f.ftype, f.parent.parent.fs.defaults),
               f.parent.parent.fs.tree[f.parent.name].functions[f.name], f.parent.parent.fs.defaults)
    ensures ret == 0 ==> Emptiable(f, f.parent.parent.fs.tree[f.parent.name].functions[f.name])
    ensures ret != 0 ==>
      f.parent.parent.fs.tree == t || FunctionMade(t, f.parent.parent.fs.tree, f.parent.name, f.name)
    ensures old(f.parent.parent.fs.Quiet()) ==> f.parent.parent.fs.Quiet()
    ensures old(f.parent.parent.fs.Quiet()) ==>
      ret == AttrsError(f.ftype, attrs, NewFunction(f.ftype, f.parent.parent.fs.defaults), f.parent.parent.fs.defaults)
    ensures old(f.parent.parent.fs.Quiet()) && ret != 0 ==>
      (f.parent.parent.fs.tree != t <==>
        LeavesLuns(attrs, NewFunction(f.ftype, f.parent.parent.fs.defaults), f.parent.parent.fs.defaults) ||
        Linked(t[f.parent.name], f.name))
  {
    hide State.Agrees, AttrsFit, AttrsSet, AttrsError, AttrsCrash, RmdirError, OnlyFunction, Crashes, LeavesLuns;
    var g := f.parent;
    var fs := g.parent.fs;
    ghost var u := fs.tree;
    LunsForMassStorage(f.ftype, attrs);
    NewLuns(f.ftype, fs.defaults);
    LeavesOnlyLuns(attrs, NewFunction(f.ftype, fs.defaults), fs.defaults);
    if attrs.Luns? {
      forall i: LunId ensures !Crashes(attrs.reqs, NewFunction(f.ftype, fs.defaults).luns, i) {
        NewNeverCrashes(attrs.reqs, NewFunction(f.ftype, fs.defaults).luns, i);
      }
    }
    var crash;
    ret, crash := SetFunctionAttrs(f, attrs);
    ghost var v := fs.tree;
    FunctionMadeAgain(t, u, v, g.name, f.name);
    FunctionMadeKeeps(g, t, v, f.name);
    if ret != 0 {
      FunctionUnmade(t, v, g.name, f.name);
      var ignored := fs.Rmdir(FunctionDir(g.name, f.name));
    }
  }

  lemma FunctionDirMade(g: Gadget, t: Tree, f: string, d: Defaults)
    requires g.parent.Agrees(t) && g in g.parent.gadgets && MkdirError(t, FunctionDir(g.name, f), d) == SUCCESS
    ensures var u := AfterMkdir(t, FunctionDir(g.name, f), d);
      FunctionMade(t, u, g.name, f) && g.parent.Agrees(u) && TypePart(f) in d.functions &&
      HasFunction(u, g.name, f) && u[g.name].functions[f] == d.functions[TypePart(f)]
  {
    FunctionMadeKeeps(g, t, AfterMkdir(t, FunctionDir(g.name, f), d), f);
  }

  /** Why a function with attributes cannot be made. */
  ghost function NewFunctionCode(t: Tree, g: string, ftype: FunctionType, instance: string, attrs: FunctionAttrs, d: Defaults): int
    requires AttrsFit(ftype, attrs)
  {
    var e := CreateFunctionError(t, g, ftype, instance, d);
    if e != SUCCESS || TypeName(ftype) !in d.functions then e else AttrsError(ftype, attrs, NewFunction(ftype, d), d)
  }

  /** The rollback of a creation whose attributes were refused cannot take the directory away. */
  ghost predicate LeavesFunction(t: Tree, g: string, ftype: FunctionType, instance: string, attrs: FunctionAttrs, d: Defaults) {
    CreateFunctionError(t, g, ftype, instance, d) == SUCCESS && TypeName(ftype) in d.functions && g in t &&
    (LeavesLuns(attrs, NewFunction(ftype, d), d) || Linked(t[g], FunctionName(ftype, instance)))
  }

  /** The part of `usbg_create_function` after the look into memory. */
  method MakeFunction(g: Gadget, ftype: FunctionType, instance: string, attrs: FunctionAttrs)
    returns (ret: int, f: Function?, ghost at: nat)
    requires Live(g) && AttrsFit(ftype, attrs) && LunDefaults(g.parent.fs.defaults) && instance != ""
    requires forall h <- g.functions :: h.name != FunctionName(ftype, instance)
    modifies g`functions, g.parent.fs
    ensures ret <= 0 && Live(g)
    ensures ret == 0 ==> fresh(f) && f.parent == g && f.ftype == ftype && f.instance == instance && f.lbl == None
    ensures ret == 0 ==> f.name == FunctionName(ftype, instance) && (f.ms != null ==> fresh(f.ms))
    ensures ret == 0 ==> at <= |old(g.functions)| && g.functions == old(g.functions)[..at] + [f] + old(g.functions)[at..]
    ensures ret == 0 ==> FunctionMade(old(g.parent.fs.tree), g.parent.fs.tree, g.name, FunctionName(ftype, instance))
    ensures ret == 0 ==> CreateFunctionError(old(g.parent.fs.tree), g.name, ftype, instance, g.parent.fs.defaults) == SUCCESS
    ensures ret == 0 ==> TypeName(ftype) in g.parent.fs.defaults.functions
    ensures ret == 0 && (attrs.Luns? ==> old(g.parent.fs.Quiet())) ==>
      AttrsSet(ftype, attrs, NewFunction(ftype, g.parent.fs.defaults), g.parent.fs.tree[g.name].functions[f.name], g.parent.fs.defaults)
    ensures ret == 0 && attrs.NoAttrs? && f.ms != null ==> !f.ms.initiated && forall i: LunId :: !f.ms.luns[i]
    ensures ret == 0 ==> Emptiable(f, g.parent.fs.tree[g.name].functions[f.name])
    ensures ret != 0 ==> g.functions == old(g.functions)
    ensures ret != 0 ==>
      g.parent.fs.tree == old(g.parent.fs.tree) || FunctionMade(old(g.parent.fs.tree), g.parent.fs.tree, g.name, FunctionName(ftype, instance))
    ensures ret != 0 && attrs.NoAttrs? ==> g.parent.fs.tree == old(g.parent.fs.tree)
    ensures old(g.parent.fs.Quiet()) ==> g.parent.fs.Quiet()
    ensures old(g.parent.fs.Quiet()) ==>
      ret == NewFunctionCode(old(g.parent.fs.tree), g.name, ftype, instance, attrs, g.parent.fs.defaults)
    ensures old(g.parent.fs.Quiet()) && ret != 0 ==>
      (g.parent.fs.tree != old(g.parent.fs.tree) <==>
        LeavesFunction(old(g.parent.fs.tree), g.name, ftype, instance, attrs, g.parent.fs.defaults))
  {
    hide FunctionMade, State.Agrees, AttrsSet, AttrsError, MkdirError, FunctionName, AttrsFit, TypeName, LunDefaults, NewFunction,
      MsFunction.InSync, LeavesLuns, Linked;
    LunsForMassStorage(ftype, attrs);
    NoAttrsSet(ftype, attrs, g.parent.fs.defaults);
    ghost var t := g.parent.fs.tree;
    GadgetDirKnown(g);
    at := 0;
    f := new Function(g, ftype, instance);
    ret := MakeFunctionDir(f, attrs);
    if ret == 0 { at := AddFunction(g, f, t); }
  }

  /** `usbg_create_function`. The rollback is a plain rmdir; LUNs made for a mass storage function stand in its way. */
  method CreateFunction(g: Gadget, ftype: FunctionType, instance: string, attrs: FunctionAttrs)
    returns (ret: int, f: Function?, ghost at: nat)
    requires Live(g) && AttrsFit(ftype, attrs) && LunDefaults(g.parent.fs.defaults)
    modifies g`functions, g.parent.fs
    ensures ret <= 0 && Live(g)
    ensures ret == 0 ==> fresh(f) && f.parent == g && f.ftype == ftype && f.instance == instance && f.lbl == None
    ensures ret == 0 ==> f.name == FunctionName(ftype, instance) && (f.ms != null ==> fresh(f.ms))
    ensures ret == 0 ==> at <= |old(g.functions)| && g.functions == old(g.functions)[..at] + [f] + old(g.functions)[at..]
    ensures ret == 0 ==> FunctionMade(old(g.parent.fs.tree), g.parent.fs.tree, g.name, FunctionName(ftype, instance))
    ensures ret == 0 ==> CreateFunctionError(old(g.parent.fs.tree), g.name, ftype, instance, g.parent.fs.defaults) == SUCCESS
    ensures ret == 0 ==> TypeName(ftype) in g.parent.fs.defaults.functions
    ensures ret == 0 && (attrs.Luns? ==> old(g.parent.fs.Quiet())) ==>
      AttrsSet(ftype, attrs, NewFunction(ftype, g.parent.fs.defaults), g.parent.fs.tree[g.name].functions[f.name], g.parent.fs.defaults)
    ensures ret == 0 && attrs.NoAttrs? && f.ms != null ==> !f.ms.initiated && forall i: LunId :: !f.ms.luns[i]
    ensures ret == 0 ==> Emptiable(f, g.parent.fs.tree[g.name].functions[f.name])
    ensures ret != 0 ==> g.functions == old(g.functions)
    ensures ret != 0 ==>
      g.parent.fs.tree == old(g.parent.fs.tree) || FunctionMade(old(g.parent.fs.tree), g.parent.fs.tree, g.name, FunctionName(ftype, instance))
    ensures ret != 0 && attrs.NoAttrs? ==> g.parent.fs.tree == old(g.parent.fs.tree)
    ensures old(g.parent.fs.Quiet()) ==> g.parent.fs.Quiet()
    ensures old(g.parent.fs.Quiet()) ==>
      ret == NewFunctionCode(old(g.parent.fs.tree), g.name, ftype, instance, attrs, g.parent.fs.defaults)
    ensures old(g.parent.fs.Quiet()) && ret != 0 ==>
      (g.parent.fs.tree != old(g.parent.fs.tree) <==>
        LeavesFunction(old(g.parent.fs.tree), g.name, ftype, instance, attrs, g.parent.fs.defaults))
  {
    hide FunctionMade, State.Agrees, AttrsSet, AttrsError, MkdirError, FunctionName, AttrsFit, TypeName, LunDefaults, NewFunction,
      MsFunction.InSync, LeavesLuns, Linked;
    at, f := 0, null;
    if instance == "" { return INVALID_PARAM, null, 0; }
    var known := GetFunction(g, ftype, instance);
    if known != null {
      FunctionTaken(g, known);
      return EXIST, null, 0;
    }
    NewFunctionName(g, ftype, instance);
    ret, f, at := MakeFunction(g, ftype, instance, attrs);
  }

  // ----- configurations

  const DEFAULT_LABEL := "config"

  /** What a new configuration contains after its attributes and its string have been set. */
  function ConfigSetup(d: Defaults, attrs: Option<seq<Int>>, str: Option<Option<string>>): Result<KConfig>
    requires attrs.Some? ==> |attrs.value| == |CONFIG_ATTRS|
  {
    var files :- Written(d.config, ConfigWrites(attrs));
    var langs :- if str.Some? then SetStrings(OfConfig, map[], LANG_US_ENG, [str.value], d.configLang) else Ok(map[]);
    Ok(NewConfig(d).(files := files, langs := langs))
  }

  function ConfigWrites(attrs: Option<seq<Int>>): seq<Write>
    requires attrs.Some? ==> |attrs.value| == |CONFIG_ATTRS|
  {
    if attrs.Some? then FieldWrites(CONFIG_ATTRS, attrs.value) else []
  }

  /** One configuration directory without links was added to a gadget. */
  ghost predicate ConfigMade(t: Tree, u: Tree, g: string, c: string) {
    g in t && c !in t[g].configs && HasConfig(u, g, c) && u == SetConfig(t, g, c, u[g].configs[c]) && u[g].configs[c].links == map[]
  }

  lemma ConfigMadeKeeps(g: Gadget, t: Tree, u: Tree, c: string)
    requires g.parent.Agrees(t) && g in g.parent.gadgets && ConfigMade(t, u, g.name, c)
    ensures g.parent.Agrees(u) && OnlyGadget(t, u, g.name)
    ensures u[g.name] == t[g.name].(configs := t[g.name].configs[c := u[g.name].configs[c]])
  {
    assert OnlyGadget(t, u, g.name) && Grown(t[g.name], u[g.name]);
    hide State.Agrees;
    GrownKept(g, t, u);
  }

  /** Nothing but the files and strings of one configuration differs. */
  ghost predicate OnlyContents(t: Tree, u: Tree, g: string, c: string) {
    HasConfig(t, g, c) && HasConfig(u, g, c) && u == SetConfig(t, g, c, u[g].configs[c]) &&
    u[g].configs[c].links == t[g].configs[c].links
  }

  lemma ConfigFilesOnly(t: Tree, u: Tree, g: string, c: string)
    requires OnlyFiles(t, u, ConfigDir(g, c))
    ensures OnlyContents(t, u, g, c) && u[g].configs[c] == t[g].configs[c].(files := u[g].configs[c].files)
  {}

  lemma ConfigLangsOnly(t: Tree, u: Tree, g: string, c: string)
    requires HasConfig(t, g, c) && HasConfig(u, g, c) && u == SetLangs(t, ConfigLangs(g, c), u[g].configs[c].langs)
    ensures OnlyContents(t, u, g, c) && u[g].configs[c] == t[g].configs[c].(langs := u[g].configs[c].langs)
  {}

  lemma OnlyContentsKeeps(t: Tree, u: Tree, g: string, c: string)
    requires OnlyContents(t, u, g, c)
    ensures OnlyGadget(t, u, g) && SameShape(t[g], u[g])
  {}

  lemma ConfigMadeAgain(t: Tree, u: Tree, v: Tree, g: string, c: string)
    requires ConfigMade(t, u, g, c) && OnlyContents(u, v, g, c)
    ensures ConfigMade(t, v, g, c)
  {
    UpdateTwice(t[g].configs, c, u[g].configs[c], v[g].configs[c]);
    UpdateTwice(t, g, u[g], v[g]);
  }

  lemma ConfigMadeExists(t: Tree, u: Tree, g: string, c: string)
    requires ConfigMade(t, u, g, c)
    ensures Exists(u, ConfigDir(g, c)) && HasConfig(u, g, c) && HasLangs(u, ConfigLangs(g, c))
    ensures FilesAt(u, ConfigDir(g, c)) == u[g].configs[c].files && LangsAt(u, ConfigLangs(g, c)) == u[g].configs[c].langs
  {}

  lemma ConfigUnmade(t: Tree, u: Tree, g: string, c: string)
    requires ConfigMade(t, u, g, c)
    ensures u[g := u[g].(configs := u[g].configs - {c})] == t
    ensures c !in t[g].osLinks.Values ==> (RmdirError(u, ConfigDir(g, c)) == SUCCESS <==> u[g].configs[c].langs == map[])
  {
    assert t[g].configs[c := u[g].configs[c]] - {c} == t[g].configs;
    UpdateTwice(t, g, u[g], t[g]);
    UpdateSame(t, g);
  }

  lemma IdsApart(configs: seq<Config>, c: Config, at: nat)
    requires at <= |configs| && forall d <- configs :: d.id != c.id
    requires forall i, j :: 0 <= i < j < |configs| ==> configs[i].id != configs[j].id
    requires InOrder(configs[..at] + [c] + configs[at..], (x: Config) => x.name)
    ensures var more := configs[..at] + [c] + configs[at..];
      forall i, j :: 0 <= i < j < |more| ==> Below(more[i].name, more[j].name) && more[i].id != more[j].id
  {
    var more := configs[..at] + [c] + configs[at..];
    var name := (x: Config) => x.name;
    assert forall i, j :: 0 <= i < j < |more| ==> Below(name(more[i]), name(more[j]));
    assert forall i :: 0 <= i < |more| ==> more[i] == if i < at then configs[i] else if i == at then c else configs[i - 1];
  }

  lemma ConfigsWith(g: Gadget, fns: seq<Function>, configs: seq<Config>, osDesc: Config?, k: KGadget, c: Config,
                    kc: KConfig, at: nat)
    requires PartsOk(g, fns, configs, osDesc, k) && at <= |configs| && kc.links == map[] && c.bindings == []
    requires c.parent == g && 1 <= c.id <= 255 && c.name == ConfigName(c.lbl, c.id) && c.name !in k.configs
    requires forall d <- configs :: d.id != c.id
    requires InOrder(configs[..at] + [c] + configs[at..], (x: Config) => x.name)
    ensures PartsOk(g, fns, configs[..at] + [c] + configs[at..], osDesc, k.(configs := k.configs[c.name := kc]))
  {
    hide FunctionOk, BindingsOk, ConfigName;
    var l := k.(configs := k.configs[c.name := kc]);
    var more := configs[..at] + [c] + configs[at..];
    Inserted(configs, c, at);
    FunctionsStay(g, fns, k, l);
    IdsApart(configs, c, at);
    forall d | d in more ensures ConfigOk(g, d, l) && BindingsOk(d, d.bindings, fns, l.configs[d.name]) {
      if d == c { NewConfigOk(g, fns, l, c, kc); } else { ConfigStays(g, fns, k, l, d, c.name); }
    }
  }

  lemma NewConfigOk(g: Gadget, fns: seq<Function>, l: KGadget, c: Config, kc: KConfig)
    requires c.parent == g && 1 <= c.id <= 255 && c.name == ConfigName(c.lbl, c.id) && c.name in l.configs && l.configs[c.name] == kc
    requires kc.links == map[] && c.bindings == []
    ensures ConfigOk(g, c, l) && BindingsOk(c, c.bindings, fns, l.configs[c.name])
  {}

  lemma ConfigStays(g: Gadget, fns: seq<Function>, k: KGadget, l: KGadget, d: Config, c: string)
    requires ConfigOk(g, d, k) && BindingsOk(d, d.bindings, fns, k.configs[d.name])
    requires c !in k.configs && c in l.configs && l.configs == k.configs[c := l.configs[c]]
    ensures ConfigOk(g, d, l) && BindingsOk(d, d.bindings, fns, l.configs[d.name])
  {
    hide BindingsOk;
  }

  lemma ConfigNamesSorted(g: Gadget)
    requires Live(g)
    ensures InOrder(g.configs, (x: Config) => x.name)
    ensures forall c <- g.configs :: ConfigOk(g, c, g.parent.fs.tree[g.name])
  {
    assert GadgetOk(g, g.parent.fs.tree[g.name]);
  }

  /** Is the id in use by a configuration memory knows? */
  ghost predicate IdTaken(g: Gadget, id: int)
    reads g
  {
    exists c <- g.configs :: c.id == id
  }

  /** Why a configuration cannot be made. */
  function CreateConfigError(t: Tree, g: string, id: int, lbl: string, taken: bool, d: Defaults): int {
    if !(1 <= id <= 255) then INVALID_PARAM
    else if taken then EXIST
    else MkdirError(t, ConfigDir(g, ConfigName(lbl, id)), d)
  }

  method AddConfig(g: Gadget, c: Config, ghost t: Tree) returns (ghost at: nat)
    requires Live(g) && g.parent.Agrees(t) && ConfigMade(t, g.parent.fs.tree, g.name, c.name)
    requires c.parent == g && 1 <= c.id <= 255 && c.name == ConfigName(c.lbl, c.id) && c.bindings == []
    requires forall d <- g.configs :: d.id != c.id
    modifies g`configs
    ensures at <= |old(g.configs)| && g.configs == old(g.configs)[..at] + [c] + old(g.configs)[at..]
    ensures Live(g)
  {
    ghost var u := g.parent.fs.tree;
    ghost var kc := u[g.name].configs[c.name];
    assert PartsOk(g, g.functions, g.configs, g.osDesc, t[g.name]) by { assert GadgetOk(g, t[g.name]); }
    ConfigMadeKeeps(g, t, u, c.name);
    ConfigNamesSorted(g);
    assert forall d <- g.configs :: d.name in t[g.name].configs;
    OnlyGadgetReflexive(u, g.name);
    hide PartsOk, GadgetOk, State.Agrees, ConfigName;
    var r, place := InsertInOrder<Config>(g.configs, c, (x: Config) => x.name);
    at := place;
    ConfigsWith(g, g.functions, g.configs, g.osDesc, t[g.name], c, kc, at);
    g.configs := r;
    GadgetFromParts(g, u[g.name]);
    OneGadgetChanged(g);
  }

  /** Attributes, then the string, of a configuration whose directory was just made. */
  method SetUpConfig(g: Gadget, c: string, attrs: Option<seq<Int>>, str: Option<Option<string>>, ghost t: Tree) returns (ret: int)
    requires g.parent.Agrees(t) && g in g.parent.gadgets && ConfigMade(t, g.parent.fs.tree, g.name, c)
    requires attrs.Some? ==> RecordFits(CONFIG_ATTRS, attrs.value)
    requires g.parent.fs.tree[g.name].configs[c] == NewConfig(g.parent.fs.defaults)
    modifies g.parent.fs
    ensures ret <= 0 && ConfigMade(t, g.parent.fs.tree, g.name, c) && g.parent.Agrees(t)
    ensures ret == 0 ==> ConfigSetup(g.parent.fs.defaults, attrs, str) == Ok(g.parent.fs.tree[g.name].configs[c])
    ensures attrs.None? && str.None? ==> ret == 0
    ensures old(g.parent.fs.Quiet()) ==> g.parent.fs.Quiet() && ret == Code(ConfigSetup(g.parent.fs.defaults, attrs, str))
    ensures old(g.parent.fs.Quiet()) ==> (g.parent.fs.tree[g.name].configs[c].langs != map[] <==>
      str.Some? && str.value.Some? && Written(g.parent.fs.defaults.config, ConfigWrites(attrs)).Ok?)
  {
    hide SetStrings, Written, State.Agrees, LangName, ConfigMade, SetLangs, OnlyFiles, SetConfig;
    var fs := g.parent.fs;
    ghost var u := fs.tree;
    assert attrs.None? ==> ConfigWrites(attrs) == [];
    ConfigMadeExists(t, u, g.name, c);
    ret := WriteAll(fs, ConfigDir(g.name, c), ConfigWrites(attrs));
    ghost var v := fs.tree;
    ConfigFilesOnly(u, v, g.name, c);
    ConfigMadeAgain(t, u, v, g.name, c);
    if ret != 0 || str.None? { return; }
    ret := SetLangStrings(fs, ConfigLangs(g.name, c), LANG_US_ENG, [str.value]);
    ConfigLangsOnly(v, fs.tree, g.name, c);
    ConfigMadeAgain(t, v, fs.tree, g.name, c);
  }

  /** Makes the directory of a configuration, sets attributes and string; on failure removes it again if it can. */
  method MakeConfigDir(g: Gadget, c: string, attrs: Option<seq<Int>>, str: Option<Option<string>>) returns (ret: int)
    requires Live(g) && (attrs.Some? ==> RecordFits(CONFIG_ATTRS, attrs.value))
    modifies g.parent.fs
    ensures ret <= 0 && Live(g) && g.parent.Agrees(old(g.parent.fs.tree))
    ensures ret == 0 ==> ConfigMade(old(g.parent.fs.tree), g.parent.fs.tree, g.name, c)
    ensures ret == 0 ==> MkdirError(old(g.parent.fs.tree), ConfigDir(g.name, c), g.parent.fs.defaults) == SUCCESS
    ensures ret == 0 ==> HasConfig(g.parent.fs.tree, g.name, c)
    ensures ret == 0 ==> ConfigSetup(g.parent.fs.defaults, attrs, str) == Ok(g.parent.fs.tree[g.name].configs[c])
    ensures ret != 0 ==>
      g.parent.fs.tree == old(g.parent.fs.tree) || ConfigMade(old(g.parent.fs.tree), g.parent.fs.tree, g.name, c)
    ensures ret != 0 && attrs.None? && str.None? ==> g.parent.fs.tree == old(g.parent.fs.tree)
    ensures old(g.parent.fs.Quiet()) ==> g.parent.fs.Quiet()
    ensures old(g.parent.fs.Quiet()) ==> var e := MkdirError(old(g.parent.fs.tree), ConfigDir(g.name, c), g.parent.fs.defaults);
      ret == if e != SUCCESS then e else Code(ConfigSetup(g.parent.fs.defaults, attrs, str))
    ensures old(g.parent.fs.Quiet()) && ret != 0 ==> (g.parent.fs.tree != old(g.parent.fs.tree) <==>
      MkdirError(old(g.parent.fs.tree), ConfigDir(g.name, c), g.parent.fs.defaults) == SUCCESS &&
      str.Some? && str.value.Some? && Written(g.parent.fs.defaults.config, ConfigWrites(attrs)).Ok?)
  {
    hide State.Agrees, ConfigMade, MkdirError, AfterMkdir, RmdirError, ConfigSetup, Written, ConfigWrites;
    var fs := g.parent.fs;
    ghost var t := fs.tree;
    var p := ConfigDir(g.name, c);
    if MkdirError(t, p, fs.defaults) == SUCCESS { ConfigDirMade(g, t, c, fs.defaults); }
    ret := fs.Mkdir(p);
    if ret != 0 { return; }
    ret := SetUpConfig(g, c, attrs, str, t);
    ConfigMadeKeeps(g, t, fs.tree, c);
    if ret != 0 {
      NewConfigUnlinked(g, t, c);
      ConfigUnmade(t, fs.tree, g.name, c);
      ConfigChanged(t, fs.tree, g.name, c);
      var ignored := fs.Rmdir(p);
    }
  }

  lemma ConfigChanged(t: Tree, u: Tree, g: string, c: string)
    requires ConfigMade(t, u, g, c)
    ensures u != t
  {}

  lemma ConfigDirMade(g: Gadget, t: Tree, c: string, d: Defaults)
    requires g.parent.Agrees(t) && g in g.parent.gadgets && MkdirError(t, ConfigDir(g.name, c), d) == SUCCESS
    ensures var u := AfterMkdir(t, ConfigDir(g.name, c), d);
      ConfigMade(t, u, g.name, c) && g.parent.Agrees(u) && HasConfig(u, g.name, c) && u[g.name].configs[c] == NewConfig(d)
  {
    ConfigMadeKeeps(g, t, AfterMkdir(t, ConfigDir(g.name, c), d), c);
  }

  /** A link in `os_desc` leads to a configuration that is there already. */
  lemma NewConfigUnlinked(g: Gadget, t: Tree, c: string)
    requires g.parent.Agrees(t) && g in g.parent.gadgets && g.name in t && (exists u :: ConfigMade(t, u, g.name, c))
    ensures c !in t[g.name].osLinks.Values
  {
    assert GadgetOk(g, t[g.name]);
  }

  /** Why a configuration with attributes and a string cannot be made. */
  function NewConfigCode(t: Tree, g: string, id: int, lbl: string, taken: bool, attrs: Option<seq<Int>>,
                         str: Option<Option<string>>, d: Defaults): int
    requires attrs.Some? ==> |attrs.value| == |CONFIG_ATTRS|
  {
    var e := CreateConfigError(t, g, id, lbl, taken, d);
    if e != SUCCESS then e else Code(ConfigSetup(d, attrs, str))
  }

  /** The rollback of a creation cannot take the directory of the configuration away: its string had been started. */
  ghost predicate LeavesConfig(t: Tree, g: string, id: int, lbl: string, taken: bool, attrs: Option<seq<Int>>,
                               str: Option<Option<string>>, d: Defaults)
    requires attrs.Some? ==> |attrs.value| == |CONFIG_ATTRS|
  {
    CreateConfigError(t, g, id, lbl, taken, d) == SUCCESS && str.Some? && str.value.Some? && Written(d.config, ConfigWrites(attrs)).Ok?
  }

  /** The label of a configuration that is made without one. */
  function LabelOr(lbl: Option<string>): string { if lbl.Some? then lbl.value else DEFAULT_LABEL }

  /** `usbg_create_config`. The plain rmdir of the rollback cannot take back a language directory. */
  method CreateConfig(g: Gadget, id: int, lbl: Option<string>, attrs: Option<seq<Int>>, str: Option<Option<string>>)
    returns (ret: int, c: Config?, ghost at: nat)
    requires Live(g) && (attrs.Some? ==> RecordFits(CONFIG_ATTRS, attrs.value))
    modifies g`configs, g.parent.fs
    ensures ret <= 0 && Live(g)
    ensures ret == 0 ==> fresh(c) && c.parent == g && c.id == id && c.lbl == LabelOr(lbl)
    ensures ret == 0 ==> c.name == ConfigName(c.lbl, id) && c.bindings == []
    ensures ret == 0 ==> at <= |old(g.configs)| && g.configs == old(g.configs)[..at] + [c] + old(g.configs)[at..]
    ensures ret == 0 ==> ConfigMade(old(g.parent.fs.tree), g.parent.fs.tree, g.name, c.name)
    ensures ret == 0 ==>
      CreateConfigError(old(g.parent.fs.tree), g.name, id, c.lbl, old(IdTaken(g, id)), g.parent.fs.defaults) == SUCCESS
    ensures ret == 0 ==> ConfigSetup(g.parent.fs.defaults, attrs, str) == Ok(g.parent.fs.tree[g.name].configs[c.name])
    ensures ret != 0 ==> g.configs == old(g.configs)
    ensures ret != 0 ==> var n := ConfigName(LabelOr(lbl), id);
      g.parent.fs.tree == old(g.parent.fs.tree) || ConfigMade(old(g.parent.fs.tree), g.parent.fs.tree, g.name, n)
    ensures old(g.parent.fs.Quiet()) ==> g.parent.fs.Quiet()
    ensures old(g.parent.fs.Quiet()) ==>
      ret == NewConfigCode(old(g.parent.fs.tree), g.name, id, LabelOr(lbl), old(IdTaken(g, id)), attrs, str, g.parent.fs.defaults)
    ensures old(g.parent.fs.Quiet()) && ret != 0 ==>
      (g.parent.fs.tree != old(g.parent.fs.tree) <==>
        LeavesConfig(old(g.parent.fs.tree), g.name, id, LabelOr(lbl), old(IdTaken(g, id)), attrs, str, g.parent.fs.defaults))
    ensures ret != 0 && attrs.None? && str.None? ==> g.parent.fs.tree == old(g.parent.fs.tree)
  {
    hide State.Agrees, ConfigMade, MkdirError, ConfigName, ConfigSetup, Written, ConfigWrites;
    ghost var t := g.parent.fs.tree;
    at, c := 0, null;
    if id <= 0 || id > 255 { return INVALID_PARAM, null, 0; }
    var l := LabelOr(lbl);
    var conf := GetConfig(g, id, None);
    if conf != null { return EXIST, null, 0; }
    c := new Config(g, l, id);
    ret := MakeConfigDir(g, c.name, attrs, str);
    if ret != 0 { return; }
    at := AddConfig(g, c, t);
  }

  // ----- bindings

  lemma BindingsWith(c: Config, bs: seq<Binding>, fns: seq<Function>, kc: KConfig, b: Binding, at: nat)
    requires BindingsOk(c, bs, fns, kc) && at <= |bs|
    requires b.parent == c && b.target in fns && forall x <- bs :: x.target != b.target && x.name != b.name
    requires InOrder(bs[..at] + [b] + bs[at..], (x: Binding) => x.name)
    ensures BindingsOk(c, bs[..at] + [b] + bs[at..], fns, kc.(links := kc.links[b.name := b.target.name]))
  {
    var more := bs[..at] + [b] + bs[at..];
    var lc := kc.(links := kc.links[b.name := b.target.name]);
    Inserted(bs, b, at);
    TargetsWith(bs, b, at);
    forall x | x in more ensures BindingOk(c, x, fns, lc) {
      if x != b { assert BindingOk(c, x, fns, kc); }
    }
    hide BindingOk;
    NamesWith(bs, more, b);
  }

  lemma TargetsWith(bs: seq<Binding>, b: Binding, at: nat)
    requires at <= |bs| && forall i, j :: 0 <= i < j < |bs| ==> bs[i].target != bs[j].target
    requires forall x <- bs :: x.target != b.target
    requires InOrder(bs[..at] + [b] + bs[at..], (x: Binding) => x.name)
    ensures var more := bs[..at] + [b] + bs[at..];
      forall i, j :: 0 <= i < j < |more| ==> Below(more[i].name, more[j].name) && more[i].target != more[j].target
  {
    var more := bs[..at] + [b] + bs[at..];
    var name := (x: Binding) => x.name;
    assert forall i, j :: 0 <= i < j < |more| ==> Below(name(more[i]), name(more[j]));
    assert forall i :: 0 <= i < |more| ==> more[i] == if i < at then bs[i] else if i == at then b else bs[i - 1];
  }

  lemma NamesWith(bs: seq<Binding>, more: seq<Binding>, b: Binding)
    requires (forall x <- more :: x == b || x in bs) && (forall x <- bs :: x in more) && b in more
    ensures (set x <- more :: x.name) == (set x <- bs :: x.name) + {b.name}
  {}

  lemma BindingNamesSorted(c: Config)
    requires LiveConfig(c)
    ensures InOrder(c.bindings, (x: Binding) => x.name)
    ensures HasConfig(c.parent.parent.fs.tree, c.parent.name, c.name)
    ensures BindingsOk(c, c.bindings, c.parent.functions, c.parent.parent.fs.tree[c.parent.name].configs[c.name])
  {
    ConfigParts(c.parent, c);
  }

  /** Why a function cannot be bound: memory looks for the name and for the target first, then the kernel is asked.
      It refuses to link to another gadget's function. */
  ghost function AddFunctionError(t: Tree, c: Config, name: string, f: Function): int
    reads c
  {
    if exists b <- c.bindings :: b.name == name || b.target == f then EXIST
    else LinkError(t, c.parent.name, c.name, name, FunctionDir(f.parent.name, f.name))
  }

  /** `usbg_add_config_function`. */
  method AddConfigFunction(c: Config, name: Option<string>, f: Function) returns (ret: int, b: Binding?, ghost at: nat)
    requires LiveConfig(c) && Live(f.parent) && f in f.parent.functions && f.parent.parent == c.parent.parent
    modifies c`bindings, c.parent.parent.fs
    ensures ret <= 0 && LiveConfig(c)
    ensures ret == 0 ==> fresh(b) && b.parent == c && b.name == (if name.Some? then name.value else f.name) && b.target == f
    ensures ret == 0 ==> f.parent == c.parent && HasConfig(old(c.parent.parent.fs.tree), c.parent.name, c.name)
    ensures ret == 0 ==> at <= |old(c.bindings)| && c.bindings == old(c.bindings)[..at] + [b] + old(c.bindings)[at..]
    ensures ret == 0 ==>
      c.parent.parent.fs.tree == AfterLink(old(c.parent.parent.fs.tree), c.parent.name, c.name, b.name, f.name)
    ensures ret == 0 ==> old(AddFunctionError(c.parent.parent.fs.tree, c, if name.Some? then name.value else f.name, f)) == SUCCESS
    ensures ret == 0 ==> b.name !in old(c.parent.parent.fs.tree)[c.parent.name].configs[c.name].links
    ensures ret != 0 ==> c.bindings == old(c.bindings) && c.parent.parent.fs.tree == old(c.parent.parent.fs.tree)
    ensures old(c.parent.parent.fs.Quiet()) ==> c.parent.parent.fs.Quiet()
    ensures old(c.parent.parent.fs.Quiet()) ==>
      ret == old(AddFunctionError(c.parent.parent.fs.tree, c, if name.Some? then name.value else f.name, f))
  {
    hide State.Agrees, BindingsOk, AfterLink, SetConfig, InOrder;
    var g := c.parent;
    var fs := g.parent.fs;
    ghost var t := fs.tree;
    at, b, ret := 0, null, 0;
    var n := if name.Some? then name.value else f.name;
    var taken := GetBinding(c, n);
    if taken != null { return EXIST, null, 0; }
    var bound := GetLinkBinding(c, f);
    if bound != null { return EXIST, null, 0; }
    BindingNamesSorted(c);
    ret := fs.Symlink(FunctionDir(f.parent.name, f.name), g.name, c.name, n);
    if ret != 0 { return; }
    SameGadget(g, f.parent, t);
    b := new Binding(c, n, f);
    var r, place := InsertInOrder<Binding>(c.bindings, b, (x: Binding) => x.name);
    at := place;
    BindingsWith(c, c.bindings, g.functions, t[g.name].configs[c.name], b, at);
    LinkIsNew(c, n, t);
    LinkedConfig(t, g.name, c.name, n, f.name);
    c.bindings := r;
    OneConfigChanged(c);
  }

  lemma LinkIsNew(c: Config, n: string, t: Tree)
    requires HasConfig(t, c.parent.name, c.name)
    requires BindingsOk(c, c.bindings, c.parent.functions, t[c.parent.name].configs[c.name])
    requires forall b <- c.bindings :: b.name != n
    ensures n !in t[c.parent.name].configs[c.name].links
  {}

  lemma LinkedConfig(t: Tree, g: string, c: string, n: string, f: string)
    requires HasConfig(t, g, c)
    ensures var u := AfterLink(t, g, c, n, f); var k := t[g].configs[c];
      HasConfig(u, g, c) && u[g].configs[c] == k.(links := k.links[n := f]) && u == SetConfig(t, g, c, u[g].configs[c])
  {}

  lemma SameGadget(g: Gadget, h: Gadget, t: Tree)
    requires g.parent.Agrees(t) && g in g.parent.gadgets && h in g.parent.gadgets && g.name == h.name
    ensures g == h
  {
    if g != h { NamesDiffer(g.parent.gadgets, (x: Gadget) => x.name, g, h); }
  }
}
