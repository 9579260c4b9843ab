/** Gadgets and the USB device controllers they are attached to: two pointers in memory and the UDC file in
    configfs, which the kernel may empty on its own. */
module UdcLinks {
  import opened Errors
  import opened Text
  import opened Kernel
  import opened Handles
  import opened Removal

  /** A gadget only remembers UDCs of its own state. */
  ghost predicate UdcsKnown(s: State)
    reads s`gadgets, s`udcs, s.gadgets
  {
    forall g <- s.gadgets :: g.udc != null ==> g.udc in s.udcs
  }

  /** `u.gadget = g` implies `g.udc = u`; so no gadget is claimed by two UDCs. */
  ghost predicate BackLinks(s: State)
    reads s`gadgets, s`udcs, s.gadgets, s.udcs
  {
    forall u <- s.udcs :: u.gadget != null ==> u.gadget in s.gadgets && u.gadget.udc == u
  }

  /** The two-way matching. */
  ghost predicate Matched(s: State)
    reads s`gadgets, s`udcs, s.gadgets, s.udcs
  {
    UdcsKnown(s) && BackLinks(s) && forall g <- s.gadgets :: g.udc != null ==> g.udc.gadget == g
  }

  /** What every call keeps. */
  ghost predicate UdcsOk(s: State)
    reads s`gadgets, s`udcs, s.gadgets, s.udcs, s.fs`tree
  {
    UdcsKnown(s) && BackLinks(s) && UdcsExclusive(s.fs.tree)
  }

  lemma NoSharedGadget(s: State, u: Udc, v: Udc)
    requires BackLinks(s) && u in s.udcs && v in s.udcs && u.gadget != null && u.gadget == v.gadget
    ensures u == v
  {}

  /** Changing a UDC file does not touch what the handle tree mirrors. */
  lemma UdcFileApart(g: Gadget, t: Tree, udc: string)
    requires g.parent.Agrees(t) && g in g.parent.gadgets
    ensures g.name in t && g.parent.Agrees(t[g.name := t[g.name].(udc := udc)])
  {
    var s := g.parent;
    var u := t[g.name := t[g.name].(udc := udc)];
    forall h | h in s.gadgets ensures h.name in u && GadgetOk(h, u[h.name]) {
      assert GadgetOk(h, t[h.name]);
      if h == g {
        FunctionsStay(g, g.functions, t[g.name], u[g.name]);
        hide BindingsOk, FunctionOk;
      } else {
        NamesDiffer(s.gadgets, (x: Gadget) => x.name, g, h);
      }
    }
  }

  /** The kernel keeps its own rule: a UDC is written only when no other gadget has it. */
  lemma AttachExclusive(t: Tree, g: string, udc: string, udcs: set<string>)
    requires UdcsExclusive(t) && UdcError(t, g, udc, udcs) == SUCCESS
    ensures UdcsExclusive(t[g := t[g].(udc := udc)])
  {}

  /** The names of UDC objects are distinct. */
  lemma UdcNamesDiffer(s: State)
    requires s.Valid()
    ensures forall u <- s.udcs, v <- s.udcs :: u.name == v.name ==> u == v
  {
    forall u, v | u in s.udcs && v in s.udcs && u != v ensures u.name != v.name {
      NamesDiffer(s.udcs, (x: Udc) => x.name, u, v);
    }
  }

  twostate predicate OnlyLinks(s: State)
    reads s`gadgets, s`udcs, s.gadgets, set g <- s.gadgets, c <- g.configs :: c
  {
    s.gadgets == old(s.gadgets) && s.udcs == old(s.udcs) &&
    forall g <- s.gadgets :: unchanged(g`functions) && unchanged(g`configs) && unchanged(g`osDesc) && forall c <- g.configs :: unchanged(c)
  }

  /** Link fields are no part of what mirrors configfs. */
  twostate lemma LinksApart(s: State)
    requires old(s.Agrees(s.fs.tree)) && OnlyLinks(s)
    ensures s.Agrees(old(s.fs.tree))
  {
    forall g | g in s.gadgets ensures g.name in old(s.fs.tree) && GadgetOk(g, old(s.fs.tree)[g.name]) {
      assert old(GadgetOk(g, s.fs.tree[g.name]));
    }
  }

  /** The UDC an attach call is about: the one given, or the first. */
  function Chosen(s: State, udc: Udc?): Udc?
    reads s`udcs
  {
    if udc != null then udc else if s.udcs != [] then s.udcs[0] else null
  }

  /** A gadget has moved to a UDC, in memory and in its UDC file. */
  twostate predicate Attached(g: Gadget)
    reads g, g.parent, g.parent.gadgets, g.parent.udcs, g.parent.fs
  {
    var s := g.parent;
    s.gadgets == old(s.gadgets) && s.udcs == old(s.udcs) && g in s.gadgets && g.udc != null && g.udc in s.udcs &&
    (forall h <- s.gadgets | h != g :: h.udc == old(h.udc)) &&
    (forall v <- s.udcs :: v.gadget == if v == g.udc then g else if v == old(g.udc) then null else old(v.gadget)) &&
    g.name in old(s.fs.tree) && s.fs.tree == old(s.fs.tree)[g.name := old(s.fs.tree)[g.name].(udc := g.udc.name)]
  }

  lemma KnownFromOk(s: State)
    requires UdcsOk(s)
    ensures UdcsKnown(s) && UdcsExclusive(s.fs.tree)
  {}

  twostate lemma AttachedOk(g: Gadget)
    requires g.parent.Valid() && old(UdcsOk(g.parent)) && Attached(g) && UdcsExclusive(g.parent.fs.tree)
    ensures UdcsOk(g.parent)
  {
    hide State.Agrees, UdcsExclusive;
    UdcNamesDiffer(g.parent);
    GadgetNamesDiffer(g.parent);
  }

  /** The UDC's recorded owner, if any, still counts on it afterwards. */
  twostate lemma AttachedMatched(g: Gadget)
    requires old(Matched(g.parent)) && old(UdcsOk(g.parent)) && Attached(g)
    ensures var u := g.udc; Matched(g.parent) <==> old(u.gadget) == null || old(u.gadget) == g
  {}

  /** `usbg_enable_gadget`. It does not look for a gadget that still counts on `udc`; the relation stays a
      matching exactly when there is none. */
  method EnableGadget(g: Gadget, udc: Udc?) returns (ret: int)
    requires Live(g) && UdcsOk(g.parent) && (udc != null ==> udc in g.parent.udcs)
    modifies g`udc, g.parent.udcs, g.parent.fs
    ensures ret <= 0 && Live(g) && UdcsOk(g.parent)
    ensures ret == 0 ==> var u := Chosen(g.parent, udc); u != null && g.udc == u && u.gadget == g
    ensures ret == 0 ==> forall v <- g.parent.udcs | v != Chosen(g.parent, udc) ::
      v.gadget == if v == old(g.udc) then null else old(v.gadget)
    ensures ret == 0 ==> var t := old(g.parent.fs.tree);
      g.name in t && g.parent.fs.tree == t[g.name := t[g.name].(udc := Chosen(g.parent, udc).name)]
    ensures ret == 0 && old(Matched(g.parent)) ==>
      (Matched(g.parent) <==> old(Chosen(g.parent, udc).gadget) == null || old(Chosen(g.parent, udc).gadget) == g)
    ensures ret != 0 ==> g.udc == old(g.udc) && g.parent.fs.tree == old(g.parent.fs.tree)
    ensures ret != 0 ==> forall v <- g.parent.udcs :: v.gadget == old(v.gadget)
    ensures old(g.parent.fs.Quiet()) ==> g.parent.fs.Quiet()
    ensures old(g.parent.fs.Quiet()) ==> var u := Chosen(g.parent, udc);
      ret == if u == null then INVALID_PARAM else UdcError(old(g.parent.fs.tree), g.name, u.name, g.parent.fs.udcs)
  {
    hide State.Agrees, UdcError, UdcsExclusive, UdcsOk, Matched;
    var s := g.parent;
    ghost var t := s.fs.tree;
    ghost var matched := Matched(s);
    var u := udc;
    if u == null {
      if s.udcs == [] { return INVALID_PARAM; }
      u := s.udcs[0];
    }
    UdcNamesDiffer(s);
    GadgetNamesDiffer(s);
    UdcFileApart(g, t, u.name);
    KnownFromOk(s);
    if UdcError(t, g.name, u.name, s.fs.udcs) == SUCCESS { AttachExclusive(t, g.name, u.name, s.fs.udcs); }
    ret := s.fs.WriteUdc(g.name, u.name);
    if ret != 0 { return; }
    label written:
    if g.udc != null { g.udc.gadget := null; }
    g.udc := u;
    u.gadget := g;
    LinksApart@written(s);
    AttachedOk(g);
    if matched { AttachedMatched(g); }
  }

  lemma GadgetNamesDiffer(s: State)
    requires s.Valid()
    ensures forall g <- s.gadgets, h <- s.gadgets :: g.name == h.name ==> g == h
    ensures forall u <- s.udcs :: u.name != ""
    ensures forall g <- s.gadgets :: g.name in s.fs.tree
  {
    forall g, h | g in s.gadgets && h in s.gadgets && g != h ensures g.name != h.name {
      NamesDiffer(s.gadgets, (x: Gadget) => x.name, g, h);
    }
  }

  /** Erasing the link from a gadget, and whatever link stands at the other end. */
  twostate predicate Unlinked(g: Gadget)
    reads g, g.parent`udcs, g.parent.udcs
  {
    g.udc == null && g.parent.udcs == old(g.parent.udcs) &&
    forall v <- g.parent.udcs :: v.gadget == if v == old(g.udc) then null else old(v.gadget)
  }

  /** `usbg_disable_gadget`. */
  method DisableGadget(g: Gadget) returns (ret: int)
    requires Live(g) && UdcsOk(g.parent)
    modifies g`udc, g.parent.udcs, g.parent.fs
    ensures ret <= 0 && Live(g) && UdcsOk(g.parent)
    ensures ret == 0 ==> Unlinked(g) && forall v <- g.parent.udcs :: v.gadget != g
    ensures ret == 0 ==> var t := old(g.parent.fs.tree);
      g.name in t && g.parent.fs.tree == t[g.name := t[g.name].(udc := "")]
    ensures ret == 0 && old(Matched(g.parent)) ==> Matched(g.parent)
    ensures ret != 0 ==> g.udc == old(g.udc) && g.parent.fs.tree == old(g.parent.fs.tree)
    ensures ret != 0 ==> forall v <- g.parent.udcs :: v.gadget == old(v.gadget)
    ensures old(g.parent.fs.Quiet()) ==> g.parent.fs.Quiet() && ret == 0
  {
    hide State.Agrees, UdcsExclusive;
    var s := g.parent;
    ghost var t := s.fs.tree;
    UdcNamesDiffer(s);
    GadgetNamesDiffer(s);
    UdcFileApart(g, t, "");
    AttachExclusive(t, g.name, "", s.fs.udcs);
    ret := s.fs.WriteUdc(g.name, "");
    if ret != 0 { return; }
    label written:
    if g.udc != null { g.udc.gadget := null; }
    g.udc := null;
    LinksApart@written(s);
  }

  /** `usbg_get_gadget_udc`: answers only what the kernel's file confirms; a detached gadget loses its stale links.
      `read` is the result of reading the file, which the caller does not get. */
  method GetGadgetUdc(g: Gadget) returns (u: Udc?, ghost read: int)
    requires Live(g) && UdcsOk(g.parent)
    modifies g`udc, g.parent.udcs, g.parent.fs`faults
    ensures Live(g) && UdcsOk(g.parent) && read <= 0
    ensures g.name in g.parent.fs.tree
    ensures u == if read == 0 && old(g.udc) != null && old(g.udc).name == g.parent.fs.tree[g.name].udc then old(g.udc) else null
    ensures if read == 0 && old(g.udc) != null && old(g.udc).name != g.parent.fs.tree[g.name].udc then Unlinked(g)
      else g.udc == old(g.udc) && forall v <- g.parent.udcs :: v.gadget == old(v.gadget)
    ensures old(g.udc) == null ==> read == 0
    ensures old(Matched(g.parent)) ==> Matched(g.parent)
    ensures old(g.parent.fs.Quiet()) ==> g.parent.fs.Quiet() && read == 0
  {
    hide State.Agrees, UdcsExclusive;
    var s := g.parent;
    GadgetNamesDiffer(s);
    u, read := null, 0;
    if g.udc == null { return; }
    var ret, name := s.fs.ReadUdc(g.name);
    read := ret;
    if ret != 0 { return; }
    if g.udc.name == name {
      u := g.udc;
    } else {
      label reading:
      g.udc.gadget := null;
      g.udc := null;
      LinksApart@reading(s);
    }
  }

  /** A UDC and the gadget it pointed at have let go of each other. */
  twostate predicate Cleared(u: Udc)
    reads u.parent, u.parent.gadgets, u.parent.udcs
  {
    u.parent.gadgets == old(u.parent.gadgets) && u.parent.udcs == old(u.parent.udcs) &&
    (forall h <- u.parent.gadgets :: h.udc == if h == old(u.gadget) then null else old(h.udc)) &&
    forall v <- u.parent.udcs :: v.gadget == if v == u then null else old(v.gadget)
  }

  twostate lemma ClearedOk(u: Udc)
    requires old(UdcsOk(u.parent)) && u in u.parent.udcs && old(u.gadget) != null && Cleared(u)
    ensures UdcsKnown(u.parent) && BackLinks(u.parent) && (old(Matched(u.parent)) ==> Matched(u.parent))
  {}

  /** `usbg_get_udc_gadget`. When the kernel's file disagrees, the query it makes has already cleared `u.gadget`, and
      going on to `u->gadget->udc` dereferences NULL: `crash`. When that query fails to read the file, this one clears the
      links itself, also where the kernel still has the gadget attached. */
  method GetUdcGadget(u: Udc) returns (crash: bool, g: Gadget?, ghost read: int)
    requires u in u.parent.udcs && u.parent.Valid() && UdcsOk(u.parent)
    modifies u.parent.gadgets, u.parent.udcs, u.parent.fs`faults
    ensures u.parent.Valid() && UdcsOk(u.parent) && OnlyLinks(u.parent) && read <= 0
    ensures old(u.gadget) != null ==> old(u.gadget) in u.parent.gadgets && old(u.gadget).name in u.parent.fs.tree
    ensures crash <==> var h := old(u.gadget); h != null && read == 0 && u.parent.fs.tree[h.name].udc != u.name
    ensures g == var h := old(u.gadget);
      if h != null && read == 0 && u.parent.fs.tree[h.name].udc == u.name then h else null
    ensures forall h <- u.parent.gadgets :: h.udc == if h == old(u.gadget) && g == null then null else old(h.udc)
    ensures forall v <- u.parent.udcs :: v.gadget == if v == u && g == null then null else old(v.gadget)
    ensures old(u.gadget) == null ==> read == 0
    ensures old(Matched(u.parent)) ==> Matched(u.parent)
    ensures old(u.parent.fs.Quiet()) ==> u.parent.fs.Quiet() && read == 0
  {
    hide State.Agrees, UdcsExclusive, Matched;
    var s := u.parent;
    crash, g, read := false, null, 0;
    if u.gadget == null { return; }
    var h: Gadget := u.gadget;
    GadgetNamesDiffer(s);
    GadgetParents(s);
    var checked;
    checked, read := GetGadgetUdc(h);
    if checked != null {
      g := u.gadget;
    } else if u.gadget == null {
      crash := true;
      ClearedOk(u);
    } else {
      label clearing:
      h.udc := null;
      u.gadget := null;
      LinksApart@clearing(s);
      ClearedOk(u);
    }
  }

  lemma GadgetParents(s: State)
    requires s.Valid()
    ensures forall g <- s.gadgets :: g.parent == s
  {}

  /** `usbg_rm_gadget` does not look at the UDC; so the links stay sound exactly when no UDC
      still claims the gadget, which a successful disable before the removal ensures. */
  method RemoveGadget(g: Gadget, recurse: bool) returns (ret: int)
    requires Live(g) && UdcsOk(g.parent)
    modifies g.parent`gadgets, g.configs, g`configs, g`osDesc, g`functions,
      set f <- g.functions | f.ms != null :: f.ms, g.parent.fs
    ensures ret <= 0 && g.parent.Valid()
    ensures ret == 0 ==> g.parent.gadgets == Without(old(g.parent.gadgets), g) && g.parent.fs.tree == old(g.parent.fs.tree) - {g.name}
    ensures ret != 0 ==> g.parent.gadgets == old(g.parent.gadgets) && UdcsOk(g.parent) && g.osDesc == old(g.osDesc)
    ensures ret != 0 ==> Suffix(g.configs, old(g.configs)) && Suffix(g.functions, old(g.functions))
    ensures ret != 0 ==> OnlyGadget(old(g.parent.fs.tree), g.parent.fs.tree, g.name)
    ensures ret != 0 && old(AllClear(g)) ==> AllClear(g)
    ensures ret == 0 && recurse ==> old(NoStrays(g) && !Stuck(g))
    ensures ret != 0 ==> StraysKept(g) && (old(Stuck(g)) ==> Stuck(g))
    ensures ret != 0 && !recurse ==>
      g.parent.fs.tree == old(g.parent.fs.tree) && g.configs == old(g.configs) && g.functions == old(g.functions)
    ensures ret == 0 ==> g !in g.parent.gadgets
    ensures ret == 0 ==> (UdcsOk(g.parent) <==> forall u <- g.parent.udcs :: u.gadget != g)
    ensures old(Matched(g.parent)) ==> (Matched(g.parent) <==> ret != 0 || forall u <- g.parent.udcs :: u.gadget != g)
    ensures old(g.parent.fs.Quiet()) ==> g.parent.fs.Quiet()
    ensures !recurse && old(g.parent.fs.Quiet()) ==> ret == RmdirError(old(g.parent.fs.tree), GadgetDir(g.name))
    ensures recurse && old(g.parent.fs.Quiet() && Stuck(g)) ==> ret == NOT_FOUND
    ensures recurse && old(g.parent.fs.Quiet() && AllClear(g) && !Stuck(g)) ==>
      (ret == 0 <==> old(NoStrays(g))) && (ret == 0 || ret == BUSY || ret == NOT_EMPTY)
  {
    hide State.Agrees, AllClear, Stuck, NoStrays, StraysKept, Suffix, RmdirError;
    ret := RmGadget(g, recurse);
  }
}
