/** What a program and the kernel do to configfs and to memory, in names: requests, what memory knows next to configfs,
    and what each request makes of both. `Runs` proves that the calls on handles follow these steps. */
module Machine {
  import opened Errors
  import opened Text
  import opened Numbers
  import opened Names
  import opened Settings
  import opened Kernel
  import opened MassStorage
  import opened Records
  import opened Removal
  import opened Creation
  import opened Schemes
  import opened SchemeImport

  /** The configuration recorded for the OS descriptors: none, one of the list, or one that has left it. */
  datatype Record = NoRecord | Recorded(c: string) | Lost

  /** What memory knows of a gadget. */
  datatype Image = Image(functions: set<string>, configs: set<string>, udc: Option<string>, record: Record)

  /** Configfs, the gadgets memory knows, and the gadget each UDC points at. */
  datatype View = View(tree: Tree, memory: map<string, Image>, owners: map<string, string>)

  /** What stays the same: contents of new directories, the kernel's UDCs, and those memory knows, in order. */
  datatype Env = Env(d: Defaults, present: set<string>, listed: seq<string>)

  /** A call, its handles given by the keys they are looked up with; or the kernel taking a gadget off its UDC. */
  datatype Request =
    | MakeGadget(name: string, attrs: Option<seq<Int>>, strs: Option<seq<Option<string>>>)
    | ImportGadget(name: string, root: Setting)
    | MakeFunction(g: string, ftype: FunctionType, instance: string, vals: FunctionAttrs)
    | ImportFunction(g: string, root: Setting, instance: string)
    | MakeConfig(g: string, id: int, named: Option<string>, attrs: Option<seq<Int>>, str: Option<Option<string>>)
    | ImportConfig(g: string, root: Setting, id: int)
    | Bind(g: string, lbl: string, id: int, link: Option<string>, h: string, ftype: FunctionType, instance: string)
    | Unbind(g: string, lbl: string, id: int, name: string)
    | SetOsConfig(g: string, lbl: string, id: int)
    | ClearOsConfig(g: string)
    | Attach(g: string, udc: Option<string>)
    | Detach(g: string)
    | AskUdc(g: string)
    | AskGadget(u: string)
    | DropConfig(g: string, lbl: string, id: int, recurse: bool)
    | DropFunction(g: string, ftype: FunctionType, instance: string, recurse: bool)
    | DropGadget(g: string, recurse: bool)
    | KernelTakes(g: string)

  /** `hidden`: the result of a system call the caller is not told of, a rollback or the reading of a UDC file. `answer`:
      the object a query returns. `halted`: the program reads through a pointer that leads nowhere, or holds one. */
  datatype Outcome = Outcome(ret: int, hidden: int, answer: Option<string>, halted: bool)

  /** What the C types of the arguments demand. */
  predicate Fit(r: Request) {
    match r
    case MakeGadget(_, attrs, _) => attrs.Some? ==> RecordFits(GADGET_ATTRS, attrs.value)
    case MakeFunction(_, ftype, _, vals) => AttrsFit(ftype, vals)
    case MakeConfig(_, _, _, attrs, _) => attrs.Some? ==> RecordFits(CONFIG_ATTRS, attrs.value)
    case _ => true
  }

  // ----- what memory knows agrees with configfs

  /** A link in `os_desc` leads to the recorded configuration. */
  ghost predicate RecordOk(k: KGadget, m: Image) {
    (m.record.Recorded? ==> m.record.c in m.configs) &&
    (k.osLinks == map[] || (m.record.Recorded? && k.osLinks == map[m.record.c := m.record.c]))
  }

  ghost predicate ImageOk(e: Env, k: KGadget, m: Image) {
    m.functions <= k.functions.Keys && m.configs <= k.configs.Keys && RecordOk(k, m) && (m.udc.Some? ==> m.udc.value in e.listed)
  }

  /** What holds of every view of a sound state. */
  ghost predicate Agreeing(e: Env, v: View) {
    (forall g <- v.memory :: g in v.tree && ImageOk(e, v.tree[g], v.memory[g])) &&
    (forall u <- v.owners :: u in e.listed && v.owners[u] in v.memory && v.memory[v.owners[u]].udc == Some(u)) &&
    "" !in e.listed && UdcsExclusive(v.tree)
  }

  // ----- what is missing from a complete mirror

  /** Ways in which memory and configfs may differ: a record for the OS descriptors without a link, a detachment nobody
      noticed, an attachment memory has dropped, and directories a rollback could not take away. */
  datatype Gap =
    | Stale(g: string)
    | Unnoticed(g: string)
    | Forgotten(g: string)
    | LeftGadget(g: string)
    | LeftFunction(g: string, name: string)
    | LeftConfig(g: string, name: string)

  ghost predicate Open(e: Env, v: View, x: Gap) {
    if x.g !in v.tree then false
    else if x.LeftGadget? then x.g !in v.memory
    else if x.g !in v.memory then false
    else
      var k, m := v.tree[x.g], v.memory[x.g];
      match x
      case Stale(_) => m.record != NoRecord && k.osLinks == map[]
      case Unnoticed(_) => m.udc.Some? && m.udc.value != k.udc
      case Forgotten(_) => m.udc.None? && k.udc in e.listed
      case LeftFunction(_, n) => n in k.functions && n !in m.functions
      case LeftConfig(_, n) => n in k.configs && n !in m.configs
  }

  ghost predicate Complete(e: Env, v: View) { forall x :: !Open(e, v, x) }

  /** No gap is about this gadget. */
  ghost predicate NoGapAt(e: Env, v: View, n: string) { forall x: Gap | x.g == n :: !Open(e, v, x) }

  /** What it means that a gadget is mirrored completely. */
  lemma NoGapIff(e: Env, v: View, n: string)
    requires n in v.tree && n in v.memory && ImageOk(e, v.tree[n], v.memory[n])
    ensures NoGapAt(e, v, n) <==>
      KnownWhole(v, n) && (v.memory[n].record == NoRecord <==> v.tree[n].osLinks == map[]) &&
      if v.memory[n].udc.Some? then v.memory[n].udc.value == v.tree[n].udc else v.tree[n].udc !in e.listed
  {
    var k, m := v.tree[n], v.memory[n];
    if NoGapAt(e, v, n) {
      assert !Open(e, v, Stale(n)) && !Open(e, v, Unnoticed(n)) && !Open(e, v, Forgotten(n));
      forall f | f in k.functions ensures f in m.functions { assert !Open(e, v, LeftFunction(n, f)); }
      forall c | c in k.configs ensures c in m.configs { assert !Open(e, v, LeftConfig(n, c)); }
    }
  }

  /** Gadgets and UDCs point at each other. */
  ghost predicate MatchedView(v: View) {
    forall g <- v.memory | v.memory[g].udc.Some? :: v.memory[g].udc.value in v.owners && v.owners[v.memory[g].udc.value] == g
  }

  /** No directory of the gadget is unknown to memory. */
  ghost predicate KnownWhole(v: View, g: string) {
    g in v.tree && g in v.memory && v.memory[g].functions == v.tree[g].functions.Keys && v.memory[g].configs == v.tree[g].configs.Keys
  }

  // ----- the steps

  /** Does memory know the configuration? */
  ghost predicate KnowsConfig(v: View, g: string, lbl: string, id: int) {
    g in v.memory && 1 <= id <= 255 && ConfigName(lbl, id) in v.memory[g].configs
  }

  /** Are the handles there? */
  ghost predicate Handled(e: Env, v: View, r: Request) {
    match r
    case MakeGadget(_, _, _) => true
    case ImportGadget(_, _) => true
    case AskGadget(u) => u in e.listed
    case KernelTakes(g) => g in v.tree
    case Attach(g, udc) => g in v.memory && (udc.Some? ==> udc.value in e.listed)
    case Bind(g, lbl, id, _, h, ftype, instance) =>
      KnowsConfig(v, g, lbl, id) && h in v.memory && FunctionName(ftype, instance) in v.memory[h].functions
    case Unbind(g, lbl, id, name) =>
      KnowsConfig(v, g, lbl, id) && HasConfig(v.tree, g, ConfigName(lbl, id)) &&
      name in v.tree[g].configs[ConfigName(lbl, id)].links
    case SetOsConfig(g, lbl, id) => KnowsConfig(v, g, lbl, id)
    case DropConfig(g, lbl, id, _) => KnowsConfig(v, g, lbl, id)
    case DropFunction(g, ftype, instance, _) => g in v.memory && FunctionName(ftype, instance) in v.memory[g].functions
    case _ => r.g in v.memory
  }

  /** What is left after a call that could not be made because a handle is missing. */
  const NO_HANDLE := Outcome(NOT_FOUND, 0, None, false)

  ghost predicate GadgetStep(e: Env, v: View, n: string, attrs: Option<seq<Int>>, strs: Option<seq<Option<string>>>, w: View,
                             o: Outcome, quiet: bool)
  {
    (attrs.Some? ==> |attrs.value| == |GADGET_ATTRS|) && w.owners == v.owners &&
    (if o.ret == 0 then
       Started(v.tree, w.tree, n, e.d) && GadgetSetup(e.d, AttrWrites(attrs), strs) == Ok(w.tree[n]) &&
       w.memory == v.memory[n := Image({}, {}, None, NoRecord)]
     else NothingOrResidue(v.tree, w.tree, n, e.d) && w.memory == v.memory && (o.hidden == 0 ==> w.tree == v.tree)) &&
    (quiet ==> o.ret == CreateGadgetError(v.tree, n, attrs, strs, e.d)) &&
    (quiet && o.ret != 0 ==> (w.tree != v.tree <==> LeavesGadget(v.tree, n, attrs, strs, e.d)))
  }

  /** Memory knows all of a gadget that is not attached. */
  ghost predicate Mirrors(m: Image, k: KGadget) {
    m.functions == k.functions.Keys && m.configs == k.configs.Keys && m.udc == None
  }

  /** What an import of a gadget leaves when its own removal of the gadget failed. */
  ghost predicate Leftover(v: View, n: string, w: View) {
    (forall m <- v.tree :: m in w.tree && w.tree[m] == v.tree[m]) &&
    (forall m <- w.tree :: m in v.tree || (m == n && w.tree[m].udc == "")) &&
    (w.memory == v.memory ||
     (n !in v.tree && n in w.tree && n in w.memory && w.memory == v.memory[n := w.memory[n]] && Mirrors(w.memory[n], w.tree[n])))
  }

  /** The error of an import of a gadget. */
  ghost function ImportGadgetError(t: Tree, n: string, root: Setting, d: Defaults): int {
    var e := MkdirError(t, GadgetDir(n), d);
    if e != SUCCESS then e else Code(Schemes.ImportGadget(root, d))
  }

  ghost predicate SchemeStep(e: Env, v: View, n: string, root: Setting, w: View, o: Outcome, quiet: bool) {
    w.owners == v.owners &&
    (if o.ret == 0 then
       n !in v.tree && n in w.tree && w.tree == v.tree[n := w.tree[n]] && w.tree[n].udc == "" &&
       n in w.memory && w.memory == v.memory[n := w.memory[n]] && Mirrors(w.memory[n], w.tree[n]) &&
       (w.memory[n].record == NoRecord <==> w.tree[n].osLinks == map[]) &&
       Schemes.ImportGadget(root, e.d).Ok? && UpToLink(w.tree[n], Schemes.ImportGadget(root, e.d).value.k)
     else if o.hidden == 0 then w == v
     else Leftover(v, n, w)) &&
    (quiet ==> o.hidden == 0 && o.ret == ImportGadgetError(v.tree, n, root, e.d)) &&
    (quiet && o.ret == 0 ==> Schemes.ImportGadget(root, e.d).value.k == w.tree[n])
  }

  function WithFunctionName(m: Image, f: string): Image { m.(functions := m.functions + {f}) }

  function WithConfigName(m: Image, c: string): Image { m.(configs := m.configs + {c}) }

  ghost predicate FunctionStep(e: Env, v: View, g: string, ftype: FunctionType, instance: string, vals: FunctionAttrs, w: View,
                               o: Outcome, quiet: bool)
  {
    var f := FunctionName(ftype, instance);
    AttrsFit(ftype, vals) && g in v.memory && w.owners == v.owners &&
    (if o.ret == 0 then
       FunctionMade(v.tree, w.tree, g, f) && TypeName(ftype) in e.d.functions &&
       w.memory == v.memory[g := WithFunctionName(v.memory[g], f)] &&
       (!vals.Luns? || quiet ==> AttrsSet(ftype, vals, NewFunction(ftype, e.d), w.tree[g].functions[f], e.d))
     else w.memory == v.memory && (w.tree == v.tree || FunctionMade(v.tree, w.tree, g, f)) && (vals.NoAttrs? ==> w.tree == v.tree)) &&
    (quiet ==> o.ret == NewFunctionCode(v.tree, g, ftype, instance, vals, e.d)) &&
    (quiet && o.ret != 0 ==> (w.tree != v.tree <==> LeavesFunction(v.tree, g, ftype, instance, vals, e.d)))
  }

  /** A function was added, in configfs and in memory. */
  ghost predicate FunctionGained(v: View, g: string, f: string, w: View) {
    g in v.memory && FunctionMade(v.tree, w.tree, g, f) && w.memory == v.memory[g := WithFunctionName(v.memory[g], f)]
  }

  ghost predicate FunctionImportStep(e: Env, v: View, g: string, root: Setting, instance: string, w: View, o: Outcome, quiet: bool) {
    g in v.tree && g in w.tree && w.owners == v.owners &&
    ((o.ret != 0 && w == v) ||
     exists f :: FunctionGained(v, g, f, w) &&
       (o.ret == 0 ==> Schemes.ImportFunction(v.tree[g], root, instance, e.d) == Ok(WithFunction(w.tree[g], f)))) &&
    (quiet ==> o.ret == Code(Schemes.ImportFunction(v.tree[g], root, instance, e.d)))
  }

  /** Is the id in use by a configuration memory knows? */
  ghost predicate IdKnown(m: Image, id: int) { exists l :: ConfigName(l, id) in m.configs }

  ghost predicate ConfigStep(e: Env, v: View, g: string, id: int, lbl: string, attrs: Option<seq<Int>>, str: Option<Option<string>>,
                             w: View, o: Outcome, quiet: bool)
  {
    var c := ConfigName(lbl, id);
    (attrs.Some? ==> |attrs.value| == |CONFIG_ATTRS|) && g in v.memory && w.owners == v.owners &&
    (if o.ret == 0 then
       ConfigMade(v.tree, w.tree, g, c) && ConfigSetup(e.d, attrs, str) == Ok(w.tree[g].configs[c]) &&
       w.memory == v.memory[g := WithConfigName(v.memory[g], c)]
     else
       w.memory == v.memory && (w.tree == v.tree || ConfigMade(v.tree, w.tree, g, c)) &&
       (attrs.None? && str.None? ==> w.tree == v.tree)) &&
    (quiet ==> o.ret == NewConfigCode(v.tree, g, id, lbl, IdKnown(v.memory[g], id), attrs, str, e.d)) &&
    (quiet && o.ret != 0 ==>
      (w.tree != v.tree <==> LeavesConfig(v.tree, g, id, lbl, IdKnown(v.memory[g], id), attrs, str, e.d)))
  }

  /** Directories were added to a gadget, each with its name in memory. */
  ghost predicate Enriched(v: View, g: string, w: View) {
    g in v.tree && g in w.tree && g in v.memory && g in w.memory && OnlyGadget(v.tree, w.tree, g) &&
    Extended(v.tree[g], w.tree[g], None) &&
    w.memory == v.memory[g := v.memory[g].(functions := w.memory[g].functions, configs := w.memory[g].configs)] &&
    v.memory[g].functions <= w.memory[g].functions && v.memory[g].configs <= w.memory[g].configs &&
    w.tree[g].functions.Keys - w.memory[g].functions == v.tree[g].functions.Keys - v.memory[g].functions &&
    w.tree[g].configs.Keys - w.memory[g].configs == v.tree[g].configs.Keys - v.memory[g].configs
  }

  /** The contents and the code of an import of a configuration follow from the gadget and the labels its functions have. */
  ghost predicate ConfigImported(k: KGadget, labels: Labels, root: Setting, id: int, l: KGadget, ret: int, d: Defaults, quiet: bool) {
    var r := Schemes.ImportConfig(Draft(k, labels), root, id, d);
    (ret == 0 ==> r == Ok(l)) && (quiet ==> ret == Code(r))
  }

  ghost predicate ConfigImportStep(e: Env, v: View, g: string, root: Setting, id: int, w: View, o: Outcome, quiet: bool) {
    if id < 0 then w == v && o.ret == INVALID_PARAM && o.hidden == 0
    else
      w.owners == v.owners && Enriched(v, g, w) && (quiet ==> o.hidden == 0) &&
      (o.ret != 0 && o.hidden == 0 ==> w.memory[g].configs == v.memory[g].configs) &&
      (KnownWhole(v, g) ==> exists labels :: ConfigImported(v.tree[g], labels, root, id, w.tree[g], o.ret, e.d, quiet))
  }

  /** Why a function cannot be bound. */
  ghost function BindError(t: Tree, g: string, c: string, n: string, h: string, f: string): int {
    if HasConfig(t, g, c) && (n in t[g].configs[c].links || (h == g && f in t[g].configs[c].links.Values)) then EXIST
    else LinkError(t, g, c, n, FunctionDir(h, f))
  }

  ghost predicate BindStep(v: View, g: string, c: string, n: string, h: string, f: string, w: View, o: Outcome, quiet: bool) {
    w.owners == v.owners && w.memory == v.memory &&
    (if o.ret == 0 then
       h == g && HasConfig(v.tree, g, c) && n !in v.tree[g].configs[c].links && w.tree == AfterLink(v.tree, g, c, n, f)
     else w.tree == v.tree) &&
    (quiet ==> o.ret == BindError(v.tree, g, c, n, h, f))
  }

  ghost predicate UnbindStep(v: View, g: string, c: string, n: string, w: View, o: Outcome, quiet: bool) {
    w.owners == v.owners && w.memory == v.memory && HasConfig(v.tree, g, c) &&
    w.tree == (if o.ret == 0 then AfterUnlink(v.tree, g, c, n) else v.tree) && (quiet ==> o.ret == 0)
  }

  /** The links in `os_desc` replaced. */
  function WithOsLinks(t: Tree, g: string, links: map<string, string>): Tree
    requires g in t
  {
    t[g := t[g].(osLinks := links)]
  }

  ghost predicate SetOsStep(v: View, g: string, c: string, w: View, o: Outcome, quiet: bool) {
    g in v.tree && g in v.memory &&
    (if o.ret == 0 then
       v.memory[g].record == NoRecord &&
       w == View(WithOsLinks(v.tree, g, map[c := c]), v.memory[g := v.memory[g].(record := Recorded(c))], v.owners)
     else w == v) &&
    (quiet ==> o.ret == if v.memory[g].record != NoRecord then EXIST else SUCCESS)
  }

  ghost predicate ClearOsStep(v: View, g: string, w: View, o: Outcome, quiet: bool) {
    g in v.tree &&
    (if o.ret == 0 then v.tree[g].osLinks != map[] && w == v.(tree := WithOsLinks(v.tree, g, map[])) else w == v) &&
    (quiet ==> o.ret == if v.tree[g].osLinks == map[] then NOT_FOUND else SUCCESS)
  }

  // ----- steps on UDCs

  /** The UDC an attach call is about. */
  function ChosenUdc(e: Env, udc: Option<string>): Option<string> {
    if udc.Some? then udc else if e.listed != [] then Some(e.listed[0]) else None
  }

  function Released(owners: map<string, string>, udc: Option<string>): map<string, string> {
    if udc.Some? then owners - {udc.value} else owners
  }

  function WithUdc(t: Tree, g: string, udc: string): Tree
    requires g in t
  {
    t[g := t[g].(udc := udc)]
  }

  /** Memory lets go of the UDC of a gadget. */
  function LetGo(v: View, g: string): View
    requires g in v.memory
  {
    View(v.tree, v.memory[g := v.memory[g].(udc := None)], Released(v.owners, v.memory[g].udc))
  }

  ghost predicate AttachStep(e: Env, v: View, g: string, udc: Option<string>, w: View, o: Outcome, quiet: bool) {
    var u := ChosenUdc(e, udc);
    g in v.tree && g in v.memory &&
    (if o.ret == 0 then
       u.Some? && w == View(WithUdc(v.tree, g, u.value), v.memory[g := v.memory[g].(udc := u)],
                            Released(v.owners, v.memory[g].udc)[u.value := g])
     else w == v) &&
    (quiet ==> o.ret == if u.None? then INVALID_PARAM else UdcError(v.tree, g, u.value, e.present))
  }

  ghost predicate DetachStep(v: View, g: string, w: View, o: Outcome, quiet: bool) {
    g in v.tree && g in v.memory &&
    w == (if o.ret == 0 then LetGo(v, g).(tree := WithUdc(v.tree, g, "")) else v) && (quiet ==> o.ret == 0)
  }

  /** Reading the UDC file of an attached gadget succeeded and showed another name. */
  ghost predicate Noticed(v: View, g: string, o: Outcome) {
    o.hidden == 0 && g in v.tree && g in v.memory && v.memory[g].udc.Some? && v.memory[g].udc.value != v.tree[g].udc
  }

  ghost predicate AskUdcStep(v: View, g: string, w: View, o: Outcome, quiet: bool) {
    g in v.tree && g in v.memory && o.ret == 0 && (quiet || v.memory[g].udc.None? ==> o.hidden == 0) &&
    (if Noticed(v, g, o) then w == LetGo(v, g) && o.answer == None
     else w == v && o.answer == if o.hidden == 0 then v.memory[g].udc else None)
  }

  ghost predicate AskGadgetStep(v: View, u: string, w: View, o: Outcome, quiet: bool) {
    o.ret == 0 && (quiet ==> o.hidden == 0) &&
    if u !in v.owners then w == v && o.hidden == 0 && o.answer == None && !o.halted
    else
      var h := v.owners[u];
      h in v.tree && h in v.memory &&
      if o.hidden == 0 && v.tree[h].udc == u then w == v && o.answer == Some(h) && !o.halted
      else w == LetGo(v, h) && o.answer == None && (o.halted <==> o.hidden == 0)
  }

  // ----- removals

  ghost predicate DropConfigStep(v: View, g: string, c: string, recurse: bool, w: View, o: Outcome, quiet: bool) {
    g in v.tree && g in v.memory && w.owners == v.owners &&
    var k, m := v.tree[g], v.memory[g];
    var recorded := m.record == Recorded(c);
    (if o.ret == 0 then
       w.tree == v.tree[g := k.(configs := k.configs - {c}, osLinks := if recurse && recorded then map[] else k.osLinks)] &&
       (recorded ==> (recurse <==> k.osLinks != map[])) &&
       w.memory == v.memory[g := m.(configs := m.configs - {c}, record := if recorded then Lost else m.record)]
     else
       w.memory == v.memory && PartlyStripped(v.tree, w.tree, g, c, recorded) && (!recurse ==> w.tree == v.tree)) &&
    (quiet ==> o.ret == RmConfigCode(v.tree, g, c, recurse, recorded))
  }

  ghost predicate DropFunctionStep(v: View, g: string, f: string, recurse: bool, w: View, o: Outcome, quiet: bool) {
    g in v.memory && w.owners == v.owners && OnlyGadget(v.tree, w.tree, g) && g in v.tree && g in w.tree &&
    (if o.ret == 0 then
       w.tree[g] == WithoutFunction(v.tree[g], f) &&
       w.memory == v.memory[g := v.memory[g].(functions := v.memory[g].functions - {f})]
     else OtherDirsKept(v.tree[g], w.tree[g], f) && w.memory == v.memory) &&
    (quiet ==> o.ret == RmFunctionCode(v.tree[g], if recurse then v.memory[g].configs else {}, f))
  }

  /** A recursive removal stopped: memory and configfs have lost the same directories. */
  ghost predicate PartlyDropped(v: View, g: string, w: View) {
    g in v.tree && g in w.tree && g in v.memory && g in w.memory && OnlyGadget(v.tree, w.tree, g) &&
    var m, n := v.memory[g], w.memory[g];
    w.memory == v.memory[g := n] && n.udc == m.udc && n.functions <= m.functions && n.configs <= m.configs &&
    n.record == (if m.record.Recorded? && m.record.c !in n.configs then Lost else m.record) &&
    w.tree[g].functions.Keys - n.functions == v.tree[g].functions.Keys - m.functions &&
    w.tree[g].configs.Keys - n.configs == v.tree[g].configs.Keys - m.configs && (StuckView(v, g) ==> StuckView(w, g))
  }

  /** The recorded configuration is there and its link is not: no recursive removal can succeed. */
  ghost predicate StuckView(v: View, g: string) {
    g in v.tree && g in v.memory && v.memory[g].record.Recorded? && v.tree[g].osLinks == map[]
  }

  /** A UDC points at the gadget. */
  ghost predicate Claimed(v: View, g: string) { exists u <- v.owners :: v.owners[u] == g }

  ghost predicate DropGadgetStep(v: View, g: string, recurse: bool, w: View, o: Outcome, quiet: bool) {
    g in v.tree && g in v.memory && w.owners == v.owners && (o.halted <==> o.ret == 0 && Claimed(v, g)) &&
    (if o.ret == 0 then
       w.tree == v.tree - {g} && w.memory == v.memory - {g} && (recurse ==> KnownWhole(v, g) && !StuckView(v, g))
     else if recurse then PartlyDropped(v, g, w)
     else w == v) &&
    (quiet && !recurse ==> o.ret == RmdirError(v.tree, GadgetDir(g))) &&
    (quiet && recurse ==>
      if StuckView(v, g) then o.ret == NOT_FOUND
      else (o.ret == 0 <==> KnownWhole(v, g)) && (o.ret == 0 || o.ret == BUSY || o.ret == NOT_EMPTY))
  }

  ghost predicate KernelStep(v: View, g: string, w: View, o: Outcome) {
    g in v.tree && o.ret == 0 && w == v.(tree := WithUdc(v.tree, g, ""))
  }

  /** What a request makes of a view; `quiet`: no system call is made to fail, so that the code is known. */
  ghost predicate Step(e: Env, v: View, r: Request, w: View, o: Outcome, quiet: bool) {
    if !Handled(e, v, r) then w == v && o == NO_HANDLE
    else
      (o.halted ==> r.AskGadget? || r.DropGadget?) && (o.answer.Some? ==> r.AskUdc? || r.AskGadget?) &&
      match r
      case MakeGadget(n, attrs, strs) => GadgetStep(e, v, n, attrs, strs, w, o, quiet)
      case ImportGadget(n, root) => SchemeStep(e, v, n, root, w, o, quiet)
      case MakeFunction(g, ftype, instance, vals) => FunctionStep(e, v, g, ftype, instance, vals, w, o, quiet)
      case ImportFunction(g, root, instance) => FunctionImportStep(e, v, g, root, instance, w, o, quiet)
      case MakeConfig(g, id, named, attrs, str) => ConfigStep(e, v, g, id, LabelOr(named), attrs, str, w, o, quiet)
      case ImportConfig(g, root, id) => ConfigImportStep(e, v, g, root, id, w, o, quiet)
      case Bind(g, lbl, id, link, h, ftype, instance) =>
        var f := FunctionName(ftype, instance);
        BindStep(v, g, ConfigName(lbl, id), if link.Some? then link.value else f, h, f, w, o, quiet)
      case Unbind(g, lbl, id, name) => UnbindStep(v, g, ConfigName(lbl, id), name, w, o, quiet)
      case SetOsConfig(g, lbl, id) => SetOsStep(v, g, ConfigName(lbl, id), w, o, quiet)
      case ClearOsConfig(g) => ClearOsStep(v, g, w, o, quiet)
      case Attach(g, udc) => AttachStep(e, v, g, udc, w, o, quiet)
      case Detach(g) => DetachStep(v, g, w, o, quiet)
      case AskUdc(g) => AskUdcStep(v, g, w, o, quiet)
      case AskGadget(u) => AskGadgetStep(v, u, w, o, quiet)
      case DropConfig(g, lbl, id, recurse) => DropConfigStep(v, g, ConfigName(lbl, id), recurse, w, o, quiet)
      case DropFunction(g, ftype, instance, recurse) => DropFunctionStep(v, g, FunctionName(ftype, instance), recurse, w, o, quiet)
      case DropGadget(g, recurse) => DropGadgetStep(v, g, recurse, w, o, quiet)
      case KernelTakes(g) => KernelStep(v, g, w, o)
  }

  // ----- what a request does to the gaps

  /** The gadget a UDC query is about. */
  ghost predicate Owns(v: View, u: string, h: string) { u in v.owners && v.owners[u] == h && h in v.tree }

  /** The request leaves this gap where there was none. */
  ghost predicate Opens(e: Env, v: View, r: Request, w: View, o: Outcome, x: Gap) {
    match r
    case MakeGadget(n, _, _) => x == LeftGadget(n) && o.ret != 0 && w.tree != v.tree
    case MakeFunction(g, ftype, instance, _) => x == LeftFunction(g, FunctionName(ftype, instance)) && o.ret != 0 && w.tree != v.tree
    case MakeConfig(g, id, named, _, _) => x == LeftConfig(g, ConfigName(LabelOr(named), id)) && o.ret != 0 && w.tree != v.tree
    case ImportGadget(n, _) =>
      (x == LeftGadget(n) || x == Stale(n)) && n !in v.tree && o.ret != 0 && o.hidden != 0 && Open(e, w, x)
    case ClearOsConfig(g) => x == Stale(g) && o.ret == 0
    case AskUdc(g) => x == Forgotten(g) && Noticed(v, g, o) && v.tree[g].udc in e.listed
    case AskGadget(u) =>
      x.Forgotten? && Owns(v, u, x.g) && v.tree[x.g].udc in e.listed && (o.hidden != 0 || v.tree[x.g].udc != u)
    case DropConfig(g, _, _, _) => x == Stale(g) && LinkGone(v, w, g)
    case DropGadget(g, _) => x == Stale(g) && LinkGone(v, w, g)
    case KernelTakes(g) => x == Unnoticed(g) && g in v.memory && v.memory[g].udc.Some?
    case _ => false
  }

  ghost predicate LinkGone(v: View, w: View, g: string) {
    g in v.tree && g in w.tree && v.tree[g].osLinks != map[] && w.tree[g].osLinks == map[]
  }

  /** The request closes this gap. */
  ghost predicate Closes(v: View, r: Request, o: Outcome, x: Gap) {
    match r
    case Attach(g, _) => o.ret == 0 && (x == Unnoticed(g) || x == Forgotten(g))
    case Detach(g) => o.ret == 0 && (x == Unnoticed(g) || x == Forgotten(g))
    case AskUdc(g) => x == Unnoticed(g) && o.hidden == 0
    case AskGadget(u) => x.Unnoticed? && Owns(v, u, x.g)
    case DropGadget(g, _) => o.ret == 0 && x.g == g
    case KernelTakes(g) => x == Forgotten(g)
    case _ => false
  }

  lemma GadgetGaps(e: Env, v: View, n: string, attrs: Option<seq<Int>>, strs: Option<seq<Option<string>>>, w: View, o: Outcome,
                   quiet: bool, x: Gap)
    requires GadgetStep(e, v, n, attrs, strs, w, o, quiet) && Agreeing(e, v)
    ensures Open(e, w, x) <==> Open(e, v, x) || (x == LeftGadget(n) && o.ret != 0 && w.tree != v.tree)
  {
    hide GadgetSetup, CreateGadgetError, LeavesGadget, AttrWrites, ImageOk, UdcsExclusive;
    if w.tree != v.tree { StartedFacts(v.tree, w.tree, n, e.d); }
    if o.ret == 0 { NewGadgetHas(v.tree, w.tree, n, e.d); }
    hide Started;
  }

  lemma NewGadgetHas(t: Tree, u: Tree, n: string, d: Defaults)
    requires Started(t, u, n, d)
    ensures u[n].udc == "" && u[n].functions == map[] && u[n].configs == map[] && u[n].osLinks == map[]
    ensures n !in t && u == t[n := u[n]]
  {}

  /** Gaps are about one gadget each. */
  lemma GapsElsewhere(e: Env, v: View, w: View, g: string, x: Gap)
    requires x.g != g && (x.g in w.tree <==> x.g in v.tree) && (x.g in w.memory <==> x.g in v.memory)
    requires x.g in v.tree ==> w.tree[x.g] == v.tree[x.g]
    requires x.g in v.memory ==> w.memory[x.g] == v.memory[x.g]
    ensures Open(e, w, x) <==> Open(e, v, x)
  {}

  lemma AgreeingOn(e: Env, v: View, g: string)
    requires Agreeing(e, v)
    ensures "" !in e.listed && (g in v.memory ==> g in v.tree && ImageOk(e, v.tree[g], v.memory[g]))
  {}

  lemma FunctionGaps(e: Env, v: View, g: string, f: string, w: View, ret: int, x: Gap)
    requires Agreeing(e, v) && g in v.memory && (w.tree != v.tree ==> FunctionMade(v.tree, w.tree, g, f))
    requires w.memory == if ret == 0 then v.memory[g := WithFunctionName(v.memory[g], f)] else v.memory
    requires ret == 0 ==> w.tree != v.tree
    ensures Open(e, w, x) <==> Open(e, v, x) || (x == LeftFunction(g, f) && ret != 0 && w.tree != v.tree)
  {
    hide Agreeing;
    AgreeingOn(e, v, g);
    if w.tree != v.tree {
      FunctionMadeNames(v.tree, w.tree, g, f);
      FunctionMadeOnly(v.tree, w.tree, g, f);
      if x.g != g { GapsElsewhere(e, v, w, g, x); }
    }
    hide FunctionMade;
  }

  lemma ConfigGaps(e: Env, v: View, g: string, c: string, w: View, ret: int, x: Gap)
    requires Agreeing(e, v) && g in v.memory && (w.tree != v.tree ==> ConfigMade(v.tree, w.tree, g, c))
    requires w.memory == if ret == 0 then v.memory[g := WithConfigName(v.memory[g], c)] else v.memory
    requires ret == 0 ==> w.tree != v.tree
    ensures Open(e, w, x) <==> Open(e, v, x) || (x == LeftConfig(g, c) && ret != 0 && w.tree != v.tree)
  {
    hide Agreeing;
    AgreeingOn(e, v, g);
    if w.tree != v.tree {
      assert w.tree == v.tree[g := w.tree[g]] && w.tree[g] == v.tree[g].(configs := v.tree[g].configs[c := w.tree[g].configs[c]]);
      if x.g != g { GapsElsewhere(e, v, w, g, x); }
    }
    hide ConfigMade;
  }

  lemma SchemeGaps(e: Env, v: View, n: string, root: Setting, w: View, o: Outcome, quiet: bool, x: Gap)
    requires SchemeStep(e, v, n, root, w, o, quiet) && Agreeing(e, v) && Agreeing(e, w)
    ensures Open(e, w, x) <==>
      Open(e, v, x) || ((x == LeftGadget(n) || x == Stale(n)) && n !in v.tree && o.ret != 0 && o.hidden != 0 && Open(e, w, x))
  {
    hide Agreeing, Schemes.ImportGadget, UpToLink, ImportGadgetError;
    AgreeingOn(e, v, n);
    AgreeingOn(e, w, n);
    AgreeingOn(e, v, x.g);
    if x.g != n && o.ret != 0 && o.hidden != 0 { GapsElsewhere(e, v, w, n, x); }
  }

  lemma EnrichedGaps(e: Env, v: View, g: string, w: View, x: Gap)
    requires Enriched(v, g, w)
    ensures Open(e, w, x) <==> Open(e, v, x)
  {
    if x.g != g { GapsElsewhere(e, v, w, g, x); }
    if x.LeftFunction? && x.g == g { assert Open(e, v, x) <==> x.name in v.tree[g].functions.Keys - v.memory[g].functions; }
    if x.LeftConfig? && x.g == g { assert Open(e, v, x) <==> x.name in v.tree[g].configs.Keys - v.memory[g].configs; }
  }

  /** A step that only rearranges links, in memory or in configfs. */
  lemma LinkGaps(e: Env, v: View, g: string, w: View, x: Gap)
    requires w.memory == v.memory && OnlyGadget(v.tree, w.tree, g) && w.tree[g].osLinks == v.tree[g].osLinks
    requires w.tree[g].functions == v.tree[g].functions && w.tree[g].configs.Keys == v.tree[g].configs.Keys
    ensures Open(e, w, x) <==> Open(e, v, x)
  {
    if x.g != g { GapsElsewhere(e, v, w, g, x); }
  }

  lemma SetOsGaps(e: Env, v: View, g: string, c: string, w: View, o: Outcome, quiet: bool, x: Gap)
    requires SetOsStep(v, g, c, w, o, quiet) && Agreeing(e, v)
    ensures Open(e, w, x) <==> Open(e, v, x)
  {
    hide Agreeing;
    AgreeingOn(e, v, g);
    if x.g != g { GapsElsewhere(e, v, w, g, x); }
    if o.ret == 0 { assert c in w.tree[g].osLinks; }
  }

  lemma ClearOsGaps(e: Env, v: View, g: string, w: View, o: Outcome, quiet: bool, x: Gap)
    requires ClearOsStep(v, g, w, o, quiet) && Agreeing(e, v) && g in v.memory
    ensures Open(e, w, x) <==> Open(e, v, x) || (x == Stale(g) && o.ret == 0)
  {
    hide Agreeing;
    AgreeingOn(e, v, g);
    if x.g != g { GapsElsewhere(e, v, w, g, x); }
  }

  lemma AttachGaps(e: Env, v: View, g: string, udc: Option<string>, w: View, o: Outcome, quiet: bool, x: Gap)
    requires AttachStep(e, v, g, udc, w, o, quiet)
    ensures Open(e, w, x) <==> Open(e, v, x) && !(o.ret == 0 && (x == Unnoticed(g) || x == Forgotten(g)))
  {
    if x.g != g { GapsElsewhere(e, v, w, g, x); }
  }

  lemma DetachGaps(e: Env, v: View, g: string, w: View, o: Outcome, quiet: bool, x: Gap)
    requires DetachStep(v, g, w, o, quiet) && Agreeing(e, v)
    ensures Open(e, w, x) <==> Open(e, v, x) && !(o.ret == 0 && (x == Unnoticed(g) || x == Forgotten(g)))
  {
    hide Agreeing;
    AgreeingOn(e, v, g);
    if x.g != g { GapsElsewhere(e, v, w, g, x); }
  }

  lemma LetGoGaps(e: Env, v: View, g: string, x: Gap)
    requires g in v.memory && g in v.tree && v.memory[g].udc.Some?
    ensures Open(e, LetGo(v, g), x) <==>
      (x == Forgotten(g) && v.tree[g].udc in e.listed) || (Open(e, v, x) && x != Unnoticed(g) && x != Forgotten(g))
  {
    if x.g != g { GapsElsewhere(e, v, LetGo(v, g), g, x); }
  }

  lemma KernelGaps(e: Env, v: View, g: string, w: View, o: Outcome, x: Gap)
    requires KernelStep(v, g, w, o) && Agreeing(e, v)
    ensures Open(e, w, x) <==>
      (x == Unnoticed(g) && g in v.memory && v.memory[g].udc.Some?) || (Open(e, v, x) && x != Forgotten(g))
  {
    hide Agreeing;
    AgreeingOn(e, v, g);
    if x.g != g { GapsElsewhere(e, v, w, g, x); }
  }

  lemma DropConfigGaps(e: Env, v: View, g: string, c: string, recurse: bool, w: View, o: Outcome, quiet: bool, x: Gap)
    requires DropConfigStep(v, g, c, recurse, w, o, quiet) && Agreeing(e, v) && c in v.memory[g].configs
    ensures Open(e, w, x) <==> Open(e, v, x) || (x == Stale(g) && LinkGone(v, w, g))
  {
    hide Agreeing, RmConfigCode, PartlyStripped;
    AgreeingOn(e, v, g);
    if o.ret != 0 { StrippedDirs(v.tree, w.tree, g, c, v.memory[g].record == Recorded(c)); }
    if x.g != g { GapsElsewhere(e, v, w, g, x); }
  }

  lemma StrippedDirs(t: Tree, u: Tree, g: string, c: string, recorded: bool)
    requires PartlyStripped(t, u, g, c, recorded)
    ensures g in t && g in u && u == t[g := u[g]] && u[g].udc == t[g].udc && u[g].functions == t[g].functions
    ensures u[g].configs.Keys == t[g].configs.Keys && (u[g].osLinks == t[g].osLinks || (recorded && u[g].osLinks == map[]))
  {}

  lemma OsLinksAfter(k: KGadget, f: string)
    ensures WithoutFunction(k, f).osLinks == k.osLinks
  {}

  lemma DropFunctionGaps(e: Env, v: View, g: string, f: string, recurse: bool, w: View, o: Outcome, quiet: bool, x: Gap)
    requires DropFunctionStep(v, g, f, recurse, w, o, quiet) && Agreeing(e, v) && f in v.memory[g].functions
    ensures Open(e, w, x) <==> Open(e, v, x)
  {
    hide Agreeing, RmFunctionCode, WithoutFunction;
    AgreeingOn(e, v, g);
    DirsAfter(v.tree[g], w.tree[g], f);
    OsLinksAfter(v.tree[g], f);
    if x.g != g { GapsElsewhere(e, v, w, g, x); }
  }

  lemma DropGadgetGaps(e: Env, v: View, g: string, recurse: bool, w: View, o: Outcome, quiet: bool, x: Gap)
    requires DropGadgetStep(v, g, recurse, w, o, quiet) && Agreeing(e, v) && Agreeing(e, w)
    ensures Open(e, w, x) <==> (x == Stale(g) && LinkGone(v, w, g)) || (Open(e, v, x) && !(o.ret == 0 && x.g == g))
  {
    hide Agreeing, RmdirError, KnownWhole, Claimed;
    AgreeingOn(e, v, g);
    AgreeingOn(e, w, g);
    if x.g != g { GapsElsewhere(e, v, w, g, x); }
    if o.ret != 0 && recurse && x.g == g {
      if x.LeftFunction? { assert Open(e, v, x) <==> x.name in v.tree[g].functions.Keys - v.memory[g].functions; }
      if x.LeftConfig? { assert Open(e, v, x) <==> x.name in v.tree[g].configs.Keys - v.memory[g].configs; }
    }
  }

  /** A link to a function was made or removed. */
  lemma BindGaps(e: Env, v: View, g: string, c: string, n: string, h: string, f: string, w: View, o: Outcome, quiet: bool, x: Gap)
    requires BindStep(v, g, c, n, h, f, w, o, quiet)
    ensures Open(e, w, x) <==> Open(e, v, x)
  {
    hide BindError;
    if o.ret == 0 { LinkGaps(e, v, g, w, x); }
  }

  lemma UnbindGaps(e: Env, v: View, g: string, c: string, n: string, w: View, o: Outcome, quiet: bool, x: Gap)
    requires UnbindStep(v, g, c, n, w, o, quiet)
    ensures Open(e, w, x) <==> Open(e, v, x)
  {
    if o.ret == 0 { LinkGaps(e, v, g, w, x); }
  }

  lemma AskUdcGaps(e: Env, v: View, g: string, w: View, o: Outcome, quiet: bool, x: Gap)
    requires AskUdcStep(v, g, w, o, quiet)
    ensures Open(e, w, x) <==>
      (x == Forgotten(g) && Noticed(v, g, o) && v.tree[g].udc in e.listed) || (Open(e, v, x) && !(x == Unnoticed(g) && o.hidden == 0))
  {
    if Noticed(v, g, o) { LetGoGaps(e, v, g, x); }
  }

  lemma AskGadgetGaps(e: Env, v: View, u: string, w: View, o: Outcome, quiet: bool, x: Gap)
    requires AskGadgetStep(v, u, w, o, quiet) && Agreeing(e, v)
    ensures Open(e, w, x) <==>
      (x.Forgotten? && Owns(v, u, x.g) && v.tree[x.g].udc in e.listed && (o.hidden != 0 || v.tree[x.g].udc != u)) ||
      (Open(e, v, x) && !(x.Unnoticed? && Owns(v, u, x.g)))
  {
    if u in v.owners {
      OwnerHas(e, v, u);
      LetGoGaps(e, v, v.owners[u], x);
    }
    hide Agreeing;
  }

  lemma OwnerHas(e: Env, v: View, u: string)
    requires Agreeing(e, v) && u in v.owners
    ensures var h := v.owners[u]; h in v.tree && h in v.memory && v.memory[h].udc == Some(u)
  {}

  lemma FunctionImportGaps(e: Env, v: View, g: string, root: Setting, instance: string, w: View, o: Outcome, quiet: bool, x: Gap)
    requires FunctionImportStep(e, v, g, root, instance, w, o, quiet) && Agreeing(e, v)
    ensures Open(e, w, x) <==> Open(e, v, x)
  {
    hide Agreeing, Schemes.ImportFunction, FunctionMade;
    if f :| FunctionGained(v, g, f, w) {
      FunctionMadeNames(v.tree, w.tree, g, f);
      FunctionGaps(e, v, g, f, w, 0, x);
    }
  }

  /** The steps that make or import something. */
  lemma CreationGaps(e: Env, v: View, r: Request, w: View, o: Outcome, quiet: bool, x: Gap)
    requires Agreeing(e, v) && Agreeing(e, w) && Handled(e, v, r) && Step(e, v, r, w, o, quiet)
    requires r.MakeGadget? || r.ImportGadget? || r.MakeFunction? || r.ImportFunction? || r.MakeConfig? || r.ImportConfig?
    ensures Open(e, w, x) <==> Opens(e, v, r, w, o, x) || (Open(e, v, x) && !Closes(v, r, o, x))
  {
    hide Agreeing, Open, GadgetStep, SchemeStep, FunctionImportStep, FunctionMade, ConfigMade, Enriched, AttrsFit, AttrsSet, NewFunctionCode,
      LeavesFunction, NewConfigCode, LeavesConfig, ConfigSetup, FunctionName, ConfigName, ConfigImported, LabelOr;
    match r
    case MakeGadget(n, attrs, strs) =>
      GadgetGaps(e, v, n, attrs, strs, w, o, quiet, x);
    case ImportGadget(n, root) => SchemeGaps(e, v, n, root, w, o, quiet, x);
    case MakeFunction(g, ftype, instance, vals) =>
      if o.ret == 0 { Differ(v.tree, w.tree, g, FunctionName(ftype, instance)); }
      FunctionGaps(e, v, g, FunctionName(ftype, instance), w, o.ret, x);
    case ImportFunction(g, root, instance) => FunctionImportGaps(e, v, g, root, instance, w, o, quiet, x);
    case MakeConfig(g, id, named, attrs, str) =>
      if o.ret == 0 { ConfigChanged(v.tree, w.tree, g, ConfigName(LabelOr(named), id)); }
      ConfigGaps(e, v, g, ConfigName(LabelOr(named), id), w, o.ret, x);
    case ImportConfig(g, root, id) => if id >= 0 { EnrichedGaps(e, v, g, w, x); }
  }

  lemma Differ(t: Tree, u: Tree, g: string, f: string)
    requires FunctionMade(t, u, g, f)
    ensures u != t
  {}

  /** What a request does to each gap. */
  lemma GapsMoved(e: Env, v: View, r: Request, w: View, o: Outcome, quiet: bool, x: Gap)
    requires Agreeing(e, v) && (o.halted || Agreeing(e, w)) && Handled(e, v, r) && Step(e, v, r, w, o, quiet)
    requires o.halted ==> !r.DropGadget?
    ensures Open(e, w, x) <==> Opens(e, v, r, w, o, x) || (Open(e, v, x) && !Closes(v, r, o, x))
  {
    hide Agreeing, Open, GadgetStep, SchemeStep, FunctionStep, FunctionImportStep, ConfigStep, ConfigImportStep, BindStep, UnbindStep,
      SetOsStep, ClearOsStep, AttachStep, DetachStep, AskUdcStep, AskGadgetStep, DropConfigStep, DropFunctionStep, DropGadgetStep,
      KernelStep, AttrsFit, RecordFits, FunctionName, ConfigName, LinkGone, Owns, Noticed;
    match r
    case Bind(g, lbl, id, link, h, ftype, instance) =>
      var f := FunctionName(ftype, instance);
      BindGaps(e, v, g, ConfigName(lbl, id), if link.Some? then link.value else f, h, f, w, o, quiet, x);
    case Unbind(g, lbl, id, name) => UnbindGaps(e, v, g, ConfigName(lbl, id), name, w, o, quiet, x);
    case SetOsConfig(g, lbl, id) => SetOsGaps(e, v, g, ConfigName(lbl, id), w, o, quiet, x);
    case ClearOsConfig(g) => ClearOsGaps(e, v, g, w, o, quiet, x);
    case Attach(g, udc) => AttachGaps(e, v, g, udc, w, o, quiet, x);
    case Detach(g) => DetachGaps(e, v, g, w, o, quiet, x);
    case AskUdc(g) => AskUdcGaps(e, v, g, w, o, quiet, x);
    case AskGadget(u) => AskGadgetGaps(e, v, u, w, o, quiet, x);
    case DropConfig(g, lbl, id, recurse) => DropConfigGaps(e, v, g, ConfigName(lbl, id), recurse, w, o, quiet, x);
    case DropFunction(g, ftype, instance, recurse) =>
      DropFunctionGaps(e, v, g, FunctionName(ftype, instance), recurse, w, o, quiet, x);
    case DropGadget(g, recurse) => DropGadgetGaps(e, v, g, recurse, w, o, quiet, x);
    case KernelTakes(g) => KernelGaps(e, v, g, w, o, x);
    case _ => CreationGaps(e, v, r, w, o, quiet, x);
  }

  // ----- what a request does to the matching of gadgets and UDCs

  /** No UDC pointer moves, in either direction; gadgets may come without one, or go. */
  ghost predicate UdcsStay(v: View, w: View) {
    w.owners == v.owners && forall h <- w.memory | w.memory[h].udc.Some? :: h in v.memory && v.memory[h].udc == w.memory[h].udc
  }

  lemma UdcsStayMatched(v: View, w: View)
    requires UdcsStay(v, w) && MatchedView(v)
    ensures MatchedView(w)
  {}

  lemma LetGoMatched(e: Env, v: View, g: string)
    requires Agreeing(e, v) && MatchedView(v) && g in v.memory
    ensures MatchedView(LetGo(v, g))
  {}

  /** The request attaches a gadget to a UDC that still points at another one. */
  ghost predicate Displaces(e: Env, v: View, r: Request, o: Outcome) {
    r.Attach? && o.ret == 0 &&
    var u := ChosenUdc(e, r.udc); u.Some? && u.value in v.owners && v.owners[u.value] != r.g
  }

  lemma AttachMatched(e: Env, v: View, g: string, udc: Option<string>, w: View, o: Outcome, quiet: bool)
    requires AttachStep(e, v, g, udc, w, o, quiet) && Agreeing(e, v) && MatchedView(v)
    ensures MatchedView(w) <==> !Displaces(e, v, Attach(g, udc), o)
  {
    if Displaces(e, v, Attach(g, udc), o) {
      var u := ChosenUdc(e, udc).value;
      OwnerHas(e, v, u);
      assert w.memory[v.owners[u]].udc == Some(u) && w.owners[u] == g;
    }
  }

  /** Most steps let UDC pointers be. */
  lemma OtherStepsStay(e: Env, v: View, r: Request, w: View, o: Outcome, quiet: bool)
    requires Handled(e, v, r) && Step(e, v, r, w, o, quiet)
    requires !r.Attach? && !r.Detach? && !r.AskUdc? && !r.AskGadget?
    ensures UdcsStay(v, w)
  {
    hide AttrsFit, RecordFits, FunctionName, ConfigName, Schemes.ImportGadget, Schemes.ImportFunction, Schemes.ImportConfig, GadgetSetup,
      ConfigSetup, FunctionMade, ConfigMade, Started, NothingOrResidue, AttrsSet, NewFunctionCode, LeavesFunction, NewConfigCode,
      LeavesConfig, CreateGadgetError, LeavesGadget, UpToLink, ImportGadgetError, Extended, OnlyGadget, ConfigImported, BindError,
      PartlyStripped, WithoutFunction, OtherDirsKept, RmConfigCode, RmFunctionCode, RmdirError, AfterLink, AfterUnlink, LabelOr,
      KnownWhole, StuckView, Claimed, HasConfig, IdKnown, AttrWrites;
  }

  /** The two-way matching survives every step but an attachment that displaces a gadget, and that one ends it. */
  lemma MatchedMoved(e: Env, v: View, r: Request, w: View, o: Outcome, quiet: bool)
    requires Agreeing(e, v) && Handled(e, v, r) && Step(e, v, r, w, o, quiet) && MatchedView(v)
    ensures MatchedView(w) <==> !Displaces(e, v, r, o)
  {
    hide Agreeing, MatchedView, AttachStep, UdcsStay, LetGo, GadgetStep, SchemeStep, FunctionStep, FunctionImportStep, ConfigStep,
      ConfigImportStep, BindStep, UnbindStep, SetOsStep, ClearOsStep, DropConfigStep, DropFunctionStep, DropGadgetStep, KernelStep,
      AttrsFit, RecordFits, FunctionName, ConfigName, Noticed;
    match r
    case Attach(g, udc) => AttachMatched(e, v, g, udc, w, o, quiet);
    case Detach(g) =>
      LetGoMatched(e, v, g);
      TreeUnmatched(LetGo(v, g), WithUdc(v.tree, g, ""));
    case AskUdc(g) => LetGoMatched(e, v, g);
    case AskGadget(u) =>
      if u in v.owners {
        OwnerHas(e, v, u);
        LetGoMatched(e, v, v.owners[u]);
      }
    case _ =>
      OtherStepsStay(e, v, r, w, o, quiet);
      UdcsStayMatched(v, w);
  }

  lemma TreeUnmatched(v: View, t: Tree)
    ensures MatchedView(v.(tree := t)) <==> MatchedView(v)
  {}
}
