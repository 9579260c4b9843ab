/** The configfs directory tree as the kernel keeps it, and the system calls the library makes on it.

    Assumed rules of configfs:
    - a directory the kernel makes comes with its attribute files and default groups;
    - rmdir fails on a directory that holds links or directories made by the user,
      and on a directory that is the target of a link;
    - a link in a configuration leads to a function of the same gadget, the link in `os_desc`
      leads to a configuration of the same gadget, and there is at most one of the latter;
    - a new gadget's UDC file is empty, and a UDC is given to at most one gadget;
    - besides the library only the kernel writes, and only to detach a gadget from its UDC.
    Every system call may instead fail with an error of the environment's choosing, without effect. */
module Kernel {
  import opened Errors
  import opened Text
  import opened Names

  type Files = map<string, string>

  /** The kernel numbers the LUNs of a mass storage function from 0 to 15. */
  type LunId = i: int | 0 <= i < 16

  datatype KFunction = KFunction(files: Files, luns: map<LunId, Files>, ifaces: map<string, Files>)

  /** `links`: link name to the name of the function directory it leads to. */
  datatype KConfig = KConfig(files: Files, langs: map<string, Files>, links: map<string, string>)

  datatype KGadget = KGadget(
    udc: string, files: Files, osDesc: Files, langs: map<string, Files>,
    functions: map<string, KFunction>, configs: map<string, KConfig>, osLinks: map<string, string>)

  type Tree = map<string, KGadget>

  /** What a freshly made directory of each kind contains. */
  datatype Defaults = Defaults(
    gadget: Files, osDesc: Files, gadgetLang: Files, config: Files, configLang: Files, lun: Files,
    functions: map<string, KFunction>)

  datatype Path =
    | GadgetDir(g: string)
    | OsDescDir(g: string)
    | GadgetLang(g: string, lang: string)
    | FunctionDir(g: string, f: string)
    | LunDir(g: string, f: string, lun: LunId)
    | IfaceDir(g: string, f: string, iface: string)
    | ConfigDir(g: string, c: string)
    | ConfigLang(g: string, c: string, lang: string)

  function NewGadget(d: Defaults): KGadget {
    KGadget("", d.gadget, d.osDesc, map[], map[], map[], map[])
  }

  /** A new function has no LUN but LUN 0, and a mass storage function has that one. */
  predicate LunDefaults(d: Defaults) {
    (forall n <- d.functions :: d.functions[n].luns.Keys <= {0}) &&
    (TypeName(MassStorage) in d.functions ==> 0 in d.functions[TypeName(MassStorage)].luns)
  }

  function NewConfig(d: Defaults): KConfig {
    KConfig(d.config, map[], map[])
  }

  predicate HasFunction(t: Tree, g: string, f: string) { g in t && f in t[g].functions }

  predicate HasConfig(t: Tree, g: string, c: string) { g in t && c in t[g].configs }

  predicate Exists(t: Tree, p: Path) {
    p.g in t &&
    match p
    case GadgetDir(g) => true
    case OsDescDir(g) => true
    case GadgetLang(g, l) => l in t[g].langs
    case FunctionDir(g, f) => f in t[g].functions
    case LunDir(g, f, i) => f in t[g].functions && i in t[g].functions[f].luns
    case IfaceDir(g, f, i) => f in t[g].functions && i in t[g].functions[f].ifaces
    case ConfigDir(g, c) => c in t[g].configs
    case ConfigLang(g, c, l) => c in t[g].configs && l in t[g].configs[c].langs
  }

  // ----- attribute files

  function FilesAt(t: Tree, p: Path): Files
    requires Exists(t, p)
  {
    match p
    case GadgetDir(g) => t[g].files
    case OsDescDir(g) => t[g].osDesc
    case GadgetLang(g, l) => t[g].langs[l]
    case FunctionDir(g, f) => t[g].functions[f].files
    case LunDir(g, f, i) => t[g].functions[f].luns[i]
    case IfaceDir(g, f, i) => t[g].functions[f].ifaces[i]
    case ConfigDir(g, c) => t[g].configs[c].files
    case ConfigLang(g, c, l) => t[g].configs[c].langs[l]
  }

  function SetFunction(t: Tree, g: string, f: string, k: KFunction): Tree
    requires g in t
  {
    t[g := t[g].(functions := t[g].functions[f := k])]
  }

  function WithLuns(t: Tree, g: string, f: string, luns: map<LunId, Files>): Tree
    requires HasFunction(t, g, f)
  {
    SetFunction(t, g, f, t[g].functions[f].(luns := luns))
  }

  function SetConfig(t: Tree, g: string, c: string, k: KConfig): Tree
    requires g in t
  {
    t[g := t[g].(configs := t[g].configs[c := k])]
  }

  function WithLinks(t: Tree, g: string, c: string, links: map<string, string>): Tree
    requires HasConfig(t, g, c)
  {
    SetConfig(t, g, c, t[g].configs[c].(links := links))
  }

  /** One configuration and the links in `os_desc` replaced. */
  function WithConfigAndOsLinks(t: Tree, g: string, c: string, k: KConfig, osLinks: map<string, string>): Tree
    requires g in t
  {
    t[g := t[g].(configs := t[g].configs[c := k], osLinks := osLinks)]
  }

  function SetFiles(t: Tree, p: Path, files: Files): Tree
    requires Exists(t, p)
  {
    match p
    case GadgetDir(g) => t[g := t[g].(files := files)]
    case OsDescDir(g) => t[g := t[g].(osDesc := files)]
    case GadgetLang(g, l) => t[g := t[g].(langs := t[g].langs[l := files])]
    case FunctionDir(g, f) => SetFunction(t, g, f, t[g].functions[f].(files := files))
    case LunDir(g, f, i) => SetFunction(t, g, f, t[g].functions[f].(luns := t[g].functions[f].luns[i := files]))
    case IfaceDir(g, f, i) => SetFunction(t, g, f, t[g].functions[f].(ifaces := t[g].functions[f].ifaces[i := files]))
    case ConfigDir(g, c) => SetConfig(t, g, c, t[g].configs[c].(files := files))
    case ConfigLang(g, c, l) => SetConfig(t, g, c, t[g].configs[c].(langs := t[g].configs[c].langs[l := files]))
  }

  function ReadError(t: Tree, p: Path, file: string): int {
    if Exists(t, p) && file in FilesAt(t, p) then SUCCESS else NOT_FOUND
  }

  function AfterWrite(t: Tree, p: Path, file: string, text: string): Tree
    requires Exists(t, p)
  {
    SetFiles(t, p, FilesAt(t, p)[file := text])
  }

  /** Nothing but the attribute files of `p` differs. */
  ghost predicate OnlyFiles(t: Tree, u: Tree, p: Path) {
    Exists(t, p) && Exists(u, p) && u == SetFiles(t, p, FilesAt(u, p))
  }

  lemma UpdateSame<K, V>(m: map<K, V>, k: K)
    requires k in m
    ensures m[k := m[k]] == m
  {}

  lemma UpdateTwice<K, V>(m: map<K, V>, k: K, v: V, w: V)
    ensures m[k := v][k := w] == m[k := w]
  {}

  /** Writing the files of a directory twice leaves the second contents. */
  lemma SetFilesTwice(t: Tree, p: Path, a: Files, b: Files)
    requires Exists(t, p)
    ensures Exists(SetFiles(t, p, a), p) && FilesAt(SetFiles(t, p, a), p) == a
    ensures SetFiles(SetFiles(t, p, a), p, b) == SetFiles(t, p, b)
  {
    var g := t[p.g];
    var u := SetFiles(t, p, a);
    UpdateTwice(t, p.g, u[p.g], SetFiles(t, p, b)[p.g]);
    match p
    case GadgetLang(_, l) => UpdateTwice(g.langs, l, a, b);
    case FunctionDir(_, f) => UpdateTwice(g.functions, f, g.functions[f].(files := a), g.functions[f].(files := b));
    case LunDir(_, f, i) =>
      UpdateTwice(g.functions[f].luns, i, a, b);
      UpdateTwice(g.functions, f, u[p.g].functions[f], SetFiles(t, p, b)[p.g].functions[f]);
    case IfaceDir(_, f, i) =>
      UpdateTwice(g.functions[f].ifaces, i, a, b);
      UpdateTwice(g.functions, f, u[p.g].functions[f], SetFiles(t, p, b)[p.g].functions[f]);
    case ConfigDir(_, c) => UpdateTwice(g.configs, c, g.configs[c].(files := a), g.configs[c].(files := b));
    case ConfigLang(_, c, l) =>
      UpdateTwice(g.configs[c].langs, l, a, b);
      UpdateTwice(g.configs, c, u[p.g].configs[c], SetFiles(t, p, b)[p.g].configs[c]);
    case _ =>
  }

  lemma SetFilesSame(t: Tree, p: Path)
    requires Exists(t, p)
    ensures SetFiles(t, p, FilesAt(t, p)) == t
  {
    var g := t[p.g];
    UpdateSame(t, p.g);
    match p
    case GadgetLang(_, l) => UpdateSame(g.langs, l);
    case FunctionDir(_, f) => UpdateSame(g.functions, f);
    case LunDir(_, f, i) => UpdateSame(g.functions[f].luns, i); UpdateSame(g.functions, f);
    case IfaceDir(_, f, i) => UpdateSame(g.functions[f].ifaces, i); UpdateSame(g.functions, f);
    case ConfigDir(_, c) => UpdateSame(g.configs, c);
    case ConfigLang(_, c, l) => UpdateSame(g.configs[c].langs, l); UpdateSame(g.configs, c);
    case _ =>
  }

  lemma OnlyFilesTransitive(t: Tree, u: Tree, v: Tree, p: Path)
    requires OnlyFiles(t, u, p) && OnlyFiles(u, v, p)
    ensures OnlyFiles(t, v, p)
  {
    SetFilesTwice(t, p, FilesAt(u, p), FilesAt(v, p));
  }

  lemma WriteTouchesOnly(t: Tree, p: Path, file: string, text: string)
    requires Exists(t, p)
    ensures OnlyFiles(t, AfterWrite(t, p, file, text), p)
    ensures FilesAt(AfterWrite(t, p, file, text), p) == FilesAt(t, p)[file := text]
  {
    SetFilesTwice(t, p, FilesAt(t, p)[file := text], map[]);
  }

  /** Nothing outside one gadget's directory differs, and its UDC file does not. */
  ghost predicate OnlyGadget(t: Tree, u: Tree, g: string) {
    g in t && g in u && u == t[g := u[g]] && u[g].udc == t[g].udc
  }

  lemma OnlyGadgetHas(t: Tree, u: Tree, g: string)
    requires OnlyGadget(t, u, g)
    ensures g in t && g in u
  {}

  lemma OnlyGadgetReflexive(t: Tree, g: string)
    requires g in t
    ensures OnlyGadget(t, t, g)
  {
    UpdateSame(t, g);
  }

  lemma OnlyGadgetTransitive(t: Tree, u: Tree, v: Tree, g: string)
    requires OnlyGadget(t, u, g) && OnlyGadget(u, v, g)
    ensures OnlyGadget(t, v, g)
  {
    UpdateTwice(t, g, u[g], v[g]);
  }

  /** The names of directories and the links are the same; attribute files, languages and LUNs may differ. */
  ghost predicate SameShape(k: KGadget, l: KGadget) {
    l.functions.Keys == k.functions.Keys && l.configs.Keys == k.configs.Keys && l.osLinks == k.osLinks &&
    forall c <- k.configs :: l.configs[c].links == k.configs[c].links
  }

  /** The same, with directories added. */
  ghost predicate Grown(k: KGadget, l: KGadget) {
    k.functions.Keys <= l.functions.Keys && k.configs.Keys <= l.configs.Keys && l.osLinks == k.osLinks &&
    forall c <- k.configs :: l.configs[c].links == k.configs[c].links
  }

  lemma OnlyFunctionSameShape(t: Tree, u: Tree, g: string, f: string)
    requires OnlyFunction(t, u, g, f)
    ensures OnlyGadget(t, u, g) && SameShape(t[g], u[g]) && u[g].udc == t[g].udc
  {}

  /** Nothing but the contents of one function directory differs. */
  ghost predicate OnlyFunction(t: Tree, u: Tree, g: string, f: string) {
    HasFunction(t, g, f) && HasFunction(u, g, f) && u == SetFunction(t, g, f, u[g].functions[f])
  }

  lemma OnlyFunctionReflexive(t: Tree, g: string, f: string)
    requires HasFunction(t, g, f)
    ensures OnlyFunction(t, t, g, f)
  {
    UpdateSame(t, g);
    UpdateSame(t[g].functions, f);
  }

  lemma OnlyFunctionTransitive(t: Tree, u: Tree, v: Tree, g: string, f: string)
    requires OnlyFunction(t, u, g, f) && OnlyFunction(u, v, g, f)
    ensures OnlyFunction(t, v, g, f)
  {
    UpdateTwice(t[g].functions, f, u[g].functions[f], v[g].functions[f]);
    UpdateTwice(t, g, u[g], v[g]);
  }

  lemma OnlyLunsOnlyFunction(t: Tree, u: Tree, g: string, f: string)
    requires OnlyLuns(t, u, g, f)
    ensures OnlyFunction(t, u, g, f) && u[g].functions[f] == t[g].functions[f].(luns := u[g].functions[f].luns)
  {}

  lemma FilesOnlyFunction(t: Tree, u: Tree, g: string, f: string)
    requires OnlyFiles(t, u, FunctionDir(g, f))
    ensures OnlyFunction(t, u, g, f) && u[g].functions[f] == t[g].functions[f].(files := u[g].functions[f].files)
  {}

  /** Nothing but the LUN directories of a function differs. */
  ghost predicate OnlyLuns(t: Tree, u: Tree, g: string, f: string) {
    HasFunction(t, g, f) && HasFunction(u, g, f) && u == WithLuns(t, g, f, u[g].functions[f].luns)
  }

  lemma OnlyLunsThere(t: Tree, u: Tree, g: string, f: string)
    requires OnlyLuns(t, u, g, f)
    ensures HasFunction(t, g, f) && HasFunction(u, g, f)
    ensures u[g].functions[f] == t[g].functions[f].(luns := u[g].functions[f].luns)
  {}

  lemma OnlyFilesThere(t: Tree, u: Tree, g: string, f: string)
    requires HasFunction(t, g, f) && OnlyFiles(t, u, FunctionDir(g, f))
    ensures HasFunction(u, g, f) && u[g].functions[f] == t[g].functions[f].(files := u[g].functions[f].files)
  {}

  lemma FunctionFilesAt(t: Tree, g: string, f: string)
    requires HasFunction(t, g, f)
    ensures FilesAt(t, FunctionDir(g, f)) == t[g].functions[f].files
  {}

  lemma OnlyLunsReflexive(t: Tree, g: string, f: string)
    requires HasFunction(t, g, f)
    ensures OnlyLuns(t, t, g, f)
  {
    UpdateSame(t, g);
    UpdateSame(t[g].functions, f);
  }

  lemma WithLunsTwice(t: Tree, g: string, f: string, a: map<LunId, Files>, b: map<LunId, Files>)
    requires HasFunction(t, g, f)
    ensures WithLuns(WithLuns(t, g, f, a), g, f, b) == WithLuns(t, g, f, b)
  {
    var k := t[g].functions[f];
    UpdateTwice(t[g].functions, f, k.(luns := a), k.(luns := b));
    UpdateTwice(t, g, WithLuns(t, g, f, a)[g], WithLuns(t, g, f, b)[g]);
  }

  lemma OnlyLunsTransitive(t: Tree, u: Tree, v: Tree, g: string, f: string)
    requires OnlyLuns(t, u, g, f) && OnlyLuns(u, v, g, f)
    ensures OnlyLuns(t, v, g, f)
  {
    WithLunsTwice(t, g, f, u[g].functions[f].luns, v[g].functions[f].luns);
  }

  /** Writing the files of one LUN changes the LUN directories only, and of these only that one. */
  lemma LunFilesOnlyLuns(t: Tree, u: Tree, g: string, f: string, i: LunId)
    requires OnlyFiles(t, u, LunDir(g, f, i))
    ensures OnlyLuns(t, u, g, f)
    ensures u[g].functions[f].luns == t[g].functions[f].luns[i := u[g].functions[f].luns[i]]
  {}

  // ----- directories

  /** One path component: no separator, not empty, not `.` or `..`. */
  predicate ValidName(n: string) {
    n != "" && n != "." && n != ".." && '/' !in n
  }

  /** The part of a function directory's name that selects the kernel module. */
  function TypePart(f: string): string { f[..FirstIndex(f, '.')] }

  function MkdirError(t: Tree, p: Path, d: Defaults): int {
    if Exists(t, p) then EXIST
    else match p
      case GadgetDir(g) => if ValidName(g) then SUCCESS else INVALID_PARAM
      case GadgetLang(g, l) => if g !in t then NOT_FOUND else if ValidName(l) then SUCCESS else INVALID_PARAM
      case FunctionDir(g, f) =>
        if g !in t || TypePart(f) !in d.functions then NOT_FOUND else if ValidName(f) then SUCCESS else INVALID_PARAM
      case LunDir(g, f, i) =>
        if !HasFunction(t, g, f) || 0 !in t[g].functions[f].luns then NOT_FOUND
        else SUCCESS
      case ConfigDir(g, c) => if g !in t then NOT_FOUND else if ValidName(c) then SUCCESS else INVALID_PARAM
      case ConfigLang(g, c, l) =>
        if !HasConfig(t, g, c) then NOT_FOUND else if ValidName(l) then SUCCESS else INVALID_PARAM
      case _ => NOT_FOUND
  }

  function AfterMkdir(t: Tree, p: Path, d: Defaults): Tree
    requires MkdirError(t, p, d) == SUCCESS
  {
    match p
    case GadgetDir(g) => t[g := NewGadget(d)]
    case GadgetLang(g, l) => t[g := t[g].(langs := t[g].langs[l := d.gadgetLang])]
    case FunctionDir(g, f) => SetFunction(t, g, f, d.functions[TypePart(f)])
    case LunDir(g, f, i) => SetFunction(t, g, f, t[g].functions[f].(luns := t[g].functions[f].luns[i := d.lun]))
    case ConfigDir(g, c) => SetConfig(t, g, c, NewConfig(d))
    case ConfigLang(g, c, l) => SetConfig(t, g, c, t[g].configs[c].(langs := t[g].configs[c].langs[l := d.configLang]))
  }

  predicate Linked(k: KGadget, f: string) {
    exists c <- k.configs :: f in k.configs[c].links.Values
  }

  function RmdirError(t: Tree, p: Path): int {
    if !Exists(t, p) then NOT_FOUND
    else match p
      case GadgetDir(g) =>
        if t[g].functions == map[] && t[g].configs == map[] && t[g].langs == map[] && t[g].osLinks == map[]
        then SUCCESS else NOT_EMPTY
      case GadgetLang(g, l) => SUCCESS
      case FunctionDir(g, f) =>
        if t[g].functions[f].luns.Keys - {0} != {} then NOT_EMPTY
        else if Linked(t[g], f) then BUSY else SUCCESS
      case LunDir(g, f, i) => if i == 0 then NOT_SUPPORTED else SUCCESS
      case ConfigDir(g, c) =>
        if t[g].configs[c].langs != map[] || t[g].configs[c].links != map[] then NOT_EMPTY
        else if c in t[g].osLinks.Values then BUSY else SUCCESS
      case ConfigLang(g, c, l) => SUCCESS
      case _ => NOT_SUPPORTED
  }

  function AfterRmdir(t: Tree, p: Path): Tree
    requires RmdirError(t, p) == SUCCESS
  {
    match p
    case GadgetDir(g) => t - {g}
    case GadgetLang(g, l) => t[g := t[g].(langs := t[g].langs - {l})]
    case FunctionDir(g, f) => t[g := t[g].(functions := t[g].functions - {f})]
    case LunDir(g, f, i) => SetFunction(t, g, f, t[g].functions[f].(luns := t[g].functions[f].luns - {i}))
    case ConfigDir(g, c) => t[g := t[g].(configs := t[g].configs - {c})]
    case ConfigLang(g, c, l) => SetConfig(t, g, c, t[g].configs[c].(langs := t[g].configs[c].langs - {l}))
  }

  lemma WithConfigAndOsLinksTwice(t: Tree, g: string, c: string, k: KConfig, o: map<string, string>,
                                  l: KConfig, p: map<string, string>)
    requires g in t
    ensures var u := WithConfigAndOsLinks(t, g, c, k, o);
      HasConfig(u, g, c) && u[g].configs[c] == k && u[g].osLinks == o &&
      WithConfigAndOsLinks(u, g, c, l, p) == WithConfigAndOsLinks(t, g, c, l, p)
  {
    var u := WithConfigAndOsLinks(t, g, c, k, o);
    UpdateTwice(t[g].configs, c, k, l);
    UpdateTwice(t, g, u[g], WithConfigAndOsLinks(t, g, c, l, p)[g]);
  }

  lemma WithConfigAndOsLinksParts(t: Tree, g: string, c: string, k: KConfig, o: map<string, string>)
    requires g in t
    ensures var u := WithConfigAndOsLinks(t, g, c, k, o); HasConfig(u, g, c) && u[g].configs[c] == k && u[g].osLinks == o
  {}

  /** Changing the links, or the languages, of a configuration seen as replacing the configuration. */
  lemma LinksReplaceConfig(t: Tree, g: string, c: string, links: map<string, string>)
    requires HasConfig(t, g, c)
    ensures WithLinks(t, g, c, links) == WithConfigAndOsLinks(t, g, c, t[g].configs[c].(links := links), t[g].osLinks)
  {}

  lemma LangsReplaceConfig(t: Tree, g: string, c: string, langs: map<string, Files>)
    requires HasConfig(t, g, c)
    ensures SetLangs(t, ConfigLangs(g, c), langs) ==
      WithConfigAndOsLinks(t, g, c, t[g].configs[c].(langs := langs), t[g].osLinks)
  {}

  lemma OsLinksReplaceConfig(t: Tree, g: string, c: string, o: map<string, string>)
    requires HasConfig(t, g, c)
    ensures t[g := t[g].(osLinks := o)] == WithConfigAndOsLinks(t, g, c, t[g].configs[c], o)
  {
    UpdateSame(t[g].configs, c);
  }

  lemma LangsKeepShape(t: Tree, g: string, c: string, langs: map<string, Files>)
    requires HasConfig(t, g, c)
    ensures var u := SetLangs(t, ConfigLangs(g, c), langs); OnlyGadget(t, u, g) && SameShape(t[g], u[g])
  {}

  lemma WithConfigAndOsLinksSame(t: Tree, g: string, c: string)
    requires HasConfig(t, g, c)
    ensures WithConfigAndOsLinks(t, g, c, t[g].configs[c], t[g].osLinks) == t
  {
    UpdateSame(t[g].configs, c);
    UpdateSame(t, g);
  }

  /** A gadget in which only links of configurations are missing. */
  ghost predicate FewerLinks(k: KGadget, l: KGadget) {
    l == k.(configs := l.configs) && l.configs.Keys == k.configs.Keys &&
    forall c <- k.configs :: l.configs[c] == k.configs[c].(links := l.configs[c].links) && SubMap(l.configs[c].links, k.configs[c].links)
  }

  lemma FewerLinksStep(t: Tree, u: Tree, g: string, c: string, links: map<string, string>)
    requires OnlyGadget(t, u, g) && FewerLinks(t[g], u[g])
    requires HasConfig(u, g, c) && SubMap(links, u[g].configs[c].links)
    ensures var v := WithLinks(u, g, c, links);
      OnlyGadget(t, v, g) && FewerLinks(t[g], v[g]) && v[g].configs == u[g].configs[c := v[g].configs[c]]
  {
    UpdateTwice(t, g, u[g], WithLinks(u, g, c, links)[g]);
  }

  // ----- links

  lemma WithLinksHas(t: Tree, g: string, c: string, links: map<string, string>)
    requires HasConfig(t, g, c)
    ensures HasConfig(WithLinks(t, g, c, links), g, c) && WithLinks(t, g, c, links)[g].configs[c].links == links
  {}

  lemma WithLinksTwice(t: Tree, g: string, c: string, a: map<string, string>, b: map<string, string>)
    requires HasConfig(t, g, c)
    ensures HasConfig(WithLinks(t, g, c, a), g, c) && WithLinks(t, g, c, a)[g].configs[c].links == a
    ensures WithLinks(WithLinks(t, g, c, a), g, c, b) == WithLinks(t, g, c, b)
  {
    var k := t[g].configs[c];
    UpdateTwice(t[g].configs, c, k.(links := a), k.(links := b));
    UpdateTwice(t, g, WithLinks(t, g, c, a)[g], WithLinks(t, g, c, b)[g]);
  }

  lemma WithLinksSame(t: Tree, g: string, c: string)
    requires HasConfig(t, g, c)
    ensures WithLinks(t, g, c, t[g].configs[c].links) == t
  {
    UpdateSame(t[g].configs, c);
    UpdateSame(t, g);
  }

  function LinkError(t: Tree, g: string, c: string, name: string, target: Path): int {
    if !HasConfig(t, g, c) || target.g !in t || !target.FunctionDir? || !Exists(t, target) then NOT_FOUND
    else if name in t[g].configs[c].links then EXIST
    else if !ValidName(name) || target.g != g then INVALID_PARAM
    else SUCCESS
  }

  function AfterLink(t: Tree, g: string, c: string, name: string, f: string): Tree
    requires HasConfig(t, g, c)
  {
    WithLinks(t, g, c, t[g].configs[c].links[name := f])
  }

  function UnlinkError(t: Tree, g: string, c: string, name: string): int {
    if HasConfig(t, g, c) && name in t[g].configs[c].links then SUCCESS else NOT_FOUND
  }

  function AfterUnlink(t: Tree, g: string, c: string, name: string): Tree
    requires HasConfig(t, g, c)
  {
    WithLinks(t, g, c, t[g].configs[c].links - {name})
  }

  function OsLinkError(t: Tree, g: string, target: Path): int {
    if g !in t || !target.ConfigDir? || !Exists(t, target) then NOT_FOUND
    else if target.g != g then INVALID_PARAM
    else if t[g].osLinks != map[] then BUSY
    else SUCCESS
  }

  function OsUnlinkError(t: Tree, g: string, name: string): int {
    if g in t && name in t[g].osLinks then SUCCESS else NOT_FOUND
  }

  // ----- the UDC file

  function UdcError(t: Tree, g: string, udc: string, udcs: set<string>): int {
    if g !in t then NOT_FOUND
    else if udc != "" && udc !in udcs then NOT_FOUND
    else if udc != "" && exists h <- t :: h != g && t[h].udc == udc then BUSY
    else SUCCESS
  }

  /** The kernel's own rule about UDCs. */
  ghost predicate UdcsExclusive(t: Tree) {
    forall g <- t, h <- t :: g != h && t[g].udc != "" ==> t[h].udc != t[g].udc
  }

  // ----- directory listings

  datatype Listing =
    | Gadgets
    | Functions(g: string)
    | Configs(g: string)
    | GadgetLangs(g: string)
    | ConfigLangs(g: string, c: string)
    | Links(g: string, c: string)
    | OsLinks(g: string)

  function Listed(t: Tree, d: Listing): Option<set<string>> {
    match d
    case Gadgets => Some(t.Keys)
    case Functions(g) => if g in t then Some(t[g].functions.Keys) else None
    case Configs(g) => if g in t then Some(t[g].configs.Keys) else None
    case GadgetLangs(g) => if g in t then Some(t[g].langs.Keys) else None
    case ConfigLangs(g, c) => if HasConfig(t, g, c) then Some(t[g].configs[c].langs.Keys) else None
    case Links(g, c) => if HasConfig(t, g, c) then Some(t[g].configs[c].links.Keys) else None
    case OsLinks(g) => if g in t then Some(t[g].osLinks.Keys) else None
  }

  /** The mounted file system. `faults` holds one entry per coming system call: a negative entry makes
      that call fail with it; when the entries are used up no more calls are made to fail. */
  class ConfigFs {
    var tree: Tree
    var faults: seq<int>
    const defaults: Defaults
    const udcs: set<string>

    constructor (tree: Tree, faults: seq<int>, defaults: Defaults, udcs: set<string>)
      ensures this.tree == tree && this.faults == faults && this.defaults == defaults && this.udcs == udcs
    {
      this.tree, this.faults, this.defaults, this.udcs := tree, faults, defaults, udcs;
    }

    predicate Quiet()
      reads `faults
    {
      faults == []
    }

    /** Decides the outcome of a system call that would otherwise report `error`. */
    method Outcome(error: int) returns (ret: int)
      requires error <= 0
      modifies `faults
      ensures ret <= 0
      ensures ret == 0 ==> error == 0
      ensures old(Quiet()) ==> Quiet() && ret == error
    {
      ret := error;
      if faults != [] {
        if faults[0] < 0 { ret := faults[0]; }
        faults := faults[1..];
      }
    }

    method Mkdir(p: Path) returns (ret: int)
      modifies this
      ensures ret <= 0
      ensures ret == 0 ==> MkdirError(old(tree), p, defaults) == SUCCESS && tree == AfterMkdir(old(tree), p, defaults)
      ensures ret != 0 ==> tree == old(tree)
      ensures old(Quiet()) ==> Quiet() && ret == MkdirError(old(tree), p, defaults)
    {
      ret := Outcome(MkdirError(tree, p, defaults));
      if ret == 0 { tree := AfterMkdir(tree, p, defaults); }
    }

    method Rmdir(p: Path) returns (ret: int)
      modifies this
      ensures ret <= 0
      ensures ret == 0 ==> RmdirError(old(tree), p) == SUCCESS && tree == AfterRmdir(old(tree), p)
      ensures ret != 0 ==> tree == old(tree)
      ensures old(Quiet()) ==> Quiet() && ret == RmdirError(old(tree), p)
    {
      ret := Outcome(RmdirError(tree, p));
      if ret == 0 { tree := AfterRmdir(tree, p); }
    }

    /** `opendir`: does the directory exist? */
    method Opendir(p: Path) returns (ret: int)
      modifies `faults
      ensures ret <= 0
      ensures ret == 0 ==> Exists(tree, p)
      ensures old(Quiet()) ==> Quiet() && ret == if Exists(tree, p) then SUCCESS else NOT_FOUND
    {
      ret := Outcome(if Exists(tree, p) then SUCCESS else NOT_FOUND);
    }

    method Read(p: Path, file: string) returns (ret: int, text: string)
      modifies `faults
      ensures ret <= 0
      ensures ret == 0 ==> ReadError(tree, p, file) == SUCCESS && text == FilesAt(tree, p)[file]
      ensures old(Quiet()) ==> Quiet() && ret == ReadError(tree, p, file)
    {
      ret := Outcome(ReadError(tree, p, file));
      text := if ret == 0 then FilesAt(tree, p)[file] else "";
    }

    method Write(p: Path, file: string, text: string) returns (ret: int)
      modifies this
      ensures ret <= 0
      ensures ret == 0 ==> ReadError(old(tree), p, file) == SUCCESS && tree == AfterWrite(old(tree), p, file, text)
      ensures ret != 0 ==> tree == old(tree)
      ensures old(Quiet()) ==> Quiet() && ret == ReadError(old(tree), p, file)
    {
      ret := Outcome(ReadError(tree, p, file));
      if ret == 0 { tree := AfterWrite(tree, p, file, text); }
    }

    method Symlink(target: Path, g: string, c: string, name: string) returns (ret: int)
      modifies this
      ensures ret <= 0
      ensures ret == 0 ==> LinkError(old(tree), g, c, name, target) == SUCCESS
      ensures ret == 0 ==> tree == AfterLink(old(tree), g, c, name, target.f)
      ensures ret != 0 ==> tree == old(tree)
      ensures old(Quiet()) ==> Quiet() && ret == LinkError(old(tree), g, c, name, target)
    {
      ret := Outcome(LinkError(tree, g, c, name, target));
      if ret == 0 { tree := AfterLink(tree, g, c, name, target.f); }
    }

    method Unlink(g: string, c: string, name: string) returns (ret: int)
      modifies this
      ensures ret <= 0
      ensures ret == 0 ==> UnlinkError(old(tree), g, c, name) == SUCCESS && tree == AfterUnlink(old(tree), g, c, name)
      ensures ret != 0 ==> tree == old(tree)
      ensures old(Quiet()) ==> Quiet() && ret == UnlinkError(old(tree), g, c, name)
    {
      ret := Outcome(UnlinkError(tree, g, c, name));
      if ret == 0 { tree := AfterUnlink(tree, g, c, name); }
    }

    method SymlinkOsDesc(target: Path, g: string, name: string) returns (ret: int)
      modifies this
      ensures ret <= 0
      ensures ret == 0 ==> OsLinkError(old(tree), g, target) == SUCCESS
      ensures ret == 0 ==> tree == old(tree)[g := old(tree)[g].(osLinks := map[name := target.c])]
      ensures ret != 0 ==> tree == old(tree)
      ensures old(Quiet()) ==> Quiet() && ret == OsLinkError(old(tree), g, target)
    {
      ret := Outcome(OsLinkError(tree, g, target));
      if ret == 0 { tree := tree[g := tree[g].(osLinks := map[name := target.c])]; }
    }

    method UnlinkOsDesc(g: string, name: string) returns (ret: int)
      modifies this
      ensures ret <= 0
      ensures ret == 0 ==> OsUnlinkError(old(tree), g, name) == SUCCESS
      ensures ret == 0 ==> tree == old(tree)[g := old(tree)[g].(osLinks := old(tree)[g].osLinks - {name})]
      ensures ret != 0 ==> tree == old(tree)
      ensures old(Quiet()) ==> Quiet() && ret == OsUnlinkError(old(tree), g, name)
    {
      ret := Outcome(OsUnlinkError(tree, g, name));
      if ret == 0 { tree := tree[g := tree[g].(osLinks := tree[g].osLinks - {name})]; }
    }

    /** `readlink`, cut down to the last component of the path it returns. */
    method Readlink(g: string, c: string, name: string) returns (ret: int, target: string)
      modifies `faults
      ensures ret <= 0
      ensures ret == 0 ==> UnlinkError(tree, g, c, name) == SUCCESS && target == tree[g].configs[c].links[name]
      ensures old(Quiet()) ==> Quiet() && ret == UnlinkError(tree, g, c, name)
    {
      ret := Outcome(UnlinkError(tree, g, c, name));
      target := if ret == 0 then tree[g].configs[c].links[name] else "";
    }

    method ReadlinkOsDesc(g: string, name: string) returns (ret: int, target: string)
      modifies `faults
      ensures ret <= 0
      ensures ret == 0 ==> OsUnlinkError(tree, g, name) == SUCCESS && target == tree[g].osLinks[name]
      ensures old(Quiet()) ==> Quiet() && ret == OsUnlinkError(tree, g, name)
    {
      ret := Outcome(OsUnlinkError(tree, g, name));
      target := if ret == 0 then tree[g].osLinks[name] else "";
    }

    method ReadUdc(g: string) returns (ret: int, udc: string)
      modifies `faults
      ensures ret <= 0
      ensures ret == 0 ==> g in tree && udc == tree[g].udc
      ensures old(Quiet()) ==> Quiet() && ret == if g in tree then SUCCESS else NOT_FOUND
    {
      ret := Outcome(if g in tree then SUCCESS else NOT_FOUND);
      udc := if ret == 0 then tree[g].udc else "";
    }

    /** Writing the name of a UDC attaches the gadget, writing an empty line detaches it. */
    method WriteUdc(g: string, udc: string) returns (ret: int)
      modifies this
      ensures ret <= 0
      ensures ret == 0 ==> UdcError(old(tree), g, udc, udcs) == SUCCESS && tree == old(tree)[g := old(tree)[g].(udc := udc)]
      ensures ret != 0 ==> tree == old(tree)
      ensures old(Quiet()) ==> Quiet() && ret == UdcError(old(tree), g, udc, udcs)
    {
      ret := Outcome(UdcError(tree, g, udc, udcs));
      if ret == 0 { tree := tree[g := tree[g].(udc := udc)]; }
    }

    /** Something the kernel does on its own: it takes the gadget off its UDC. */
    method Detach(g: string)
      modifies `tree
      ensures tree == if g in old(tree) then old(tree)[g := old(tree)[g].(udc := "")] else old(tree)
    {
      if g in tree { tree := tree[g := tree[g].(udc := "")]; }
    }

    /** `scandir` with `alphasort`. */
    method Scandir(d: Listing) returns (ret: int, names: seq<string>)
      modifies `faults
      ensures ret <= 0
      ensures ret == 0 ==> Listed(tree, d).Some? && names == SortedKeys(Listed(tree, d).value)
      ensures old(Quiet()) ==> Quiet() && ret == if Listed(tree, d).Some? then SUCCESS else NOT_FOUND
    {
      ret := Outcome(if Listed(tree, d).Some? then SUCCESS else NOT_FOUND);
      names := [];
      if ret == 0 { names := SortNames(Listed(tree, d).value); }
    }

    method ScanUdcs() returns (ret: int, names: seq<string>)
      modifies `faults
      ensures ret <= 0
      ensures ret == 0 ==> names == SortedKeys(udcs)
      ensures old(Quiet()) ==> Quiet() && ret == SUCCESS
    {
      ret := Outcome(SUCCESS);
      names := [];
      if ret == 0 { names := SortNames(udcs); }
    }

    /** The LUN directories of a function, by number. */
    method ScanLuns(g: string, f: string) returns (ret: int, luns: set<LunId>)
      modifies `faults
      ensures ret <= 0
      ensures ret == 0 ==> HasFunction(tree, g, f) && luns == tree[g].functions[f].luns.Keys
      ensures old(Quiet()) ==> Quiet() && ret == if HasFunction(tree, g, f) then SUCCESS else NOT_FOUND
    {
      ret := Outcome(if HasFunction(tree, g, f) then SUCCESS else NOT_FOUND);
      luns := if ret == 0 then tree[g].functions[f].luns.Keys else {};
    }
  }

  // ----- the language directories of a gadget or a configuration

  predicate HasLangs(t: Tree, d: Listing) {
    (d.GadgetLangs? && d.g in t) || (d.ConfigLangs? && HasConfig(t, d.g, d.c))
  }

  function LangsAt(t: Tree, d: Listing): map<string, Files>
    requires HasLangs(t, d)
  {
    if d.GadgetLangs? then t[d.g].langs else t[d.g].configs[d.c].langs
  }

  function SetLangs(t: Tree, d: Listing, langs: map<string, Files>): Tree
    requires HasLangs(t, d)
  {
    if d.GadgetLangs? then t[d.g := t[d.g].(langs := langs)]
    else SetConfig(t, d.g, d.c, t[d.g].configs[d.c].(langs := langs))
  }

  function LangDir(d: Listing, lang: string): Path
    requires d.GadgetLangs? || d.ConfigLangs?
  {
    if d.GadgetLangs? then GadgetLang(d.g, lang) else ConfigLang(d.g, d.c, lang)
  }

  lemma SetLangsTwice(t: Tree, d: Listing, a: map<string, Files>, b: map<string, Files>)
    requires HasLangs(t, d)
    ensures HasLangs(SetLangs(t, d, a), d) && LangsAt(SetLangs(t, d, a), d) == a
    ensures SetLangs(SetLangs(t, d, a), d, b) == SetLangs(t, d, b)
  {
    UpdateTwice(t, d.g, SetLangs(t, d, a)[d.g], SetLangs(t, d, b)[d.g]);
    if d.ConfigLangs? {
      var k := t[d.g].configs[d.c];
      UpdateTwice(t[d.g].configs, d.c, k.(langs := a), k.(langs := b));
    }
  }

  lemma SetLangsSame(t: Tree, d: Listing)
    requires HasLangs(t, d)
    ensures SetLangs(t, d, LangsAt(t, d)) == t
  {
    UpdateSame(t, d.g);
    if d.ConfigLangs? { UpdateSame(t[d.g].configs, d.c); }
  }

  ghost predicate SubMap<K, V>(a: map<K, V>, b: map<K, V>) {
    forall k <- a :: k in b && a[k] == b[k]
  }

  method RmLang(fs: ConfigFs, d: Listing, lang: string) returns (ret: int)
    requires HasLangs(fs.tree, d)
    modifies fs
    ensures ret <= 0
    ensures fs.tree == if ret == 0 then SetLangs(old(fs.tree), d, LangsAt(old(fs.tree), d) - {lang}) else old(fs.tree)
    ensures old(fs.Quiet()) ==> fs.Quiet()
    ensures old(fs.Quiet()) && lang in LangsAt(old(fs.tree), d) ==> ret == 0
  {
    ret := fs.Rmdir(LangDir(d, lang));
  }

  lemma LangsListed(t: Tree, d: Listing)
    requires HasLangs(t, d)
    ensures Listed(t, d) == Some(LangsAt(t, d).Keys)
  {}

  /** `usbg_rm_all_dirs`: removes the language directories one by one and stops at the first failure. */
  method RmAllDirs(fs: ConfigFs, d: Listing) returns (ret: int)
    requires HasLangs(fs.tree, d)
    modifies fs
    ensures ret <= 0 && HasLangs(fs.tree, d)
    ensures fs.tree == SetLangs(old(fs.tree), d, LangsAt(fs.tree, d))
    ensures SubMap(LangsAt(fs.tree, d), LangsAt(old(fs.tree), d))
    ensures ret == 0 ==> LangsAt(fs.tree, d) == map[]
    ensures old(fs.Quiet()) ==> fs.Quiet() && ret == 0
  {
    hide SetLangs, LangsAt, HasLangs, Listed, LangDir, SortedKeys;
    SetLangsSame(fs.tree, d);
    ghost var langs := LangsAt(fs.tree, d);
    LangsListed(fs.tree, d);
    var names;
    ret, names := fs.Scandir(d);
    if ret != 0 { return; }
    var i := 0;
    while i < |names|
      invariant 0 <= i <= |names| && ret <= 0 && HasLangs(fs.tree, d)
      invariant fs.tree == SetLangs(old(fs.tree), d, LangsAt(fs.tree, d))
      invariant SubMap(LangsAt(fs.tree, d), langs)
      invariant ret == 0 ==> LangsAt(fs.tree, d).Keys == Elements(names[i..])
      invariant old(fs.Quiet()) ==> fs.Quiet() && ret == 0
    {
      if ret == 0 {
        ghost var here := LangsAt(fs.tree, d);
        assert names[i] in names[i..];
        assert Sorted(names[i..]) && names[i..][1..] == names[i + 1..];
        TailElements(names[i..]);
        ret := RmLang(fs, d, names[i]);
        SetLangsTwice(old(fs.tree), d, here, here - {names[i]});
        SetLangsTwice(old(fs.tree), d, here - {names[i]}, here);
      }
      i := i + 1;
    }
  }

  method SortNames(keys: set<string>) returns (names: seq<string>)
    ensures names == SortedKeys(keys)
  {
    names := [];
    var rest := keys;
    while rest != {}
      invariant rest <= keys && Sorted(names) && Elements(names) == keys - rest
      decreases rest
    {
      var k :| k in rest;
      assert k !in Elements(names);
      names := Placed(names, k);
      rest := rest - {k};
    }
    SortedUnique(names, SortedKeys(keys));
  }
}
