/** Gadget schemes: what an export of a gadget's directory is, and what importing a scheme makes of a gadget.
    These are the specifications of the two walks; `labels` gives the functions that carry a label of their own. */
module Schemes {
  import opened Errors
  import opened Text
  import opened Numbers
  import opened Names
  import opened Settings
  import opened Kernel
  import opened Attributes
  import opened MassStorage
  import opened Records
  import opened Strings
  import opened OsDescs

  const MAX_NAME := 40

  type Labels = map<string, string>

  // ----- names taken apart

  ghost predicate IsFunctionName(name: string) {
    exists t, i :: i != "" && name == FunctionName(t, i)
  }

  ghost function FunctionKeyOf(name: string): (key: FunctionKey)
    requires IsFunctionName(name)
    ensures key.instance != "" && name == FunctionName(key.ftype, key.instance)
  {
    var t, i :| i != "" && name == FunctionName(t, i);
    FunctionKey(t, i)
  }

  lemma FunctionKeyIs(t: FunctionType, i: string)
    requires i != ""
    ensures IsFunctionName(FunctionName(t, i)) && FunctionKeyOf(FunctionName(t, i)) == FunctionKey(t, i)
  {
    var key := FunctionKeyOf(FunctionName(t, i));
    FunctionNameInjective(key.ftype, key.instance, t, i);
  }

  ghost predicate IsConfigName(name: string) {
    exists l, i :: 1 <= i <= 255 && name == ConfigName(l, i)
  }

  ghost function ConfigKeyOf(name: string): (key: ConfigKey)
    requires IsConfigName(name)
    ensures 1 <= key.id <= 255 && name == ConfigName(key.lbl, key.id)
  {
    var l, i :| 1 <= i <= 255 && name == ConfigName(l, i);
    ConfigKey(l, i)
  }

  lemma ConfigKeyIs(l: string, i: int)
    requires 1 <= i <= 255
    ensures IsConfigName(ConfigName(l, i)) && ConfigKeyOf(ConfigName(l, i)) == ConfigKey(l, i)
  {
    var key := ConfigKeyOf(ConfigName(l, i));
    ConfigNameInjective(key.lbl, key.id, l, i);
  }

  // ----- export

  /** The grammar of setting names in libconfig. */
  predicate ValidSettingName(name: string) {
    name != "" && (IsLetter(name[0]) || name[0] == '*') &&
    forall c <- name :: IsLetter(c) || '0' <= c <= '9' || c == '*' || c == '_' || c == '-'
  }

  predicate IsLetter(c: char) { 'a' <= c <= 'z' || 'A' <= c <= 'Z' }

  /** `generate_function_label`, into a buffer of 40 characters. */
  ghost function LabelFor(name: string): Result<string>
    requires IsFunctionName(name)
  {
    var key := FunctionKeyOf(name);
    var lbl := GeneratedLabel(key.ftype, key.instance);
    if |lbl| >= MAX_NAME then Err(OTHER_ERROR) else Ok(lbl)
  }

  function ExportAttrsOf(t: FunctionType, k: KFunction): Result<seq<Member>> {
    if t == MassStorage then ExportMs(k)
    else match AttrTable(t)
      case None => Err(NOT_SUPPORTED)
      case Some(table) => ExportFrom(table, 0, [], k.files)
  }

  /** `usbg_export_function_prep`. */
  function ExportFunction(t: FunctionType, k: KFunction): Result<seq<Member>> {
    var attrs :- ExportAttrsOf(t, k);
    var descs :- ExportIfaces(IfaceNames(t), k.ifaces);
    Ok([Member("type", SStr(TypeName(t))), Member("attrs", SGroup(attrs)), Member("os_descs", SList(descs))])
  }

  /** The functions with the given names, added to the members `acc`. */
  ghost function ExportFunctions(names: seq<string>, k: KGadget, labels: Labels, acc: seq<Member>): Result<seq<Member>>
    requires forall n <- names :: n in k.functions && IsFunctionName(n)
  {
    if names == [] then Ok(acc)
    else
      var n := names[0];
      var key := FunctionKeyOf(n);
      var lbl :- if n in labels then Ok(labels[n]) else LabelFor(n);
      if Find(acc, lbl).Some? || !ValidSettingName(lbl) then Err(NO_MEM)
      else
        var ms :- ExportFunction(key.ftype, k.functions[n]);
        ExportFunctions(names[1..], k, labels, acc + [FunctionMember(lbl, key.instance, ms)])
  }

  function FunctionMember(lbl: string, instance: string, ms: seq<Member>): Member {
    Member(lbl, SGroup([Member("instance", SStr(instance))] + ms))
  }

  /** A binding always names its target by the generated label, also when the target is exported under another. */
  ghost function ExportBindings(names: seq<string>, links: map<string, string>): Result<seq<Setting>>
    requires forall n <- names :: n in links && IsFunctionName(links[n])
  {
    if names == [] then Ok([])
    else
      var lbl :- LabelFor(links[names[0]]);
      Prefixed([BindingGroup(names[0], lbl)], ExportBindings(names[1..], links))
  }

  function BindingGroup(name: string, lbl: string): Setting {
    SGroup([Member("name", SStr(name)), Member("function", SStr(lbl))])
  }

  ghost predicate LinksNamed(k: KConfig) {
    forall n <- k.links :: IsFunctionName(k.links[n])
  }

  /** `usbg_export_config_prep`. */
  ghost function ExportConfig(lbl: string, k: KConfig): Result<seq<Member>>
    requires LinksNamed(k)
  {
    var attrs :- ExportFields(CONFIG_TAGS, k.files);
    var strs :- ExportStrings(OfConfig, k.langs);
    var bindings :- ExportBindings(SortedNames(k.links.Keys), k.links);
    Ok([Member("name", SStr(lbl)), Member("attrs", SGroup(attrs)), Member("strings", SList(strs)),
        Member("functions", SList(bindings))])
  }

  ghost function SortedNames(keys: set<string>): (r: seq<string>)
    ensures r == SortedKeys(keys) && forall n <- r :: n in keys
  {
    var r := SortedKeys(keys);
    assert forall n <- r :: n in Elements(r);
    r
  }

  ghost function ExportConfigs(names: seq<string>, k: KGadget): Result<seq<Setting>>
    requires forall n <- names :: n in k.configs && IsConfigName(n) && LinksNamed(k.configs[n])
  {
    if names == [] then Ok([])
    else
      var key := ConfigKeyOf(names[0]);
      var ms :- ExportConfig(key.lbl, k.configs[names[0]]);
      Prefixed([ConfigGroup(key.id, ms)], ExportConfigs(names[1..], k))
  }

  function ConfigGroup(id: int, ms: seq<Member>): Setting
    requires IsInt(id)
  {
    SGroup([Member("id", SInt(id))] + ms)
  }

  /** `usbg_export_gadget_prep`, for a gadget whose functions and configurations have the given names and whose
      OS descriptors are recorded for the configuration with id `osId`. */
  ghost function ExportGadget(fns: seq<string>, configs: seq<string>, k: KGadget, labels: Labels, osId: Option<Int>): Result<Setting>
    requires forall n <- fns :: n in k.functions && IsFunctionName(n)
    requires forall n <- configs :: n in k.configs && IsConfigName(n) && LinksNamed(k.configs[n])
  {
    var attrs :- ExportFields(GADGET_ATTRS, k.files);
    var strs :- ExportStrings(OfGadget, k.langs);
    var functions :- ExportFunctions(fns, k, labels, []);
    var cs :- ExportConfigs(configs, k);
    Ok(GadgetScheme(attrs, ExportOsDescs(osId, k.osDesc), strs, functions, cs))
  }

  function GadgetScheme(attrs: seq<Member>, osDescs: seq<Member>, strs: seq<Setting>, functions: seq<Member>,
                        configs: seq<Setting>): Setting {
    SGroup([Member("attrs", SGroup(attrs)), Member("os_descs", SGroup(osDescs)), Member("strings", SList(strs)),
            Member("functions", SGroup(functions)), Member("configs", SList(configs))])
  }

  // ----- import of a function

  function ImportAttrsOf(t: FunctionType, root: Setting, k: KFunction, d: Defaults): Result<KFunction> {
    if t == MassStorage then
      var luns :- ImportMs(root, k.luns, d);
      Ok(k.(luns := luns))
    else match AttrTable(t)
      case None => Err(NOT_SUPPORTED)
      case Some(table) =>
        TablesWellFormed(t);
        var files :- ImportFrom(table, 0, root, k.files);
        Ok(k.(files := files))
  }

  /** Why a function directory cannot be made in a gadget. */
  function NewFunctionError(k: KGadget, t: FunctionType, instance: string, d: Defaults): int {
    var n := FunctionName(t, instance);
    if instance == "" then INVALID_PARAM
    else if n in k.functions then EXIST
    else if TypeName(t) !in d.functions then NOT_FOUND
    else if !ValidName(n) then INVALID_PARAM
    else SUCCESS
  }

  /** Attributes, then OS descriptors, of a new function. */
  function FillFunction(t: FunctionType, root: Setting, k: KFunction, d: Defaults): Result<KFunction> {
    var withAttrs :- match Get(root, "attrs") case None => Ok(k) case Some(node) => ImportAttrsOf(t, node, k, d);
    match Get(root, "os_descs")
    case None => Ok(withAttrs)
    case Some(node) =>
      var ifaces :- ImportIfaces(t, Children(node), withAttrs.ifaces);
      Ok(withAttrs.(ifaces := ifaces))
  }

  ghost function TypeMember(root: Setting): Result<FunctionType> {
    match Get(root, "type")
    case None => Err(MISSING_TAG)
    case Some(node) =>
      if !node.SStr? then Err(INVALID_TYPE)
      else match TypeOf(node.s)
        case None => Err(NOT_SUPPORTED)
        case Some(t) => Ok(t)
  }

  /** A gadget with one more function, and the name of its directory. */
  datatype WithFunction = WithFunction(k: KGadget, name: string)

  /** `usbg_import_function_run`. */
  ghost function ImportFunction(k: KGadget, root: Setting, instance: string, d: Defaults): (r: Result<WithFunction>)
    ensures r.Ok? ==> r.value.name !in k.functions && IsFunctionName(r.value.name)
    ensures r.Ok? ==> r.value.name in r.value.k.functions
    ensures r.Ok? ==> r.value.k == k.(functions := k.functions[r.value.name := r.value.k.functions[r.value.name]])
  {
    var t :- TypeMember(root);
    var e := NewFunctionError(k, t, instance, d);
    if e < 0 then Err(e)
    else
      var kf :- FillFunction(t, root, d.functions[TypeName(t)], d);
      Ok(WithFunction(k.(functions := k.functions[FunctionName(t, instance) := kf]), FunctionName(t, instance)))
  }

  /** A gadget in the course of an import. */
  datatype Draft = Draft(k: KGadget, labels: Labels)

  ghost function ImportLabelled(dr: Draft, m: Member, d: Defaults): Result<Draft> {
    if !m.value.SGroup? then Err(INVALID_TYPE)
    else match Get(m.value, "instance")
      case None => Err(MISSING_TAG)
      case Some(node) =>
        if !node.SStr? then Err(INVALID_TYPE)
        else
          var w :- ImportFunction(dr.k, m.value, node.s, d);
          Ok(Draft(w.k, dr.labels[w.name := m.name]))
  }

  /** `usbg_import_gadget_functions`: every function gets the name of its group for a label. */
  ghost function ImportFunctions(dr: Draft, ms: seq<Member>, d: Defaults): Result<Draft>
    decreases |ms|
  {
    if ms == [] then Ok(dr)
    else
      var next :- ImportLabelled(dr, ms[0], d);
      ImportFunctions(next, ms[1..], d)
  }

  // ----- import of a configuration

  ghost function Owners(labels: Labels, lbl: string): set<string> {
    set n | n in labels && labels[n] == lbl
  }

  /** `usbg_lookup_function`: the first function that carries the label; failing that, the function the label
      splits into. */
  ghost function Lookup(k: KGadget, labels: Labels, lbl: string): Option<string> {
    if Owners(labels, lbl) != {} then Some(Least(Owners(labels, lbl)))
    else match SplitLabel(lbl)
      case None => None
      case Some(key) =>
        var n := FunctionName(key.ftype, key.instance);
        if key.instance != "" && n in k.functions then Some(n) else None
  }

  function AddLink(k: KGadget, c: string, name: string, target: string): Result<KGadget>
    requires c in k.configs
  {
    var kc := k.configs[c];
    if name in kc.links || target in kc.links.Values then Err(EXIST)
    else if !ValidName(name) then Err(INVALID_PARAM)
    else Ok(k.(configs := k.configs[c := kc.(links := kc.links[name := target])]))
  }

  /** The function a binding group is for: one that is there, or one defined in place. */
  ghost function ImportTarget(dr: Draft, root: Setting, d: Defaults): (r: Result<WithFunction>)
    ensures r.Ok? ==> r.value.k == dr.k.(functions := r.value.k.functions)
  {
    match Get(root, "function")
    case None => Err(MISSING_TAG)
    case Some(node) =>
      if node.SStr? then
        match Lookup(dr.k, dr.labels, node.s)
        case None => Err(NOT_FOUND)
        case Some(n) => Ok(WithFunction(dr.k, n))
      else if node.SGroup? then
        match Get(node, "instance")
        case None => Err(MISSING_TAG)
        case Some(inst) => if inst.SStr? then ImportFunction(dr.k, node, inst.s, d) else Err(OTHER_ERROR)
      else Err(INVALID_TYPE)
  }

  ghost function ImportBinding(dr: Draft, c: string, node: Setting, d: Defaults): (r: Result<KGadget>)
    requires c in dr.k.configs
    ensures r.Ok? ==> c in r.value.configs
  {
    if node.SStr? then
      match Lookup(dr.k, dr.labels, node.s)
      case None => Err(NOT_FOUND)
      case Some(n) => AddLink(dr.k, c, n, n)
    else if node.SGroup? then
      var w :- ImportTarget(dr, node, d);
      match Get(node, "name")
      case None => AddLink(w.k, c, w.name, w.name)
      case Some(name) => if name.SStr? then AddLink(w.k, c, name.s, w.name) else Err(INVALID_TYPE)
    else Err(INVALID_TYPE)
  }

  ghost function ImportBindings(dr: Draft, c: string, elems: seq<Setting>, d: Defaults): (r: Result<KGadget>)
    requires c in dr.k.configs
    ensures r.Ok? ==> c in r.value.configs
    decreases |elems|
  {
    if elems == [] then Ok(dr.k)
    else
      var k :- ImportBinding(dr, c, elems[0], d);
      ImportBindings(Draft(k, dr.labels), c, elems[1..], d)
  }

  ghost predicate IdUsed(k: KGadget, id: int) {
    exists l :: ConfigName(l, id) in k.configs
  }

  /** Why a configuration directory cannot be made. */
  ghost function NewConfigError(k: KGadget, id: int, lbl: string): int {
    if !(1 <= id <= 255) then INVALID_PARAM
    else if IdUsed(k, id) then EXIST
    else if !ValidName(ConfigName(lbl, id)) then INVALID_PARAM
    else SUCCESS
  }

  function OptionalGroup(root: Setting, name: string): Result<Option<Setting>> {
    match Get(root, name)
    case None => Ok(None)
    case Some(node) => if node.SGroup? then Ok(Some(node)) else Err(INVALID_TYPE)
  }

  function OptionalList(root: Setting, name: string): Result<Option<seq<Setting>>> {
    match Get(root, name)
    case None => Ok(None)
    case Some(node) => if node.SList? then Ok(Some(node.elems)) else Err(INVALID_TYPE)
  }

  /** Attributes and strings of a new configuration. */
  function FillConfig(root: Setting, k: KConfig, d: Defaults): Result<KConfig> {
    var attrs :- OptionalGroup(root, "attrs");
    var files :- if attrs.Some? then ImportFields(CONFIG_TAGS, attrs.value, k.files) else Ok(k.files);
    var strs :- OptionalList(root, "strings");
    var langs :- if strs.Some? then ImportStrings(OfConfig, strs.value, k.langs, d.configLang) else Ok(k.langs);
    Ok(k.(files := files, langs := langs))
  }

  function NameMember(root: Setting): Result<string> {
    match Get(root, "name")
    case None => Err(MISSING_TAG)
    case Some(node) => if node.SStr? then Ok(node.s) else Err(INVALID_TYPE)
  }

  /** What follows the creation of the directory of configuration `c`. */
  ghost function CompleteConfig(dr: Draft, c: string, root: Setting, d: Defaults): (r: Result<KGadget>)
    requires c in dr.k.configs
  {
    var kc :- FillConfig(root, dr.k.configs[c], d);
    var bindings :- OptionalList(root, "functions");
    var k := dr.k.(configs := dr.k.configs[c := kc]);
    if bindings.None? then Ok(k) else ImportBindings(Draft(k, dr.labels), c, bindings.value, d)
  }

  /** `usbg_import_config_run`. */
  ghost function ImportConfig(dr: Draft, root: Setting, id: int, d: Defaults): Result<KGadget> {
    var lbl :- NameMember(root);
    var e := NewConfigError(dr.k, id, lbl);
    if e < 0 then Err(e)
    else
      var c := ConfigName(lbl, id);
      CompleteConfig(Draft(dr.k.(configs := dr.k.configs[c := NewConfig(d)]), dr.labels), c, root, d)
  }

  ghost function ImportNumbered(dr: Draft, node: Setting, d: Defaults): Result<KGadget> {
    if !node.SGroup? then Err(INVALID_TYPE)
    else match Get(node, "id")
      case None => Err(MISSING_TAG)
      case Some(id) => if id.SInt? then ImportConfig(dr, node, id.i, d) else Err(INVALID_TYPE)
  }

  ghost function ImportConfigs(dr: Draft, elems: seq<Setting>, d: Defaults): Result<KGadget>
    decreases |elems|
  {
    if elems == [] then Ok(dr.k)
    else
      var k :- ImportNumbered(dr, elems[0], d);
      ImportConfigs(Draft(k, dr.labels), elems[1..], d)
  }

  // ----- import of a gadget

  /** The one of the configuration names that has the given id. */
  ghost function ConfigWithId(names: set<string>, id: int): (r: Option<string>)
    ensures r.Some? ==> r.value in names
  {
    if 1 <= id <= 255 && exists l :: ConfigName(l, id) in names then
      var l :| ConfigName(l, id) in names;
      Some(ConfigName(l, id))
    else None
  }

  /** `usbg_import_gadget_os_descs`. The configuration is looked for even when the descriptors could not be set;
      a `config_id` that is no integer is passed over. */
  ghost function ImportOsDescs(k: KGadget, root: Setting): Result<KGadget> {
    var o :- ParseOsDescs(root);
    var files := Written(k.osDesc, OsDescWrites(o));
    var target := Get(root, "config_id");
    if target.Some? && target.value.SInt? && ConfigWithId(k.configs.Keys, target.value.i).None? then Err(NOT_FOUND)
    else if files.Err? then Err(files.code)
    else if target.Some? && target.value.SInt? then
      var c := ConfigWithId(k.configs.Keys, target.value.i).value;
      Ok(k.(osDesc := files.value, osLinks := map[c := c]))
    else Ok(k.(osDesc := files.value))
  }

  /** An import of OS descriptors without `qw_sign` cannot succeed. */
  lemma SignRequired(k: KGadget, root: Setting)
    requires Get(root, "qw_sign") == None
    ensures ImportOsDescs(k, root).Err?
  {
    hide Get, ConfigWithId;
  }

  /** The attributes of a new gadget. */
  function GadgetFiles(root: Setting, d: Defaults): Result<Files> {
    var attrs :- OptionalGroup(root, "attrs");
    if attrs.Some? then ImportFields(GADGET_ATTRS, attrs.value, d.gadget) else Ok(d.gadget)
  }

  /** Attributes and strings of a new gadget. */
  function FillGadget(root: Setting, d: Defaults): Result<KGadget> {
    var files :- GadgetFiles(root, d);
    var strs :- OptionalList(root, "strings");
    var langs :- if strs.Some? then ImportStrings(OfGadget, strs.value, map[], d.gadgetLang) else Ok(map[]);
    Ok(NewGadget(d).(files := files, langs := langs))
  }

  /** Functions, then configurations, read into a gadget without any. */
  ghost function ImportInto(k: KGadget, root: Setting, d: Defaults): Result<Draft> {
    var functions :- OptionalGroup(root, "functions");
    var dr :- if functions.Some? then ImportFunctions(Draft(k, map[]), functions.value.members, d) else Ok(Draft(k, map[]));
    var configs :- OptionalList(root, "configs");
    var l :- if configs.Some? then ImportConfigs(dr, configs.value, d) else Ok(dr.k);
    Ok(Draft(l, dr.labels))
  }

  /** `usbg_import_gadget_run`: what the new gadget's directory comes to contain, and its functions' labels. */
  ghost function ImportGadget(root: Setting, d: Defaults): Result<Draft> {
    var k :- FillGadget(root, d);
    var dr :- ImportInto(k, root, d);
    var descs :- OptionalGroup(root, "os_descs");
    var m :- if descs.Some? then ImportOsDescs(dr.k, descs.value) else Ok(dr.k);
    Ok(Draft(m, dr.labels))
  }

  /** The directory an import leaves when the link in `os_desc` may have failed: the walk drops that error. */
  ghost predicate UpToLink(k: KGadget, l: KGadget) {
    k == l.(osLinks := k.osLinks) && (k.osLinks == l.osLinks || k.osLinks == map[])
  }
}
