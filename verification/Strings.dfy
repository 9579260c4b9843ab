/** The strings of gadgets and configurations: one directory per language. */
module Strings {
  import opened Errors
  import opened Text
  import opened Numbers
  import opened Names
  import opened Codecs
  import opened Settings
  import opened Kernel
  import opened Records

  const GADGET_STRINGS := ["manufacturer", "product", "serialnumber"]
  const CONFIG_STRINGS := ["configuration"]

  type LangMap = map<string, Files>

  datatype Owner = OfGadget | OfConfig

  function OwnerOf(d: Listing): Owner { if d.GadgetLangs? then OfGadget else OfConfig }

  /** The files a language directory of a gadget or a configuration has; schemes use the same names. */
  function StringNames(o: Owner): seq<string> {
    if o == OfGadget then GADGET_STRINGS else CONFIG_STRINGS
  }

  function FreshLang(o: Owner, defaults: Defaults): Files {
    if o == OfGadget then defaults.gadgetLang else defaults.configLang
  }

  /** A gadget's NULL strings are skipped. */
  function StringWrites(names: seq<string>, vals: seq<Option<string>>): seq<Write> {
    if names == [] || vals == [] then []
    else (if vals[0].Some? then [Write(names[0], vals[0])] else []) + StringWrites(names[1..], vals[1..])
  }

  /** `usbg_set_gadget_strs` and `usbg_set_config_string`; only the latter refuses a missing string. */
  function SetStrings(o: Owner, langs: LangMap, lang: Int, vals: seq<Option<string>>, fresh0: Files): Result<LangMap> {
    if o == OfConfig && None in vals then Err(INVALID_PARAM)
    else
      var n := LangName(lang);
      var files :- Written(if n in langs then langs[n] else fresh0, StringWrites(StringNames(o), vals));
      Ok(langs[n := files])
  }

  datatype GadgetStrs = GadgetStrs(manufacturer: Option<string>, product: Option<string>, serial: Option<string>)

  function StrsList(s: GadgetStrs): seq<Option<string>> { [s.manufacturer, s.product, s.serial] }

  /** The strings of a language before they are set: those of a new directory where there is none. */
  function LangFiles(langs: LangMap, lang: Int, fresh0: Files): Files {
    if LangName(lang) in langs then langs[LangName(lang)] else fresh0
  }

  /** A NULL string leaves the file alone. */
  function Put(files: Files, n: string, v: Option<string>): Files { if v.Some? then files[n := v.value] else files }

  /** Each string of a gadget goes to the file of its name, the serial number to `serialnumber`, in the directory of the language;
      no other language changes. */
  lemma GadgetStringsByField(langs: LangMap, lang: Int, s: GadgetStrs, fresh0: Files)
    ensures var r, files := SetStrings(OfGadget, langs, lang, StrsList(s), fresh0), LangFiles(langs, lang, fresh0);
      (r.Ok? <==>
        (s.manufacturer.Some? ==> "manufacturer" in files) && (s.product.Some? ==> "product" in files) &&
        (s.serial.Some? ==> "serialnumber" in files)) &&
      (r.Ok? ==>
        r.value ==
          langs[LangName(lang) := Put(Put(Put(files, "manufacturer", s.manufacturer), "product", s.product), "serialnumber", s.serial)])
  {
    hide LangName, Written, StringWrites, Put;
    ThreeWritten(s, LangFiles(langs, lang, fresh0));
  }

  lemma ThreeWritten(s: GadgetStrs, files: Files)
    ensures var r := Written(files, StringWrites(GADGET_STRINGS, StrsList(s)));
      (r.Ok? <==>
        (s.manufacturer.Some? ==> "manufacturer" in files) && (s.product.Some? ==> "product" in files) &&
        (s.serial.Some? ==> "serialnumber" in files)) &&
      (r.Ok? ==> r.value == Put(Put(Put(files, "manufacturer", s.manufacturer), "product", s.product), "serialnumber", s.serial))
  {
    hide Written, StringWrites;
    var a := Put(files, "manufacturer", s.manufacturer);
    var b := Put(a, "product", s.product);
    WrittenNext("manufacturer", s.manufacturer, GADGET_STRINGS, StrsList(s), files);
    WrittenNext("product", s.product, GADGET_STRINGS[1..], StrsList(s)[1..], a);
    WrittenNext("serialnumber", s.serial, GADGET_STRINGS[1..][1..], StrsList(s)[1..][1..], b);
    NothingWritten(Put(b, "serialnumber", s.serial), GADGET_STRINGS[1..][1..][1..], StrsList(s)[1..][1..][1..]);
  }

  lemma NothingWritten(files: Files, names: seq<string>, vals: seq<Option<string>>)
    requires names == []
    ensures Written(files, StringWrites(names, vals)) == Ok(files)
  {}

  lemma WrittenNext(n: string, v: Option<string>, names: seq<string>, vals: seq<Option<string>>, files: Files)
    requires names != [] && vals != [] && names[0] == n && vals[0] == v
    ensures Written(files, StringWrites(names, vals)) ==
      if v.Some? && n !in files then Err(NOT_FOUND) else Written(Put(files, n, v), StringWrites(names[1..], vals[1..]))
  {
    var rest := StringWrites(names[1..], vals[1..]);
    if v.Some? {
      assert StringWrites(names, vals) == [Write(n, v)] + rest;
      assert ([Write(n, v)] + rest)[1..] == rest;
    } else {
      assert StringWrites(names, vals) == rest;
    }
  }

  /** The string of a configuration goes to `configuration`, and may not be missing. */
  lemma ConfigStringByField(langs: LangMap, lang: Int, v: Option<string>, fresh0: Files)
    ensures var files := LangFiles(langs, lang, fresh0);
      SetStrings(OfConfig, langs, lang, [v], fresh0) ==
        if v.None? then Err(INVALID_PARAM)
        else if "configuration" !in files then Err(NOT_FOUND)
        else Ok(langs[LangName(lang) := files["configuration" := v.value]])
  {
    hide LangName;
    var files := LangFiles(langs, lang, fresh0);
    WrittenNext("configuration", v, CONFIG_STRINGS, [v], files);
    assert forall f: Files :: Written(f, StringWrites(CONFIG_STRINGS[1..], [v][1..])) == Ok(f);
    assert v.Some? ==> None !in [v];
  }

  lemma LangNameValid(lang: Int)
    ensures ValidName(LangName(lang))
  {
    hide Digits, DigitValue;
    var d := Digits(ToUnsigned(lang), 16);
    assert LangName(lang) == "0x" + Zeros(0) + d;
    forall c | c in d ensures c != '/' { assert IsDigit(c, 16); SlashNoDigit(c); }
  }

  lemma SlashNoDigit(c: char)
    requires IsDigit(c, 16)
    ensures c != '/'
  {}

  /** `usbg_check_dir`: makes the directory when it is not there. */
  method CheckDir(fs: ConfigFs, p: Path) returns (ret: int)
    modifies fs
    ensures ret <= 0
    ensures ret == 0 ==> Exists(fs.tree, p)
    ensures fs.tree == old(fs.tree) ||
      (MkdirError(old(fs.tree), p, fs.defaults) == SUCCESS && fs.tree == AfterMkdir(old(fs.tree), p, fs.defaults))
    ensures ret != 0 ==> fs.tree == old(fs.tree)
    ensures Exists(old(fs.tree), p) ==> fs.tree == old(fs.tree)
    ensures old(fs.Quiet()) ==> fs.Quiet()
    ensures old(fs.Quiet()) ==> ret == if Exists(old(fs.tree), p) then SUCCESS else MkdirError(old(fs.tree), p, fs.defaults)
  {
    ret := fs.Opendir(p);
    if ret != NOT_FOUND { return; }
    hide AfterMkdir;
    ret := fs.Mkdir(p);
    if ret == 0 { MadeExists(old(fs.tree), p, fs.defaults); }
  }

  lemma MadeExists(t: Tree, p: Path, d: Defaults)
    requires MkdirError(t, p, d) == SUCCESS
    ensures Exists(AfterMkdir(t, p, d), p)
  {}

  /** A language directory made or written, seen from the map of all of them. */
  lemma LangMade(t: Tree, d: Listing, l: string, defaults: Defaults)
    requires HasLangs(t, d) && MkdirError(t, LangDir(d, l), defaults) == SUCCESS
    ensures AfterMkdir(t, LangDir(d, l), defaults) == SetLangs(t, d, LangsAt(t, d)[l := FreshLang(OwnerOf(d), defaults)])
    ensures l !in LangsAt(t, d)
  {}

  lemma LangWritten(t: Tree, u: Tree, d: Listing, l: string)
    requires HasLangs(t, d) && OnlyFiles(t, u, LangDir(d, l))
    ensures HasLangs(u, d) && l in LangsAt(t, d) && l in LangsAt(u, d)
    ensures FilesAt(t, LangDir(d, l)) == LangsAt(t, d)[l] && FilesAt(u, LangDir(d, l)) == LangsAt(u, d)[l]
    ensures LangsAt(u, d) == LangsAt(t, d)[l := LangsAt(u, d)[l]]
    ensures u == SetLangs(t, d, LangsAt(u, d))
  {}

  lemma LangExists(t: Tree, d: Listing, l: string)
    requires HasLangs(t, d)
    ensures d.GadgetLangs? || d.ConfigLangs?
    ensures Exists(t, LangDir(d, l)) <==> l in LangsAt(t, d)
    ensures Exists(t, LangDir(d, l)) ==> FilesAt(t, LangDir(d, l)) == LangsAt(t, d)[l]
  {}

  lemma NewLang(t: Tree, d: Listing, l: string, defaults: Defaults)
    requires HasLangs(t, d) && l !in LangsAt(t, d) && ValidName(l)
    ensures MkdirError(t, LangDir(d, l), defaults) == SUCCESS
  {}

  /** Sets the strings of one language. A failure may leave that language's directory behind, partly written. */
  method SetLangStrings(fs: ConfigFs, d: Listing, lang: Int, vals: seq<Option<string>>) returns (ret: int)
    requires HasLangs(fs.tree, d)
    modifies fs
    ensures ret <= 0 && HasLangs(fs.tree, d)
    ensures fs.tree == SetLangs(old(fs.tree), d, LangsAt(fs.tree, d))
    ensures var a := LangsAt(old(fs.tree), d); var b := LangsAt(fs.tree, d);
      b == a || (LangName(lang) in b && b == a[LangName(lang) := b[LangName(lang)]])
    ensures ret == 0 ==>
      SetStrings(OwnerOf(d), LangsAt(old(fs.tree), d), lang, vals, FreshLang(OwnerOf(d), fs.defaults)) == Ok(LangsAt(fs.tree, d))
    ensures d.ConfigLangs? && None in vals ==> fs.tree == old(fs.tree)
    ensures old(fs.Quiet()) ==> fs.Quiet() && ((d.ConfigLangs? && None in vals) || LangName(lang) in LangsAt(fs.tree, d))
    ensures old(fs.Quiet()) ==>
      ret == Code(SetStrings(OwnerOf(d), LangsAt(old(fs.tree), d), lang, vals, FreshLang(OwnerOf(d), fs.defaults)))
  {
    hide SetLangs, HasLangs, LangsAt, LangDir, LangName, FilesAt, AfterMkdir, MkdirError, Written, ValidName;
    ghost var t := fs.tree;
    ghost var langs := LangsAt(t, d);
    SetLangsSame(t, d);
    if d.ConfigLangs? && None in vals { return INVALID_PARAM; }
    var n := LangName(lang);
    LangNameValid(lang);
    LangExists(t, d, n);
    if n !in langs {
      NewLang(t, d, n, fs.defaults);
      LangMade(t, d, n, fs.defaults);
    }
    var p := LangDir(d, n);
    ret := CheckDir(fs, p);
    ghost var u := fs.tree;
    if n !in langs { SetLangsTwice(t, d, langs[n := FreshLang(OwnerOf(d), fs.defaults)], map[]); }
    if ret != 0 { return; }
    LangExists(u, d, n);
    ret := WriteAll(fs, p, StringWrites(StringNames(OwnerOf(d)), vals));
    ghost var v := fs.tree;
    LangWritten(u, v, d, n);
    if n !in langs { SetLangsTwice(t, d, langs[n := FreshLang(OwnerOf(d), fs.defaults)], LangsAt(v, d)); }
  }

  // ----- reading

  function ReadStringsFrom(names: seq<string>, files: Files): Result<seq<string>> {
    if names == [] then Ok([])
    else if names[0] !in files then Err(NOT_FOUND)
    else
      var rest :- ReadStringsFrom(names[1..], files);
      Ok([ReadString(files[names[0]], FILE_SIZE)] + rest)
  }

  /** `usbg_get_gadget_strs` and `usbg_get_config_strs`: the strings of one language. */
  function ReadLang(o: Owner, langs: LangMap, lang: Int): Result<seq<string>> {
    if LangName(lang) in langs then ReadStringsFrom(StringNames(o), langs[LangName(lang)]) else Err(NOT_FOUND)
  }

  method GetLangStrings(fs: ConfigFs, d: Listing, lang: Int) returns (ret: int, vals: seq<string>)
    requires HasLangs(fs.tree, d)
    modifies fs`faults
    ensures ret <= 0
    ensures ret == 0 ==> ReadLang(OwnerOf(d), LangsAt(fs.tree, d), lang) == Ok(vals)
    ensures old(fs.Quiet()) ==> fs.Quiet() && ret == Code(ReadLang(OwnerOf(d), LangsAt(fs.tree, d), lang))
  {
    var p := LangDir(d, LangName(lang));
    var names := StringNames(OwnerOf(d));
    LangExists(fs.tree, d, LangName(lang));
    hide LangsAt, LangDir, HasLangs, LangName, ReadString, Exists, FilesAt;
    vals := [];
    ret := fs.Opendir(p);
    if ret != 0 { return; }
    ghost var files := FilesAt(fs.tree, p);
    var i := 0;
    assert names[0..] == names;
    PrefixedNone(ReadStringsFrom(names, files));
    while i < |names|
      invariant 0 <= i <= |names| && ret == 0 && |vals| == i
      invariant ReadStringsFrom(names, files) == Prefixed(vals, ReadStringsFrom(names[i..], files))
      invariant old(fs.Quiet()) ==> fs.Quiet()
    {
      assert names[i..][1..] == names[i + 1..];
      var text;
      ret, text := fs.Read(p, names[i]);
      if ret != 0 { return; }
      PrefixedStep(vals, ReadString(text, FILE_SIZE), ReadStringsFrom(names[i + 1..], files));
      vals := vals + [ReadString(text, FILE_SIZE)];
      i := i + 1;
    }
    PrefixedEnd(vals);
  }

  /** `usbg_get_strs_langs_by_path`: every directory name must be a number below 65535. */
  function ParseLangs(names: seq<string>): (r: Result<seq<Int>>)
    ensures r.Ok? ==> |r.value| == |names| && forall l <- r.value :: 0 <= l < 65535
  {
    if names == [] then Ok([])
    else
      var l :- ParseLang(names[0]);
      var rest :- ParseLangs(names[1..]);
      Ok([l] + rest)
  }

  /** The list of languages is terminated by 0. */
  function UpToZero(ls: seq<Int>): (r: seq<Int>)
    ensures forall l <- r :: l in ls && l != 0
  {
    if ls == [] || ls[0] == 0 then [] else [ls[0]] + UpToZero(ls[1..])
  }

  // ----- strings in schemes

  function LangGroup(o: Owner, lang: Int, vals: seq<string>): Setting {
    SGroup([Member("lang", SInt(lang))] + StringMembers(StringNames(o), vals))
  }

  function StringMembers(names: seq<string>, vals: seq<string>): seq<Member> {
    if names == [] || vals == [] then []
    else [Member(names[0], SStr(vals[0]))] + StringMembers(names[1..], vals[1..])
  }

  function ExportLangs(o: Owner, langs: LangMap, ls: seq<Int>): Result<seq<Setting>> {
    if ls == [] then Ok([])
    else
      var vals :- ReadLang(o, langs, ls[0]);
      var rest :- ExportLangs(o, langs, ls[1..]);
      Ok([LangGroup(o, ls[0], vals)] + rest)
  }

  ghost function ExportStrings(o: Owner, langs: LangMap): Result<seq<Setting>> {
    var ls :- ParseLangs(SortedKeys(langs.Keys));
    ExportLangs(o, langs, UpToZero(ls))
  }

  /** A string member must be a string; a missing one is NULL. */
  function ImportVals(names: seq<string>, root: Setting): (r: Result<seq<Option<string>>>)
    ensures r.Ok? ==> |r.value| == |names|
  {
    if names == [] then Ok([])
    else match Get(root, names[0])
      case None =>
        var rest :- ImportVals(names[1..], root);
        Ok([None] + rest)
      case Some(node) =>
        if !node.SStr? then Err(INVALID_TYPE)
        else
          var rest :- ImportVals(names[1..], root);
          Ok([Some(node.s)] + rest)
  }

  function ImportLang(o: Owner, elem: Setting, langs: LangMap, fresh0: Files): Result<LangMap> {
    if !elem.SGroup? then Err(INVALID_TYPE)
    else match Get(elem, "lang")
      case None => Err(MISSING_TAG)
      case Some(node) =>
        if !node.SInt? then Err(INVALID_TYPE)
        else
          var vals :- ImportVals(StringNames(o), elem);
          SetStrings(o, langs, node.i, vals, fresh0)
  }

  function ImportStrings(o: Owner, elems: seq<Setting>, langs: LangMap, fresh0: Files): Result<LangMap> {
    if elems == [] then Ok(langs)
    else
      var more :- ImportLang(o, elems[0], langs, fresh0);
      ImportStrings(o, elems[1..], more, fresh0)
  }

  method ParseLangNames(names: seq<string>) returns (r: Result<seq<Int>>)
    ensures r == ParseLangs(names)
  {
    hide ParseLang;
    var ls: seq<Int> := [];
    var i := 0;
    assert names[0..] == names;
    PrefixedNone(ParseLangs(names));
    while i < |names|
      invariant 0 <= i <= |names|
      invariant ParseLangs(names) == Prefixed(ls, ParseLangs(names[i..]))
    {
      assert names[i..][1..] == names[i + 1..];
      match ParseLang(names[i])
      case Err(c) => return Err(c);
      case Ok(l) =>
        LangInRange(names[i]);
        PrefixedStep(ls, l, ParseLangs(names[i + 1..]));
        ls := ls + [l];
      i := i + 1;
    }
    PrefixedEnd(ls);
    r := Ok(ls);
  }

  lemma LangInRange(name: string)
    ensures ParseLang(name).Ok? ==> IsInt(ParseLang(name).value)
  {}

  lemma LangsListed(t: Tree, d: Listing)
    requires HasLangs(t, d)
    ensures Listed(t, d) == Some(LangsAt(t, d).Keys)
  {}

  /** `usbg_export_gadget_strings` and `usbg_export_config_strings`. */
  method ExportLangList(fs: ConfigFs, d: Listing) returns (ret: int, elems: seq<Setting>)
    requires HasLangs(fs.tree, d)
    modifies fs`faults
    ensures ret <= 0
    ensures ret == 0 ==> ExportStrings(OwnerOf(d), LangsAt(fs.tree, d)) == Ok(elems)
    ensures old(fs.Quiet()) ==> fs.Quiet() && ret == Code(ExportStrings(OwnerOf(d), LangsAt(fs.tree, d)))
  {
    hide LangsAt, Listed, HasLangs, LangDir, SortedKeys, ParseLang, ReadLang, LangGroup;
    ghost var langs := LangsAt(fs.tree, d);
    LangsListed(fs.tree, d);
    elems := [];
    var names;
    ret, names := fs.Scandir(d);
    if ret != 0 { return; }
    var parsed := ParseLangNames(names);
    if parsed.Err? { return parsed.code, elems; }
    var ls := parsed.value;
    var i := 0;
    ghost var whole := ExportLangs(OwnerOf(d), langs, UpToZero(ls));
    assert ls[0..] == ls;
    PrefixedNone(whole);
    while i < |ls| && ls[i] != 0
      invariant 0 <= i <= |ls| && ret == 0
      invariant whole == Prefixed(elems, ExportLangs(OwnerOf(d), langs, UpToZero(ls[i..])))
      invariant old(fs.Quiet()) ==> fs.Quiet()
      decreases |ls| - i
    {
      assert ls[i..][1..] == ls[i + 1..];
      assert UpToZero(ls[i..])[1..] == UpToZero(ls[i + 1..]);
      var vals;
      ret, vals := GetLangStrings(fs, d, ls[i]);
      if ret != 0 { return; }
      PrefixedStep(elems, LangGroup(OwnerOf(d), ls[i], vals), ExportLangs(OwnerOf(d), langs, UpToZero(ls[i + 1..])));
      elems := elems + [LangGroup(OwnerOf(d), ls[i], vals)];
      i := i + 1;
    }
    PrefixedEnd(elems);
  }

  /** `usbg_import_gadget_strs_lang` and `usbg_import_config_strs_lang`. */
  method ImportOneLang(fs: ConfigFs, d: Listing, elem: Setting) returns (ret: int)
    requires HasLangs(fs.tree, d)
    modifies fs
    ensures ret <= 0 && HasLangs(fs.tree, d)
    ensures fs.tree == SetLangs(old(fs.tree), d, LangsAt(fs.tree, d))
    ensures ret == 0 ==> ImportLang(OwnerOf(d), elem, LangsAt(old(fs.tree), d), FreshLang(OwnerOf(d), fs.defaults)) == Ok(LangsAt(fs.tree, d))
    ensures old(fs.Quiet()) ==> fs.Quiet()
    ensures old(fs.Quiet()) ==> ret == Code(ImportLang(OwnerOf(d), elem, LangsAt(old(fs.tree), d), FreshLang(OwnerOf(d), fs.defaults)))
  {
    SetLangsSame(fs.tree, d);
    hide SetLangs, LangsAt, HasLangs, SetStrings, ImportVals, FreshLang, StringNames;
    if !elem.SGroup? { return INVALID_TYPE; }
    var node := Get(elem, "lang");
    if node.None? { return MISSING_TAG; }
    if !node.value.SInt? { return INVALID_TYPE; }
    var vals := ImportVals(StringNames(OwnerOf(d)), elem);
    if vals.Err? { return vals.code; }
    ret := SetLangStrings(fs, d, node.value.i, vals.value);
  }

  /** `usbg_import_gadget_strings` and `usbg_import_config_strings`. */
  method ImportLangList(fs: ConfigFs, d: Listing, elems: seq<Setting>) returns (ret: int)
    requires HasLangs(fs.tree, d)
    modifies fs
    ensures ret <= 0 && HasLangs(fs.tree, d)
    ensures fs.tree == SetLangs(old(fs.tree), d, LangsAt(fs.tree, d))
    ensures ret == 0 ==>
      ImportStrings(OwnerOf(d), elems, LangsAt(old(fs.tree), d), FreshLang(OwnerOf(d), fs.defaults)) == Ok(LangsAt(fs.tree, d))
    ensures old(fs.Quiet()) ==> fs.Quiet()
    ensures old(fs.Quiet()) ==> ret == Code(ImportStrings(OwnerOf(d), elems, LangsAt(old(fs.tree), d), FreshLang(OwnerOf(d), fs.defaults)))
  {
    ghost var t := fs.tree;
    ghost var whole := ImportStrings(OwnerOf(d), elems, LangsAt(t, d), FreshLang(OwnerOf(d), fs.defaults));
    SetLangsSame(t, d);
    hide SetLangs, LangsAt, HasLangs, ImportLang, FreshLang;
    ret := 0;
    var i := 0;
    assert elems[0..] == elems;
    while i < |elems|
      invariant 0 <= i <= |elems| && ret == 0 && HasLangs(fs.tree, d)
      invariant fs.tree == SetLangs(t, d, LangsAt(fs.tree, d))
      invariant ImportStrings(OwnerOf(d), elems[i..], LangsAt(fs.tree, d), FreshLang(OwnerOf(d), fs.defaults)) == whole
      invariant old(fs.Quiet()) ==> fs.Quiet()
    {
      assert elems[i..][1..] == elems[i + 1..];
      ghost var here := LangsAt(fs.tree, d);
      ret := ImportOneLang(fs, d, elems[i]);
      SetLangsTwice(t, d, here, LangsAt(fs.tree, d));
      if ret != 0 { return; }
      i := i + 1;
    }
  }

  // ----- exporting the strings and importing them into a new gadget or configuration

  ghost predicate CanonicalLang(name: string) {
    exists l: Int :: 1 <= l < 65535 && name == LangName(l)
  }

  lemma LangNamesDiffer(l: Int, m: Int)
    requires 0 <= l < 65535 && 0 <= m < 65535 && LangName(l) == LangName(m)
    ensures l == m
  {
    LangNameParses(l);
    LangNameParses(m);
  }

  function Somes(vals: seq<string>): (r: seq<Option<string>>)
    ensures |r| == |vals| && None !in r
  {
    if vals == [] then [] else [Some(vals[0])] + Somes(vals[1..])
  }

  lemma {:induction false} LangGroupMembers(names: seq<string>, vals: seq<string>, lead: seq<Member>)
    requires |vals| == |names|
    requires forall n <- names :: Find(lead, n) == None
    requires forall i, j :: 0 <= i < j < |names| ==> names[i] != names[j]
    ensures ImportVals(names, SGroup(lead + StringMembers(names, vals))) ==
      Ok(Somes(vals))
  {
    if names != [] {
      var m := Member(names[0], SStr(vals[0]));
      var ms := lead + StringMembers(names, vals);
      assert ms == (lead + [m]) + StringMembers(names[1..], vals[1..]);
      FindAppend(lead, [m], names[0]);
      FindAppend(lead + [m], StringMembers(names[1..], vals[1..]), names[0]);
      forall n | n in names[1..] ensures Find(lead + [m], n) == None {
        FindAppend(lead, [m], n);
      }
      LangGroupMembers(names[1..], vals[1..], lead + [m]);
    }
  }

  lemma FirstWritten(names: seq<string>, vals: seq<string>, files: Files)
    requires |vals| == |names| > 0 && names[0] in files
    ensures Written(files, StringWrites(names, Somes(vals))) ==
      Written(files[names[0] := vals[0]], StringWrites(names[1..], Somes(vals[1..])))
  {
    assert StringWrites(names, Somes(vals)) == [Write(names[0], Some(vals[0]))] + StringWrites(names[1..], Somes(vals[1..]));
  }

  lemma FirstRead(names: seq<string>, vals: seq<string>, files: Files)
    requires |vals| == |names| > 0 && names[0] in files && ReadString(files[names[0]], FILE_SIZE) == vals[0]
    requires ReadStringsFrom(names[1..], files) == Ok(vals[1..])
    ensures ReadStringsFrom(names, files) == Ok(vals)
  {
    hide ReadString;
    assert vals == [vals[0]] + vals[1..];
  }

  lemma {:induction false} AllWritten(names: seq<string>, vals: seq<string>, files: Files)
    requires |vals| == |names| && forall n <- names :: n in files
    requires forall i, j :: 0 <= i < j < |names| ==> names[i] != names[j]
    requires forall v <- vals :: '\n' !in v && |v| < FILE_SIZE
    ensures var w := Written(files, StringWrites(names, Somes(vals)));
      w.Ok? && ReadStringsFrom(names, w.value) == Ok(vals) && forall n <- files | n !in names :: w.value[n] == files[n]
  {
    if names == [] {
      assert vals == [];
    } else {
      hide ReadString, Written, StringWrites, Somes, ReadStringsFrom;
      FirstWritten(names, vals, files);
      AllWritten(names[1..], vals[1..], files[names[0] := vals[0]]);
      StringFile(vals[0], FILE_SIZE);
      assert names[0] !in names[1..] && forall n <- names[1..] :: n in names;
      var w := Written(files, StringWrites(names, Somes(vals))).value;
      assert w[names[0]] == vals[0];
      FirstRead(names, vals, w);
    }
  }

  lemma {:induction false} ReadStringsClean(names: seq<string>, files: Files)
    ensures ReadStringsFrom(names, files).Ok? ==>
      |ReadStringsFrom(names, files).value| == |names| &&
      forall v <- ReadStringsFrom(names, files).value :: '\n' !in v && |v| < FILE_SIZE
  {
    hide ReadString;
    if names != [] && names[0] in files {
      ReadStringIsClean(files[names[0]], FILE_SIZE);
      ReadStringsClean(names[1..], files);
    }
  }

  lemma StringTables(o: Owner)
    ensures var names := StringNames(o);
      (forall i, j :: 0 <= i < j < |names| ==> names[i] != names[j]) && "lang" !in names
  {}

  /** One language: what was exported is imported under the same name and reads the same. */
  lemma LangRoundTrip(o: Owner, langs: LangMap, lang: Int, acc: LangMap, fresh0: Files)
    requires ReadLang(o, langs, lang).Ok? && LangName(lang) !in acc && forall n <- StringNames(o) :: n in fresh0
    ensures var vals := ReadLang(o, langs, lang).value;
      var r := ImportLang(o, LangGroup(o, lang, vals), acc, fresh0);
      r.Ok? && LangName(lang) in r.value && r.value == acc[LangName(lang) := r.value[LangName(lang)]] &&
      ReadStringsFrom(StringNames(o), r.value[LangName(lang)]) == Ok(vals)
  {
    hide LangName, ReadString, ReadStringsFrom, StringMembers, StringNames, Written, ImportVals, StringWrites;
    var names := StringNames(o);
    StringTables(o);
    ReadStringsClean(names, langs[LangName(lang)]);
    var vals := ReadLang(o, langs, lang).value;
    var lead := [Member("lang", SInt(lang))];
    assert Find(lead, "lang") == Some(SInt(lang));
    FindAppend(lead, StringMembers(names, vals), "lang");
    LangGroupMembers(names, vals, lead);
    AllWritten(names, vals, fresh0);
  }

  ghost function NamesOf(ls: seq<Int>): set<string> { set l <- ls :: LangName(l) }

  lemma {:induction false} LangsRoundTrip(o: Owner, langs: LangMap, ls: seq<Int>, acc: LangMap, fresh0: Files)
    requires ExportLangs(o, langs, ls).Ok? && forall n <- StringNames(o) :: n in fresh0
    requires forall i, j :: 0 <= i < j < |ls| ==> LangName(ls[i]) != LangName(ls[j])
    requires NamesOf(ls) !! acc.Keys
    ensures var r := ImportStrings(o, ExportLangs(o, langs, ls).value, acc, fresh0);
      r.Ok? && r.value.Keys == acc.Keys + NamesOf(ls) &&
      (forall n <- acc :: r.value[n] == acc[n]) &&
      (forall l <- ls :: ReadLang(o, r.value, l) == ReadLang(o, langs, l))
  {
    hide LangName, ImportLang, ReadStringsFrom;
    if ls != [] {
      var vals := ReadLang(o, langs, ls[0]).value;
      var rest := ExportLangs(o, langs, ls[1..]).value;
      var elems := ExportLangs(o, langs, ls).value;
      assert elems[0] == LangGroup(o, ls[0], vals) && elems[1..] == rest;
      LangRoundTrip(o, langs, ls[0], acc, fresh0);
      var next := ImportLang(o, elems[0], acc, fresh0).value;
      assert NamesOf(ls) == {LangName(ls[0])} + NamesOf(ls[1..]);
      LangsRoundTrip(o, langs, ls[1..], next, fresh0);
    }
  }

  lemma NamesFirst(names: seq<string>, ls: seq<Int>)
    ensures Elements(names) == if names == [] then {} else {names[0]} + Elements(names[1..])
    ensures NamesOf(ls) == if ls == [] then {} else {LangName(ls[0])} + NamesOf(ls[1..])
  {
    hide LangName;
    if ls != [] { assert ls == [ls[0]] + ls[1..]; }
    if names != [] { assert names == [names[0]] + names[1..]; }
  }

  lemma {:induction false} CanonicalParse(names: seq<string>, ls: seq<Int>)
    requires |ls| == |names| && forall i :: 0 <= i < |ls| ==> 1 <= ls[i] < 65535 && names[i] == LangName(ls[i])
    ensures ParseLangs(names) == Ok(ls) && UpToZero(ls) == ls && NamesOf(ls) == Elements(names)
  {
    hide LangName, ParseLang, NamesOf, Elements;
    if names == [] {
      NamesFirst(names, ls);
    } else {
      forall i | 0 <= i < |ls[1..]| ensures 1 <= ls[1..][i] < 65535 && names[1..][i] == LangName(ls[1..][i]) {
        assert ls[1..][i] == ls[i + 1] && names[1..][i] == names[i + 1];
      }
      CanonicalParse(names[1..], ls[1..]);
      LangNameParses(ls[0]);
      NamesFirst(names, ls);
      assert ls == [ls[0]] + ls[1..];
    }
  }

  lemma {:induction false} CanonicalNumbers(names: seq<string>) returns (ls: seq<Int>)
    requires forall n <- names :: CanonicalLang(n)
    ensures |ls| == |names| && forall i :: 0 <= i < |ls| ==> 1 <= ls[i] < 65535 && names[i] == LangName(ls[i])
  {
    hide LangName;
    if names == [] {
      ls := [];
    } else {
      var rest := CanonicalNumbers(names[1..]);
      assert CanonicalLang(names[0]);
      var l: Int :| 1 <= l < 65535 && names[0] == LangName(l);
      ls := [l] + rest;
    }
  }

  /** Languages imported into nothing are named canonically, and none is 0. */
  lemma {:induction false} ImportedNames(o: Owner, langs: LangMap, ls: seq<Int>, acc: LangMap, fresh0: Files)
    requires ExportLangs(o, langs, ls).Ok? && forall l <- ls :: 1 <= l < 65535
    requires forall n <- acc :: CanonicalLang(n)
    ensures var r := ImportStrings(o, ExportLangs(o, langs, ls).value, acc, fresh0);
      r.Ok? ==> forall n <- r.value :: CanonicalLang(n)
  {
    hide LangName, ReadLang, SetStrings, ImportVals;
    if ls != [] {
      var elems := ExportLangs(o, langs, ls).value;
      var vals := ReadLang(o, langs, ls[0]).value;
      assert elems[0] == LangGroup(o, ls[0], vals) && elems[1..] == ExportLangs(o, langs, ls[1..]).value;
      var r := ImportLang(o, elems[0], acc, fresh0);
      if r.Ok? {
        assert Get(elems[0], "lang") == Some(SInt(ls[0])) by { assert elems[0].members[0] == Member("lang", SInt(ls[0])); }
        SetStringsKeys(o, acc, ls[0], ImportVals(StringNames(o), elems[0]).value, fresh0);
        assert ls[0] in ls && CanonicalLang(LangName(ls[0]));
        assert forall l <- ls[1..] :: l in ls;
        ImportedNames(o, langs, ls[1..], r.value, fresh0);
      }
    }
  }

  lemma SetStringsKeys(o: Owner, langs: LangMap, lang: Int, vals: seq<Option<string>>, fresh0: Files)
    ensures var r := SetStrings(o, langs, lang, vals, fresh0);
      r.Ok? ==> r.value.Keys == langs.Keys + {LangName(lang)}
  {}

  ghost predicate SameStrings(o: Owner, a: LangMap, b: LangMap) {
    a.Keys == b.Keys && forall n <- a :: ReadStringsFrom(StringNames(o), b[n]) == ReadStringsFrom(StringNames(o), a[n])
  }

  lemma CanonicalStringsSurvive(o: Owner, langs: LangMap, fresh0: Files)
    requires ExportStrings(o, langs).Ok? && forall n <- StringNames(o) :: n in fresh0
    requires forall n <- langs :: CanonicalLang(n)
    ensures var r := ImportStrings(o, ExportStrings(o, langs).value, map[], fresh0);
      r.Ok? && SameStrings(o, langs, r.value)
  {
    hide LangName, ParseLang, ParseLangs, ExportLangs, ImportStrings, ReadStringsFrom, UpToZero, CanonicalLang, SortedKeys;
    var names := SortedKeys(langs.Keys);
    assert forall n <- names :: n in Elements(names);
    var ks := CanonicalNumbers(names);
    CanonicalParse(names, ks);
    forall i, j | 0 <= i < j < |ks| ensures LangName(ks[i]) != LangName(ks[j]) {
      BelowIrreflexive(names[i]);
      assert Below(names[i], names[j]);
    }
    LangsRoundTrip(o, langs, ks, map[], fresh0);
    var r := ImportStrings(o, ExportStrings(o, langs).value, map[], fresh0);
    forall n | n in langs
      ensures n in r.value && ReadStringsFrom(StringNames(o), r.value[n]) == ReadStringsFrom(StringNames(o), langs[n])
    {
      assert n in Elements(names);
      var i :| 0 <= i < |names| && names[i] == n;
      assert ks[i] in ks && n == LangName(ks[i]);
      assert ReadLang(o, r.value, ks[i]) == ReadLang(o, langs, ks[i]);
    }
  }

  /** Exported strings, imported into a new gadget or configuration, come back in every language
      if and only if each language directory is named as the library names it, 0 excluded. */
  lemma StringsRoundTrip(o: Owner, langs: LangMap, fresh0: Files)
    requires ExportStrings(o, langs).Ok? && forall n <- StringNames(o) :: n in fresh0
    ensures var r := ImportStrings(o, ExportStrings(o, langs).value, map[], fresh0);
      (r.Ok? && SameStrings(o, langs, r.value)) <==> forall n <- langs :: CanonicalLang(n)
  {
    hide LangName, ParseLang, ParseLangs, ExportLangs, ImportStrings, ReadStringsFrom, UpToZero, CanonicalLang, SortedKeys;
    var ls := UpToZero(ParseLangs(SortedKeys(langs.Keys)).value);
    ImportedNames(o, langs, ls, map[], fresh0);
    if forall n <- langs :: CanonicalLang(n) { CanonicalStringsSurvive(o, langs, fresh0); }
  }
}
