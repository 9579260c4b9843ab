/** The library's own examples: the program `gadget-acm-ecm`, and the schemes its documentation shows. */
module Examples {
  import opened Errors
  import opened Text
  import opened Numbers
  import opened Names
  import opened Codecs
  import opened Settings
  import opened Kernel
  import opened Attributes
  import opened Records
  import opened Strings
  import opened Creation
  import opened Schemes
  import opened Machine
  import opened Traces
  import opened Handles
  import opened Parsing
  import opened UdcLinks
  import opened RoundTrip
  import opened Exports
  import opened Imports
  import opened Runs

  // ----- numbers as they are written

  lemma HexOf(n: nat, d: string)
    requires n < 16 && d == [HEX_DIGITS[n]]
    ensures Digits(n, 16) == d
  {
    DigitValues(n);
  }

  lemma HexThen(q: nat, r: nat, d: string)
    requires q > 0 && r < 16 && Digits(q, 16) == d
    ensures Digits(16 * q + r, 16) == d + [HEX_DIGITS[r]]
  {
    DigitValues(r);
    assert Quotient(16 * q + r, 16) == q;
  }

  lemma HexPadded(n: nat, width: nat, zeros: string)
    requires IsInt(n) && |zeros| + |Digits(n, 16)| == width && (forall c <- zeros :: c == '0')
    ensures PrintHex(n, width) == "0x" + zeros + Digits(n, 16)
  {
    hide Digits;
    var z := Zeros(|zeros|);
    forall i | 0 <= i < |z| ensures z[i] == zeros[i] { assert z[i] in z && zeros[i] in zeros; }
    assert z == zeros;
  }

  /** The numbers of the examples. */
  lemma HexNumbers()
    ensures WriteHex(0x200, 4) == "0x0200\n" && WriteHex(0x1d6b, 4) == "0x1d6b\n" && WriteHex(0x104, 4) == "0x0104\n"
    ensures WriteHex(1, 4) == "0x0001\n" && WriteHex(0, 2) == "0x00\n" && WriteHex(0x40, 2) == "0x40\n" && WriteHex(0x80, 2) == "0x80\n"
  {
    hide Digits, PrintHex;
    HexOf(0, "0");
    HexOf(1, "1");
    HexOf(2, "2");
    HexOf(4, "4");
    HexOf(8, "8");
    HexThen(1, 0xd, "1");
    HexThen(0x1d, 6, "1d");
    HexThen(0x1d6, 0xb, "1d6");
    HexThen(1, 0, "1");
    HexThen(0x10, 4, "10");
    HexThen(2, 0, "2");
    HexThen(0x20, 0, "20");
    HexThen(4, 0, "4");
    HexThen(8, 0, "8");
    HexPadded(0x200, 4, "0");
    HexPadded(0x1d6b, 4, "");
    HexPadded(0x104, 4, "0");
    HexPadded(1, 4, "000");
    HexPadded(0, 2, "0");
    HexPadded(0x40, 2, "");
    HexPadded(0x80, 2, "");
  }

  /** US English. */
  lemma UsEnglish()
    ensures LangName(0x409) == "0x409"
  {
    hide Digits, PrintHex;
    HexOf(4, "4");
    HexThen(4, 0, "4");
    HexThen(0x40, 9, "40");
    HexPadded(0x409, 3, "");
    NoPadding();
  }

  lemma NoPadding()
    requires Digits(0x409, 16) == "409"
    ensures PrintHex(0x409, 0) == "0x409"
  {
    hide Digits;
  }

  lemma DecimalNumbers()
    ensures PrintDec(1) == "1" && PrintDec(2) == "2" && PrintDec(5) == "5"
  {}

  // ----- what each call makes of one gadget when nothing fails

  /** The view with this directory and this image of a gadget. */
  function WithGadget(v: View, g: string, k: KGadget, m: Image): View { v.(tree := v.tree[g := k], memory := v.memory[g := m]) }

  lemma GadgetTwice(v: View, g: string, k: KGadget, m: Image, l: KGadget, n: Image)
    ensures WithGadget(WithGadget(v, g, k, m), g, l, n) == WithGadget(v, g, l, n)
  {
    UpdateTwice(v.tree, g, k, l);
    UpdateTwice(v.memory, g, m, n);
  }

  /** A gadget with attributes and English strings. */
  lemma GadgetCreated(e: Env, v: View, n: string, a: GadgetAttrs, s: GadgetStrs, w: View, o: Outcome) returns (files: Files)
    requires GadgetStep(e, v, n, Some(GadgetRecord(a)), Some(StrsList(s)), w, o, true)
    requires n !in v.tree && ValidName(n) && GadgetFilesThere(e.d.gadget)
    requires "manufacturer" in e.d.gadgetLang && "product" in e.d.gadgetLang && "serialnumber" in e.d.gadgetLang
    ensures Written(e.d.gadget, FieldWrites(GADGET_ATTRS, GadgetRecord(a))) == Ok(files)
    ensures o.ret == 0
    ensures w == WithGadget(v, n, NewGadget(e.d).(files := files, langs := map["0x409" :=
      Put(Put(Put(e.d.gadgetLang, "manufacturer", s.manufacturer), "product", s.product), "serialnumber", s.serial)]), Image({}, {}, None, NoRecord))
  {
    hide Written, FieldWrites, GadgetRecord, StrsList, Put;
    UsEnglish();
    GadgetAttrsByField(a, e.d.gadget);
    GadgetStringsByField(map[], 0x409, s, e.d.gadgetLang);
    files := Written(e.d.gadget, FieldWrites(GADGET_ATTRS, GadgetRecord(a))).value;
  }

  /** A function as the kernel makes it. */
  lemma FunctionCreated(e: Env, v: View, g: string, k: KGadget, m: Image, t: FunctionType, i: string, w: View, o: Outcome)
    requires FunctionStep(e, WithGadget(v, g, k, m), g, t, i, NoAttrs, w, o, true)
    requires i != "" && TypeName(t) in e.d.functions && TypeName(t) + "." + i !in k.functions && ValidName(TypeName(t) + "." + i)
    ensures o.ret == 0
    ensures w == WithGadget(v, g, k.(functions := k.functions[TypeName(t) + "." + i := e.d.functions[TypeName(t)]]),
                            m.(functions := m.functions + {TypeName(t) + "." + i}))
  {
    hide ValidName, TypeName;
    var before := WithGadget(v, g, k, m);
    var n := TypeName(t) + "." + i;
    assert n == FunctionName(t, i);
    TypePartOfName(t, i);
    var l := k.(functions := k.functions[n := e.d.functions[TypeName(t)]]);
    GadgetTwice(v, g, k, m, l, m.(functions := m.functions + {n}));
    assert MkdirError(before.tree, FunctionDir(g, n), e.d) == SUCCESS;
  }

  /** A configuration with default attributes and an English string. */
  lemma ConfigCreated(e: Env, v: View, g: string, k: KGadget, m: Image, id: Int, lbl: string, text: string, w: View, o: Outcome)
    requires ConfigStep(e, WithGadget(v, g, k, m), g, id, lbl, None, Some(Some(text)), w, o, true)
    requires 1 <= id <= 255 && k.configs == map[] && m.configs == {} && ValidName(lbl + "." + PrintDec(id))
    requires "configuration" in e.d.configLang
    ensures o.ret == 0
    ensures w == WithGadget(v, g,
      k.(configs := map[lbl + "." + PrintDec(id) := KConfig(e.d.config, map["0x409" := e.d.configLang["configuration" := text]], map[])]),
      m.(configs := {lbl + "." + PrintDec(id)}))
  {
    hide ValidName, PrintDec, SetStrings;
    var c := lbl + "." + PrintDec(id);
    assert c == ConfigName(lbl, id);
    UsEnglish();
    ConfigStringByField(map[], 0x409, Some(text), e.d.configLang);
    var kc := KConfig(e.d.config, map["0x409" := e.d.configLang["configuration" := text]], map[]);
    GadgetTwice(v, g, k, m, k.(configs := map[c := kc]), m.(configs := {c}));
    assert Written(e.d.config, []) == Ok(e.d.config);
    assert k.configs[c := kc] == map[c := kc] && m.configs + {c} == {c};
  }

  /** A binding under a name of its own. */
  lemma Bound(v: View, g: string, k: KGadget, m: Image, c: string, n: string, f: string, w: View, o: Outcome)
    requires BindStep(WithGadget(v, g, k, m), g, c, n, g, f, w, o, true)
    requires c in k.configs && n !in k.configs[c].links && f !in k.configs[c].links.Values && f in k.functions && ValidName(n)
    ensures o.ret == 0
    ensures w == WithGadget(v, g, k.(configs := k.configs[c := k.configs[c].(links := k.configs[c].links[n := f])]), m)
  {
    hide ValidName;
    GadgetTwice(v, g, k, m, k.(configs := k.configs[c := k.configs[c].(links := k.configs[c].links[n := f])]), m);
  }

  /** The first UDC there is. */
  lemma Attached(e: Env, v: View, g: string, k: KGadget, m: Image, w: View, o: Outcome)
    requires AttachStep(e, WithGadget(v, g, k, m), g, None, w, o, true)
    requires e.listed != [] && e.listed[0] in e.present && m.udc == None && forall h <- v.tree :: v.tree[h].udc != e.listed[0]
    ensures o.ret == 0
    ensures w == WithGadget(v, g, k.(udc := e.listed[0]), m.(udc := Some(e.listed[0]))).(owners := v.owners[e.listed[0] := g])
  {
    GadgetTwice(v, g, k, m, k.(udc := e.listed[0]), m.(udc := Some(e.listed[0])));
  }

  // ----- the program gadget-acm-ecm

  const EXAMPLE_ATTRS := GadgetAttrs(0x200, 0, 0, 0, 64, 0x1d6b, 0x104, 1)
  const EXAMPLE_STRS := GadgetStrs(Some("Foo Inc."), Some("Bar Gadget"), Some("0123456789"))

  /** The attribute files of the example, where `d` are those of a new gadget. */
  predicate ExampleFiles(files: Files, d: Files) {
    GadgetFilesThere(files) && files.Keys == d.Keys && files["bcdUSB"] == "0x0200\n" && files["bDeviceClass"] == "0x00\n" &&
    files["bDeviceSubClass"] == "0x00\n" && files["bDeviceProtocol"] == "0x00\n" && files["bMaxPacketSize0"] == "0x40\n" &&
    files["idVendor"] == "0x1d6b\n" && files["idProduct"] == "0x0104\n" && files["bcdDevice"] == "0x0001\n" &&
    forall n <- d | n !in GADGET_FILES :: files[n] == d[n]
  }

  lemma ExampleAttrs(files: Files, d: Files)
    requires GadgetFilesThere(d) && Written(d, FieldWrites(GADGET_ATTRS, GadgetRecord(EXAMPLE_ATTRS))) == Ok(files)
    ensures ExampleFiles(files, d)
  {
    hide Written, FieldWrites, WriteHex;
    HexNumbers();
    GadgetAttrsByField(EXAMPLE_ATTRS, d);
  }

  /** A string directory of the example. */
  function ExampleLangs(d: Defaults): LangMap {
    map["0x409" := d.gadgetLang["manufacturer" := "Foo Inc."]["product" := "Bar Gadget"]["serialnumber" := "0123456789"]]
  }

  /** What the kernel puts into new directories is enough for the example. */
  predicate ExampleDefaults(d: Defaults) {
    GadgetFilesThere(d.gadget) && "manufacturer" in d.gadgetLang && "product" in d.gadgetLang && "serialnumber" in d.gadgetLang &&
    "configuration" in d.configLang && "acm" in d.functions && "ecm" in d.functions
  }

  /** The functions of the program: two serial ports and a network adapter. */
  function AcmEcmFunctions(d: Defaults): map<string, KFunction>
    requires ExampleDefaults(d)
  {
    map["acm.usb0" := d.functions["acm"], "acm.usb1" := d.functions["acm"], "ecm.usb0" := d.functions["ecm"]]
  }

  function AcmEcmConfig(d: Defaults, links: map<string, string>): KConfig
    requires ExampleDefaults(d)
  {
    KConfig(d.config, map["0x409" := d.configLang["configuration" := "CDC 2xACM+ECM"]], links)
  }

  const ACM_ECM_LINKS := map["acm.GS0" := "acm.usb0", "acm.GS1" := "acm.usb1", "ecm.usb0" := "ecm.usb0"]

  /** The directory the program leaves. */
  function AcmEcmGadget(files: Files, udc: string, d: Defaults): KGadget
    requires ExampleDefaults(d)
  {
    KGadget(udc, files, d.osDesc, ExampleLangs(d), AcmEcmFunctions(d), map["The only one.1" := AcmEcmConfig(d, ACM_ECM_LINKS)], map[])
  }

  const ACM_ECM: seq<Request> := [
    Request.MakeGadget("g1", Some(GadgetRecord(EXAMPLE_ATTRS)), Some(StrsList(EXAMPLE_STRS))),
    Request.MakeFunction("g1", Acm, "usb0", NoAttrs),
    Request.MakeFunction("g1", Acm, "usb1", NoAttrs),
    Request.MakeFunction("g1", Ecm, "usb0", NoAttrs),
    Request.MakeConfig("g1", 1, Some("The only one"), None, Some(Some("CDC 2xACM+ECM"))),
    Request.Bind("g1", "The only one", 1, Some("acm.GS0"), "g1", Acm, "usb0"),
    Request.Bind("g1", "The only one", 1, Some("acm.GS1"), "g1", Acm, "usb1"),
    Request.Bind("g1", "The only one", 1, Some("ecm.usb0"), "g1", Ecm, "usb0"),
    Request.Attach("g1", None)]

  lemma NamesOk()
    ensures TypeName(Acm) + "." + "usb0" == "acm.usb0" && TypeName(Acm) + "." + "usb1" == "acm.usb1" && TypeName(Ecm) + "." + "usb0" == "ecm.usb0"
    ensures ValidName("g1") && ValidName("acm.usb0") && ValidName("acm.usb1") && ValidName("ecm.usb0")
    ensures ValidName("acm.GS0") && ValidName("acm.GS1") && ValidName("The only one.1") && "The only one" + "." + PrintDec(1) == "The only one.1"
  {
    DecimalNumbers();
  }

  /** The gadget while it gets its functions, and what memory knows of it. */
  function Begun(files: Files, fs: map<string, KFunction>, d: Defaults): KGadget { NewGadget(d).(files := files, langs := ExampleLangs(d), functions := fs) }

  function ImageWith(fs: map<string, KFunction>, configs: set<string>): Image { Image(fs.Keys, configs, None, NoRecord) }

  lemma NextFunction(e: Env, v: View, files: Files, fs: map<string, KFunction>, t: FunctionType, i: string, w: View, o: Outcome)
    requires Step(e, WithGadget(v, "g1", Begun(files, fs, e.d), ImageWith(fs, {})), Request.MakeFunction("g1", t, i, NoAttrs), w, o, true)
    requires i != "" && TypeName(t) in e.d.functions && TypeName(t) + "." + i !in fs && ValidName(TypeName(t) + "." + i)
    ensures o.ret == 0
    ensures var more := fs[TypeName(t) + "." + i := e.d.functions[TypeName(t)]];
      w == WithGadget(v, "g1", Begun(files, more, e.d), ImageWith(more, {}))
  {
    hide FunctionStep, ValidName, TypeName;
    FunctionCreated(e, v, "g1", Begun(files, fs, e.d), ImageWith(fs, {}), t, i, w, o);
    assert fs[TypeName(t) + "." + i := e.d.functions[TypeName(t)]].Keys == fs.Keys + {TypeName(t) + "." + i};
  }

  lemma FirstCall(e: Env, v: View, w: View, o: Outcome) returns (files: Files)
    requires Step(e, v, ACM_ECM[0], w, o, true) && "g1" !in v.tree && ExampleDefaults(e.d)
    ensures ExampleFiles(files, e.d.gadget) && o.ret == 0 && w == WithGadget(v, "g1", Begun(files, map[], e.d), ImageWith(map[], {}))
  {
    hide GadgetStep, FieldWrites, GadgetRecord, StrsList, ValidName, ExampleFiles;
    NamesOk();
    files := GadgetCreated(e, v, "g1", EXAMPLE_ATTRS, EXAMPLE_STRS, w, o);
    ExampleAttrs(files, e.d.gadget);
    assert ImageWith(map[], {}) == Image({}, {}, None, NoRecord);
  }

  /** The event is a step from where another ended. */
  ghost predicate Follows(e: Env, last: Event, r: Request, ev: Event) { Step(e, last.after, r, ev.after, ev.outcome, true) }

  /** The gadget and its functions: the first four calls. */
  lemma FirstCalls(e: Env, v: View, evs: seq<Event>) returns (files: Files)
    requires |evs| == 9 && "g1" !in v.tree && ExampleDefaults(e.d) && Step(e, v, ACM_ECM[0], evs[0].after, evs[0].outcome, true)
    requires Follows(e, evs[0], ACM_ECM[1], evs[1]) && Follows(e, evs[1], ACM_ECM[2], evs[2]) && Follows(e, evs[2], ACM_ECM[3], evs[3])
    ensures ExampleFiles(files, e.d.gadget) && evs[0].outcome.ret == evs[1].outcome.ret == evs[2].outcome.ret == evs[3].outcome.ret == 0
    ensures evs[3].after == WithGadget(v, "g1", Begun(files, AcmEcmFunctions(e.d), e.d), ImageWith(AcmEcmFunctions(e.d), {}))
  {
    hide Step, ValidName, ExampleFiles, WithGadget, Begun, ImageWith;
    NamesOk();
    files := FirstCall(e, v, evs[0].after, evs[0].outcome);
    var acm := e.d.functions["acm"];
    NextFunction(e, v, files, map[], Acm, "usb0", evs[1].after, evs[1].outcome);
    NextFunction(e, v, files, map["acm.usb0" := acm], Acm, "usb1", evs[2].after, evs[2].outcome);
    NextFunction(e, v, files, map["acm.usb0" := acm, "acm.usb1" := acm], Ecm, "usb0", evs[3].after, evs[3].outcome);
  }

  const ONE := "The only one.1"

  /** The gadget while its configuration gets its links. */
  function Half(files: Files, links: map<string, string>, d: Defaults): KGadget
    requires ExampleDefaults(d)
  {
    Begun(files, AcmEcmFunctions(d), d).(configs := map[ONE := AcmEcmConfig(d, links)])
  }

  lemma ConfigCall(e: Env, v: View, files: Files, w: View, o: Outcome)
    requires ExampleDefaults(e.d)
    requires Step(e, WithGadget(v, "g1", Begun(files, AcmEcmFunctions(e.d), e.d), ImageWith(AcmEcmFunctions(e.d), {})), ACM_ECM[4], w, o, true)
    ensures o.ret == 0 && w == WithGadget(v, "g1", Half(files, map[], e.d), ImageWith(AcmEcmFunctions(e.d), {ONE}))
  {
    hide ConfigStep, ValidName, PrintDec;
    NamesOk();
    var k, m := Begun(files, AcmEcmFunctions(e.d), e.d), ImageWith(AcmEcmFunctions(e.d), {});
    ConfigCreated(e, v, "g1", k, m, 1, "The only one", "CDC 2xACM+ECM", w, o);
  }

  lemma LinkStep(e: Env, v: View, n: string, t: FunctionType, i: string, w: View, o: Outcome)
    requires Step(e, v, Request.Bind("g1", "The only one", 1, Some(n), "g1", t, i), w, o, true)
    requires "g1" in v.memory && ONE in v.memory["g1"].configs && TypeName(t) + "." + i in v.memory["g1"].functions
    ensures BindStep(v, "g1", ONE, n, "g1", TypeName(t) + "." + i, w, o, true)
  {
    hide BindStep, TypeName, PrintDec, ValidName;
    NamesOk();
  }

  lemma NextLink(e: Env, v: View, files: Files, links: map<string, string>, n: string, t: FunctionType, i: string, w: View, o: Outcome)
    requires ExampleDefaults(e.d)
    requires Step(e, WithGadget(v, "g1", Half(files, links, e.d), ImageWith(AcmEcmFunctions(e.d), {ONE})),
                  Request.Bind("g1", "The only one", 1, Some(n), "g1", t, i), w, o, true)
    requires TypeName(t) + "." + i in AcmEcmFunctions(e.d) && ValidName(n) && n !in links && TypeName(t) + "." + i !in links.Values
    ensures o.ret == 0
    ensures w == WithGadget(v, "g1", Half(files, links[n := TypeName(t) + "." + i], e.d), ImageWith(AcmEcmFunctions(e.d), {ONE}))
  {
    hide Step, BindStep, ValidName, TypeName, AcmEcmFunctions;
    var k, m := Half(files, links, e.d), ImageWith(AcmEcmFunctions(e.d), {ONE});
    LinkStep(e, WithGadget(v, "g1", k, m), n, t, i, w, o);
    Bound(v, "g1", k, m, ONE, n, TypeName(t) + "." + i, w, o);
    UpdateTwice(map[], ONE, AcmEcmConfig(e.d, links), AcmEcmConfig(e.d, links[n := TypeName(t) + "." + i]));
  }

  lemma AttachCall(e: Env, v: View, files: Files, w: View, o: Outcome)
    requires ExampleDefaults(e.d) && e.listed != [] && e.listed[0] in e.present && forall h <- v.tree :: v.tree[h].udc != e.listed[0]
    requires Step(e, WithGadget(v, "g1", Half(files, ACM_ECM_LINKS, e.d), ImageWith(AcmEcmFunctions(e.d), {ONE})), ACM_ECM[8], w, o, true)
    ensures o.ret == 0
    ensures w == WithGadget(v, "g1", AcmEcmGadget(files, e.listed[0], e.d), ImageWith(AcmEcmFunctions(e.d), {ONE}).(udc := Some(e.listed[0])))
      .(owners := v.owners[e.listed[0] := "g1"])
  {
    hide AttachStep, AcmEcmFunctions;
    Attached(e, v, "g1", Half(files, ACM_ECM_LINKS, e.d), ImageWith(AcmEcmFunctions(e.d), {ONE}), w, o);
  }

  /** The configuration, its links and the UDC: the other five calls. */
  lemma LastCalls(e: Env, v: View, files: Files, evs: seq<Event>)
    requires |evs| == 9 && ExampleDefaults(e.d)
    requires e.listed != [] && e.listed[0] in e.present && forall h <- v.tree :: v.tree[h].udc != e.listed[0]
    requires evs[3].after == WithGadget(v, "g1", Begun(files, AcmEcmFunctions(e.d), e.d), ImageWith(AcmEcmFunctions(e.d), {}))
    requires Follows(e, evs[3], ACM_ECM[4], evs[4]) && Follows(e, evs[4], ACM_ECM[5], evs[5]) && Follows(e, evs[5], ACM_ECM[6], evs[6])
    requires Follows(e, evs[6], ACM_ECM[7], evs[7]) && Follows(e, evs[7], ACM_ECM[8], evs[8])
    ensures evs[4].outcome.ret == evs[5].outcome.ret == evs[6].outcome.ret == evs[7].outcome.ret == evs[8].outcome.ret == 0
    ensures var w := evs[8].after;
      w.tree == v.tree["g1" := AcmEcmGadget(files, e.listed[0], e.d)] && w.owners == v.owners[e.listed[0] := "g1"] &&
      w.memory == v.memory["g1" := Image({"acm.usb0", "acm.usb1", "ecm.usb0"}, {ONE}, Some(e.listed[0]), NoRecord)]
  {
    hide Step, ValidName, Half, AcmEcmGadget, Begun;
    NamesOk();
    ConfigCall(e, v, files, evs[4].after, evs[4].outcome);
    NextLink(e, v, files, map[], "acm.GS0", Acm, "usb0", evs[5].after, evs[5].outcome);
    NextLink(e, v, files, map["acm.GS0" := "acm.usb0"], "acm.GS1", Acm, "usb1", evs[6].after, evs[6].outcome);
    NextLink(e, v, files, map["acm.GS0" := "acm.usb0", "acm.GS1" := "acm.usb1"], "ecm.usb0", Ecm, "usb0", evs[7].after, evs[7].outcome);
    AttachCall(e, v, files, evs[8].after, evs[8].outcome);
    assert AcmEcmFunctions(e.d).Keys == {"acm.usb0", "acm.usb1", "ecm.usb0"};
  }

  lemma NotHalted(e: Env, ev: Event)
    requires Happened(e, ev) && !ev.request.AskGadget? && !ev.request.DropGadget?
    ensures !ev.outcome.halted
  {
    hide GadgetStep, SchemeStep, FunctionStep, FunctionImportStep, ConfigStep, ConfigImportStep, BindStep, UnbindStep, SetOsStep,
      ClearOsStep, AttachStep, DetachStep, AskUdcStep, DropConfigStep, DropFunctionStep, KernelStep, Handled, Agreeing;
  }

  /** The calls of the program, none of which is made to fail. */
  ghost predicate Program(events: seq<Event>) {
    |events| == 9 && forall i :: 0 <= i < 9 ==> events[i].request == ACM_ECM[i] && events[i].quiet
  }

  lemma StepsOf(e: Env, events: seq<Event>, v: View, w: View)
    requires Trace(e, events, v, w) && Program(events)
    ensures |events| == 9
    ensures Step(e, v, ACM_ECM[0], events[0].after, events[0].outcome, true) && events[8].after == w
    ensures forall i :: 1 <= i < |events| ==> Follows(e, events[i - 1], ACM_ECM[i], events[i])
  {
    hide Step, Agreeing, Fit;
    assert Happened(e, events[0]);
    forall i | 1 <= i < |events| ensures Follows(e, events[i - 1], ACM_ECM[i], events[i]) {
      assert Happened(e, events[i]) && events[i].before == events[i - 1].after;
    }
  }

  /** Nine calls on any quiet system without a gadget of that name. */
  lemma AcmEcmTrace(e: Env, events: seq<Event>, v: View, w: View) returns (files: Files)
    requires Trace(e, events, v, w) && Program(events)
    requires "g1" !in v.tree && ExampleDefaults(e.d)
    requires e.listed != [] && e.listed[0] in e.present && forall h <- v.tree :: v.tree[h].udc != e.listed[0]
    ensures ExampleFiles(files, e.d.gadget) && forall i :: 0 <= i < |events| ==> events[i].outcome.ret == 0
    ensures w.tree == v.tree["g1" := AcmEcmGadget(files, e.listed[0], e.d)]
  {
    hide Step, Trace, ExampleFiles, AcmEcmGadget, WithGadget, Begun, ImageWith, AcmEcmFunctions, Follows, ExampleDefaults, Program;
    StepsOf(e, events, v, w);
    files := FirstCalls(e, v, events);
    LastCalls(e, v, files, events);
  }

  lemma ExampleFits()
    ensures forall r <- ACM_ECM :: Fit(r)
  {}

  /** The program, run on any sound state when nothing fails: every call succeeds, and configfs then holds the gadget the
      program describes, next to what was there. */
  method AcmEcm(s: State) returns (rets: seq<int>, ghost files: Files)
    requires Sound(s) && s.fs.Quiet() && "g1" !in s.fs.tree && ExampleDefaults(s.fs.defaults)
    requires s.udcs != [] && s.udcs[0].name in s.fs.udcs && forall h <- s.fs.tree :: s.fs.tree[h].udc != s.udcs[0].name
    modifies Reach(s)
    ensures Sound(s) && |rets| == 9 && forall i :: 0 <= i < 9 ==> rets[i] == 0
    ensures ExampleFiles(files, s.fs.defaults.gadget) && s.udcs != []
    ensures s.fs.tree == old(s.fs.tree)["g1" := AcmEcmGadget(files, old(s.udcs[0].name), s.fs.defaults)]
  {
    hide Sound, Reach, Trace, ExampleFiles, AcmEcmGadget, Memory, Runs.Owners, Exact, Matched, Lasting, Harmless, HarmlessWhenQuiet, Displaces,
      Happened, Fit, Step;
    ExampleFits();
    ghost var v, e := Here(s), EnvOf(s);
    ghost var events;
    rets, events := Run(s, ACM_ECM);
    AllMade(e, events, v, Here(s));
    files := AcmEcmTrace(e, events, v, Here(s));
  }

  lemma AllMade(e: Env, events: seq<Event>, v: View, w: View)
    requires Trace(e, events, v, w) && |events| <= |ACM_ECM| && forall i :: 0 <= i < |events| ==> events[i].request == ACM_ECM[i]
    ensures forall ev <- events :: !ev.outcome.halted
  {
    hide Happened;
    forall ev | ev in events ensures !ev.outcome.halted {
      var i :| 0 <= i < |events| && events[i] == ev;
      assert Happened(e, ev) && ACM_ECM[i] in ACM_ECM;
      NotHalted(e, ev);
    }
  }

  // ----- the gadget of the program, exported

  lemma AcmEcmKeys()
    ensures IsFunctionName("acm.usb0") && FunctionKeyOf("acm.usb0") == FunctionKey(Acm, "usb0")
    ensures IsFunctionName("acm.usb1") && FunctionKeyOf("acm.usb1") == FunctionKey(Acm, "usb1")
    ensures IsFunctionName("ecm.usb0") && FunctionKeyOf("ecm.usb0") == FunctionKey(Ecm, "usb0")
    ensures IsConfigName(ONE)
  {
    hide IsFunctionName, IsConfigName;
    NamesOk();
    FunctionKeyIs(Acm, "usb0");
    FunctionKeyIs(Acm, "usb1");
    FunctionKeyIs(Ecm, "usb0");
    ConfigKeyIs("The only one", 1);
  }

  lemma AcmEcmNamed(files: Files, udc: string, d: Defaults)
    requires ExampleDefaults(d)
    ensures WellNamed(AcmEcmGadget(files, udc, d))
  {
    hide IsFunctionName, IsConfigName, FunctionKeyOf, ConfigKeyOf, ValidName;
    NamesOk();
    AcmEcmKeys();
    var k := AcmEcmGadget(files, udc, d);
    assert k.functions.Keys == {"acm.usb0", "acm.usb1", "ecm.usb0"} && k.configs.Keys == {ONE};
    assert k.configs[ONE].links == ACM_ECM_LINKS && ACM_ECM_LINKS.Keys == {"acm.GS0", "acm.GS1", "ecm.usb0"};
  }

  lemma EnglishTellable(o: Owner, files: Files)
    requires StringFilesThere(o, files)
    ensures StringsTellable(o, map["0x409" := files])
  {
    hide LangName, ParseLang;
    UsEnglish();
    LangNameParses(0x409);
  }

  lemma LabelFits(n: string, t: FunctionType, i: string)
    requires IsFunctionName(n) && FunctionKeyOf(n) == FunctionKey(t, i) && |TypeName(t)| + |i| < 39
    requires forall c <- i :: 'a' <= c <= 'z' || '0' <= c <= '9'
    ensures LabelUsable(map[], n) && |Generated(n)| < 40
  {
    hide IsFunctionName, FunctionKeyOf, TypeName;
    GeneratedNameValid(t, i);
  }

  lemma AcmEcmListed(files: Files, udc: string, d: Defaults)
    requires ExampleDefaults(d) && NetTellable(d.functions["ecm"].files)
    ensures forall n <- AcmEcmFunctions(d) :: FunctionListed(AcmEcmGadget(files, udc, d), map[], n)
  {
    hide IsFunctionName, FunctionKeyOf, LabelUsable, Generated, NetTellable;
    AcmEcmKeys();
    LabelFits("acm.usb0", Acm, "usb0");
    LabelFits("acm.usb1", Acm, "usb1");
    LabelFits("ecm.usb0", Ecm, "usb0");
    assert AcmEcmFunctions(d).Keys == {"acm.usb0", "acm.usb1", "ecm.usb0"};
  }

  lemma AcmEcmLinks(d: Defaults)
    requires ExampleDefaults(d) && ConfigFilesThere(d.config) && LinksNamed(AcmEcmConfig(d, ACM_ECM_LINKS))
    ensures ConfigTellable(AcmEcmConfig(d, ACM_ECM_LINKS))
  {
    hide IsFunctionName, FunctionKeyOf, LabelUsable, Generated, StringsTellable;
    AcmEcmKeys();
    LabelFits("acm.usb0", Acm, "usb0");
    LabelFits("acm.usb1", Acm, "usb1");
    LabelFits("ecm.usb0", Ecm, "usb0");
    EnglishTellable(OfConfig, d.configLang["configuration" := "CDC 2xACM+ECM"]);
    assert ACM_ECM_LINKS.Keys == {"acm.GS0", "acm.GS1", "ecm.usb0"};
  }

  lemma AcmEcmTellable(files: Files, udc: string, d: Defaults)
    requires ExampleDefaults(d) && GadgetFilesThere(files) && ConfigFilesThere(d.config) && NetTellable(d.functions["ecm"].files)
    requires WellNamed(AcmEcmGadget(files, udc, d))
    ensures GadgetTellable(AcmEcmGadget(files, udc, d), map[])
  {
    hide IsFunctionName, IsConfigName, StringsTellable, ConfigTellable, FunctionListed, NetTellable, LabelsApart, AcmEcmFunctions, AcmEcmConfig,
      ValidName, LinksOk, GadgetFilesThere, ConfigFilesThere;
    AcmEcmListed(files, udc, d);
    var k := AcmEcmGadget(files, udc, d);
    assert k.configs.Keys == {ONE} && LinksNamed(k.configs[ONE]);
    AcmEcmLinks(d);
    EnglishTellable(OfGadget, ExampleLangs(d)["0x409"]);
    GeneratedApart(k.functions.Keys);
  }

  /** The gadget of the program can be exported, given that the adapter's addresses can be read. */
  lemma AcmEcmExported(files: Files, udc: string, d: Defaults)
    requires ExampleDefaults(d) && ExampleFiles(files, d.gadget) && ConfigFilesThere(d.config) && NetTellable(d.functions["ecm"].files)
    ensures WellNamed(AcmEcmGadget(files, udc, d)) && ExportWhole(AcmEcmGadget(files, udc, d), map[], None).Ok?
  {
    hide ExportWhole, GadgetTold, NetTellable, AcmEcmGadget, WellNamed, GadgetTellable;
    AcmEcmNamed(files, udc, d);
    AcmEcmTellable(files, udc, d);
    GadgetExport(AcmEcmGadget(files, udc, d), map[], None);
  }

  lemma GeneratedApart(names: set<string>)
    requires forall n <- names :: IsFunctionName(n)
    ensures LabelsApart(names, map[])
  {
    hide IsFunctionName, GeneratedLabel;
    forall n, m | n in names && m in names && GroupName(map[], n) == GroupName(map[], m) ensures n == m {
      var a, b := FunctionKeyOf(n), FunctionKeyOf(m);
      GeneratedLabelInjective(a.ftype, a.instance, b.ftype, b.instance);
    }
  }

  // ----- the documented schemes

  /** Groups of settings, as schemes write them. */
  function Quoted(name: string, s: string): Member { Member(name, SStr(s)) }
  function Num(name: string, n: Int): Member { Member(name, SInt(n)) }
  function Sub(name: string, ms: seq<Member>): Member { Member(name, SGroup(ms)) }
  function Elems(name: string, elems: seq<Setting>): Member { Member(name, SList(elems)) }

  /** The featured example of a configuration's bindings: a label, a label under a name, and a function defined in place. */
  const FEATURED := [
    SStr("function_label"),
    SGroup([Quoted("name", "my_binding_name"), Quoted("function", "other_function_label")]),
    SGroup([
      Quoted("name", "my_binding_name"),
      Sub("function", [
        Quoted("type", "ecm"), Quoted("instance", "my_inline_func_definition"), Sub("attrs", [Quoted("dev_addr", "ef:33:be:9a:90:36")])])])]

  /** Two of its bindings have the same name, so that it is always refused. */
  lemma FeaturedRefused(dr: Draft, c: string, d: Defaults)
    requires c in dr.k.configs
    ensures ImportBindings(dr, c, FEATURED, d).Err?
  {
    hide ImportBinding;
    assert FEATURED[1..][0] == FEATURED[1] && FEATURED[1..][1..][0] == FEATURED[2];
    var a := ImportBinding(dr, c, FEATURED[0], d);
    if a.Ok? {
      var b := ImportBinding(Draft(a.value, dr.labels), c, FEATURED[1], d);
      if b.Ok? {
        SecondNamed(Draft(a.value, dr.labels), c, d);
        ThirdRefused(Draft(b.value, dr.labels), c, d);
      }
    }
  }

  lemma SecondNamed(dr: Draft, c: string, d: Defaults)
    requires c in dr.k.configs && ImportBinding(dr, c, FEATURED[1], d).Ok?
    ensures "my_binding_name" in ImportBinding(dr, c, FEATURED[1], d).value.configs[c].links
  {
    hide Lookup;
    var ms := FEATURED[1].members;
    FindAt(ms, 0);
    FindAt(ms, 1);
    LabelTarget(dr, FEATURED[1], "other_function_label", d);
    GroupBinding(dr, c, FEATURED[1], ImportTarget(dr, FEATURED[1], d).value, d);
  }

  lemma ThirdRefused(dr: Draft, c: string, d: Defaults)
    requires c in dr.k.configs && "my_binding_name" in dr.k.configs[c].links
    ensures ImportBinding(dr, c, FEATURED[2], d).Err?
  {
    hide ImportTarget;
    FindAt(FEATURED[2].members, 0);
    var w := ImportTarget(dr, FEATURED[2], d);
    if w.Ok? { GroupBinding(dr, c, FEATURED[2], w.value, d); }
  }

  const SCHEME_ATTRS := [
    Num("bcdUSB", 0x200), Num("bDeviceClass", 0), Num("bDeviceSubClass", 0), Num("bDeviceProtocol", 0), Num("bMaxPacketSize0", 0x40),
    Num("idVendor", 0x1d6b), Num("idProduct", 0x104), Num("bcdDevice", 1)]

  const SCHEME_STRINGS := [SGroup([
    Num("lang", 0x409), Quoted("manufacturer", "Foo Inc."), Quoted("product", "Bar Gadget"), Quoted("serialnumber", "0123456789")])]

  const SCHEME_FUNCTIONS := [
    Sub("acm_usb0", [Quoted("instance", "usb0"), Quoted("type", "acm")]),
    Sub("my_awesome_label", [Quoted("instance", "inst_name"), Quoted("type", "ecm"), Sub("attrs", [Num("qmult", 5)])])]

  const FIRST_CONFIG := SGroup([
    Num("id", 1), Quoted("name", "The only one"), Sub("attrs", [Num("bmAttributes", 0x80), Num("bMaxPower", 2)]),
    Elems("strings", [SGroup([Num("lang", 0x409), Quoted("configuration", "Config id 1")])]),
    Elems("functions", [SGroup([Quoted("name", "acm.GS0"), Quoted("function", "acm_usb0")])])])

  /** A configuration bound by a label alone, and to a function defined in place. */
  const SECOND_CONFIG := SGroup([
    Num("id", 2), Quoted("name", "My favorite config"),
    Elems("functions", [
      SStr("my_awesome_label"),
      SGroup([
        Quoted("name", "my_binding_name"),
        Sub("function", [Quoted("type", "ecm"), Quoted("instance", "inline")])])])])

  /** The example of a gadget scheme, with that second configuration. */
  const GADGET_SCHEME := SGroup([
    Sub("attrs", SCHEME_ATTRS), Elems("strings", SCHEME_STRINGS), Sub("functions", SCHEME_FUNCTIONS),
    Elems("configs", [FIRST_CONFIG, SECOND_CONFIG])])

  lemma SchemeAttrs(d: Files) returns (files: Files)
    requires GadgetFilesThere(d)
    ensures ImportFields(GADGET_ATTRS, SGroup(SCHEME_ATTRS), d) == Ok(files) && ExampleFiles(files, d)
  {
    hide ImportFields, PrintHex, Get;
    HexNumbers();
    SchemeNumbers();
    GadgetAttrsImport(SGroup(SCHEME_ATTRS), d);
    files := ImportFields(GADGET_ATTRS, SGroup(SCHEME_ATTRS), d).value;
  }

  lemma SchemeNumbers()
    ensures var g := SGroup(SCHEME_ATTRS);
      Get(g, "bcdUSB") == Some(SInt(0x200)) && Get(g, "bDeviceClass") == Some(SInt(0)) && Get(g, "bDeviceSubClass") == Some(SInt(0)) &&
      Get(g, "bDeviceProtocol") == Some(SInt(0)) && Get(g, "bMaxPacketSize0") == Some(SInt(0x40)) && Get(g, "idVendor") == Some(SInt(0x1d6b)) &&
      Get(g, "idProduct") == Some(SInt(0x104)) && Get(g, "bcdDevice") == Some(SInt(1))
  {
    hide Find;
    GadgetTagsApart();
    var ms := SCHEME_ATTRS;
    assert forall i :: 0 <= i < |ms| ==> ms[i].name == GADGET_ATTRS[i].tag;
    forall i | 0 <= i < |ms| ensures Find(ms, ms[i].name) == Some(ms[i].value) { FindAt(ms, i); }
    assert Find(ms, ms[0].name) == Some(SInt(0x200)) && Find(ms, ms[1].name) == Some(SInt(0)) && Find(ms, ms[2].name) == Some(SInt(0));
    assert Find(ms, ms[3].name) == Some(SInt(0)) && Find(ms, ms[4].name) == Some(SInt(0x40)) && Find(ms, ms[5].name) == Some(SInt(0x1d6b));
    assert Find(ms, ms[6].name) == Some(SInt(0x104)) && Find(ms, ms[7].name) == Some(SInt(1));
  }

  lemma SchemeStrings(d: Defaults)
    requires "manufacturer" in d.gadgetLang && "product" in d.gadgetLang && "serialnumber" in d.gadgetLang
    ensures ImportStrings(OfGadget, SCHEME_STRINGS, map[], d.gadgetLang) == Ok(ExampleLangs(d))
  {
    hide ImportLang, LangName, Find;
    UsEnglish();
    var ms := SCHEME_STRINGS[0].members;
    FindAt(ms, 0);
    FindAt(ms, 1);
    FindAt(ms, 2);
    FindAt(ms, 3);
    GadgetLangImport(SCHEME_STRINGS[0], map[], d.gadgetLang);
    assert SCHEME_STRINGS[1..] == [];
  }

  lemma ConfigStrings(text: string, d: Defaults)
    requires "configuration" in d.configLang
    ensures ImportStrings(OfConfig, [SGroup([Num("lang", 0x409), Quoted("configuration", text)])], map[], d.configLang) ==
      Ok(map["0x409" := d.configLang["configuration" := text]])
  {
    hide ImportLang, LangName, Find;
    UsEnglish();
    var ms := [Num("lang", 0x409), Quoted("configuration", text)];
    FindAt(ms, 0);
    FindAt(ms, 1);
    ConfigLangImport(SGroup(ms), map[], d.configLang);
    assert [SGroup(ms)][1..] == [];
  }

  // ----- its functions

  lemma SerialPort(dr: Draft, d: Defaults)
    requires ExampleDefaults(d) && "acm.usb0" !in dr.k.functions
    ensures ImportLabelled(dr, SCHEME_FUNCTIONS[0], d) ==
      Ok(Draft(dr.k.(functions := dr.k.functions["acm.usb0" := d.functions["acm"]]), dr.labels["acm.usb0" := "acm_usb0"]))
  {
    hide ImportLabelled, Find, ValidName, AttrsAccept, AttrsSets, IfacesSet, IfaceAccepts, Children;
    NamesOk();
    var ms := [Quoted("instance", "usb0"), Quoted("type", "acm")];
    FindAt(ms, 0);
    FindAt(ms, 1);
    NotAmong(ms, "attrs");
    NotAmong(ms, "os_descs");
    LabelledIff(dr, SCHEME_FUNCTIONS[0], Acm, "usb0", d);
  }

  lemma NotAmong(ms: seq<Member>, n: string)
    requires forall m <- ms :: m.name != n
    ensures Find(ms, n) == None
  {}

  /** The adapter with a queue of 5. */
  function Adapter(d: Defaults): KFunction
    requires ExampleDefaults(d)
  {
    d.functions["ecm"].(files := d.functions["ecm"].files["qmult" := "5\n"])
  }

  lemma SchemeNames()
    ensures TypeName(Ecm) + "." + "inst_name" == "ecm.inst_name" && TypeName(Ecm) + "." + "inline" == "ecm.inline"
    ensures ValidName("ecm.inst_name") && ValidName("ecm.inline") && ValidName("my_binding_name")
  {}

  lemma FavoriteName()
    ensures "My favorite config" + "." + PrintDec(2) == "My favorite config.2" && ValidName("My favorite config.2")
  {
    DecimalNumbers();
  }

  lemma NetworkAdapter(dr: Draft, d: Defaults)
    requires ExampleDefaults(d) && "ecm.inst_name" !in dr.k.functions && "qmult" in d.functions["ecm"].files
    ensures ImportLabelled(dr, SCHEME_FUNCTIONS[1], d) ==
      Ok(Draft(dr.k.(functions := dr.k.functions["ecm.inst_name" := Adapter(d)]), dr.labels["ecm.inst_name" := "my_awesome_label"]))
  {
    hide ImportLabelled, Find, ValidName, AttrsAccept, AttrsSets, IfacesSet, IfaceAccepts, Children;
    SchemeNames();
    var ms := [Quoted("instance", "inst_name"), Quoted("type", "ecm"), Sub("attrs", [Num("qmult", 5)])];
    FindAt(ms, 0);
    FindAt(ms, 1);
    FindAt(ms, 2);
    NotAmong(ms, "os_descs");
    QueueAccepted(d.functions["ecm"], d);
    LabelledIff(dr, SCHEME_FUNCTIONS[1], Ecm, "inst_name", d);
    var l := ImportLabelled(dr, SCHEME_FUNCTIONS[1], d).value.k.functions["ecm.inst_name"];
    QueueSet(d.functions["ecm"], l, d);
  }

  lemma QueueAccepted(k: KFunction, d: Defaults)
    requires "qmult" in k.files
    ensures AttrsAccept(Ecm, SGroup([Num("qmult", 5)]), k, d)
  {
    var ms := [Num("qmult", 5)];
    FindAt(ms, 0);
    NotAmong(ms, "dev_addr");
    NotAmong(ms, "host_addr");
    NotAmong(ms, "class_");
    NotAmong(ms, "subclass");
    NotAmong(ms, "protocol");
  }

  lemma QueueSet(k: KFunction, l: KFunction, d: Defaults)
    requires "qmult" in k.files && l.ifaces == k.ifaces && AttrsSets(Ecm, SGroup([Num("qmult", 5)]), k, l, d)
    ensures l == k.(files := k.files["qmult" := "5\n"])
  {
    hide Find, PrintDec;
    DecimalNumbers();
    var ms := [Num("qmult", 5)];
    FindAt(ms, 0);
    NotAmong(ms, "dev_addr");
    NotAmong(ms, "host_addr");
    NotAmong(ms, "class_");
    NotAmong(ms, "subclass");
    NotAmong(ms, "protocol");
    assert l.files["qmult"] == "5\n";
    forall n | n in k.files && n != "qmult" ensures l.files[n] == k.files[n] {}
  }

  /** The functions of the scheme, and their labels. */
  lemma SchemeFunctions(k: KGadget, d: Defaults)
    requires ExampleDefaults(d) && k.functions == map[] && "qmult" in d.functions["ecm"].files
    ensures ImportFunctions(Draft(k, map[]), SCHEME_FUNCTIONS, d) ==
      Ok(Draft(k.(functions := map["acm.usb0" := d.functions["acm"], "ecm.inst_name" := Adapter(d)]),
               map["acm.usb0" := "acm_usb0", "ecm.inst_name" := "my_awesome_label"]))
  {
    hide ImportLabelled;
    var ms := SCHEME_FUNCTIONS;
    assert ms[1..][0] == ms[1] && ms[1..][1..] == [];
    SerialPort(Draft(k, map[]), d);
    NetworkAdapter(Draft(k.(functions := map["acm.usb0" := d.functions["acm"]]), map["acm.usb0" := "acm_usb0"]), d);
  }

  // ----- its configurations

  function FirstFiles(d: Defaults): Files { d.config["bmAttributes" := "0x80\n"]["MaxPower" := "2\n"] }

  /** The first configuration, with these links. */
  function First(d: Defaults, links: map<string, string>): KConfig {
    KConfig(FirstFiles(d), map["0x409" := d.configLang["configuration" := "Config id 1"]], links)
  }

  lemma FirstFilled(d: Defaults)
    requires ConfigFilesThere(d.config) && "configuration" in d.configLang
    ensures FillConfig(FIRST_CONFIG, NewConfig(d), d) == Ok(First(d, map[]))
  {
    hide Find, ImportFields, ImportStrings, FillConfig;
    var ms := FIRST_CONFIG.members;
    FindAt(ms, 2);
    FindAt(ms, 3);
    ConfigStrings("Config id 1", d);
    FirstAttrs(d);
    Imports.ConfigFilled(FIRST_CONFIG, NewConfig(d), d);
  }

  lemma FirstAttrs(d: Defaults)
    requires ConfigFilesThere(d.config)
    ensures ImportFields(CONFIG_TAGS, SGroup([Num("bmAttributes", 0x80), Num("bMaxPower", 2)]), d.config) == Ok(FirstFiles(d))
  {
    hide Find, ImportFields, PrintHex, PrintDec;
    HexNumbers();
    DecimalNumbers();
    var ms := [Num("bmAttributes", 0x80), Num("bMaxPower", 2)];
    FindAt(ms, 0);
    FindAt(ms, 1);
    ConfigAttrsImport(SGroup(ms), d.config);
    var r := ImportFields(CONFIG_TAGS, SGroup(ms), d.config).value;
    assert r.Keys == FirstFiles(d).Keys && forall n <- d.config :: r[n] == FirstFiles(d)[n];
    assert r == FirstFiles(d);
  }

  lemma FirstMade(dr: Draft, d: Defaults)
    requires ConfigFilesThere(d.config) && "configuration" in d.configLang && dr.k.configs == map[]
    requires dr.labels == map["acm.usb0" := "acm_usb0", "ecm.inst_name" := "my_awesome_label"]
    ensures ImportNumbered(dr, FIRST_CONFIG, d) == Ok(dr.k.(configs := map[ONE := First(d, map["acm.GS0" := "acm.usb0"])]))
  {
    hide Find, FillConfig, ImportBindings, ValidName, PrintDec, ImportNumbered;
    NamesOk();
    var ms := FIRST_CONFIG.members;
    FindAt(ms, 0);
    FindAt(ms, 1);
    FindAt(ms, 4);
    FirstFilled(d);
    Imports.ConfigImport(dr, FIRST_CONFIG, 1, "The only one", d);
    var k := dr.k.(configs := map[ONE := First(d, map[])]);
    assert dr.k.configs[ONE := First(d, map[])] == map[ONE := First(d, map[])];
    FirstBound(Draft(k, dr.labels), d);
  }

  lemma FirstBound(dr: Draft, d: Defaults)
    requires dr.k.configs == map[ONE := First(d, map[])]
    requires dr.labels == map["acm.usb0" := "acm_usb0", "ecm.inst_name" := "my_awesome_label"]
    ensures ImportBindings(dr, ONE, [SGroup([Quoted("name", "acm.GS0"), Quoted("function", "acm_usb0")])], d) ==
      Ok(dr.k.(configs := map[ONE := First(d, map["acm.GS0" := "acm.usb0"])]))
  {
    hide Find, ImportBinding, ImportTarget, ValidName, Lookup, FirstFiles;
    NamesOk();
    var ms := [Quoted("name", "acm.GS0"), Quoted("function", "acm_usb0")];
    var node := SGroup(ms);
    FindAt(ms, 0);
    FindAt(ms, 1);
    OwnedLabel(dr.k, dr.labels, "acm_usb0", "acm.usb0");
    LabelTarget(dr, node, "acm_usb0", d);
    GroupBinding(dr, ONE, node, WithFunction(dr.k, "acm.usb0"), d);
    UpdateTwice(map[], ONE, First(d, map[]), First(d, map["acm.GS0" := "acm.usb0"]));
    assert [node][1..] == [];
  }

  const FAVORITE := "My favorite config.2"

  /** The labels of the scheme's functions. */
  const SCHEME_LABELS: Labels := map["acm.usb0" := "acm_usb0", "ecm.inst_name" := "my_awesome_label"]

  function SecondLinks(): map<string, string> { map["ecm.inst_name" := "ecm.inst_name", "my_binding_name" := "ecm.inline"] }

  /** The second configuration, with these links. */
  function Second(d: Defaults, links: map<string, string>): KConfig { KConfig(d.config, map[], links) }

  /** A string links the function under its own name. */
  lemma SecondString(dr: Draft, d: Defaults)
    requires FAVORITE in dr.k.configs && dr.k.configs[FAVORITE] == Second(d, map[]) && dr.labels == SCHEME_LABELS
    ensures ImportBinding(dr, FAVORITE, SStr("my_awesome_label"), d) ==
      Ok(dr.k.(configs := dr.k.configs[FAVORITE := Second(d, map["ecm.inst_name" := "ecm.inst_name"])]))
  {
    hide ImportBinding, ValidName, Lookup;
    SchemeNames();
    OwnedLabel(dr.k, dr.labels, "my_awesome_label", "ecm.inst_name");
    StringBinding(dr, FAVORITE, "my_awesome_label", d);
  }

  const INLINE := SGroup([Quoted("name", "my_binding_name"), Sub("function", [Quoted("type", "ecm"), Quoted("instance", "inline")])])

  /** A function defined in place is made and linked. */
  lemma SecondInline(dr: Draft, d: Defaults)
    requires ExampleDefaults(d) && "ecm.inline" !in dr.k.functions
    requires FAVORITE in dr.k.configs && dr.k.configs[FAVORITE] == Second(d, map["ecm.inst_name" := "ecm.inst_name"])
    ensures ImportBinding(dr, FAVORITE, INLINE, d) ==
      Ok(dr.k.(functions := dr.k.functions["ecm.inline" := d.functions["ecm"]],
               configs := dr.k.configs[FAVORITE := Second(d, SecondLinks())]))
  {
    hide ImportBinding, ImportTarget, ValidName, Find, FillFunction;
    SchemeNames();
    var ms, inner := INLINE.members, [Quoted("type", "ecm"), Quoted("instance", "inline")];
    FindAt(ms, 0);
    FindAt(ms, 1);
    FindAt(inner, 0);
    FindAt(inner, 1);
    NotAmong(inner, "attrs");
    NotAmong(inner, "os_descs");
    NothingFilled(Ecm, SGroup(inner), d.functions["ecm"], d);
    InPlaceTarget(dr, INLINE, SGroup(inner), Ecm, "inline", d);
    GroupBinding(dr, FAVORITE, INLINE, ImportTarget(dr, INLINE, d).value, d);
  }

  lemma NothingFilled(t: FunctionType, root: Setting, k: KFunction, d: Defaults)
    requires Get(root, "attrs") == None && Get(root, "os_descs") == None
    ensures FillFunction(t, root, k, d) == Ok(k)
  {}

  lemma SecondMade(dr: Draft, d: Defaults)
    requires ExampleDefaults(d) && dr.k.configs.Keys == {ONE} && "ecm.inline" !in dr.k.functions && dr.labels == SCHEME_LABELS
    ensures ImportNumbered(dr, SECOND_CONFIG, d) ==
      Ok(dr.k.(functions := dr.k.functions["ecm.inline" := d.functions["ecm"]],
               configs := dr.k.configs[FAVORITE := Second(d, SecondLinks())]))
  {
    hide Find, FillConfig, ImportBinding, ValidName, PrintDec, ImportNumbered;
    FavoriteName();
    var ms := SECOND_CONFIG.members;
    FindAt(ms, 0);
    FindAt(ms, 1);
    FindAt(ms, 2);
    NotAmong(ms, "attrs");
    NotAmong(ms, "strings");
    NothingInConfig(SECOND_CONFIG, d);
    OtherId(dr.k);
    Imports.ConfigImport(dr, SECOND_CONFIG, 2, "My favorite config", d);
    var made := Draft(dr.k.(configs := dr.k.configs[FAVORITE := Second(d, map[])]), dr.labels);
    SecondString(made, d);
    UpdateTwice(dr.k.configs, FAVORITE, Second(d, map[]), Second(d, map["ecm.inst_name" := "ecm.inst_name"]));
    var bound := Draft(dr.k.(configs := dr.k.configs[FAVORITE := Second(d, map["ecm.inst_name" := "ecm.inst_name"])]), dr.labels);
    SecondInline(bound, d);
    UpdateTwice(dr.k.configs, FAVORITE, Second(d, map["ecm.inst_name" := "ecm.inst_name"]), Second(d, SecondLinks()));
    var elems := [SStr("my_awesome_label"), INLINE];
    assert elems[1..] == [INLINE] && [INLINE][1..] == [];
  }

  lemma NothingInConfig(root: Setting, d: Defaults)
    requires Get(root, "attrs") == None && Get(root, "strings") == None
    ensures FillConfig(root, NewConfig(d), d) == Ok(Second(d, map[]))
  {}

  lemma OtherId(k: KGadget)
    requires k.configs.Keys == {ONE}
    ensures forall l: string :: l + "." + PrintDec(2) !in k.configs
  {
    hide PrintDec;
    DecimalNumbers();
    forall l: string ensures l + "." + PrintDec(2) != ONE {
      var n := l + "." + PrintDec(2);
      assert n[|n| - 1] == '2' && ONE[|ONE| - 1] == '1';
    }
  }

  lemma SchemeSections()
    ensures Get(GADGET_SCHEME, "attrs") == Some(SGroup(SCHEME_ATTRS)) && Get(GADGET_SCHEME, "strings") == Some(SList(SCHEME_STRINGS))
    ensures Get(GADGET_SCHEME, "functions") == Some(SGroup(SCHEME_FUNCTIONS)) && Get(GADGET_SCHEME, "os_descs") == None
    ensures Get(GADGET_SCHEME, "configs") == Some(SList([FIRST_CONFIG, SECOND_CONFIG]))
  {
    hide Find;
    var ms := GADGET_SCHEME.members;
    FindAt(ms, 0);
    FindAt(ms, 1);
    FindAt(ms, 2);
    FindAt(ms, 3);
    NotAmong(ms, "os_descs");
  }

  lemma SchemeFilled(d: Defaults) returns (files: Files)
    requires ExampleDefaults(d)
    ensures ExampleFiles(files, d.gadget)
    ensures FillGadget(GADGET_SCHEME, d) == Ok(NewGadget(d).(files := files, langs := ExampleLangs(d)))
  {
    hide Get, ImportFields, ImportStrings, ExampleFiles, ExampleLangs;
    SchemeSections();
    files := SchemeAttrs(d.gadget);
    SchemeStrings(d);
  }

  /** The functions after the configurations have been imported, one of which defines a function in place. */
  function SchemeParts(k: KGadget, d: Defaults): KGadget
    requires ExampleDefaults(d)
  {
    k.(functions := map["acm.usb0" := d.functions["acm"], "ecm.inst_name" := Adapter(d), "ecm.inline" := d.functions["ecm"]],
       configs := map[ONE := First(d, map["acm.GS0" := "acm.usb0"]), FAVORITE := Second(d, SecondLinks())])
  }

  lemma PartsImported(k: KGadget, d: Defaults)
    requires ExampleDefaults(d) && ConfigFilesThere(d.config) && "qmult" in d.functions["ecm"].files && k.functions == map[] && k.configs == map[]
    ensures ImportInto(k, GADGET_SCHEME, d) == Ok(Draft(SchemeParts(k, d), SCHEME_LABELS))
  {
    hide Get, ImportFunctions, ImportNumbered, First, Adapter;
    SchemeSections();
    SchemeFunctions(k, d);
    var fs := map["acm.usb0" := d.functions["acm"], "ecm.inst_name" := Adapter(d)];
    var dr := Draft(k.(functions := fs), SCHEME_LABELS);
    FirstMade(dr, d);
    var one := Draft(dr.k.(configs := map[ONE := First(d, map["acm.GS0" := "acm.usb0"])]), SCHEME_LABELS);
    SecondMade(one, d);
    TwoConfigs(dr, one.k, SchemeParts(k, d), d);
  }

  lemma TwoConfigs(dr: Draft, one: KGadget, both: KGadget, d: Defaults)
    requires ImportNumbered(dr, FIRST_CONFIG, d) == Ok(one) && ImportNumbered(Draft(one, dr.labels), SECOND_CONFIG, d) == Ok(both)
    ensures ImportConfigs(dr, [FIRST_CONFIG, SECOND_CONFIG], d) == Ok(both)
  {
    hide ImportNumbered;
    var cs := [FIRST_CONFIG, SECOND_CONFIG];
    assert cs[1..] == [SECOND_CONFIG] && [SECOND_CONFIG][1..] == [];
    assert ImportConfigs(Draft(both, dr.labels), [], d) == Ok(both);
  }

  /** The whole scheme makes exactly the gadget it describes. */
  lemma SchemeImported(d: Defaults) returns (files: Files)
    requires ExampleDefaults(d) && ConfigFilesThere(d.config) && "qmult" in d.functions["ecm"].files
    ensures ExampleFiles(files, d.gadget)
    ensures Schemes.ImportGadget(GADGET_SCHEME, d) ==
      Ok(Draft(SchemeParts(NewGadget(d).(files := files, langs := ExampleLangs(d)), d), SCHEME_LABELS))
  {
    hide Get, FillGadget, ImportInto, ExampleFiles, ExampleLangs, SchemeParts;
    SchemeSections();
    files := SchemeFilled(d);
    PartsImported(NewGadget(d).(files := files, langs := ExampleLangs(d)), d);
  }
}
