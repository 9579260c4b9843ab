/** The LUNs of a mass storage function: a bitmap that caches which `lun.N` directories exist. */
module MassStorage {
  import opened Errors
  import opened Numbers
  import opened Names
  import opened Codecs
  import opened Settings
  import opened Kernel
  import opened Attributes

  const MAX_LUNS := 16

  const STALL := Writable("stall", Bool)

  function StallText(stall: bool): string { WriteDec(if stall then 1 else 0) }

  const LUN_TABLE := [
    Writable("cdrom", Bool), Writable("ro", Bool), Writable("nofua", Bool), Writable("removable", Bool),
    Writable("file", Str), Writable("inquiry_string", Str)]

  lemma LunTableWellFormed()
    ensures WellFormed(LUN_TABLE)
  {}

  /** A request for one LUN. A negative id stands for the position in the list; a string may be missing. */
  datatype LunAttrs = LunAttrs(
    id: int, cdrom: bool, ro: bool, nofua: bool, removable: bool, file: Option<string>, inquiry: Option<string>)

  /** The value of entry `i` of the table in a request. */
  function LunVal(a: LunAttrs, i: nat): (v: Option<AttrVal>)
    requires i < |LUN_TABLE|
    ensures v.Some? ==> Fits(LUN_TABLE[i].kind, v.value)
    ensures i < 4 ==> v.Some?
  {
    if i == 0 then Some(BoolVal(a.cdrom))
    else if i == 1 then Some(BoolVal(a.ro))
    else if i == 2 then Some(BoolVal(a.nofua))
    else if i == 3 then Some(BoolVal(a.removable))
    else
      var s := if i == 4 then a.file else a.inquiry;
      if s.Some? then Some(StrVal(s.value)) else None
  }

  /** The files of a LUN after its attributes from entry `i` on have been set. */
  function SetLunFrom(a: LunAttrs, i: nat, files: Files): Result<Files>
    requires i <= |LUN_TABLE|
    decreases |LUN_TABLE| - i
  {
    if i == |LUN_TABLE| then Ok(files)
    else if LunVal(a, i).None? then Err(INVALID_PARAM)
    else if LUN_TABLE[i].name !in files then Err(NOT_FOUND)
    else SetLunFrom(a, i + 1, files[LUN_TABLE[i].name := WriteVal(LUN_TABLE[i].kind, LunVal(a, i).value)])
  }

  function SetLun(a: LunAttrs, files: Files): Result<Files> { SetLunFrom(a, 0, files) }

  /** The number a request entry asks for. */
  function EffectiveId(reqs: seq<LunAttrs>, i: nat): int
    requires i < |reqs|
  {
    if reqs[i].id >= 0 then reqs[i].id else i
  }

  /** `luns_to_be[k]` after the first `n` entries: the last of them that asks for LUN `k`, or -1. */
  function EntryFor(reqs: seq<LunAttrs>, n: nat, k: int): (r: int)
    requires n <= |reqs|
    ensures -1 <= r < n
    ensures r >= 0 ==> EffectiveId(reqs, r) == k && forall i :: r < i < n ==> EffectiveId(reqs, i) != k
    ensures r < 0 ==> forall i :: 0 <= i < n ==> EffectiveId(reqs, i) != k
  {
    if n == 0 then -1 else if EffectiveId(reqs, n - 1) == k then n - 1 else EntryFor(reqs, n - 1, k)
  }

  predicate Wanted(reqs: seq<LunAttrs>, k: int) { EntryFor(reqs, |reqs|, k) >= 0 }

  /** The accesses of the C code stay inside its arrays: the NULL that ends the list of entries may still be read. */
  predicate InBounds(reqs: seq<LunAttrs>) {
    forall i :: 0 <= i < |reqs| ==> EffectiveId(reqs, i) < MAX_LUNS && EffectiveId(reqs, i) <= |reqs|
  }

  /** Entry `k` of the list; behind the last one stands NULL. */
  function EntryAt(reqs: seq<LunAttrs>, k: nat): Option<LunAttrs> {
    if k < |reqs| then Some(reqs[k]) else None
  }

  /** The files LUN `k` starts from. */
  function Base(before: map<LunId, Files>, d: Defaults, k: LunId): Files {
    if k in before then before[k] else d.lun
  }

  /** LUN `k` as reconciliation leaves it: there exactly when wanted, with the attributes of entry `k` of the list,
      or those of a new LUN where the list has ended. The code takes entry `k`, not the one that asked for LUN `k`. */
  ghost predicate Reconciled(reqs: seq<LunAttrs>, before: map<LunId, Files>, after: map<LunId, Files>, d: Defaults, k: LunId) {
    (k in after <==> Wanted(reqs, k)) &&
    (Wanted(reqs, k) ==>
      if k < |reqs| then SetLun(reqs[k], Base(before, d, k)) == Ok(after[k]) else k !in before && after[k] == d.lun)
  }

  ghost predicate Untouched(before: map<LunId, Files>, after: map<LunId, Files>, k: LunId) {
    (k in after <==> k in before) && (k in before ==> after[k] == before[k])
  }

  /** Setting the attributes of LUN `k` reads through the NULL that ends the list. */
  predicate Crashes(reqs: seq<LunAttrs>, before: map<LunId, Files>, k: LunId) {
    k in before && Wanted(reqs, k) && k >= |reqs|
  }

  /** The error of the round for LUN `k`, when the kernel has no reason of its own to refuse. */
  function RoundError(reqs: seq<LunAttrs>, before: map<LunId, Files>, d: Defaults, k: LunId): int {
    if k !in before then if Wanted(reqs, k) then CreateError(k, EntryAt(reqs, k), before, d) else SUCCESS
    else if !Wanted(reqs, k) then if k == 0 then NOT_SUPPORTED else SUCCESS
    else if k < |reqs| then Code(SetLun(reqs[k], before[k]))
    else SUCCESS
  }

  predicate Stops(reqs: seq<LunAttrs>, before: map<LunId, Files>, d: Defaults, k: LunId) {
    Crashes(reqs, before, k) || RoundError(reqs, before, d, k) != SUCCESS
  }

  /** The first LUN from `i` on at which the reconciliation stops; MAX_LUNS when it gets through. */
  function FirstStop(reqs: seq<LunAttrs>, before: map<LunId, Files>, d: Defaults, i: nat): (r: nat)
    requires i <= MAX_LUNS
    ensures i <= r <= MAX_LUNS
    ensures r < MAX_LUNS ==> Stops(reqs, before, d, r)
    ensures forall k: LunId | i <= k < r :: !Stops(reqs, before, d, k)
    decreases MAX_LUNS - i
  {
    if i == MAX_LUNS || Stops(reqs, before, d, i) then i else FirstStop(reqs, before, d, i + 1)
  }

  type LunMask = m: seq<bool> | |m| == MAX_LUNS witness seq(MAX_LUNS, _ => false)

  class MsFunction {
    const fs: ConfigFs
    const g: string
    const f: string
    var luns: LunMask
    var initiated: bool

    constructor (fs: ConfigFs, g: string, f: string)
      ensures this.fs == fs && this.g == g && this.f == f && !initiated
      ensures forall i: LunId :: !luns[i]
    {
      this.fs, this.g, this.f := fs, g, f;
      luns, initiated := seq(MAX_LUNS, _ => false), false;
    }

    predicate Present()
      reads fs`tree
    {
      HasFunction(fs.tree, g, f)
    }

    /** The LUN directories the kernel has. */
    function Dirs(): map<LunId, Files>
      requires Present()
      reads fs`tree
    {
      fs.tree[g].functions[f].luns
    }

    /** The attribute files of the function itself. */
    function OwnFiles(): Files
      requires Present()
      reads fs`tree
    {
      fs.tree[g].functions[f].files
    }

    /** What every call keeps: the bitmap marks no LUN that is missing. */
    predicate Valid()
      reads this, fs`tree
    {
      Present() && forall i: LunId :: luns[i] ==> i in Dirs()
    }

    ghost predicate AgreesWith(dirs: map<LunId, Files>)
      reads this
    {
      (forall i: LunId :: luns[i] ==> i in dirs) && (initiated ==> forall i: LunId :: i in dirs ==> luns[i])
    }

    /** Once initialised, the bitmap agrees with the directories. */
    ghost predicate InSync()
      reads this, fs`tree
    {
      Present() && AgreesWith(Dirs())
    }

    /** `init_luns`. */
    method InitLuns() returns (ret: int)
      requires Present()
      modifies `luns, fs`faults
      ensures ret <= 0
      ensures ret == 0 ==> forall i: LunId :: luns[i] <==> old(luns[i]) || i in Dirs()
      ensures ret != 0 ==> luns == old(luns)
      ensures old(fs.Quiet()) ==> fs.Quiet() && ret == 0
    {
      var ids;
      ret, ids := fs.ScanLuns(g, f);
      if ret != 0 { return; }
      var rest := ids;
      while rest != {}
        invariant rest <= ids
        invariant forall i: LunId :: luns[i] <==> old(luns[i]) || i in ids - rest
        decreases rest
        modifies `luns
      {
        var id :| id in rest;
        luns := luns[id := true];
        rest := rest - {id};
      }
    }

    /** `get_lun_mask`: initialises the bitmap on first use; a failure to do so leaves it clear. */
    method GetLunMask()
      requires Present()
      modifies this, fs`faults
      ensures old(Valid()) ==> Valid()
      ensures old(initiated) || !initiated ==> luns == old(luns)
      ensures old(initiated) ==> initiated
      ensures old(InSync()) ==> InSync()
      ensures old(fs.Quiet()) ==> fs.Quiet() && initiated
    {
      if !initiated {
        var ret := InitLuns();
        if ret == 0 { initiated := true; }
      }
    }

    /** Only the attribute files of LUN `id` change. */
    method SetLunAttrs(id: LunId, a: LunAttrs) returns (ret: int)
      requires Valid() && id in Dirs()
      modifies fs
      ensures ret <= 0 && OnlyFiles(old(fs.tree), fs.tree, LunDir(g, f, id))
      ensures ret == 0 ==> SetLun(a, old(Dirs()[id])) == Ok(FilesAt(fs.tree, LunDir(g, f, id)))
      ensures ret == 0 ==> FieldsIn(a, FilesAt(fs.tree, LunDir(g, f, id)))
      ensures old(fs.Quiet()) ==> fs.Quiet() && ret == Code(SetLun(a, old(Dirs()[id])))
    {
      hide WriteVal, SetFiles, FieldsIn;
      var p := LunDir(g, f, id);
      ghost var whole := SetLun(a, FilesAt(fs.tree, p));
      SetLunFields(a, FilesAt(fs.tree, p));
      SetFilesSame(fs.tree, p);
      ret := 0;
      var i := 0;
      while i < |LUN_TABLE|
        invariant 0 <= i <= |LUN_TABLE| && ret == 0
        invariant OnlyFiles(old(fs.tree), fs.tree, p)
        invariant SetLunFrom(a, i, FilesAt(fs.tree, p)) == whole
        invariant old(fs.Quiet()) ==> fs.Quiet()
      {
        var v := LunVal(a, i);
        if v.None? { return INVALID_PARAM; }
        ghost var mid := fs.tree;
        ret := SetAttrVal(fs, p, LUN_TABLE[i], v.value);
        OnlyFilesTransitive(old(fs.tree), mid, fs.tree, p);
        if ret != 0 { return; }
        i := i + 1;
      }
    }

    /** The part of `usbg_f_ms_create_lun` that works on the directory: make it, set the attributes, and
        when that fails remove it again, ignoring the result of the removal. */
    method MakeLun(id: LunId, a: Option<LunAttrs>) returns (ret: int)
      requires Valid()
      modifies fs
      ensures ret <= 0 && OnlyLuns(old(fs.tree), fs.tree, g, f)
      ensures ret == 0 ==> id !in old(Dirs()) && id in Dirs() && Dirs() == old(Dirs())[id := Dirs()[id]]
      ensures ret == 0 ==> Ok(Dirs()[id]) == if a.Some? then SetLun(a.value, fs.defaults.lun) else Ok(fs.defaults.lun)
      ensures ret != 0 && Dirs() != old(Dirs()) ==>
        id !in old(Dirs()) && id in Dirs() && Dirs() == old(Dirs())[id := Dirs()[id]]
      ensures ret != 0 && a.None? ==> Dirs() == old(Dirs())
      ensures old(fs.Quiet()) ==> fs.Quiet() && (ret != 0 ==> Dirs() == old(Dirs()))
      ensures old(fs.Quiet()) && id != 0 ==> ret == CreateError(id, a, old(Dirs()), fs.defaults)
      ensures old(fs.Quiet()) && id in old(Dirs()) ==> ret == EXIST
    {
      hide SetFiles, SetLun;
      OnlyLunsReflexive(fs.tree, g, f);
      var p := LunDir(g, f, id);
      ret := fs.Mkdir(p);
      if ret != 0 || a.None? { return; }
      ghost var made := fs.tree;
      ret := SetLunAttrs(id, a.value);
      LunFilesOnlyLuns(made, fs.tree, g, f, id);
      OnlyLunsTransitive(old(fs.tree), made, fs.tree, g, f);
      if ret != 0 {
        ghost var mid := fs.tree;
        var ignored := fs.Rmdir(p);
        if ignored == 0 {
          assert Dirs() == old(Dirs());
          assert OnlyLuns(mid, fs.tree, g, f);
          OnlyLunsTransitive(old(fs.tree), mid, fs.tree, g, f);
        }
      }
    }

    /** `usbg_f_ms_create_lun`. */
    method CreateLun(id: nat, a: Option<LunAttrs>) returns (ret: int)
      requires Valid()
      modifies this, fs
      ensures ret <= 0 && Valid() && OnlyLuns(old(fs.tree), fs.tree, g, f)
      ensures old(initiated) ==> initiated
      ensures ret == 0 ==> id < MAX_LUNS && id !in old(Dirs()) && id in Dirs() && Dirs() == old(Dirs())[id := Dirs()[id]]
      ensures ret == 0 ==> Ok(Dirs()[id]) == if a.Some? then SetLun(a.value, fs.defaults.lun) else Ok(fs.defaults.lun)
      ensures ret == 0 && old(InSync()) ==> InSync()
      ensures ret != 0 && Dirs() != old(Dirs()) ==>
        id < MAX_LUNS && id !in old(Dirs()) && id in Dirs() && Dirs() == old(Dirs())[id := Dirs()[id]]
      ensures ret != 0 && Dirs() == old(Dirs()) && old(InSync()) ==> InSync()
      ensures ret != 0 && a.None? ==> Dirs() == old(Dirs())
      ensures old(fs.Quiet()) ==> fs.Quiet() && (ret != 0 ==> Dirs() == old(Dirs()))
      ensures old(fs.Quiet() && InSync() && 0 in Dirs()) ==> ret == CreateError(id, a, old(Dirs()), fs.defaults)
    {
      hide SetLun;
      OnlyLunsReflexive(fs.tree, g, f);
      if id >= MAX_LUNS { return INVALID_PARAM; }
      GetLunMask();
      if luns[id] { return EXIST; }
      ret := MakeLun(id, a);
      if ret == 0 { luns := luns[id := true]; }
    }

    /** `usbg_f_ms_rm_lun`. */
    method RmLun(id: nat) returns (ret: int)
      requires Present()
      modifies this, fs
      ensures ret <= 0 && OnlyLuns(old(fs.tree), fs.tree, g, f)
      ensures old(Valid()) ==> Valid()
      ensures old(initiated) ==> initiated
      ensures ret == 0 ==> id < MAX_LUNS && id in old(Dirs()) && id != 0 && Dirs() == old(Dirs()) - {id}
      ensures ret == 0 && old(initiated) ==> luns == old(luns)[id := false]
      ensures ret != 0 ==> Dirs() == old(Dirs())
      ensures old(InSync()) ==> InSync()
      ensures old(initiated) && (id >= MAX_LUNS || !old(luns)[id]) ==> ret == INVALID_PARAM
      ensures old(initiated) && ret != 0 ==> luns == old(luns)
      ensures old(fs.Quiet()) ==> fs.Quiet()
      ensures old(fs.Quiet() && InSync()) ==>
        ret == if id >= MAX_LUNS || id !in old(Dirs()) then INVALID_PARAM else if id == 0 then NOT_SUPPORTED else SUCCESS
    {
      OnlyLunsReflexive(fs.tree, g, f);
      if id >= MAX_LUNS { return INVALID_PARAM; }
      GetLunMask();
      if !luns[id] { return INVALID_PARAM; }
      ret := fs.Rmdir(LunDir(g, f, id));
      if ret != 0 { return; }
      luns := luns[id := false];
    }

    /** `luns_to_be`. */
    method LunsToBe(reqs: seq<LunAttrs>) returns (toBe: seq<int>)
      requires InBounds(reqs)
      ensures |toBe| == MAX_LUNS && forall k: LunId :: toBe[k] == EntryFor(reqs, |reqs|, k)
    {
      toBe := seq(MAX_LUNS, _ => -1);
      var i := 0;
      while i < |reqs|
        invariant 0 <= i <= |reqs| && |toBe| == MAX_LUNS
        invariant forall k: LunId :: toBe[k] == EntryFor(reqs, i, k)
      {
        var id := if reqs[i].id >= 0 then reqs[i].id else i;
        assert id == EffectiveId(reqs, i);
        toBe := toBe[id := i];
        i := i + 1;
      }
    }

    /** The rollback loop of `usbg_f_ms_set_attrs`. It looks at the live bitmap, so it asks for the removal of
        LUNs the bitmap says are not there, and removes nothing. */
    method Rollback(toBe: seq<int>, n: nat)
      requires Valid() && |toBe| == MAX_LUNS && n <= MAX_LUNS
      modifies this, fs
      ensures Valid() && OnlyLuns(old(fs.tree), fs.tree, g, f)
      ensures old(initiated) ==> initiated && luns == old(luns) && Dirs() == old(Dirs())
      ensures 0 in old(Dirs()) ==> 0 in Dirs()
      ensures old(fs.Quiet()) ==> fs.Quiet()
    {
      OnlyLunsReflexive(fs.tree, g, f);
      var j := 0;
      while j < n
        invariant 0 <= j <= n && Valid() && OnlyLuns(old(fs.tree), fs.tree, g, f)
        invariant old(initiated) ==> initiated && luns == old(luns) && Dirs() == old(Dirs())
        invariant 0 in old(Dirs()) ==> 0 in Dirs()
        invariant old(fs.Quiet()) ==> fs.Quiet()
      {
        if !luns[j] && toBe[j] >= 0 {
          ghost var mid := fs.tree;
          var ignored := RmLun(j);
          OnlyLunsTransitive(old(fs.tree), mid, fs.tree, g, f);
        }
        j := j + 1;
      }
    }

    /** One round of the reconciliation loop. */
    method Reconcile(reqs: seq<LunAttrs>, toBe: seq<int>, i: LunId) returns (ret: int, crash: bool)
      requires Valid() && InBounds(reqs)
      requires |toBe| == MAX_LUNS && toBe[i] == EntryFor(reqs, |reqs|, i)
      modifies this, fs
      ensures ret <= 0 && Valid() && OnlyLuns(old(fs.tree), fs.tree, g, f)
      ensures crash ==> ret == 0 && Crashes(reqs, old(Dirs()), i) && fs.tree == old(fs.tree)
      ensures old(initiated) ==> initiated
      ensures (ret == 0 || old(fs.Quiet())) && old(InSync()) ==> InSync()
      ensures ret == 0 && !crash && old(initiated && InSync()) ==> Reconciled(reqs, old(Dirs()), Dirs(), fs.defaults, i)
      ensures forall k: LunId | k != i :: Untouched(old(Dirs()), Dirs(), k)
      ensures 0 in old(Dirs()) ==> 0 in Dirs()
      ensures old(fs.Quiet()) ==> fs.Quiet() && (ret != 0 ==> (i in Dirs() <==> i in old(Dirs())))
      ensures old(fs.Quiet() && initiated && InSync() && 0 in Dirs()) ==>
        (crash <==> Crashes(reqs, old(Dirs()), i)) && ret == RoundError(reqs, old(Dirs()), fs.defaults, i)
    {
      hide SetLun, SetFiles, CreateError;
      OnlyLunsReflexive(fs.tree, g, f);
      EntryInReach(reqs, i);
      ret, crash := 0, false;
      if luns[i] {
        if toBe[i] >= 0 {
          if i >= |reqs| { return 0, true; }
          ret := SetLunAttrs(i, reqs[i]);
          LunFilesOnlyLuns(old(fs.tree), fs.tree, g, f, i);
        } else {
          ret := RmLun(i);
        }
      } else if toBe[i] >= 0 {
        ret := CreateLun(i, EntryAt(reqs, i));
      }
    }

    /** The reconciliation loop and its rollback. */
    method ReconcileAll(reqs: seq<LunAttrs>) returns (ret: int, crash: bool, ghost at: nat)
      requires Valid() && InBounds(reqs)
      modifies this, fs
      ensures ret <= 0 && Valid() && OnlyLuns(old(fs.tree), fs.tree, g, f)
      ensures old(fs.Quiet()) ==> fs.Quiet()
      ensures crash ==> at < MAX_LUNS && Crashes(reqs, old(Dirs()), at)
      ensures 0 in old(Dirs()) ==> 0 in Dirs()
      ensures old(initiated) ==> initiated
      ensures ret == 0 && old(InSync()) ==> InSync()
      ensures ret == 0 && !crash && old(InSync() && initiated) ==>
        forall k: LunId :: Reconciled(reqs, old(Dirs()), Dirs(), fs.defaults, k)
      ensures (ret != 0 || crash) && old(InSync() && initiated) ==> StoppedAt(reqs, old(Dirs()), Dirs(), fs.defaults, at)
      ensures old(fs.Quiet() && initiated && InSync() && 0 in Dirs()) ==>
        at == FirstStop(reqs, old(Dirs()), fs.defaults, 0) && (at < MAX_LUNS ==> (at in Dirs() <==> at in old(Dirs()))) &&
        InSync() && (crash <==> at < MAX_LUNS && Crashes(reqs, old(Dirs()), at)) &&
        ret == if at < MAX_LUNS then RoundError(reqs, old(Dirs()), fs.defaults, at) else SUCCESS
    {
      hide SetLun, SetFiles, CreateError, OnlyLuns, Reconciled, EntryFor, Wanted, Base, RoundError, Crashes;
      OnlyLunsReflexive(fs.tree, g, f);
      ghost var dirs := Dirs();
      ghost var good := InSync() && initiated;
      ghost var exact := fs.Quiet() && good && 0 in dirs;
      var toBe := LunsToBe(reqs);
      var i := 0;
      ret, crash, at := 0, false, MAX_LUNS;
      while i < MAX_LUNS
        invariant 0 <= i <= MAX_LUNS && Valid() && ret == 0 && !crash && at == MAX_LUNS
        invariant OnlyLuns(old(fs.tree), fs.tree, g, f)
        invariant old(fs.Quiet()) ==> fs.Quiet()
        invariant old(initiated) ==> initiated
        invariant old(InSync()) ==> InSync()
        invariant good ==> forall k: LunId | k < i :: Reconciled(reqs, dirs, Dirs(), fs.defaults, k)
        invariant forall k: LunId | k >= i :: Untouched(dirs, Dirs(), k)
        invariant 0 in dirs ==> 0 in Dirs()
        invariant exact ==> FirstStop(reqs, dirs, fs.defaults, i) == FirstStop(reqs, dirs, fs.defaults, 0)
      {
        ghost var mid := fs.tree;
        ghost var was := Dirs();
        ret, crash := Reconcile(reqs, toBe, i);
        OnlyLunsTransitive(old(fs.tree), mid, fs.tree, g, f);
        ReconcileStep(reqs, dirs, was, Dirs(), fs.defaults, i, good);
        SameRound(reqs, dirs, was, fs.defaults, i);
        if ret != 0 || crash {
          at := i;
          if crash { return; }
          mid := fs.tree;
          Rollback(toBe, i);
          OnlyLunsTransitive(old(fs.tree), mid, fs.tree, g, f);
          return;
        }
        i := i + 1;
      }
    }

    /** `usbg_f_ms_set_attrs`. Started with a bitmap that agrees, success means that the LUNs are those wanted, each with
        the attributes of the entry at its own position; a failure at LUN `at` leaves the LUNs below it reconciled, created
        ones included, and those above it as they were. Where it stops, and with what, follows from the request and the
        directories alone, as long as the kernel gives no reason of its own; `crash` is a NULL dereference. */
    method SetAttrs(stall: bool, reqs: seq<LunAttrs>) returns (ret: int, crash: bool, ghost at: nat)
      requires Valid() && InBounds(reqs)
      modifies this, fs
      ensures ret <= 0 && Valid() && OnlyFunction(old(fs.tree), fs.tree, g, f)
      ensures old(fs.Quiet()) ==> fs.Quiet()
      ensures fs.tree[g].functions[f] == old(fs.tree[g].functions[f]).(files := OwnFiles(), luns := Dirs())
      ensures crash ==> at < MAX_LUNS && Crashes(reqs, old(Dirs()), at)
      ensures ret == 0 ==> "stall" in old(OwnFiles()) && OwnFiles() == old(OwnFiles())["stall" := StallText(stall)]
      ensures ret == 0 && old(InSync()) ==> InSync()
      ensures ret == 0 && old(fs.Quiet()) ==> initiated
      ensures ret == 0 && !crash && old(InSync() && (initiated || fs.Quiet())) ==>
        forall k: LunId :: Reconciled(reqs, old(Dirs()), Dirs(), fs.defaults, k)
      ensures ret == 0 && !crash && old(InSync() && (initiated || fs.Quiet())) ==>
        OwnFiles()["stall"] == Flag(stall) && forall k: LunId | Wanted(reqs, k) && k < |reqs| :: k in Dirs() && FieldsIn(reqs[k], Dirs()[k])
      ensures (ret != 0 || crash) && old(InSync() && (initiated || fs.Quiet())) ==>
        StoppedAt(reqs, old(Dirs()), Dirs(), fs.defaults, at)
      ensures old(InSync() && (initiated || fs.Quiet()) && 0 in Dirs()) && !Wanted(reqs, 0) ==> ret != 0
      ensures old(fs.Quiet() && "stall" !in OwnFiles()) ==> ret == NOT_FOUND && !crash && fs.tree == old(fs.tree)
      ensures old(fs.Quiet() && InSync() && 0 in Dirs()) ==> InSync()
      ensures old(fs.Quiet() && InSync() && 0 in Dirs() && "stall" in OwnFiles()) ==>
        at == FirstStop(reqs, old(Dirs()), fs.defaults, 0) && (at < MAX_LUNS ==> (at in Dirs() <==> at in old(Dirs()))) &&
        InSync() && (crash <==> at < MAX_LUNS && Crashes(reqs, old(Dirs()), at)) &&
        ret == if at < MAX_LUNS then RoundError(reqs, old(Dirs()), fs.defaults, at) else SUCCESS
    {
      hide SetLun, SetFiles, CreateError, OnlyFunction, OnlyLuns, Reconciled, EntryFor, Wanted, Base, RoundError, Crashes, FirstStop,
        StoppedAt, FieldsIn, StallText, Flag;
      FlagText(stall);
      crash, at := false, 0;
      var p := FunctionDir(g, f);
      OnlyFunctionReflexive(fs.tree, g, f);
      FunctionFilesAt(fs.tree, g, f);
      StoppedAtOnce(reqs, Dirs(), fs.defaults);
      ret := fs.Write(p, "stall", StallText(stall));
      if ret != 0 { return; }
      WriteTouchesOnly(old(fs.tree), p, "stall", StallText(stall));
      FunctionFilesAt(fs.tree, g, f);
      FilesOnlyFunction(old(fs.tree), fs.tree, g, f);
      OnlyFilesThere(old(fs.tree), fs.tree, g, f);
      GetLunMask();
      ghost var mid := fs.tree;
      ret, crash, at := ReconcileAll(reqs);
      OnlyLunsOnlyFunction(mid, fs.tree, g, f);
      OnlyLunsThere(mid, fs.tree, g, f);
      OnlyFunctionTransitive(old(fs.tree), mid, fs.tree, g, f);
      if 0 in old(Dirs()) && !Wanted(reqs, 0) { LunZeroStays(reqs, old(Dirs()), Dirs(), fs.defaults, at); }
      if forall k: LunId :: Reconciled(reqs, old(Dirs()), Dirs(), fs.defaults, k) { AllByField(reqs, old(Dirs()), Dirs(), fs.defaults); }
    }

    /** `usbg_f_ms_get_nluns`. */
    method GetNluns() returns (n: nat)
      requires Valid()
      modifies this, fs`faults
      ensures Valid() && n == Marked(luns, MAX_LUNS)
      ensures old(initiated) || !initiated ==> luns == old(luns)
      ensures old(initiated) ==> initiated
      ensures old(InSync()) ==> InSync()
      ensures old(fs.Quiet()) ==> fs.Quiet() && initiated
    {
      GetLunMask();
      n := 0;
      var i := 0;
      while i < MAX_LUNS
        invariant 0 <= i <= MAX_LUNS && n == Marked(luns, i)
      {
        n := n + if luns[i] then 1 else 0;
        i := i + 1;
      }
    }

    /** `usbg_f_ms_get_lun_attrs`. */
    method GetLunAttrs(id: LunId) returns (ret: int, a: LunAttrs)
      requires Valid() && id in Dirs()
      modifies fs`faults
      ensures ret <= 0
      ensures ret == 0 ==> ReadLun(id, Dirs()[id]) == Ok(a)
      ensures old(fs.Quiet()) ==> fs.Quiet() && ret == Code(ReadLun(id, Dirs()[id]))
    {
      hide ReadVal;
      ghost var files := Dirs()[id];
      var vals: seq<AttrVal> := [];
      a := LunAttrs(id, false, false, false, false, None, None);
      var i := 0;
      while i < |LUN_TABLE|
        invariant 0 <= i <= |LUN_TABLE| && |vals| == i
        invariant forall j :: 0 <= j < i ==> ReadAttr(files, LUN_TABLE[j]) == Ok(vals[j])
        invariant old(fs.Quiet()) ==> fs.Quiet()
      {
        var v;
        ret, v := GetAttrVal(fs, LunDir(g, f, id), LUN_TABLE[i]);
        if ret != 0 {
          MissingLunFile(id, files, i);
          return;
        }
        vals := vals + [v];
        i := i + 1;
      }
      ret := 0;
      LunRead(id, files, vals);
      a := LunAttrs(id, vals[0].b, vals[1].b, vals[2].b, vals[3].b, Some(vals[4].s), Some(vals[5].s));
    }

    /** `usbg_f_ms_get_attrs`, on the LUN sets its array of `nluns + 1` slots has room for. A LUN without a slot before it
        leaves NULL there, and a LUN in the last slot takes the place of the NULL that ends the list. */
    method GetAttrs() returns (ret: int, stall: bool, slots: seq<Option<LunAttrs>>)
      requires InSync() && InArray(Dirs())
      requires initiated || forall k: LunId :: !luns[k]
      modifies this, fs`faults
      ensures ret <= 0 && InSync() && fs.tree == old(fs.tree)
      ensures old(initiated) ==> initiated
      ensures old(fs.Quiet()) ==> fs.Quiet()
      ensures ret == 0 ==> Ok(BoolVal(stall)) == ReadAttr(OwnFiles(), STALL)
      ensures ret == 0 && old(initiated || fs.Quiet()) ==> ReadLuns(Dirs(), 0, NoSlots(Dirs())) == Ok(slots)
      ensures old(fs.Quiet()) ==>
        ret == if ReadAttr(OwnFiles(), STALL).Err? then ReadAttr(OwnFiles(), STALL).code
               else Code(ReadLuns(Dirs(), 0, NoSlots(Dirs())))
    {
      hide ReadVal, ReadLun;
      var v;
      slots, stall := [], false;
      ret, v := GetAttrVal(fs, FunctionDir(g, f), STALL);
      if ret != 0 { return; }
      stall := v.b;
      GetLunMask();
      var nluns := GetNluns();
      ghost var dirs: map<LunId, Files> := if initiated then Dirs() else map[];
      MarkedCount(luns, dirs, MAX_LUNS);
      slots := seq(nluns + 1, _ => None);
      ghost var whole := ReadLuns(dirs, 0, slots);
      assert slots == NoSlots(dirs);
      var i := 0;
      while i < MAX_LUNS
        invariant 0 <= i <= MAX_LUNS && InSync() && |slots| == nluns + 1 && ret == 0
        invariant ReadLuns(dirs, i, slots) == whole
        invariant old(fs.Quiet()) ==> fs.Quiet()
        modifies fs`faults
      {
        if luns[i] {
          var a;
          ret, a := GetLunAttrs(i);
          if ret != 0 { return; }
          slots := slots[i := Some(a)];
        }
        i := i + 1;
      }
    }

    /** `ms_remove`: every LUN but LUN 0, whatever the flags. */
    method Remove() returns (ret: int)
      requires Present()
      modifies this, fs
      ensures ret <= 0 && OnlyLuns(old(fs.tree), fs.tree, g, f)
      ensures forall k <- Dirs() :: k in old(Dirs()) && Dirs()[k] == old(Dirs())[k]
      ensures old(Valid()) ==> Valid()
      ensures old(InSync()) ==> InSync()
      ensures old(fs.Quiet()) ==> fs.Quiet()
      ensures old(fs.Quiet() && InSync()) ==> ret == 0 && Dirs().Keys <= {0}
    {
      hide SetLun;
      OnlyLunsReflexive(fs.tree, g, f);
      GetLunMask();
      ghost var ready := old(InSync()) && initiated;
      ret := 0;
      var i := 1;
      while i < MAX_LUNS
        invariant 1 <= i <= MAX_LUNS && ret == 0
        invariant OnlyLuns(old(fs.tree), fs.tree, g, f)
        invariant old(Valid()) ==> Valid()
        invariant forall k <- Dirs() :: k in old(Dirs()) && Dirs()[k] == old(Dirs())[k]
        invariant old(InSync()) ==> InSync()
        invariant old(fs.Quiet()) ==> fs.Quiet()
        invariant ready ==> initiated && forall k: LunId | 1 <= k < i :: k !in Dirs()
      {
        if luns[i] {
          ghost var mid := fs.tree;
          ret := RmLun(i);
          OnlyLunsTransitive(old(fs.tree), mid, fs.tree, g, f);
          if ret != 0 { return; }
        }
        i := i + 1;
      }
    }

    /** `ms_libconfig_export`. */
    method Export() returns (ret: int, ms: seq<Member>)
      requires InSync() && (initiated || forall k: LunId :: !luns[k])
      modifies this, fs`faults
      ensures ret <= 0 && InSync()
      ensures ret == 0 && (initiated || old(fs.Quiet())) ==> ExportMs(fs.tree[g].functions[f]) == Ok(ms)
      ensures old(fs.Quiet()) ==> fs.Quiet() && ret == Code(ExportMs(fs.tree[g].functions[f]))
    {
      hide ReadVal, ExportFrom;
      ghost var k := fs.tree[g].functions[f];
      var v;
      ms := [];
      ret, v := GetAttrVal(fs, FunctionDir(g, f), STALL);
      if ret != 0 { return; }
      GetLunMask();
      ghost var whole := ExportLuns(k.luns, 0, []);
      var elems: seq<Setting> := [];
      var i := 0;
      while i < MAX_LUNS
        invariant 0 <= i <= MAX_LUNS && ret == 0
        invariant initiated ==> ExportLuns(k.luns, i, elems) == whole
        invariant old(fs.Quiet()) ==> fs.Quiet()
        modifies fs`faults
      {
        if luns[i] {
          var group;
          ret, group := ExportAttrs(fs, LunDir(g, f, i), LUN_TABLE);
          if ret != 0 { return; }
          elems := elems + [SGroup(group)];
        }
        i := i + 1;
      }
      assert initiated ==> whole == Ok(elems);
      ms := [Member("stall", SBool(v.b)), Member("luns", SList(elems))];
    }

    /** `ms_libconfig_import`. */
    method Import(root: Setting) returns (ret: int)
      requires InSync()
      modifies this, fs
      ensures ret <= 0 && InSync() && OnlyLuns(old(fs.tree), fs.tree, g, f)
      ensures ret == 0 ==> ImportMs(root, old(Dirs()), fs.defaults) == Ok(Dirs())
      ensures old(fs.Quiet()) ==> fs.Quiet()
      ensures old(fs.Quiet() && 0 in Dirs()) ==> ret == Code(ImportMs(root, old(Dirs()), fs.defaults))
    {
      hide ImportFrom, SetLun, SetFiles;
      OnlyLunsReflexive(fs.tree, g, f);
      // the importer of booleans never reports a value, so `stall` is never set
      var stall := ImportVal(Bool, root, "stall");
      if stall.Bad? { return stall.code; }
      var node := Get(root, "luns");
      if node.None? { return INVALID_PARAM; }
      if !node.value.SList? { return INVALID_TYPE; }
      var elems := node.value.elems;
      GetLunMask();
      ghost var whole := ImportLuns(elems, 0, Dirs(), fs.defaults);
      ret := 0;
      var i := 0;
      while i < |elems|
        invariant 0 <= i <= |elems| && ret == 0
        invariant InSync() && OnlyLuns(old(fs.tree), fs.tree, g, f)
        invariant ImportLuns(elems, i, Dirs(), fs.defaults) == whole
        invariant old(fs.Quiet()) ==> fs.Quiet() && initiated
        invariant old(0 in Dirs()) ==> 0 in Dirs()
      {
        ghost var was := Dirs();
        ghost var mid := fs.tree;
        ret := ImportOneLun(elems[i], i);
        OnlyLunsTransitive(old(fs.tree), mid, fs.tree, g, f);
        if ret != 0 { return; }
        i := i + 1;
      }
    }

    /** One round of the import loop. */
    method ImportOneLun(elem: Setting, i: nat) returns (ret: int)
      requires InSync()
      modifies this, fs
      ensures ret <= 0 && InSync() && OnlyLuns(old(fs.tree), fs.tree, g, f)
      ensures old(initiated) ==> initiated
      ensures ret == 0 ==> ImportLun(elem, i, old(Dirs()), fs.defaults) == Ok(Dirs())
      ensures old(fs.Quiet()) ==> fs.Quiet()
      ensures old(fs.Quiet() && initiated && 0 in Dirs()) ==> ret == Code(ImportLun(elem, i, old(Dirs()), fs.defaults))
    {
      hide ImportFrom, SetLun, SetFiles;
      LunTableWellFormed();
      OnlyLunsReflexive(fs.tree, g, f);
      ghost var before := Dirs();
      if !elem.SGroup? { return INVALID_TYPE; }
      if i >= MAX_LUNS { return INVALID_PARAM; }
      ret := 0;
      if !luns[i] {
        ret := CreateLun(i, None);
        if ret != 0 { return; }
      }
      ghost var mid := fs.tree;
      ghost var made := Dirs();
      ret := ImportAttrs(fs, LunDir(g, f, i), LUN_TABLE, elem);
      LunFilesOnlyLuns(mid, fs.tree, g, f, i);
      OnlyLunsTransitive(old(fs.tree), mid, fs.tree, g, f);
      if ret == 0 { assert Dirs() == before[i := Dirs()[i]]; }
    }
  }

  /** LUNs from `i` on, added to `acc`: the position in the list is all that is left of the number. */
  function ExportLuns(dirs: map<LunId, Files>, i: nat, acc: seq<Setting>): Result<seq<Setting>>
    requires i <= MAX_LUNS
    decreases MAX_LUNS - i
  {
    if i == MAX_LUNS then Ok(acc)
    else if i !in dirs then ExportLuns(dirs, i + 1, acc)
    else
      var group :- ExportFrom(LUN_TABLE, 0, [], dirs[i]);
      ExportLuns(dirs, i + 1, acc + [SGroup(group)])
  }

  function ExportMs(k: KFunction): Result<seq<Member>> {
    var stall :- ReadAttr(k.files, STALL);
    var elems :- ExportLuns(k.luns, 0, []);
    Ok([Member("stall", SBool(stall.b)), Member("luns", SList(elems))])
  }

  /** Element `i` of the list describes LUN `i`. */
  function ImportLun(elem: Setting, i: nat, dirs: map<LunId, Files>, d: Defaults): Result<map<LunId, Files>> {
    if !elem.SGroup? then Err(INVALID_TYPE)
    else if i >= MAX_LUNS then Err(INVALID_PARAM)
    else
      LunTableWellFormed();
      var files :- ImportFrom(LUN_TABLE, 0, elem, Base(dirs, d, i));
      Ok(dirs[i := files])
  }

  function ImportLuns(elems: seq<Setting>, i: nat, dirs: map<LunId, Files>, d: Defaults): Result<map<LunId, Files>>
    requires i <= |elems|
    decreases |elems| - i
  {
    if i == |elems| then Ok(dirs)
    else
      var more :- ImportLun(elems[i], i, dirs, d);
      ImportLuns(elems, i + 1, more, d)
  }

  function ImportMs(root: Setting, dirs: map<LunId, Files>, d: Defaults): Result<map<LunId, Files>> {
    var stall := ImportVal(Bool, root, "stall");
    if stall.Bad? then Err(stall.code)
    else match Get(root, "luns")
      case None => Err(INVALID_PARAM)
      case Some(node) => if node.SList? then ImportLuns(node.elems, 0, dirs, d) else Err(INVALID_TYPE)
  }

  function Marked(luns: seq<bool>, n: nat): nat
    requires n <= |luns|
  {
    if n == 0 then 0 else Marked(luns, n - 1) + if luns[n - 1] then 1 else 0
  }

  lemma {:induction false} MarkedPrefix(luns: seq<bool>, m: nat, n: nat)
    requires m <= |luns| && forall k :: 0 <= k < m ==> (luns[k] <==> k < n)
    ensures Marked(luns, m) == if n < m then n else m
  {
    if m > 0 { MarkedPrefix(luns, m - 1, n); }
  }

  /** The attributes of a LUN as its files give them. */
  function ReadLun(id: LunId, files: Files): Result<LunAttrs> {
    var cdrom :- ReadAttr(files, LUN_TABLE[0]);
    var ro :- ReadAttr(files, LUN_TABLE[1]);
    var nofua :- ReadAttr(files, LUN_TABLE[2]);
    var removable :- ReadAttr(files, LUN_TABLE[3]);
    var file :- ReadAttr(files, LUN_TABLE[4]);
    var inquiry :- ReadAttr(files, LUN_TABLE[5]);
    Ok(LunAttrs(id, cdrom.b, ro.b, nofua.b, removable.b, Some(file.s), Some(inquiry.s)))
  }

  lemma LunRead(id: LunId, files: Files, vals: seq<AttrVal>)
    requires |vals| == |LUN_TABLE|
    requires forall j :: 0 <= j < |LUN_TABLE| ==> ReadAttr(files, LUN_TABLE[j]) == Ok(vals[j])
    ensures vals[0].BoolVal? && vals[1].BoolVal? && vals[2].BoolVal? && vals[3].BoolVal? && vals[4].StrVal? && vals[5].StrVal?
    ensures ReadLun(id, files) ==
      Ok(LunAttrs(id, vals[0].b, vals[1].b, vals[2].b, vals[3].b, Some(vals[4].s), Some(vals[5].s)))
  {
    hide ReadVal;
  }

  lemma MissingLunFile(id: LunId, files: Files, i: nat)
    requires i < |LUN_TABLE|
    requires forall j :: 0 <= j < i ==> ReadAttr(files, LUN_TABLE[j]).Ok?
    ensures ReadAttr(files, LUN_TABLE[i]).Err? ==> ReadLun(id, files) == Err(ReadAttr(files, LUN_TABLE[i]).code)
  {
    hide ReadVal;
  }

  lemma ReconcileStep(reqs: seq<LunAttrs>, before: map<LunId, Files>, mid: map<LunId, Files>,
                      after: map<LunId, Files>, d: Defaults, i: LunId, good: bool)
    requires good ==> forall k: LunId | k < i :: Reconciled(reqs, before, mid, d, k)
    requires forall k: LunId | k >= i :: Untouched(before, mid, k)
    requires forall k: LunId | k != i :: Untouched(mid, after, k)
    ensures good ==> forall k: LunId | k < i :: Reconciled(reqs, before, after, d, k)
    ensures forall k: LunId | k > i :: Untouched(before, after, k)
    ensures Reconciled(reqs, mid, after, d, i) ==> Reconciled(reqs, before, after, d, i)
  {
    hide SetLun, EntryFor;
    assert Untouched(before, mid, i);
    if good {
      forall k: LunId | k < i ensures Reconciled(reqs, before, after, d, k) {
        assert Reconciled(reqs, before, mid, d, k) && Untouched(mid, after, k);
      }
    }
    forall k: LunId | k > i ensures Untouched(before, after, k) {
      assert Untouched(before, mid, k) && Untouched(mid, after, k);
    }
  }

  /** A round depends on its own LUN, and on LUN 0 being there. */
  lemma SameRound(reqs: seq<LunAttrs>, before: map<LunId, Files>, mid: map<LunId, Files>, d: Defaults, i: LunId)
    requires Untouched(before, mid, i) && (0 in before ==> 0 in mid)
    ensures Crashes(reqs, mid, i) <==> Crashes(reqs, before, i)
    ensures 0 in before ==> RoundError(reqs, mid, d, i) == RoundError(reqs, before, d, i)
  {
    hide SetLun, EntryFor;
  }

  lemma {:induction false} EntryBound(reqs: seq<LunAttrs>, n: nat, k: int)
    requires n <= |reqs| && InBounds(reqs)
    ensures EntryFor(reqs, n, k) >= 0 ==> k < MAX_LUNS && k <= |reqs|
  {}

  lemma EntryInReach(reqs: seq<LunAttrs>, k: LunId)
    requires InBounds(reqs)
    ensures Wanted(reqs, k) ==> k <= |reqs|
  {
    EntryBound(reqs, |reqs|, k);
  }

  /** How a reconciliation that stops at LUN `at` leaves the LUNs. */
  ghost predicate StoppedAt(reqs: seq<LunAttrs>, before: map<LunId, Files>, after: map<LunId, Files>, d: Defaults, at: nat) {
    (forall k: LunId | k < at :: Reconciled(reqs, before, after, d, k)) && forall k: LunId | k > at :: Untouched(before, after, k)
  }

  lemma StoppedAtOnce(reqs: seq<LunAttrs>, before: map<LunId, Files>, d: Defaults)
    ensures StoppedAt(reqs, before, before, d, 0)
  {}

  lemma LunZeroStays(reqs: seq<LunAttrs>, before: map<LunId, Files>, after: map<LunId, Files>, d: Defaults, at: nat)
    requires 0 in before && 0 in after && !Wanted(reqs, 0)
    ensures !forall k: LunId :: Reconciled(reqs, before, after, d, k)
    ensures at < MAX_LUNS && Crashes(reqs, before, at) ==> !StoppedAt(reqs, before, after, d, at)
  {
    assert !Reconciled(reqs, before, after, d, 0);
  }

  function CreateError(id: nat, a: Option<LunAttrs>, dirs: map<LunId, Files>, d: Defaults): int {
    if id >= MAX_LUNS then INVALID_PARAM
    else if id in dirs then EXIST
    else if 0 !in dirs then NOT_FOUND
    else if a.Some? then Code(SetLun(a.value, d.lun))
    else SUCCESS
  }

  // ----- what a successful reconciliation amounts to

  lemma {:induction false} SetLunWrites(a: LunAttrs, i: nat, files: Files)
    requires i <= |LUN_TABLE| && SetLunFrom(a, i, files).Ok?
    ensures var r := SetLunFrom(a, i, files).value;
      r.Keys == files.Keys &&
      (forall j :: i <= j < |LUN_TABLE| ==> LunVal(a, j).Some? && LUN_TABLE[j].name in files) &&
      (forall j :: i <= j < |LUN_TABLE| ==> r[LUN_TABLE[j].name] == WriteVal(LUN_TABLE[j].kind, LunVal(a, j).value)) &&
      (forall n <- files :: (forall j :: i <= j < |LUN_TABLE| ==> LUN_TABLE[j].name != n) ==> r[n] == files[n])
    decreases |LUN_TABLE| - i
  {
    hide WriteVal, LunVal;
    LunTableWellFormed();
    if i < |LUN_TABLE| {
      SetLunWrites(a, i + 1, files[LUN_TABLE[i].name := WriteVal(LUN_TABLE[i].kind, LunVal(a, i).value)]);
    }
  }

  /** Strings the attribute files can hold: present, no newline, and short enough to be read whole. */
  predicate Clean(a: LunAttrs) {
    a.file.Some? && '\n' !in a.file.value && |a.file.value| < FILE_SIZE &&
    a.inquiry.Some? && '\n' !in a.inquiry.value && |a.inquiry.value| < FILE_SIZE
  }

  lemma WrittenBool(b: bool)
    ensures ReadVal(Bool, WriteVal(Bool, BoolVal(b))) == Ok(BoolVal(b))
  {
    DecFile(if b then 1 else 0);
  }

  lemma WrittenString(s: string)
    requires '\n' !in s && |s| < FILE_SIZE
    ensures ReadVal(Str, WriteVal(Str, StrVal(s))) == Ok(StrVal(s))
  {
    StringFile(s, FILE_SIZE);
  }

  /** A LUN whose attributes were set reads back as the request, with its own number filled in. */
  lemma SetLunReadsBack(a: LunAttrs, id: LunId, files: Files)
    requires Clean(a) && SetLun(a, files).Ok?
    ensures ReadLun(id, SetLun(a, files).value) == Ok(a.(id := id))
  {
    hide SetLun, ReadLun, Flag, ReadInt, ReadString;
    SetLunFields(a, files);
    ReadLunByField(id, SetLun(a, files).value);
    FlagText(a.cdrom);
    FlagText(a.ro);
    FlagText(a.nofua);
    FlagText(a.removable);
    StringFile(a.file.value, FILE_SIZE);
    StringFile(a.inquiry.value, FILE_SIZE);
  }

  /** The two requests give a LUN the same attributes. */
  predicate SameValues(a: LunAttrs, b: LunAttrs) {
    a.(id := 0) == b.(id := 0)
  }

  /** After a success, LUN `k` has the attributes of the entry that asked for it exactly when that entry and the one at
      position `k` carry the same values; where the list has ended, exactly when it asked for those of a new LUN. */
  lemma OwnAttributesIff(reqs: seq<LunAttrs>, before: map<LunId, Files>, after: map<LunId, Files>, d: Defaults, k: LunId)
    requires Wanted(reqs, k) && Reconciled(reqs, before, after, d, k)
    requires Clean(reqs[EntryFor(reqs, |reqs|, k)]) && (k < |reqs| ==> Clean(reqs[k]))
    ensures var own := reqs[EntryFor(reqs, |reqs|, k)];
      ReadLun(k, after[k]) == Ok(own.(id := k)) <==>
        if k < |reqs| then SameValues(reqs[k], own) else ReadLun(k, d.lun) == Ok(own.(id := k))
  {
    hide SetLun, ReadLun;
    if k < |reqs| { SetLunReadsBack(reqs[k], k, Base(before, d, k)); }
  }

  // ----- which file each field of a request goes to

  /** What a boolean attribute file says after it has been written. */
  function Flag(b: bool): string { if b then "1\n" else "0\n" }

  lemma FlagText(b: bool)
    ensures WriteVal(Bool, BoolVal(b)) == Flag(b) && StallText(b) == Flag(b) && (ReadInt(Flag(b), 10) != 0 <==> b)
  {
    DecFile(if b then 1 else 0);
    hide ReadInt;
    assert PrintDec(1) == "1" && PrintDec(0) == "0";
  }

  /** The attribute files of a LUN. */
  predicate SixFiles(files: Files) {
    "cdrom" in files && "ro" in files && "nofua" in files && "removable" in files && "file" in files && "inquiry_string" in files
  }

  lemma SixFilesTable(files: Files)
    ensures SixFiles(files) <==> forall j :: 0 <= j < |LUN_TABLE| ==> LUN_TABLE[j].name in files
  {
    if forall j :: 0 <= j < |LUN_TABLE| ==> LUN_TABLE[j].name in files {
      assert LUN_TABLE[0].name in files && LUN_TABLE[1].name in files && LUN_TABLE[2].name in files;
      assert LUN_TABLE[3].name in files && LUN_TABLE[4].name in files && LUN_TABLE[5].name in files;
    }
  }

  /** Setting the attributes of a LUN succeeds exactly when both strings are given and the six files are there. Each field
      is then in the file of its name, and no other file has changed. */
  lemma SetLunByField(a: LunAttrs, files: Files)
    ensures SetLun(a, files).Ok? <==> a.file.Some? && a.inquiry.Some? && SixFiles(files)
    ensures SetLun(a, files).Ok? ==>
      SetLun(a, files).value == files["cdrom" := Flag(a.cdrom)]["ro" := Flag(a.ro)]["nofua" := Flag(a.nofua)]
        ["removable" := Flag(a.removable)]["file" := a.file.value]["inquiry_string" := a.inquiry.value]
  {
    SetLunOkIff(a, 0, files);
    SixFilesTable(files);
    FlagText(a.cdrom);
    FlagText(a.ro);
    FlagText(a.nofua);
    FlagText(a.removable);
    LunStrings(a);
    if SetLun(a, files).Ok? { SetLunSteps(a, files); }
  }

  /** Each field of the request is in the file of its name. */
  predicate FieldsIn(a: LunAttrs, files: Files) {
    SixFiles(files) && files["cdrom"] == Flag(a.cdrom) && files["ro"] == Flag(a.ro) && files["nofua"] == Flag(a.nofua) &&
    files["removable"] == Flag(a.removable) && a.file == Some(files["file"]) && a.inquiry == Some(files["inquiry_string"])
  }

  lemma SetLunFields(a: LunAttrs, files: Files)
    ensures SetLun(a, files).Ok? ==> FieldsIn(a, SetLun(a, files).value)
  {
    hide SetLun, Flag;
    SetLunByField(a, files);
  }

  /** Reconciliation leaves a LUN with the fields of the entry at its position. */
  lemma ReconciledByField(reqs: seq<LunAttrs>, before: map<LunId, Files>, after: map<LunId, Files>, d: Defaults, k: LunId)
    requires Reconciled(reqs, before, after, d, k) && Wanted(reqs, k) && k < |reqs|
    ensures k in after && FieldsIn(reqs[k], after[k])
  {
    hide SetLun, Wanted, FieldsIn;
    SetLunFields(reqs[k], Base(before, d, k));
  }

  lemma LunStrings(a: LunAttrs)
    ensures (forall j :: 0 <= j < |LUN_TABLE| ==> LunVal(a, j).Some?) <==> a.file.Some? && a.inquiry.Some?
  {
    assert LunVal(a, 4).Some? <==> a.file.Some?;
    assert LunVal(a, 5).Some? <==> a.inquiry.Some?;
  }

  lemma SetLunSteps(a: LunAttrs, files: Files)
    requires SetLun(a, files).Ok? && a.file.Some? && a.inquiry.Some?
    ensures SetLun(a, files).value ==
      files["cdrom" := WriteVal(Bool, BoolVal(a.cdrom))]["ro" := WriteVal(Bool, BoolVal(a.ro))]
        ["nofua" := WriteVal(Bool, BoolVal(a.nofua))]["removable" := WriteVal(Bool, BoolVal(a.removable))]
        ["file" := a.file.value]["inquiry_string" := a.inquiry.value]
  {
    hide WriteDec;
    SetLunWrites(a, 0, files);
    var r := SetLun(a, files).value;
    hide SetLun;
    assert r[LUN_TABLE[0].name] == WriteVal(Bool, BoolVal(a.cdrom)) && r[LUN_TABLE[1].name] == WriteVal(Bool, BoolVal(a.ro));
    assert r[LUN_TABLE[2].name] == WriteVal(Bool, BoolVal(a.nofua)) && r[LUN_TABLE[3].name] == WriteVal(Bool, BoolVal(a.removable));
    assert r[LUN_TABLE[4].name] == a.file.value && r[LUN_TABLE[5].name] == a.inquiry.value;
    assert LUN_TABLE[0].name in files && LUN_TABLE[1].name in files && LUN_TABLE[2].name in files;
    assert LUN_TABLE[3].name in files && LUN_TABLE[4].name in files && LUN_TABLE[5].name in files;
  }

  /** The attributes of a LUN can be read exactly when its six files are there; each field comes from the file of its name. */
  lemma ReadLunByField(id: LunId, files: Files)
    ensures ReadLun(id, files).Ok? <==> SixFiles(files)
    ensures SixFiles(files) ==>
      ReadLun(id, files) == Ok(LunAttrs(id, ReadInt(files["cdrom"], 10) != 0, ReadInt(files["ro"], 10) != 0,
        ReadInt(files["nofua"], 10) != 0, ReadInt(files["removable"], 10) != 0,
        Some(ReadString(files["file"], 4096)), Some(ReadString(files["inquiry_string"], 4096))))
  {
    hide ReadInt, ReadString;
  }

  lemma AllByField(reqs: seq<LunAttrs>, before: map<LunId, Files>, after: map<LunId, Files>, d: Defaults)
    requires forall k: LunId :: Reconciled(reqs, before, after, d, k)
    ensures forall k: LunId | Wanted(reqs, k) && k < |reqs| :: k in after && FieldsIn(reqs[k], after[k])
  {
    hide Reconciled, Wanted, FieldsIn;
    forall k: LunId | Wanted(reqs, k) && k < |reqs| ensures k in after && FieldsIn(reqs[k], after[k]) {
      ReconciledByField(reqs, before, after, d, k);
    }
  }

  predicate ByPosition(reqs: seq<LunAttrs>) {
    forall i :: 0 <= i < |reqs| ==> reqs[i].id < 0 || reqs[i].id == i
  }

  lemma {:induction false} PositionEntry(reqs: seq<LunAttrs>, n: nat, k: int)
    requires n <= |reqs| && ByPosition(reqs)
    ensures EntryFor(reqs, n, k) == if 0 <= k < n then k else -1
  {
    if n > 0 { PositionEntry(reqs, n - 1, k); }
  }

  /** With ids that are negative or equal to their position, a successful reconciliation leaves exactly
      LUNs 0 to n-1, and reading them gives the request with the ids filled in. */
  lemma SetThenGet(reqs: seq<LunAttrs>, before: map<LunId, Files>, after: map<LunId, Files>, d: Defaults)
    requires InBounds(reqs) && ByPosition(reqs) && forall a <- reqs :: Clean(a)
    requires forall k: LunId :: Reconciled(reqs, before, after, d, k)
    ensures forall k: LunId :: k in after <==> k < |reqs|
    ensures forall k: LunId | k < |reqs| :: ReadLun(k, after[k]) == Ok(reqs[k].(id := k))
  {
    hide SetLun, ReadLun;
    assert |reqs| > 0 ==> EffectiveId(reqs, |reqs| - 1) == |reqs| - 1;
    forall k: LunId ensures k in after <==> k < |reqs| {
      PositionEntry(reqs, |reqs|, k);
      assert Reconciled(reqs, before, after, d, k);
    }
    forall k: LunId | k < |reqs| ensures ReadLun(k, after[k]) == Ok(reqs[k].(id := k)) {
      assert Reconciled(reqs, before, after, d, k);
      SetLunReadsBack(reqs[k], k, Base(before, d, k));
    }
  }

  /** A new LUN's attribute files, all of them. */
  predicate LunFiles(files: Files) { forall j :: 0 <= j < |LUN_TABLE| ==> LUN_TABLE[j].name in files }

  /** Setting the attributes of a LUN succeeds exactly when both strings are given and the files are there. */
  lemma {:induction false} SetLunOkIff(a: LunAttrs, i: nat, files: Files)
    requires i <= |LUN_TABLE|
    ensures SetLunFrom(a, i, files).Ok? <==>
      forall j :: i <= j < |LUN_TABLE| ==> LunVal(a, j).Some? && LUN_TABLE[j].name in files
    decreases |LUN_TABLE| - i
  {
    hide WriteVal, LunVal;
    LunTableWellFormed();
    if i < |LUN_TABLE| && LunVal(a, i).Some? && LUN_TABLE[i].name in files {
      SetLunOkIff(a, i + 1, files[LUN_TABLE[i].name := WriteVal(LUN_TABLE[i].kind, LunVal(a, i).value)]);
    }
  }

  lemma SetLunOk(a: LunAttrs, files: Files)
    requires a.file.Some? && a.inquiry.Some? && LunFiles(files)
    ensures SetLun(a, files).Ok?
  {
    SetLunOkIff(a, 0, files);
  }

  /** A request for the LUN with this number, all flags but `cdrom` off. */
  function Request(id: int, cdrom: bool, file: Option<string>): LunAttrs {
    LunAttrs(id, cdrom, false, false, false, file, Some(""))
  }

  /** Two entries that ask for each other's number: the reconciliation gets through, and gives LUN 0 the attributes
      requested for LUN 1. */
  lemma SwappedIdsMixUp(before: map<LunId, Files>, after: map<LunId, Files>, d: Defaults)
    requires before.Keys == {0} && LunFiles(before[0]) && LunFiles(d.lun)
    ensures var reqs := [Request(1, true, Some("one")), Request(0, false, Some("zero"))];
      InBounds(reqs) && FirstStop(reqs, before, d, 0) == MAX_LUNS &&
      ((forall k: LunId :: Reconciled(reqs, before, after, d, k)) ==>
        0 in after && ReadLun(0, after[0]) == Ok(Request(0, true, Some("one"))))
  {
    hide SetLun, ReadLun;
    var reqs := [Request(1, true, Some("one")), Request(0, false, Some("zero"))];
    forall k: LunId ensures EntryFor(reqs, 2, k) == if k == 0 then 1 else if k == 1 then 0 else -1 {
      assert EffectiveId(reqs, 0) == 1 && EffectiveId(reqs, 1) == 0;
    }
    SetLunOk(reqs[0], before[0]);
    SetLunOk(reqs[1], d.lun);
    forall k: LunId ensures !Stops(reqs, before, d, k) {}
    if forall k: LunId :: Reconciled(reqs, before, after, d, k) {
      assert Reconciled(reqs, before, after, d, 0);
      SetLunReadsBack(reqs[0], 0, before[0]);
    }
  }

  /** LUNs 0 and 2 are asked for in two entries. Where LUN 2 is not there yet it is made with the attributes of a new LUN,
      and those that were asked for are lost; where it is there, its attributes are read through NULL. */
  lemma PastTheEnd(before: map<LunId, Files>, after: map<LunId, Files>, d: Defaults)
    requires before.Keys == {0} || before.Keys == {0, 2}
    requires LunFiles(before[0]) && LunFiles(d.lun)
    ensures var reqs := [Request(0, false, Some("zero")), Request(2, true, Some("two"))];
      InBounds(reqs) &&
      (2 in before ==> FirstStop(reqs, before, d, 0) == 2 && Crashes(reqs, before, 2)) &&
      (2 !in before ==> FirstStop(reqs, before, d, 0) == MAX_LUNS) &&
      (2 !in before && (forall k: LunId :: Reconciled(reqs, before, after, d, k)) ==> 2 in after && after[2] == d.lun)
  {
    hide SetLun;
    var reqs := [Request(0, false, Some("zero")), Request(2, true, Some("two"))];
    forall k: LunId ensures EntryFor(reqs, 2, k) == if k == 2 then 1 else if k == 0 then 0 else -1 {
      assert EffectiveId(reqs, 0) == 0 && EffectiveId(reqs, 1) == 2;
    }
    SetLunOk(reqs[0], before[0]);
    assert !Stops(reqs, before, d, 0) && !Stops(reqs, before, d, 1);
    if 2 in before {
      assert Stops(reqs, before, d, 2);
    } else {
      forall k: LunId ensures !Stops(reqs, before, d, k) {}
      if forall k: LunId :: Reconciled(reqs, before, after, d, k) { assert Reconciled(reqs, before, after, d, 2); }
    }
  }

  /** A call that stops leaves no LUN of its own behind if and only if it had none to make before the one it stops at:
      the rollback undoes nothing. */
  lemma FailureUndoneIff(reqs: seq<LunAttrs>, before: map<LunId, Files>, after: map<LunId, Files>, d: Defaults)
    requires var at := FirstStop(reqs, before, d, 0);
      at < MAX_LUNS && StoppedAt(reqs, before, after, d, at) && (at in after <==> at in before)
    ensures (forall k <- after :: k in before)
      <==> forall k: LunId | k < FirstStop(reqs, before, d, 0) :: Wanted(reqs, k) ==> k in before
  {
    hide SetLun, Wanted, FirstStop;
    var at := FirstStop(reqs, before, d, 0);
    forall k: LunId | k < at ensures k in after <==> Wanted(reqs, k) { assert Reconciled(reqs, before, after, d, k); }
    forall k: LunId | k > at ensures k in after <==> k in before { assert Untouched(before, after, k); }
  }

  /** A request at which the rollback leaves a LUN behind: LUN 1 is made, LUN 2 lacks a string. */
  lemma RollbackLeavesLun(before: map<LunId, Files>, after: map<LunId, Files>, d: Defaults)
    requires before.Keys == {0} && LunFiles(before[0]) && LunFiles(d.lun)
    ensures var reqs := [Request(0, false, Some("zero")), Request(1, false, Some("one")), Request(2, false, None)];
      InBounds(reqs) && FirstStop(reqs, before, d, 0) == 2 && RoundError(reqs, before, d, 2) == INVALID_PARAM &&
      (StoppedAt(reqs, before, after, d, 2) ==> 1 in after && 1 !in before)
  {
    hide SetLun;
    var reqs := [Request(0, false, Some("zero")), Request(1, false, Some("one")), Request(2, false, None)];
    forall k: LunId ensures EntryFor(reqs, 3, k) == if k < 3 then k else -1 {
      assert EffectiveId(reqs, 0) == 0 && EffectiveId(reqs, 1) == 1 && EffectiveId(reqs, 2) == 2;
      PositionEntry(reqs, 3, k);
    }
    SetLunOk(reqs[0], before[0]);
    SetLunOk(reqs[1], d.lun);
    MissingString(reqs[2], d.lun);
    assert !Stops(reqs, before, d, 0) && !Stops(reqs, before, d, 1) && Stops(reqs, before, d, 2);
    if StoppedAt(reqs, before, after, d, 2) { assert Reconciled(reqs, before, after, d, 1); }
  }

  lemma MissingString(a: LunAttrs, files: Files)
    requires a.file.None? && LunFiles(files)
    ensures SetLun(a, files) == Err(INVALID_PARAM)
  {
    hide WriteVal;
    LunTableWellFormed();
  }

  /** LUN 0 cannot be removed: the reconciliation with a request without it stops there. */
  lemma LunZeroMustBeWanted(reqs: seq<LunAttrs>, before: map<LunId, Files>, d: Defaults)
    requires 0 in before && !Wanted(reqs, 0)
    ensures FirstStop(reqs, before, d, 0) == 0 && RoundError(reqs, before, d, 0) == NOT_SUPPORTED && !Crashes(reqs, before, 0)
  {}

  // ----- reading LUNs into slots

  function LunCount(dirs: map<LunId, Files>, n: nat): nat
    requires n <= MAX_LUNS
  {
    if n == 0 then 0 else LunCount(dirs, n - 1) + if n - 1 in dirs then 1 else 0
  }

  lemma {:induction false} MarkedCount(luns: seq<bool>, dirs: map<LunId, Files>, n: nat)
    requires n <= |luns| == MAX_LUNS && forall k: LunId :: luns[k] <==> k in dirs
    ensures Marked(luns, n) == LunCount(dirs, n)
  {
    if n > 0 { MarkedCount(luns, dirs, n - 1); }
  }

  /** Every LUN has a slot in an array of one more than there are LUNs. */
  predicate InArray(dirs: map<LunId, Files>) { forall k <- dirs :: k <= LunCount(dirs, MAX_LUNS) }

  function NoSlots(dirs: map<LunId, Files>): seq<Option<LunAttrs>> { seq(LunCount(dirs, MAX_LUNS) + 1, _ => None) }

  function ReadLuns(dirs: map<LunId, Files>, i: nat, slots: seq<Option<LunAttrs>>): Result<seq<Option<LunAttrs>>>
    requires i <= MAX_LUNS && forall k <- dirs :: k < |slots|
    decreases MAX_LUNS - i
  {
    if i == MAX_LUNS then Ok(slots)
    else if i !in dirs then ReadLuns(dirs, i + 1, slots)
    else
      var a :- ReadLun(i, dirs[i]);
      ReadLuns(dirs, i + 1, slots[i := Some(a)])
  }

  /** Each LUN is in the slot of its number, the other slots are as they were. */
  lemma {:induction false} SlotsFilled(dirs: map<LunId, Files>, i: nat, slots: seq<Option<LunAttrs>>)
    requires i <= MAX_LUNS && forall k <- dirs :: k < |slots|
    ensures ReadLuns(dirs, i, slots).Ok? <==> forall k: LunId | i <= k && k in dirs :: ReadLun(k, dirs[k]).Ok?
    ensures ReadLuns(dirs, i, slots).Ok? ==> var r := ReadLuns(dirs, i, slots).value;
      |r| == |slots| && forall j :: 0 <= j < |r| ==>
        r[j] == if i <= j < MAX_LUNS && j in dirs then Some(ReadLun(j, dirs[j]).value) else slots[j]
    decreases MAX_LUNS - i
  {
    hide ReadLun;
    if i < MAX_LUNS {
      if i !in dirs {
        SlotsFilled(dirs, i + 1, slots);
      } else if ReadLun(i, dirs[i]).Ok? {
        SlotsFilled(dirs, i + 1, slots[i := Some(ReadLun(i, dirs[i]).value)]);
      }
    }
  }

  /** The list ends with NULL, without one in between, if and only if the LUNs are numbered without gaps. */
  lemma WholeListIff(dirs: map<LunId, Files>)
    requires InArray(dirs) && ReadLuns(dirs, 0, NoSlots(dirs)).Ok?
    ensures var r := ReadLuns(dirs, 0, NoSlots(dirs)).value; var n := LunCount(dirs, MAX_LUNS);
      |r| == n + 1 && ((r[n].None? && forall j :: 0 <= j < n ==> r[j].Some?) <==> forall k: LunId :: k in dirs <==> k < n)
  {
    hide ReadLun, LunCount, ReadLuns;
    CountBound(dirs, MAX_LUNS);
    SlotsFilled(dirs, 0, NoSlots(dirs));
    var r := ReadLuns(dirs, 0, NoSlots(dirs)).value;
    var n := LunCount(dirs, MAX_LUNS);
    forall j | 0 <= j <= n ensures r[j].Some? <==> j < MAX_LUNS && j in dirs {
      assert NoSlots(dirs)[j] == None;
    }
    if r[n].None? && forall j :: 0 <= j < n ==> r[j].Some? {
      forall k: LunId ensures k in dirs <==> k < n {
        assert k in dirs ==> k <= n;
        if k <= n { assert r[k].Some? <==> k in dirs; }
      }
    }
    if forall k: LunId :: k in dirs <==> k < n {
      forall j | 0 <= j < n ensures r[j].Some? {
        var k: LunId := j;
        assert k in dirs;
      }
    }
  }

  lemma {:induction false} CountBound(dirs: map<LunId, Files>, n: nat)
    requires n <= MAX_LUNS
    ensures LunCount(dirs, n) <= n
  {
    if n > 0 { CountBound(dirs, n - 1); }
  }
}
