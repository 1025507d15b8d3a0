/**
  The lifetime of one DRM buffer object, for any number of tasks, DRM files,
  exports and mappings.
 */
module DrmLifetime {

  // Tasks create, destroy, export, import, map and unmap the buffer. Every region
  // under the buffer's spinlock is one step, and so is every edit of a file's table
  // made while the file is marked busy.

  type Tid = nat
  type File = nat
  type ExportId = nat
  type Mapping = nat

  const U32_MAX: nat := 0xffff_ffff

  // The counters and flags of the buffer. `freed` counts the calls of
  // drm_buffer_free, `stillborn` says that its creation failed.
  datatype Buffer = Buffer(
    owners: nat, exportCount: nat, mappingCount: nat,
    retired: bool, cleanupComplete: bool, registered: bool,
    freed: nat, stillborn: bool)

  // A reference to an export file: a descriptor, or a system call under way.
  datatype Holder = Fd(fd: nat) | InFlight(t: Tid)

  // Who refers to the buffer, and which task has which file busy.
  datatype World = World(
    b: Buffer,
    refs: set<File>,
    exports: map<ExportId, set<Holder>>,
    mappings: set<Mapping>,
    busy: map<File, Tid>)

  datatype Op =
    | Destroy(f: File) | Close(f: File) | Export(f: File, e: ExportId)
    | Import(f: File, e: ExportId) | Map(f: File, m: Mapping)

  // What a task does once it has dropped a reference.
  datatype Kont = KEnd | KRelease(f: File) | KImport(f: File, e: ExportId)

  datatype Pc =
    | Idle
    | Creating(f: File)                     // owner_count is 1, the table not yet written
    | Created(f: File)                      // in the table, the reply not yet copied out
    | ImportWait(f: File, e: ExportId)      // the export file is held, the DRM file not yet busy
    | Held(op: Op)                          // the DRM file is busy
    | ExportFile(f: File, e: ExportId)      // export_count raised, no file yet
    | ExportInstall(f: File, e: ExportId)   // the file exists, no descriptor yet
    | ImportInsert(f: File, e: ExportId)    // owner_count raised, the table not yet written
    | Imported(f: File, e: ExportId)        // in the table, the reply not yet copied out
    | Release(f: File)
    | ReleaseImport(f: File, e: ExportId)
    | PutFile(e: ExportId)
    | DropOwner(k: Kont)
    | DropExport(k: Kont)
    | DropMapping
    | Retire(k: Kont)
    | RetireDone(k: Kont)
    | Free(k: Kont)

  datatype Choice =
    | Go | Fail
    | Call(op: Op, fd: nat)
    | Unmap(m: Mapping) | CloseFd(e: ExportId, fd: nat) | DupFd(e: ExportId, fd: nat, fd': nat)
    | Install(fd: nat)

  datatype Effect = Effect(w: World, pc: Pc)

  // -------------------------------------------------------------------- steps

  predicate HasHolder(w: World, e: ExportId, h: Holder) {
    e in w.exports && h in w.exports[e]
  }

  predicate Open(w: World, t: Tid, p: Pc, ch: Choice) {
    match p
    case Idle =>
      (match ch
       case Call(op, fd) => if op.Import? then HasHolder(w, op.e, Fd(fd)) else op.f !in w.busy
       case Unmap(m) => m in w.mappings
       case CloseFd(e, fd) => HasHolder(w, e, Fd(fd))
       case DupFd(e, fd, _) => HasHolder(w, e, Fd(fd))
       case _ => false)
    case ImportWait(f, _) => ch.Go? && f !in w.busy
    case Held(op) => (ch.Go? || ch.Fail?) && (op.Map? && ch.Go? ==> op.m !in w.mappings)
    case ExportFile(_, e) => ch.Fail? || (ch.Go? && e !in w.exports)
    case ExportInstall(_, _) => ch.Fail? || ch.Install?
    case Creating(_) => ch.Go? || ch.Fail?
    case Created(_) => ch.Go? || ch.Fail?
    case Imported(_, _) => ch.Go? || ch.Fail?
    case _ => ch.Go?
  }

  function Resume(k: Kont): Pc {
    match k
    case KEnd => Idle
    case KRelease(f) => Release(f)
    case KImport(f, e) => ReleaseImport(f, e)
  }

  // 32-bit addition of one.
  function Inc(n: nat): nat {
    if n == U32_MAX then 0 else n + 1
  }

  function Dec(n: nat): nat {
    if n != 0 then n - 1 else n
  }

  // close_file: the last reference calls armos_drm_bo_file_close.
  function Unhold(w: World, e: ExportId, h: Holder, k: Kont): Effect
    requires e in w.exports
  {
    var left := w.exports[e] - {h};
    if left == {} then Effect(w.(exports := w.exports - {e}), DropExport(k))
    else Effect(w.(exports := w.exports[e := left]), Resume(k))
  }

  // The tail shared by drm_buffer_drop_owner and drm_buffer_drop_export.
  function MaybeRetire(w: World, b: Buffer, k: Kont): Effect {
    if !b.retired && b.owners == 0 && b.exportCount == 0 then
      Effect(w.(b := b.(retired := true)), Retire(k))
    else
      Effect(w.(b := b), Resume(k))
  }

  function HeldStep(w: World, t: Tid, op: Op, ch: Choice): Effect {
    var b := w.b;
    match op
    case Destroy(f) =>
      if f !in w.refs || ch.Fail? then Effect(w, Release(f))
      else Effect(w.(refs := w.refs - {f}), DropOwner(KRelease(f)))
    case Close(f) =>
      if f !in w.refs then Effect(w, Idle)
      else Effect(w.(refs := w.refs - {f}), DropOwner(KEnd))
    case Export(f, e) =>
      if f !in w.refs || ch.Fail? || b.retired || b.exportCount == U32_MAX then Effect(w, Release(f))
      else Effect(w.(b := b.(exportCount := b.exportCount + 1)), ExportFile(f, e))
    case Import(f, e) =>
      if f in w.refs || ch.Fail? || b.retired || b.owners == U32_MAX then Effect(w, ReleaseImport(f, e))
      else Effect(w.(b := b.(owners := b.owners + 1)), ImportInsert(f, e))
    case Map(f, m) =>
      if f !in w.refs || ch.Fail? then Effect(w, Release(f))
      else Effect(w.(b := b.(mappingCount := Inc(b.mappingCount)), mappings := w.mappings + {m}), Release(f))
  }

  function IdleStep(w: World, t: Tid, ch: Choice): Effect {
    match ch
    case Call(op, _) =>
      if op.Import? then
        if op.e in w.exports then
          Effect(w.(exports := w.exports[op.e := w.exports[op.e] + {InFlight(t)}]), ImportWait(op.f, op.e))
        else Effect(w, Idle)
      else Effect(w.(busy := w.busy[op.f := t]), Held(op))
    case Unmap(m) => Effect(w.(mappings := w.mappings - {m}), DropMapping)
    case CloseFd(e, fd) => if e in w.exports then Unhold(w, e, Fd(fd), KEnd) else Effect(w, Idle)
    case DupFd(e, _, fd') =>
      if e in w.exports then Effect(w.(exports := w.exports[e := w.exports[e] + {Fd(fd')}]), Idle) else Effect(w, Idle)
    case _ => Effect(w, Idle)
  }

  // Dropping references, retiring and freeing.
  function DropStep(w: World, p: Pc): Effect {
    var b := w.b;
    match p
    case DropOwner(k) => MaybeRetire(w, b.(owners := Dec(b.owners)), k)
    case DropExport(k) => MaybeRetire(w, b.(exportCount := Dec(b.exportCount)), k)
    case DropMapping =>
      var b' := b.(mappingCount := Dec(b.mappingCount));
      Effect(w.(b := b'), if b'.retired && b'.cleanupComplete && b'.mappingCount == 0 then Free(KEnd) else Idle)
    case Retire(k) => Effect(w.(b := b.(registered := false)), RetireDone(k))
    case RetireDone(k) =>
      Effect(w.(b := b.(cleanupComplete := true)), if b.mappingCount == 0 then Free(k) else Resume(k))
    case Free(k) => Effect(w.(b := b.(freed := b.freed + 1)), Resume(k))
    case _ => Effect(w, p)
  }

  // The system calls once the file is busy.
  function CallStep(w: World, t: Tid, p: Pc, ch: Choice): Effect {
    match p
    case Creating(f) =>
      if ch.Fail? then Effect(w.(b := w.b.(registered := false, stillborn := true)), Free(KRelease(f)))
      else Effect(w.(refs := w.refs + {f}), Created(f))
    case Created(f) =>
      if ch.Fail? then Effect(w.(refs := w.refs - {f}), DropOwner(KRelease(f))) else Effect(w, Release(f))
    case ImportWait(f, e) => Effect(w.(busy := w.busy[f := t]), Held(Import(f, e)))
    case ExportFile(f, e) =>
      if ch.Fail? then Effect(w, DropExport(KRelease(f)))
      else Effect(w.(exports := w.exports[e := {InFlight(t)}]), ExportInstall(f, e))
    case ExportInstall(f, e) =>
      if e !in w.exports then Effect(w, p)
      else if ch.Install? then Effect(w.(exports := w.exports[e := w.exports[e] - {InFlight(t)} + {Fd(ch.fd)}]), Release(f))
      else Unhold(w, e, InFlight(t), KRelease(f))
    case ImportInsert(f, e) => Effect(w.(refs := w.refs + {f}), Imported(f, e))
    case Imported(f, e) =>
      if ch.Fail? then Effect(w.(refs := w.refs - {f}), DropOwner(KImport(f, e))) else Effect(w, ReleaseImport(f, e))
    case Release(f) => Effect(w.(busy := w.busy - {f}), Idle)
    case ReleaseImport(f, e) => Effect(w.(busy := w.busy - {f}), PutFile(e))
    case PutFile(e) => if e in w.exports then Unhold(w, e, InFlight(t), KEnd) else Effect(w, p)
    case _ => Effect(w, p)
  }

  predicate Dropping(p: Pc) {
    p.DropOwner? || p.DropExport? || p.DropMapping? || p.Retire? || p.RetireDone? || p.Free?
  }

  function Act(w: World, t: Tid, p: Pc, ch: Choice): Effect {
    if p.Idle? then IdleStep(w, t, ch)
    else if p.Held? then HeldStep(w, t, p.op, ch)
    else if Dropping(p) then DropStep(w, p)
    else CallStep(w, t, p, ch)
  }

  datatype State = State(w: World, th: map<Tid, Pc>)

  function After(s: State, t: Tid, ch: Choice): State
    requires t in s.th
  {
    var e := Act(s.w, t, s.th[t], ch);
    State(e.w, s.th[t := e.pc])
  }

  predicate Enabled(s: State, t: Tid, ch: Choice) {
    t in s.th && Open(s.w, t, s.th[t], ch)
  }

  ghost predicate Next(s: State, s': State) {
    exists t: Tid, ch: Choice :: Enabled(s, t, ch) && s' == After(s, t, ch)
  }

  // Some task has just registered a fresh buffer for its file.
  predicate Init(s: State) {
    && s.w.b == Buffer(1, 0, 0, false, false, true, 0, false)
    && s.w.refs == {} && s.w.exports == map[] && s.w.mappings == {}
    && exists t :: t in s.th && Begins(s, t)
  }

  predicate Begins(s: State, t: Tid)
    requires t in s.th
  {
    && s.th[t].Creating?
    && s.w.busy == map[s.th[t].f := t]
    && forall u :: u in s.th && u != t ==> s.th[u].Idle?
  }

  ghost predicate IsRun(r: seq<State>) {
    && 0 < |r|
    && Init(r[0])
    && forall i :: 0 <= i < |r| - 1 ==> Next(r[i], r[i + 1])
  }

  // ---------------------------------------------------------------- invariant

  // References that are counted but not (or no longer) in any table, and the
  // tasks that are retiring or freeing the buffer.
  datatype Load = Load(owners: nat, exports: nat, mappings: nat, retirers: nat, freers: nat)

  function Plus(a: Load, b: Load): Load {
    Load(a.owners + b.owners, a.exports + b.exports, a.mappings + b.mappings, a.retirers + b.retirers, a.freers + b.freers)
  }

  predicate OwnerToken(p: Pc) { p.Creating? || p.ImportInsert? || p.DropOwner? }
  predicate ExportToken(p: Pc) { p.ExportFile? || p.DropExport? }
  predicate MappingToken(p: Pc) { p.DropMapping? }
  predicate Retirer(p: Pc) { p.Retire? || p.RetireDone? }
  predicate Freer(p: Pc) { p.Free? }

  function One(b: bool): nat { if b then 1 else 0 }

  function Mine(p: Pc): Load {
    Load(One(OwnerToken(p)), One(ExportToken(p)), One(MappingToken(p)), One(Retirer(p)), One(Freer(p)))
  }

  predicate CountInv(w: World, l: Load) {
    BufferInv(w.b, |w.refs|, |w.exports|, |w.mappings|, l)
  }

  predicate BufferInv(b: Buffer, refs: nat, exports: nat, mappings: nat, l: Load) {
    && b.owners == refs + l.owners + One(b.stillborn) <= U32_MAX
    && b.exportCount == exports + l.exports <= U32_MAX
    && b.mappingCount == mappings + l.mappings
    && (b.retired <==> b.owners == 0 && b.exportCount == 0)
    && (b.cleanupComplete ==> b.retired)
    && l.retirers == One(b.retired && !b.cleanupComplete)
    && l.freers + b.freed == One(b.stillborn || (b.cleanupComplete && b.mappingCount == 0))
    && (b.stillborn ==> b.owners == 1 && b.exportCount == 0 && b.mappingCount == 0)
    && (b.cleanupComplete || b.stillborn ==> !b.registered)
    && (!b.registered ==> b.retired || b.stillborn)
  }

  predicate Has(w: World, t: Tid, f: File) {
    f in w.busy && w.busy[f] == t
  }

  predicate KontInv(w: World, t: Tid, k: Kont) {
    && (!k.KEnd? ==> Has(w, t, k.f))
    && (k.KImport? ==> HasHolder(w, k.e, InFlight(t)))
  }

  predicate TaskInv(w: World, t: Tid, p: Pc) {
    match p
    case Idle => true
    case Creating(f) =>
      Has(w, t, f) && w.b.owners == 1 && w.b.exportCount == 0 && w.b.mappingCount == 0 && !w.b.stillborn
    case Created(f) => Has(w, t, f) && f in w.refs
    case ImportWait(f, e) => HasHolder(w, e, InFlight(t))
    case Held(op) => Has(w, t, op.f) && (op.Import? ==> HasHolder(w, op.e, InFlight(t)))
    case ExportFile(f, e) => Has(w, t, f)
    case ExportInstall(f, e) => Has(w, t, f) && e in w.exports && w.exports[e] == {InFlight(t)}
    case ImportInsert(f, e) => Has(w, t, f) && f !in w.refs && HasHolder(w, e, InFlight(t))
    case Imported(f, e) => Has(w, t, f) && f in w.refs && HasHolder(w, e, InFlight(t))
    case Release(f) => Has(w, t, f)
    case ReleaseImport(f, e) => Has(w, t, f) && HasHolder(w, e, InFlight(t))
    case PutFile(e) => HasHolder(w, e, InFlight(t))
    case DropMapping => true
    case DropOwner(k) => KontInv(w, t, k)
    case DropExport(k) => KontInv(w, t, k)
    case Retire(k) => KontInv(w, t, k)
    case RetireDone(k) => KontInv(w, t, k) && !w.b.registered
    case Free(k) => KontInv(w, t, k)
  }

  // ------------------------------------------------- one step, seen from inside

  lemma DropCounts(w: World, t: Tid, p: Pc, l: Load)
    requires Dropping(p) && CountInv(w, Plus(l, Mine(p))) && TaskInv(w, t, p)
    ensures var e := DropStep(w, p); CountInv(e.w, Plus(l, Mine(e.pc)))
  {
  }

  // A table entry becomes a reference about to be dropped.
  lemma TakeCounts(w: World, t: Tid, op: Op, ch: Choice, l: Load)
    requires CountInv(w, l) && (op.Destroy? || op.Close?)
    ensures var e := HeldStep(w, t, op, ch); CountInv(e.w, Plus(l, Mine(e.pc)))
  {
    assert op.f in w.refs ==> |w.refs - {op.f}| == |w.refs| - 1;
  }

  lemma ImportCounts(w: World, t: Tid, f: File, e: ExportId, ch: Choice, l: Load)
    requires CountInv(w, l) && e in w.exports
    ensures var e := HeldStep(w, t, Import(f, e), ch); CountInv(e.w, Plus(l, Mine(e.pc)))
  {
    assert e in w.exports.Keys && |w.exports| == |w.exports.Keys|;
  }

  lemma ExportCounts(w: World, t: Tid, f: File, e: ExportId, ch: Choice, l: Load)
    requires CountInv(w, l)
    ensures var e := HeldStep(w, t, Export(f, e), ch); CountInv(e.w, Plus(l, Mine(e.pc)))
  {
  }

  lemma MapCounts(w: World, t: Tid, f: File, m: Mapping, ch: Choice, l: Load)
    requires CountInv(w, l) && m !in w.mappings && |HeldStep(w, t, Map(f, m), ch).w.mappings| + l.mappings <= U32_MAX
    ensures var e := HeldStep(w, t, Map(f, m), ch); CountInv(e.w, Plus(l, Mine(e.pc)))
  {
    assert |w.mappings + {m}| == |w.mappings| + 1;
    assert f in w.refs ==> |w.refs| > 0;
  }

  lemma IdleCounts(w: World, t: Tid, ch: Choice, l: Load)
    requires CountInv(w, Plus(l, Mine(Idle))) && Open(w, t, Idle, ch)
    ensures var e := IdleStep(w, t, ch); CountInv(e.w, Plus(l, Mine(e.pc)))
  {
  }

  lemma CreateCounts(w: World, t: Tid, p: Pc, ch: Choice, l: Load)
    requires p.Creating? || p.Created?
    requires CountInv(w, Plus(l, Mine(p))) && TaskInv(w, t, p) && Open(w, t, p, ch)
    ensures var e := CallStep(w, t, p, ch); CountInv(e.w, Plus(l, Mine(e.pc)))
  {
  }

  // Leaving a call: releasing the file and closing the export file.
  lemma LeaveCounts(w: World, t: Tid, p: Pc, ch: Choice, l: Load)
    requires p.Release? || p.ReleaseImport? || p.PutFile? || p.ImportWait?
    requires CountInv(w, Plus(l, Mine(p))) && TaskInv(w, t, p) && Open(w, t, p, ch)
    ensures var e := CallStep(w, t, p, ch); CountInv(e.w, Plus(l, Mine(e.pc)))
  {
  }

  // Exports and imports once their counter is raised.
  lemma ShareCounts(w: World, t: Tid, p: Pc, ch: Choice, l: Load)
    requires p.ExportFile? || p.ExportInstall? || p.ImportInsert? || p.Imported?
    requires CountInv(w, Plus(l, Mine(p))) && TaskInv(w, t, p) && Open(w, t, p, ch)
    ensures var e := CallStep(w, t, p, ch); CountInv(e.w, Plus(l, Mine(e.pc)))
  {
  }

  lemma ActCounts(w: World, t: Tid, p: Pc, ch: Choice, l: Load)
    requires CountInv(w, Plus(l, Mine(p))) && TaskInv(w, t, p) && Open(w, t, p, ch)
    requires |Act(w, t, p, ch).w.mappings| + l.mappings <= U32_MAX
    ensures var e := Act(w, t, p, ch); CountInv(e.w, Plus(l, Mine(e.pc)))
  {
    hide CountInv, DropStep, HeldStep, IdleStep, CallStep;
    if p.Held? {
      assert Plus(l, Mine(p)) == l;
      match p.op
      case Map(f, m) =>
        if ch.Fail? {
          assert HeldStep(w, t, Map(f, m), ch) == Effect(w, Release(f)) by { MapFails(w, t, f, m, ch); }
          assert Plus(l, Mine(Release(f))) == l;
        } else {
          MapCounts(w, t, f, m, ch, l);
        }
      case Import(f, e) => ImportCounts(w, t, f, e, ch, l);
      case Export(f, e) => ExportCounts(w, t, f, e, ch, l);
      case _ => TakeCounts(w, t, p.op, ch, l);
    } else if p.Idle? {
      IdleCounts(w, t, ch, l);
    } else if Dropping(p) {
      DropCounts(w, t, p, l);
    } else if p.Creating? || p.Created? {
      CreateCounts(w, t, p, ch, l);
    } else if p.ExportFile? || p.ExportInstall? || p.ImportInsert? || p.Imported? {
      ShareCounts(w, t, p, ch, l);
    } else {
      LeaveCounts(w, t, p, ch, l);
    }
  }

  lemma MapFails(w: World, t: Tid, f: File, m: Mapping, ch: Choice)
    requires ch.Fail?
    ensures HeldStep(w, t, Map(f, m), ch) == Effect(w, Release(f))
  {
  }

  // --------------------------------------- the actor's counter and the others'

  // What t's step may do to what other tasks rely on.
  ghost predicate Frame(w: World, w': World, t: Tid) {
    && (forall f :: f in w.busy && w.busy[f] != t ==> f in w'.busy && w'.busy[f] == w.busy[f])
    && (forall f :: f in w.busy && w.busy[f] != t ==> (f in w'.refs <==> f in w.refs))
    && (forall e, u :: u != t && HasHolder(w, e, InFlight(u)) ==> HasHolder(w', e, InFlight(u)))
    && (forall e, u :: u != t && e in w.exports && w.exports[e] == {InFlight(u)} ==>
          e in w'.exports && w'.exports[e] == {InFlight(u)})
    && (!w.b.registered ==> !w'.b.registered)
  }

  lemma HeldTask(w: World, t: Tid, op: Op, ch: Choice)
    requires TaskInv(w, t, Held(op))
    ensures var e := HeldStep(w, t, op, ch); TaskInv(e.w, t, e.pc) && Frame(w, e.w, t)
  {
  }

  lemma DropTask(w: World, t: Tid, p: Pc)
    requires TaskInv(w, t, p) && Dropping(p)
    ensures var e := DropStep(w, p); TaskInv(e.w, t, e.pc) && Frame(w, e.w, t)
  {
  }

  // Closing a reference leaves other tasks theirs.
  lemma UnholdFrame(w: World, t: Tid, e: ExportId, h: Holder, k: Kont)
    requires e in w.exports && (h.Fd? || h == InFlight(t))
    ensures Frame(w, Unhold(w, e, h, k).w, t)
  {
    var left := w.exports[e] - {h};
    assert forall u :: u != t && InFlight(u) in w.exports[e] ==> InFlight(u) in left;
  }

  lemma IdleTask(w: World, t: Tid, ch: Choice)
    requires Open(w, t, Idle, ch)
    ensures var e := IdleStep(w, t, ch); TaskInv(e.w, t, e.pc) && Frame(w, e.w, t)
  {
    if ch.CloseFd? {
      UnholdFrame(w, t, ch.e, Fd(ch.fd), KEnd);
    }
  }

  lemma CallTask(w: World, t: Tid, p: Pc, ch: Choice)
    requires !p.Idle? && !p.Held? && !Dropping(p) && TaskInv(w, t, p) && Open(w, t, p, ch)
    ensures var e := CallStep(w, t, p, ch); TaskInv(e.w, t, e.pc) && Frame(w, e.w, t)
  {
    if p.PutFile? {
      UnholdFrame(w, t, p.e, InFlight(t), KEnd);
    } else if p.ExportInstall? {
      UnholdFrame(w, t, p.e, InFlight(t), KRelease(p.f));
    }
  }

  lemma ActTask(w: World, t: Tid, p: Pc, ch: Choice)
    requires TaskInv(w, t, p) && Open(w, t, p, ch)
    ensures var e := Act(w, t, p, ch); TaskInv(e.w, t, e.pc) && Frame(w, e.w, t)
  {
    hide TaskInv, Frame, DropStep, HeldStep, IdleStep, CallStep;
    if p.Held? {
      HeldTask(w, t, p.op, ch);
    } else if p.Idle? {
      IdleTask(w, t, ch);
    } else if Dropping(p) {
      DropTask(w, t, p);
    } else {
      CallTask(w, t, p, ch);
    }
  }

  // While the buffer is being created nobody else can reach it.
  lemma CreatorIsAlone(w: World, t: Tid, p: Pc, ch: Choice, u: Tid, f: File, l: Load)
    requires TaskInv(w, t, p) && Open(w, t, p, ch) && TaskInv(w, u, Creating(f))
    requires CountInv(w, Plus(l, Mine(p))) && l.owners >= 1
    ensures var b, b' := w.b, Act(w, t, p, ch).w.b;
            b'.owners == b.owners && b'.exportCount == b.exportCount && b'.mappingCount == b.mappingCount
            && b'.stillborn == b.stillborn
  {
    assert |w.refs| == 0 && |w.exports| == 0;
    assert w.exports == map[];
    assert w.refs == {};
  }

  lemma OthersTask(w: World, w': World, t: Tid, u: Tid, q: Pc)
    requires Frame(w, w', t) && u != t && TaskInv(w, u, q)
    requires q.Creating? ==> w'.b.owners == 1 && w'.b.exportCount == 0 && w'.b.mappingCount == 0 && !w'.b.stillborn
    ensures TaskInv(w', u, q)
  {
  }

  // ------------------------------------------------------------- whole states

  function Those(th: map<Tid, Pc>, f: Pc -> bool): set<Tid> {
    set t | t in th && f(th[t])
  }

  function Loads(th: map<Tid, Pc>): Load {
    Load(|Those(th, OwnerToken)|, |Those(th, ExportToken)|, |Those(th, MappingToken)|,
         |Those(th, Retirer)|, |Those(th, Freer)|)
  }

  ghost predicate Inv(s: State) {
    && CountInv(s.w, Loads(s.th))
    && forall t :: t in s.th ==> TaskInv(s.w, t, s.th[t])
  }

  // The tasks other than t.
  function Rest(th: map<Tid, Pc>, t: Tid, f: Pc -> bool): set<Tid> {
    Those(th, f) - {t}
  }

  function RestLoads(th: map<Tid, Pc>, t: Tid): Load {
    Load(|Rest(th, t, OwnerToken)|, |Rest(th, t, ExportToken)|, |Rest(th, t, MappingToken)|,
         |Rest(th, t, Retirer)|, |Rest(th, t, Freer)|)
  }

  lemma SizeWithout(a: set<Tid>, t: Tid)
    ensures |a| == |a - {t}| + One(t in a)
  {
    if t !in a {
      assert a - {t} == a;
    }
  }

  lemma CountApart(th: map<Tid, Pc>, t: Tid, q: Pc, f: Pc -> bool)
    requires t in th
    ensures |Those(th, f)| == |Rest(th, t, f)| + One(f(th[t]))
    ensures |Those(th[t := q], f)| == |Rest(th, t, f)| + One(f(q))
  {
    hide One;
    assert Those(th[t := q], f) - {t} == Rest(th, t, f);
    SizeWithout(Those(th, f), t);
    SizeWithout(Those(th[t := q], f), t);
  }

  lemma LoadsApart(th: map<Tid, Pc>, t: Tid, q: Pc)
    requires t in th
    ensures Loads(th) == Plus(RestLoads(th, t), Mine(th[t]))
    ensures Loads(th[t := q]) == Plus(RestLoads(th, t), Mine(q))
  {
    hide Those, Rest, OwnerToken, ExportToken, MappingToken, Retirer, Freer;
    CountApart(th, t, q, OwnerToken);
    CountApart(th, t, q, ExportToken);
    CountApart(th, t, q, MappingToken);
    CountApart(th, t, q, Retirer);
    CountApart(th, t, q, Freer);
  }

  lemma OthersCounted(th: map<Tid, Pc>, t: Tid, u: Tid)
    requires u in th && u != t && OwnerToken(th[u])
    ensures RestLoads(th, t).owners >= 1
  {
    assert u in Rest(th, t, OwnerToken);
  }

  // The mappings still fit a 32-bit counter.
  ghost predicate Roomy(s: State) {
    |s.w.mappings| + |Those(s.th, MappingToken)| <= U32_MAX
  }

  lemma StepOthers(s: State, t: Tid, ch: Choice, u: Tid)
    requires Inv(s) && Enabled(s, t, ch) && u in s.th && u != t
    ensures TaskInv(Act(s.w, t, s.th[t], ch).w, u, s.th[u])
  {
    var w, p, q := s.w, s.th[t], s.th[u];
    assert TaskInv(w, t, p) && TaskInv(w, u, q);
    LoadsApart(s.th, t, p);
    ActTask(w, t, p, ch);
    hide Act, CountInv, TaskInv, Open, Frame, RestLoads;
    if q.Creating? {
      OthersCounted(s.th, t, u);
      CreatorIsAlone(w, t, p, ch, u, q.f, RestLoads(s.th, t));
      CreatorSees(w, u, q.f);
    }
    OthersTask(w, Act(w, t, p, ch).w, t, u, q);
  }

  lemma RestUnmoved(th: map<Tid, Pc>, t: Tid, q: Pc)
    requires t in th
    ensures Rest(th[t := q], t, MappingToken) == Rest(th, t, MappingToken)
  {
  }

  lemma RoomyForOthers(s: State, t: Tid)
    requires Roomy(s)
    ensures |s.w.mappings| + RestLoads(s.th, t).mappings <= U32_MAX
  {
    SizeWithout(Those(s.th, MappingToken), t);
  }

  lemma StepCounts(s: State, t: Tid, ch: Choice)
    requires Inv(s) && Enabled(s, t, ch) && Roomy(After(s, t, ch))
    ensures CountInv(After(s, t, ch).w, Loads(After(s, t, ch).th))
  {
    var w, p := s.w, s.th[t];
    assert TaskInv(w, t, p);
    RoomyForOthers(After(s, t, ch), t);
    RestUnmoved(s.th, t, Act(w, t, p, ch).pc);
    hide Act, CountInv, TaskInv, Open, Roomy, Loads, RestLoads, Mine, Those;
    LoadsApart(s.th, t, Act(w, t, p, ch).pc);
    ActCounts(w, t, p, ch, RestLoads(s.th, t));
  }

  lemma StepTasks(s: State, t: Tid, ch: Choice, u: Tid)
    requires Inv(s) && Enabled(s, t, ch) && u in s.th
    ensures TaskInv(After(s, t, ch).w, u, After(s, t, ch).th[u])
  {
    hide Act, CountInv, TaskInv, Open, Frame;
    if u == t {
      ActTask(s.w, t, s.th[t], ch);
    } else {
      StepOthers(s, t, ch, u);
    }
  }

  lemma StepInv(s: State, t: Tid, ch: Choice)
    requires Inv(s) && Enabled(s, t, ch) && Roomy(After(s, t, ch))
    ensures Inv(After(s, t, ch))
  {
    var s' := After(s, t, ch);
    assert s'.th.Keys == s.th.Keys;
    StepCounts(s, t, ch);
    hide After, CountInv, TaskInv, Enabled, Roomy, Loads;
    forall u | u in s'.th ensures TaskInv(s'.w, u, s'.th[u]) {
      StepTasks(s, t, ch, u);
    }
  }

  lemma CreatorSees(w: World, u: Tid, f: File)
    requires TaskInv(w, u, Creating(f))
    ensures w.b.owners == 1 && w.b.exportCount == 0 && w.b.mappingCount == 0 && !w.b.stillborn
  {
  }

  lemma OneCreator(th: map<Tid, Pc>, t: Tid)
    requires t in th && th[t].Creating? && forall u :: u in th && u != t ==> th[u].Idle?
    ensures Loads(th) == Load(1, 0, 0, 0, 0)
  {
    assert Those(th, OwnerToken) == {t};
    assert Those(th, ExportToken) == {} && Those(th, MappingToken) == {};
    assert Those(th, Retirer) == {} && Those(th, Freer) == {};
  }

  lemma InitInv(s: State)
    requires Init(s)
    ensures Inv(s)
  {
    hide Loads;
    var t :| t in s.th && Begins(s, t);
    OneCreator(s.th, t);
  }

  // Fewer than 2^32 mappings exist at a time.
  ghost predicate AlwaysRoomy(r: seq<State>) {
    forall i :: 0 <= i < |r| ==> Roomy(r[i])
  }

  lemma RunStep(r: seq<State>, i: nat) returns (t: Tid, ch: Choice)
    requires IsRun(r) && 0 < i < |r|
    ensures Enabled(r[i - 1], t, ch) && r[i] == After(r[i - 1], t, ch)
  {
    hide Act, Open, Init;
    assert Next(r[i - 1], r[i - 1 + 1]);
    t, ch :| Enabled(r[i - 1], t, ch) && r[i] == After(r[i - 1], t, ch);
  }

  lemma {:induction false} RunInv(r: seq<State>, i: nat)
    requires IsRun(r) && AlwaysRoomy(r) && i < |r|
    ensures Inv(r[i])
  {
    if i == 0 {
      InitInv(r[0]);
    } else {
      RunInv(r, i - 1);
      hide Inv, IsRun, Enabled, Roomy, After;
      var t, ch := RunStep(r, i);
      assert Roomy(r[i]);
      StepInv(r[i - 1], t, ch);
    }
  }

  // ----------------------------------------------------------------- theorems

  // owner_count is the number of file-table entries, export_count that of open
  // export files and mapping_count that of mappings, each with the references
  // some task is about to enter or has just removed.
  lemma CountsAreExact(r: seq<State>, i: nat)
    requires IsRun(r) && AlwaysRoomy(r) && i < |r|
    ensures var w, l := r[i].w, Loads(r[i].th);
            && (!w.b.stillborn ==> w.b.owners == |w.refs| + l.owners)
            && w.b.exportCount == |w.exports| + l.exports
            && w.b.mappingCount == |w.mappings| + l.mappings
  {
    RunInv(r, i);
    hide Loads;
  }

  // The buffer is freed at most once, by one task, and not while a table entry,
  // an export file or a mapping exists.
  lemma NeverFreedWhileReferenced(r: seq<State>, i: nat)
    requires IsRun(r) && AlwaysRoomy(r) && i < |r|
    ensures var w, l := r[i].w, Loads(r[i].th);
            && w.b.freed + l.freers <= 1
            && (w.b.freed + l.freers == 1 ==>
                  w.refs == {} && w.exports == map[] && w.mappings == {}
                  && l.owners == 0 && l.exports == 0 && l.mappings == 0 && l.retirers == 0 && !w.b.registered)
  {
    RunInv(r, i);
    hide Loads, TaskInv;
    var w := r[i].w;
    assert |w.refs| == 0 ==> w.refs == {};
    assert |w.exports| == 0 ==> w.exports == map[];
    assert |w.mappings| == 0 ==> w.mappings == {};
  }

  // Once every task is idle and nothing refers to the buffer, it has been freed.
  lemma FreedOnceUnreferenced(r: seq<State>, i: nat)
    requires IsRun(r) && AlwaysRoomy(r) && i < |r|
    requires forall t :: t in r[i].th ==> r[i].th[t].Idle?
    requires r[i].w.refs == {} && r[i].w.exports == map[] && r[i].w.mappings == {}
    ensures r[i].w.b.freed == 1
  {
    RunInv(r, i);
    hide Loads, TaskInv, IsRun, AlwaysRoomy;
    AllIdle(r[i].th);
  }

  lemma AllIdle(th: map<Tid, Pc>)
    requires forall t :: t in th ==> th[t].Idle?
    ensures Loads(th) == Load(0, 0, 0, 0, 0)
  {
    assert Those(th, OwnerToken) == {} && Those(th, ExportToken) == {} && Those(th, MappingToken) == {};
    assert Those(th, Retirer) == {} && Those(th, Freer) == {};
  }

  // The next step of a task at p may load or store a field of the buffer.
  predicate Touches(w: World, p: Pc) {
    match p
    case Idle => false
    case Release(_) => false
    case Held(op) => op.f in w.refs || op.Import?
    case _ => true
  }

  lemma TouchedIsNotFreed(w: World, t: Tid, p: Pc, l: Load)
    requires CountInv(w, Plus(l, Mine(p))) && TaskInv(w, t, p) && Touches(w, p)
    ensures w.b.freed == 0
    ensures if p.Free? then l.freers == 0 else Plus(l, Mine(p)).freers == 0
  {
    assert |w.exports| == |w.exports.Keys|;
    assert w.exports.Keys != {} ==> |w.exports.Keys| > 0;
    assert w.refs != {} ==> |w.refs| > 0;
  }

  // No task touches a freed buffer, and while one is freeing it no other
  // reaches it.
  lemma NoUseAfterFree(r: seq<State>, i: nat, t: Tid)
    requires IsRun(r) && AlwaysRoomy(r) && i < |r| && t in r[i].th && Touches(r[i].w, r[i].th[t])
    ensures r[i].w.b.freed == 0
    ensures Loads(r[i].th).freers == if r[i].th[t].Free? then 1 else 0
  {
    RunInv(r, i);
    hide Touches, CountInv, TaskInv, RestLoads, Loads;
    LoadsApart(r[i].th, t, r[i].th[t]);
    assert TaskInv(r[i].w, t, r[i].th[t]);
    TouchedIsNotFreed(r[i].w, t, r[i].th[t], RestLoads(r[i].th, t));
  }

  // The system calls take effect. Each is refused only for what the caller can see (the
  // handle is missing, already there, or a counter is full) or for an outside failure: the
  // retired flag never refuses anybody.
  lemma CallsTakeEffect(r: seq<State>, i: nat, t: Tid, ch: Choice)
    requires IsRun(r) && AlwaysRoomy(r) && i < |r| && Enabled(r[i], t, ch) && r[i].th[t].Held?
    ensures var op, w, s' := r[i].th[t].op, r[i].w, After(r[i], t, ch);
            var had := op.f in w.refs;
      match op
      case Destroy(f) => s'.w.refs == (if ch.Fail? then w.refs else w.refs - {f})
                         && (s'.th[t].DropOwner? <==> had && !ch.Fail?)
      case Close(f) => s'.w.refs == w.refs - {f} && (s'.th[t].DropOwner? <==> had)
      case Export(f, e) => s'.th[t] == ExportFile(f, e) <==> had && !ch.Fail? && w.b.exportCount < U32_MAX
      case Import(f, e) => s'.th[t] == ImportInsert(f, e) <==> !had && !ch.Fail? && w.b.owners < U32_MAX
      case Map(f, m) => s'.w.mappings == w.mappings + (if had && !ch.Fail? then {m} else {})
  {
    hide IsRun, AlwaysRoomy, CountInv, TaskInv, Loads, Open;
    RunInv(r, i);
    assert TaskInv(r[i].w, t, r[i].th[t]);
    NotRetired(r[i].w, t, r[i].th[t], Loads(r[i].th));
  }

  lemma NotRetired(w: World, t: Tid, p: Pc, l: Load)
    requires CountInv(w, l) && TaskInv(w, t, p) && p.Held?
    ensures p.op.f in w.refs || p.op.Import? ==> !w.b.retired
    ensures w.b.owners <= U32_MAX && w.b.exportCount <= U32_MAX
  {
    assert w.refs != {} ==> |w.refs| > 0;
    assert |w.exports| == |w.exports.Keys|;
    assert w.exports.Keys != {} ==> |w.exports.Keys| > 0;
  }

  // ... and what they counted is entered in the tables.
  lemma CountedIsEntered(s: State, t: Tid, ch: Choice)
    requires Enabled(s, t, ch)
    ensures var p, s' := s.th[t], After(s, t, ch);
      && (p.ImportInsert? ==> s'.w.refs == s.w.refs + {p.f})
      && (p.Creating? && !ch.Fail? ==> s'.w.refs == s.w.refs + {p.f})
      && (p.ExportFile? && !ch.Fail? ==> p.e in s'.w.exports && InFlight(t) in s'.w.exports[p.e])
      && (p.ExportInstall? && p.e in s.w.exports && ch.Install? ==> p.e in s'.w.exports && Fd(ch.fd) in s'.w.exports[p.e])
      && (p.Release? || p.ReleaseImport? ==> p.f !in s'.w.busy)
  {
  }

  // An import never finds the buffer retired: the export file it holds keeps it.
  lemma ImportFindsItLive(r: seq<State>, i: nat, t: Tid)
    requires IsRun(r) && AlwaysRoomy(r) && i < |r| && t in r[i].th
    requires r[i].th[t].Held? && r[i].th[t].op.Import?
    ensures !r[i].w.b.retired && r[i].w.b.registered
  {
    hide IsRun, AlwaysRoomy, CountInv, TaskInv, Loads;
    RunInv(r, i);
    assert TaskInv(r[i].w, t, r[i].th[t]);
    ImportHoldsItLive(r[i].w, t, r[i].th[t], Loads(r[i].th));
  }

  lemma ImportHoldsItLive(w: World, t: Tid, p: Pc, l: Load)
    requires CountInv(w, l) && TaskInv(w, t, p) && p.Held? && p.op.Import?
    ensures !w.b.retired && w.b.registered
  {
    assert w.exports.Keys != {} && |w.exports| == |w.exports.Keys| > 0;
  }

  lemma {:induction false} RetiredForGood(r: seq<State>, i: nat, j: nat)
    requires IsRun(r) && i <= j < |r| && r[i].w.b.retired
    ensures r[j].w.b.retired
    decreases j
  {
    hide After, Enabled, IsRun;
    if i < j {
      RetiredForGood(r, i, j - 1);
      var t, ch := RunStep(r, j);
      StepStaysRetired(r[j - 1], t, ch);
    }
  }

  lemma StepStaysRetired(s: State, t: Tid, ch: Choice)
    requires s.w.b.retired && Enabled(s, t, ch)
    ensures After(s, t, ch).w.b.retired
  {
  }

  // --------------------------------------------------- the unguarded counter

  // mapping_count has no overflow check: 2^32 mappings of one buffer bring it
  // back to zero, and destroying the handle then frees the mapped pages.

  function Last(r: seq<State>): State
    requires 0 < |r|
  {
    r[|r| - 1]
  }

  lemma Advance(r: seq<State>, t: Tid, ch: Choice) returns (r': seq<State>)
    requires 0 < |r| && IsRun(r) && Enabled(Last(r), t, ch)
    ensures 0 < |r'| && IsRun(r') && Last(r') == After(Last(r), t, ch)
  {
    var s' := After(Last(r), t, ch);
    hide After, Init, Enabled;
    r' := r + [s'];
    forall i | 0 <= i < |r'| - 1 ensures Next(r'[i], r'[i + 1]) {
      if i < |r| - 1 {
        assert Next(r[i], r[i + 1]);
      }
    }
  }

  function Upto(n: nat): set<Mapping> {
    if n == 0 then {} else Upto(n - 1) + {n - 1}
  }

  lemma UptoIsBelow(n: nat, k: nat)
    ensures k in Upto(n) <==> k < n
    ensures |Upto(n)| == n
  {
    if n > 0 {
      UptoIsBelow(n - 1, k);
      UptoIsBelow(n - 1, n - 1);
    }
  }

  // The handle of file 0 is live, and 0 to n - 1 are its mappings.
  function Mapped(n: nat, count: nat): State {
    State(World(Buffer(1, 0, count, false, false, true, 0, false), {0}, map[], Upto(n), map[]), map[0 := Idle])
  }

  lemma MapOnce(r: seq<State>, n: nat, count: nat) returns (r': seq<State>)
    requires 0 < |r| && IsRun(r) && Last(r) == Mapped(n, count)
    ensures 0 < |r'| && IsRun(r') && Last(r') == Mapped(n + 1, Inc(count))
  {
    hide IsRun;
    UptoIsBelow(n, n);
    r' := Advance(r, 0, Call(Map(0, n), 0));
    r' := Advance(r', 0, Go);
    r' := Advance(r', 0, Go);
    assert Last(r').w.busy == map[];
  }

  lemma {:induction false} MapMany(n: nat) returns (r: seq<State>)
    requires n <= U32_MAX + 1
    ensures 0 < |r| && IsRun(r) && Last(r) == Mapped(n, if n == U32_MAX + 1 then 0 else n)
  {
    if n == 0 {
      r := [State(World(Buffer(1, 0, 0, false, false, true, 0, false), {}, map[], {}, map[0 := 0]), map[0 := Creating(0)])];
      assert Begins(r[0], 0);
      hide IsRun;
      r := Advance(r, 0, Go);
      r := Advance(r, 0, Go);
      r := Advance(r, 0, Go);
      assert Last(r).w.busy == map[] ;
    } else {
      r := MapMany(n - 1);
      r := MapOnce(r, n - 1, n - 1);
    }
  }

  lemma DestroyAtZero(r: seq<State>, n: nat) returns (r': seq<State>)
    requires 0 < |r| && IsRun(r) && Last(r) == Mapped(n, 0)
    ensures 0 < |r'| && IsRun(r') && Last(r').w.b.freed == 1 && Last(r').w.mappings == Upto(n)
  {
    hide IsRun, Upto;
    r' := Advance(r, 0, Call(Destroy(0), 0));
    r' := Advance(r', 0, Go);
    r' := Advance(r', 0, Go);
    r' := Advance(r', 0, Go);
    r' := Advance(r', 0, Go);
    r' := Advance(r', 0, Go);
  }

  lemma MappingWrapFreesAMappedBuffer() returns (r: seq<State>)
    ensures 0 < |r| && IsRun(r)
    ensures Last(r).w.b.freed == 1 && |Last(r).w.mappings| == U32_MAX + 1
  {
    hide IsRun, Upto;
    r := MapMany(U32_MAX + 1);
    r := DestroyAtZero(r, U32_MAX + 1);
    UptoIsBelow(U32_MAX + 1, 0);
  }
}
