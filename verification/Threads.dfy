/**
  Thread control blocks: create, join, detach, exit and the reaping of detached
  threads.
 */
module Threads {

  // Each region under the registry lock is one step, each atomic load or store
  // outside it another. A control block is named by its thread.

  type Tid = nat

  // `named` says the block carries its thread's id, `freed` counts the calls of
  // thread_control_destroy on it.
  datatype Control = Control(
    inTable: bool, named: bool, alive: bool, finished: bool, joined: bool, detached: bool, freed: nat)

  datatype Result = Ok | ESrch | EInval | EDeadLk | EAgain | Error

  // Points inside pthread_create, once it has allocated the block.
  datatype CreateAt = CInsert | CClone | CUndo | CDestroy | CStore

  // Points inside pthread_join.
  datatype JoinAt =
    | JLook | JFin | JFinWait | JFinSleep | JAlive | JAliveWait | JAliveSleep | JRemove | JDestroy

  // Points inside pthread_exit and the kernel's exit of the thread.
  datatype ExitAt = XFinish | XWake | XClear | XClearWake

  datatype Pc =
    | Fresh                                  // its creator has not cloned it yet
    | Aborted                                // the clone failed
    | Starting                               // thread_entry: about to store its id
    | Idle(last: Result)
    | Scan(create: bool)                     // reap_detached_threads: about to scan the table
    | Creating(c: Tid, at: CreateAt)
    | Joining(c: Tid, jat: JoinAt)
    | Detaching(c: Tid)
    | Reaping(c: Tid, create: bool)          // about to destroy a block the scan took
    | Allocate                               // pthread_create has reaped
    | Exiting(xat: ExitAt)
    | Gone

  datatype Thread = Thread(ctl: Control, pc: Pc)

  type Threads = map<Tid, Thread>

  datatype Op = Create | Join(c: Tid) | Detach(c: Tid) | Exit

  datatype Choice =
    | Call(op: Op) | Go | Interrupt | Fail
    | Spawn(c: Tid, detached: bool)   // the fresh block pthread_create allocates
    | Reap(c: Tid)                    // the block a scan of the table finds

  // Whom a step's futex wake reaches.
  datatype Rouse = Nobody | OnFinished | OnAlive

  // A step sets its own counter, one control block, and possibly the counter
  // of that block's own thread (a clone that starts it or fails).
  datatype Effect = Effect(pc: Pc, ctl: Control, child: Pc, rouse: Rouse)

  // A lookup by id finds a block in the table that carries the id.
  predicate Known(th: Threads, c: Tid) {
    c in th && th[c].ctl.inTable && th[c].ctl.named
  }

  predicate Reapable(ctl: Control) {
    ctl.inTable && ctl.detached && ctl.finished && !ctl.alive
  }

  predicate NothingToReap(th: Threads, main: Tid) {
    forall c :: c in th && c != main ==> !Reapable(th[c].ctl)
  }

  predicate Open(th: Threads, main: Tid, t: Tid, ch: Choice) {
    t in th &&
    match th[t].pc
    case Fresh => false
    case Aborted => false
    case Gone => false
    case Idle(_) => ch.Call? && (ch.op.Exit? ==> t != main)
    case Allocate => ch.Spawn? && ch.c !in th
    case Creating(_, at) => ch.Go? || (ch.Fail? && (at.CInsert? || at.CClone?))
    case Scan(_) =>
      if ch.Reap? then ch.c in th && ch.c != main && Reapable(th[ch.c].ctl)
      else ch.Go? && NothingToReap(th, main)
    case Joining(_, at) =>
      if at.JFinSleep? || at.JAliveSleep? then ch.Interrupt?
      else ch.Go? || (ch.Fail? && (at.JFinWait? || at.JAliveWait?))
    case _ => ch.Go?
  }

  // The block a thread's counter refers to, its own if none.
  function Subject(t: Tid, p: Pc): Tid {
    if p.Creating? || p.Joining? || p.Detaching? || p.Reaping? then p.c else t
  }

  function To(p: Pc, x: Control, q: Pc): Effect {
    Effect(p, x, q, Nobody)
  }

  function Begin(t: Tid, op: Op): Pc {
    match op
    case Create => Scan(true)
    case Join(c) => if c == t then Idle(EDeadLk) else Joining(c, JLook)
    case Detach(c) => Detaching(c)
    case Exit => Exiting(XFinish)
  }

  // pthread_join, on the control block x of c, whose thread is at q.
  function JoinStep(c: Tid, at: JoinAt, known: bool, x: Control, q: Pc, ch: Choice): Effect {
    match at
    case JLook =>
      if !known then To(Idle(ESrch), x, q)
      else if x.detached || x.joined then To(Idle(EInval), x, q)
      else To(Joining(c, JFin), x.(joined := true), q)
    case JFin => To(Joining(c, if x.finished then JAlive else JFinWait), x, q)
    case JFinWait =>
      if ch.Fail? then To(Idle(Error), x.(joined := false), q)
      else To(Joining(c, if x.finished then JFin else JFinSleep), x, q)
    case JFinSleep => To(Joining(c, JFin), x, q)
    case JAlive => To(Joining(c, if x.alive then JAliveWait else JRemove), x, q)
    case JAliveWait =>
      if ch.Fail? then To(Idle(Error), x, q) else To(Joining(c, if x.alive then JAliveSleep else JAlive), x, q)
    case JAliveSleep => To(Joining(c, JAlive), x, q)
    case JRemove => To(Joining(c, JDestroy), x.(inTable := false), q)
    case JDestroy => To(Idle(Ok), x.(freed := x.freed + 1), q)
  }

  // pthread_create once the block is allocated.
  function CreateStep(c: Tid, at: CreateAt, x: Control, q: Pc, ch: Choice): Effect {
    match at
    case CInsert =>
      if ch.Fail? then To(Creating(c, CDestroy), x, Aborted) else To(Creating(c, CClone), x.(inTable := true), q)
    case CClone =>
      if ch.Fail? then To(Creating(c, CUndo), x, Aborted) else To(Creating(c, CStore), x.(alive := true), Starting)
    case CUndo => To(Creating(c, CDestroy), x.(inTable := false), q)
    case CDestroy => To(Idle(EAgain), x.(freed := x.freed + 1), q)
    case CStore => To(Idle(Ok), x.(named := true), q)
  }

  // pthread_exit and the kernel's thread exit, on the thread's own block.
  function ExitStep(at: ExitAt, x: Control): Effect {
    match at
    case XFinish => To(Exiting(XWake), x.(finished := true), Exiting(XWake))
    case XWake => Effect(Exiting(XClear), x, Exiting(XClear), OnFinished)
    case XClear => To(Exiting(XClearWake), x.(alive := false), Exiting(XClearWake))
    case XClearWake => Effect(Gone, x, Gone, OnAlive)
  }

  // A step of thread t at p on the block x it refers to, whose thread is at q.
  function Act(t: Tid, p: Pc, known: bool, x: Control, q: Pc, ch: Choice): Effect {
    match p
    case Idle(_) => if ch.Call? then To(Begin(t, ch.op), x, q) else To(p, x, q)
    case Starting => To(Idle(Ok), x.(named := true), Idle(Ok))
    case Exiting(at) => ExitStep(at, x)
    case Joining(c, at) => JoinStep(c, at, known, x, q, ch)
    case Creating(c, at) => CreateStep(c, at, x, q, ch)
    case Detaching(c) =>
      if !known then To(Idle(ESrch), x, q)
      else if x.detached || x.joined then To(Idle(EInval), x, q)
      else To(Scan(false), x.(detached := true), q)
    case Scan(create) =>
      if ch.Reap? then To(Reaping(ch.c, create), x.(inTable := false), q)
      else To(if create then Allocate else Idle(Ok), x, q)
    case Reaping(_, create) => To(Scan(create), x.(freed := x.freed + 1), q)
    case _ => To(p, x, q)
  }

  // The block a step is about: the one named, or the thread's own.
  function About(th: Threads, t: Tid, ch: Choice): Tid
    requires t in th
  {
    var c := if th[t].pc.Scan? && ch.Reap? then ch.c else Subject(t, th[t].pc);
    if c in th then c else t
  }

  // The registry lookup of the id the thread was given; the main thread's is refused.
  predicate Found(th: Threads, main: Tid, t: Tid)
    requires t in th
  {
    var c := Subject(t, th[t].pc);
    Known(th, c) && c != main
  }

  function Outcome(th: Threads, main: Tid, t: Tid, ch: Choice): Effect
    requires t in th
  {
    var c := About(th, t, ch);
    Act(t, th[t].pc, Found(th, main, t), th[c].ctl, th[c].pc, ch)
  }

  // A sleeper on c's words when c wakes them.
  function Roused(p: Pc, rouse: Rouse, c: Tid): Pc {
    if rouse.OnFinished? && p == Joining(c, JFinSleep) then Joining(c, JFin)
    else if rouse.OnAlive? && p == Joining(c, JAliveSleep) then Joining(c, JAlive)
    else p
  }

  function After(th: Threads, main: Tid, t: Tid, ch: Choice): (th': Threads)
    requires Open(th, main, t, ch)
    ensures !ch.Spawn? ==> th'.Keys == th.Keys
  {
    if ch.Spawn? then
      th[t := th[t].(pc := Creating(ch.c, CInsert))]
        [ch.c := Thread(Control(false, false, false, false, false, ch.detached, 0), Fresh)]
    else
      var c := About(th, t, ch);
      var e := Outcome(th, main, t, ch);
      map u | u in th ::
        Thread(if u == c then e.ctl else th[u].ctl,
               if u == t then e.pc else if u == c then e.child else Roused(th[u].pc, e.rouse, t))
  }

  datatype State = State(main: Tid, th: Threads)

  ghost predicate Next(s: State, s': State) {
    s'.main == s.main &&
    exists t: Tid, ch: Choice :: Open(s.th, s.main, t, ch) && s'.th == After(s.th, s.main, t, ch)
  }

  // The process starts with its main thread, registered and alive.
  predicate Init(s: State) {
    s.th == map[s.main := Thread(Control(true, true, true, false, false, false, 0), Idle(Ok))]
  }

  ghost predicate IsRun(r: seq<State>) {
    && 0 < |r|
    && Init(r[0])
    && forall i :: 0 <= i < |r| - 1 ==> Next(r[i], r[i + 1])
  }

  // ---------------------------------------------------------------- invariant

  // Thread at p is the one that will destroy c, unless it gives up its claim.
  predicate Claims(p: Pc, c: Tid) {
    ((p.Creating? && !p.at.CStore?) || p.Reaping? || (p.Joining? && !p.jat.JLook?)) && p.c == c
  }

  predicate Unborn(x: Control) {
    !x.joined && !x.finished && !x.alive
  }

  // What holds of the claimed block, with its own thread at q.
  predicate ClaimInv(p: Pc, x: Control, q: Pc) {
    x.freed == 0 &&
    match p
    case Creating(_, at) =>
      && Unborn(x)
      && (x.inTable <==> at.CClone? || at.CUndo?)
      && (if at.CInsert? || at.CClone? then q.Fresh? else q.Aborted?)
    case Joining(_, at) =>
      && x.joined && !x.detached && !q.Fresh? && !q.Aborted?
      && (x.inTable <==> !at.JDestroy?)
      && (at.JFinSleep? && x.finished ==> q == Exiting(XWake))
      && (at.JAlive? || at.JAliveWait? || at.JAliveSleep? || at.JRemove? || at.JDestroy? ==> x.finished)
      && (at.JAliveSleep? && !x.alive ==> q == Exiting(XClearWake))
      && (at.JRemove? || at.JDestroy? ==> !x.alive)
    case Reaping(_, _) => !x.inTable && !x.joined && x.detached && x.finished && !x.alive
    case _ => true
  }

  // A block and its own thread.
  predicate OwnInv(x: Control, q: Pc) {
    && x.freed <= 1
    && (x.inTable ==> x.freed == 0)
    && (x.named ==> !q.Fresh? && !q.Aborted?)
    && !(x.joined && x.detached)
    && (x.freed > 0 ==> q.Aborted? || (x.finished && !x.alive && (x.joined || x.detached)))
    && match q
       case Fresh => Unborn(x)
       case Aborted => Unborn(x)
       case Gone => x.finished && !x.alive
       case Exiting(at) => (x.finished <==> !at.XFinish?) && (x.alive <==> !at.XClearWake?)
       case _ => x.alive && !x.finished
  }

  // A creator that has cloned c, and has yet to store its id.
  predicate Storing(p: Pc, c: Tid) {
    p == Creating(c, CStore)
  }

  predicate OwnsHold(th: Threads) {
    forall t :: t in th ==> OwnInv(th[t].ctl, th[t].pc)
  }

  predicate NotSelf(t: Tid, p: Pc) {
    p.Joining? || p.Creating? ==> p.c != t
  }

  predicate NoneSelf(th: Threads) {
    forall t :: t in th ==> NotSelf(t, th[t].pc)
  }

  predicate ClaimHolds(th: Threads, t: Tid, c: Tid)
    requires t in th
  {
    Claims(th[t].pc, c) ==> c in th && ClaimInv(th[t].pc, th[c].ctl, th[c].pc)
  }

  predicate StoreHolds(th: Threads, t: Tid, c: Tid)
    requires t in th
  {
    Storing(th[t].pc, c) ==> c in th && Born(th[c].pc)
  }

  ghost predicate Inv(th: Threads) {
    && OwnsHold(th)
    && NoneSelf(th)
    && (forall t, c :: t in th ==> ClaimHolds(th, t, c))
    && (forall t, c :: t in th ==> StoreHolds(th, t, c))
    && (forall t, u, c :: t in th && u in th && Claims(th[t].pc, c) && Claims(th[u].pc, c) ==> t == u)
  }

  // ------------------------------------------------------------ preservation

  predicate Born(p: Pc) {
    !p.Fresh? && !p.Aborted?
  }

  // Inside some call, or between calls.
  predicate Living(p: Pc) {
    Born(p) && !p.Gone? && (p.Exiting? ==> p.xat.XFinish?)
  }

  // Nobody has a claim on the block, as its flags show.
  predicate Unclaimed(x: Control) {
    (x.named && !x.joined && !x.detached) || Reapable(x)
  }

  // The block and its thread as far as a claim on it is concerned.
  predicate Similar(x: Control, q: Pc, y: Control, q': Pc) {
    x.(named := y.named) == y && (q == q' || (Living(q) && Living(q')))
  }

  // The thread of c after a step of t about it.
  function Then(t: Tid, c: Tid, e: Effect): Pc {
    if c == t then e.pc else e.child
  }

  // What a step of t at p keeps of the block x of c, whose thread is at q.
  predicate KeepsBlock(t: Tid, p: Pc, c: Tid, x: Control, q: Pc, e: Effect) {
    && OwnInv(e.ctl, Then(t, c, e))
    && (Born(q) ==> Born(Then(t, c, e)))
    && (Similar(x, q, e.ctl, Then(t, c, e)) || Claims(p, c) || Unclaimed(x) || (c == t && p.Exiting?))
    && (c != t ==> e.child == q || (q.Fresh? && (e.child.Aborted? || e.child.Starting?)))
  }

  // What it keeps of its own counter.
  predicate KeepsClaim(t: Tid, p: Pc, c: Tid, x: Control, e: Effect) {
    && (Subject(t, e.pc) == c || !(e.pc.Creating? || e.pc.Reaping? || (e.pc.Joining? && !e.pc.jat.JLook?)))
    && (Claims(e.pc, c) ==> ClaimInv(e.pc, e.ctl, Then(t, c, e)))
    && (Claims(e.pc, c) ==> Claims(p, c) || Unclaimed(x))
    && (Storing(e.pc, c) ==> Born(Then(t, c, e)))
    && (e.ctl.joined && e.ctl.freed == 0 ==> (x.joined && x.freed == 0) || Claims(e.pc, c))
    && (e.pc.Joining? || e.pc.Creating? ==> e.pc.c != t)
    && (p.Exiting? || (e.rouse.Nobody? && Living(p) && Living(e.pc)))
  }

  lemma JoinKeepsBlock(t: Tid, c: Tid, at: JoinAt, known: bool, x: Control, q: Pc, ch: Choice)
    requires c != t && OwnInv(x, q) && (known ==> x.inTable && x.named)
    requires !at.JLook? ==> ClaimInv(Joining(c, at), x, q)
    ensures KeepsBlock(t, Joining(c, at), c, x, q, JoinStep(c, at, known, x, q, ch))
  {}

  lemma JoinKeepsClaim(t: Tid, c: Tid, at: JoinAt, known: bool, x: Control, q: Pc, ch: Choice)
    requires c != t && OwnInv(x, q) && (known ==> x.inTable && x.named)
    requires !at.JLook? ==> ClaimInv(Joining(c, at), x, q)
    ensures KeepsClaim(t, Joining(c, at), c, x, JoinStep(c, at, known, x, q, ch))
  {}

  lemma CreateKeeps(t: Tid, c: Tid, at: CreateAt, x: Control, q: Pc, ch: Choice)
    requires c != t && OwnInv(x, q)
    requires if at.CStore? then Born(q) else ClaimInv(Creating(c, at), x, q)
    ensures var e := CreateStep(c, at, x, q, ch);
            KeepsBlock(t, Creating(c, at), c, x, q, e) && KeepsClaim(t, Creating(c, at), c, x, e)
  {}

  lemma ExitKeeps(t: Tid, at: ExitAt, x: Control)
    requires OwnInv(x, Exiting(at))
    ensures var e := ExitStep(at, x);
            KeepsBlock(t, Exiting(at), t, x, Exiting(at), e) && KeepsClaim(t, Exiting(at), t, x, e)
  {}

  // Joining an id that nobody has.
  lemma LookupKeeps(t: Tid, c: Tid, x: Control, ch: Choice)
    requires OwnInv(x, Joining(c, JLook))
    ensures var e := JoinStep(c, JLook, false, x, Joining(c, JLook), ch);
            KeepsBlock(t, Joining(c, JLook), t, x, Joining(c, JLook), e) && KeepsClaim(t, Joining(c, JLook), t, x, e)
  {}

  // Steps about the thread's own block: a call begins, the thread starts, a
  // scan finds nothing.
  lemma OwnKeeps(t: Tid, p: Pc, known: bool, x: Control, ch: Choice)
    requires OwnInv(x, p)
    requires p.Idle? || p.Starting? || p.Allocate? || (p.Scan? && !ch.Reap?)
    ensures var e := Act(t, p, known, x, p, ch);
            KeepsBlock(t, p, t, x, p, e) && KeepsClaim(t, p, t, x, e)
  {
    hide JoinStep, CreateStep, ExitStep;
  }

  // Detaching a thread, and reaping one.
  lemma DetachKeeps(t: Tid, p: Pc, c: Tid, known: bool, x: Control, q: Pc, ch: Choice)
    requires OwnInv(x, q)
    requires c == t ==> q == p
    requires match p
             case Detaching(d) => if known then c == d && x.inTable && x.named else c == d || c == t
             case Scan(_) => ch == Reap(c) && Reapable(x)
             case Reaping(d, _) => c == d && ClaimInv(p, x, q)
             case _ => false
    ensures var e := Act(t, p, known, x, q, ch);
            KeepsBlock(t, p, c, x, q, e) && KeepsClaim(t, p, c, x, e)
  {
    hide JoinStep, CreateStep, ExitStep;
  }

  lemma ActKeeps(th: Threads, main: Tid, t: Tid, ch: Choice)
    requires Inv(th) && Open(th, main, t, ch) && !ch.Spawn?
    ensures var c := About(th, t, ch);
            var e := Outcome(th, main, t, ch);
            KeepsBlock(t, th[t].pc, c, th[c].ctl, th[c].pc, e) && KeepsClaim(t, th[t].pc, c, th[c].ctl, e)
  {
    hide KeepsBlock, KeepsClaim, JoinStep, CreateStep, ExitStep;
    var p := th[t].pc;
    var c := About(th, t, ch);
    var known := Found(th, main, t);
    match p {
      case Joining(d, at) =>
        assert ClaimHolds(th, t, d) && NotSelf(t, p);
        if d in th {
          JoinKeepsBlock(t, c, at, known, th[c].ctl, th[c].pc, ch);
          JoinKeepsClaim(t, c, at, known, th[c].ctl, th[c].pc, ch);
        } else {
          LookupKeeps(t, d, th[t].ctl, ch);
        }
      case Creating(d, at) =>
        assert ClaimHolds(th, t, d) && StoreHolds(th, t, d) && NotSelf(t, p);
        CreateKeeps(t, c, at, th[c].ctl, th[c].pc, ch);
      case Exiting(at) => ExitKeeps(t, at, th[t].ctl);
      case Detaching(_) => DetachKeeps(t, p, c, known, th[c].ctl, th[c].pc, ch);
      case Reaping(d, _) =>
        assert ClaimHolds(th, t, d);
        DetachKeeps(t, p, c, known, th[c].ctl, th[c].pc, ch);
      case Scan(_) =>
        if ch.Reap? {
          DetachKeeps(t, p, c, known, th[c].ctl, th[c].pc, ch);
        } else {
          OwnKeeps(t, p, known, th[t].ctl, ch);
        }
      case Idle(_) => OwnKeeps(t, p, known, th[t].ctl, ch);
      case Starting => OwnKeeps(t, p, known, th[t].ctl, ch);
      case _ => 
    }
  }

  lemma UnclaimedHasNoClaimant(p: Pc, c: Tid, x: Control, q: Pc)
    requires Unclaimed(x) && OwnInv(x, q) && Claims(p, c)
    ensures !ClaimInv(p, x, q)
  {}

  lemma SimilarKeepsClaim(p: Pc, x: Control, q: Pc, y: Control, q': Pc)
    requires ClaimInv(p, x, q) && OwnInv(x, q) && Similar(x, q, y, q')
    ensures ClaimInv(p, y, q')
  {}

  // Another thread's claim survives the owner's exit, and a sleeper is woken in time.
  lemma ExitKeepsClaim(p: Pc, t: Tid, at: ExitAt, x: Control)
    requires Claims(p, t) && ClaimInv(p, x, Exiting(at)) && OwnInv(x, Exiting(at))
    ensures var e := ExitStep(at, x); ClaimInv(Roused(p, e.rouse, t), e.ctl, e.pc)
  {}

  lemma WakingKeepsClaim(p: Pc, x: Control, q: Pc, rouse: Rouse, t: Tid)
    requires ClaimInv(p, x, q)
    ensures ClaimInv(p, x, Roused(q, rouse, t))
  {}

  // What a step of t makes of the claim of another thread u, at p, on d.
  lemma ClaimSurvives(th: Threads, main: Tid, t: Tid, ch: Choice, u: Tid, d: Tid)
    requires Inv(th) && Open(th, main, t, ch) && !ch.Spawn?
    requires u in th && u != t && Claims(th[u].pc, d)
    ensures var th' := After(th, main, t, ch);
            var e := Outcome(th, main, t, ch);
            d in th && ClaimInv(Roused(th[u].pc, e.rouse, t), th'[d].ctl, th'[d].pc)
  {
    var p, pu := th[t].pc, th[u].pc;
    var c, e := About(th, t, ch), Outcome(th, main, t, ch);
    ActKeeps(th, main, t, ch);
    assert ClaimHolds(th, u, d) && OwnInv(th[d].ctl, th[d].pc);
    hide OwnInv, ClaimInv, Unclaimed, JoinStep, CreateStep, Open;
    if d == c && p.Exiting? {
      ExitKeepsClaim(pu, t, p.xat, th[t].ctl);
    } else if d == c {
      if Unclaimed(th[c].ctl) {
        UnclaimedHasNoClaimant(pu, c, th[c].ctl, th[c].pc);
      }
      SimilarKeepsClaim(pu, th[c].ctl, th[c].pc, e.ctl, Then(t, c, e));
    } else if d == t {
      SimilarKeepsClaim(pu, th[t].ctl, p, th[t].ctl, e.pc);
    } else {
      WakingKeepsClaim(pu, th[d].ctl, th[d].pc, e.rouse, t);
    }
  }

  lemma StepOwn(th: Threads, main: Tid, t: Tid, ch: Choice, u: Tid)
    requires Inv(th) && Open(th, main, t, ch) && !ch.Spawn? && u in th
    ensures OwnInv(After(th, main, t, ch)[u].ctl, After(th, main, t, ch)[u].pc)
    ensures Born(th[u].pc) ==> Born(After(th, main, t, ch)[u].pc)
  {
    ActKeeps(th, main, t, ch);
    hide JoinStep, CreateStep, ExitStep, Act, Open;
  }

  // The counter of u after a step of t, and the claim it carries.
  lemma StepClaim(th: Threads, main: Tid, t: Tid, ch: Choice, u: Tid, d: Tid)
    requires Inv(th) && Open(th, main, t, ch) && !ch.Spawn? && u in th
    requires Claims(After(th, main, t, ch)[u].pc, d)
    ensures var th' := After(th, main, t, ch);
            d in th && ClaimInv(th'[u].pc, th'[d].ctl, th'[d].pc)
    ensures u != t ==> Claims(th[u].pc, d)
    ensures u == t ==> Claims(th[t].pc, d) || (Unclaimed(th[d].ctl) && About(th, t, ch) == d)
  {
    ActKeeps(th, main, t, ch);
    hide ClaimInv, Unclaimed, OwnInv, JoinStep, CreateStep, ExitStep, Act, Open;
    if u != t {
      ClaimSurvives(th, main, t, ch, u, d);
    }
  }

  lemma StepUnique(th: Threads, main: Tid, t: Tid, ch: Choice, u: Tid, v: Tid, d: Tid)
    requires Inv(th) && Open(th, main, t, ch) && !ch.Spawn? && u in th && v in th
    requires Claims(After(th, main, t, ch)[u].pc, d) && Claims(After(th, main, t, ch)[v].pc, d)
    ensures u == v
  {
    StepClaim(th, main, t, ch, u, d);
    StepClaim(th, main, t, ch, v, d);
    if u != v && (u == t || v == t) && Unclaimed(th[d].ctl) {
      var w := if u == t then v else u;
      assert ClaimHolds(th, w, d);
      UnclaimedHasNoClaimant(th[w].pc, d, th[d].ctl, th[d].pc);
    }
  }

  lemma StepNotSelf(th: Threads, main: Tid, t: Tid, ch: Choice, u: Tid)
    requires Inv(th) && Open(th, main, t, ch) && !ch.Spawn? && u in th
    ensures NotSelf(u, After(th, main, t, ch)[u].pc)
  {
    ActKeeps(th, main, t, ch);
    hide ClaimHolds, StoreHolds, Unclaimed, OwnInv, Act, Open;
  }

  lemma StepStore(th: Threads, main: Tid, t: Tid, ch: Choice, u: Tid, d: Tid)
    requires Inv(th) && Open(th, main, t, ch) && !ch.Spawn? && u in th
    ensures StoreHolds(After(th, main, t, ch), u, d)
  {
    ActKeeps(th, main, t, ch);
    hide ClaimHolds, ClaimInv, Unclaimed, OwnInv, Act, Open;
    if Storing(After(th, main, t, ch)[u].pc, d) && u != t {
      assert StoreHolds(th, u, d);
      StepOwn(th, main, t, ch, d);
    }
  }

  lemma SpawnClaims(th: Threads, main: Tid, t: Tid, ch: Choice, u: Tid, d: Tid)
    requires Inv(th) && Open(th, main, t, ch) && ch.Spawn? && u in After(th, main, t, ch)
    ensures ClaimHolds(After(th, main, t, ch), u, d) && StoreHolds(After(th, main, t, ch), u, d)
    ensures Claims(After(th, main, t, ch)[u].pc, d) <==>
              if u == t then d == ch.c else u in th && d != ch.c && Claims(th[u].pc, d)
  {
    hide OwnsHold, NoneSelf;
    if u in th && u != t {
      assert ClaimHolds(th, u, d) && StoreHolds(th, u, d);
    }
  }

  lemma SpawnInv(th: Threads, main: Tid, t: Tid, ch: Choice)
    requires Inv(th) && Open(th, main, t, ch) && ch.Spawn?
    ensures Inv(After(th, main, t, ch))
  {
    var th' := After(th, main, t, ch);
    assert OwnsHold(th') && NoneSelf(th');
    hide OwnsHold, NoneSelf, Open, After, ClaimHolds, StoreHolds, Claims;
    forall u, d | u in th'
      ensures ClaimHolds(th', u, d) && StoreHolds(th', u, d)
      ensures Claims(th'[u].pc, d) ==> if u == t then d == ch.c else u in th && d != ch.c && Claims(th[u].pc, d)
    {
      SpawnClaims(th, main, t, ch, u, d);
    }
  }

  lemma StepInv(th: Threads, main: Tid, t: Tid, ch: Choice)
    requires Inv(th) && Open(th, main, t, ch)
    ensures Inv(After(th, main, t, ch))
  {
    if ch.Spawn? {
      SpawnInv(th, main, t, ch);
    } else {
      var th' := After(th, main, t, ch);
      hide OwnInv, NotSelf, StoreHolds, ClaimInv, Open, After, Claims, Unclaimed, About;
      forall u | u in th' ensures OwnInv(th'[u].ctl, th'[u].pc) && NotSelf(u, th'[u].pc) {
        StepOwn(th, main, t, ch, u);
        StepNotSelf(th, main, t, ch, u);
      }
      forall u, d | u in th' ensures StoreHolds(th', u, d) {
        StepStore(th, main, t, ch, u, d);
      }
      forall u, d | u in th' ensures ClaimHolds(th', u, d) {
        if Claims(th'[u].pc, d) {
          StepClaim(th, main, t, ch, u, d);
        }
      }
      forall u, v, d | u in th' && v in th' && Claims(th'[u].pc, d) && Claims(th'[v].pc, d) ensures u == v {
        StepUnique(th, main, t, ch, u, v, d);
      }
    }
  }

  lemma RunStep(r: seq<State>, k: nat) returns (t: Tid, ch: Choice)
    requires IsRun(r) && k + 1 < |r|
    ensures Open(r[k].th, r[k].main, t, ch) && r[k + 1].th == After(r[k].th, r[k].main, t, ch)
    ensures r[k + 1].main == r[k].main
  {
    hide Open, After, Init;
    assert Next(r[k], r[k + 1]);
    t, ch :| Open(r[k].th, r[k].main, t, ch) && r[k + 1].th == After(r[k].th, r[k].main, t, ch);
  }

  lemma {:induction false} RunInv(r: seq<State>, i: nat)
    requires IsRun(r) && i < |r|
    ensures Inv(r[i].th) && r[i].main == r[0].main
    decreases i
  {
    if i > 0 {
      hide Inv, Open, After;
      RunInv(r, i - 1);
      var t, ch := RunStep(r, i - 1);
      StepInv(r[i - 1].th, r[i - 1].main, t, ch);
    }
  }

  // ----------------------------------------------------------------- theorems

  // A block is destroyed at most once, and not before its thread has finished
  // and the kernel has cleared its id, unless its thread was never started.
  lemma DestroyedOnceAfterTheEnd(r: seq<State>, i: nat, c: Tid)
    requires IsRun(r) && i < |r| && c in r[i].th
    ensures var x, q := r[i].th[c].ctl, r[i].th[c].pc;
            && x.freed <= 1 && !(x.joined && x.detached)
            && (x.freed == 1 ==> !x.inTable)
            && (x.freed == 1 ==> q.Aborted? || q.Gone? || q == Exiting(XClearWake))
  {
    RunInv(r, i);
  }

  // Of create's failure path, the joiner and the reapers, one will destroy c.
  lemma OneDestroyer(r: seq<State>, i: nat, t: Tid, u: Tid, c: Tid)
    requires IsRun(r) && i < |r| && t in r[i].th && u in r[i].th
    requires Claims(r[i].th[t].pc, c) && Claims(r[i].th[u].pc, c)
    ensures t == u
  {
    RunInv(r, i);
  }

  // What the calls answer. A join that gives 0 has destroyed the block of a thread that
  // has finished and whose id the kernel has cleared. ESRCH means that the registry does
  // not have the id, EINVAL that another join or detach was first.
  lemma JoinAnswers(r: seq<State>, i: nat, t: Tid, c: Tid)
    requires IsRun(r) && i + 1 < |r| && t in r[i].th && r[i].th[t].pc.Joining? && r[i].th[t].pc.c == c
    requires t in r[i + 1].th && r[i + 1].th[t].pc.Idle?
    ensures var at, res := r[i].th[t].pc.jat, r[i + 1].th[t].pc.last;
            match res
            case Ok => at.JDestroy? && c in r[i].th && c in r[i + 1].th && r[i].th[c].ctl.finished && !r[i].th[c].ctl.alive
                       && r[i].th[c].ctl.freed == 0 && r[i + 1].th[c].ctl.freed == 1
            case ESrch => at.JLook? && (!Known(r[i].th, c) || c == r[i].main)
            case EInval => at.JLook? && Known(r[i].th, c) && (r[i].th[c].ctl.detached || r[i].th[c].ctl.joined)
            case Error => at.JFinWait? || at.JAliveWait?
            case _ => false
  {
    hide IsRun;
    RunInv(r, i);
    var v, ch := RunStep(r, i);
    assert ClaimHolds(r[i].th, t, c);
    JoinReturns(r[i].th, r[i].main, v, ch, t, c);
  }

  lemma JoinReturns(th: Threads, main: Tid, v: Tid, ch: Choice, t: Tid, c: Tid)
    requires Open(th, main, v, ch) && t in th && th[t].pc.Joining? && th[t].pc.c == c
    requires Claims(th[t].pc, c) ==> c in th && ClaimInv(th[t].pc, th[c].ctl, th[c].pc)
    requires Inv(th) && t in After(th, main, v, ch) && After(th, main, v, ch)[t].pc.Idle?
    ensures var at, th' := th[t].pc.jat, After(th, main, v, ch);
            match th'[t].pc.last
            case Ok => at.JDestroy? && c in th && c in th' && th[c].ctl.finished && !th[c].ctl.alive
                       && th[c].ctl.freed == 0 && th'[c].ctl.freed == 1
            case ESrch => at.JLook? && (!Known(th, c) || c == main)
            case EInval => at.JLook? && Known(th, c) && (th[c].ctl.detached || th[c].ctl.joined)
            case Error => at.JFinWait? || at.JAliveWait?
            case _ => false
  {
    OnlyOwnReturns(th, main, v, ch, t);
    hide Inv, OwnInv, CreateStep, ExitStep;
  }

  // Only a join of oneself is refused at once, with EDEADLK.
  lemma SelfJoinDeadlocks(th: Threads, main: Tid, t: Tid, c: Tid)
    requires Open(th, main, t, Call(Join(c)))
    ensures After(th, main, t, Call(Join(c)))[t].pc == if c == t then Idle(EDeadLk) else Joining(c, JLook)
  {
  }

  // A detach marks a thread nobody has joined or detached, and otherwise says why not.
  lemma DetachAnswers(r: seq<State>, i: nat, t: Tid, c: Tid)
    requires IsRun(r) && i + 1 < |r| && t in r[i].th && r[i].th[t].pc == Detaching(c)
    requires t in r[i + 1].th && r[i + 1].th[t].pc != Detaching(c)
    ensures var p := r[i + 1].th[t].pc;
      if !Known(r[i].th, c) || c == r[i].main then p == Idle(ESrch)
      else if r[i].th[c].ctl.detached || r[i].th[c].ctl.joined then p == Idle(EInval)
      else p == Scan(false) && c in r[i + 1].th && r[i + 1].th[c].ctl.detached
  {
    hide IsRun;
    RunInv(r, i);
    var v, ch := RunStep(r, i);
    OnlyOwnDetaches(r[i].th, r[i].main, v, ch, t);
    hide Inv, OwnInv, CreateStep, ExitStep, JoinStep;
  }

  lemma OnlyOwnDetaches(th: Threads, main: Tid, v: Tid, ch: Choice, t: Tid)
    requires Open(th, main, v, ch) && t in th && th[t].pc.Detaching? && Inv(th)
    requires t in After(th, main, v, ch) && After(th, main, v, ch)[t].pc != th[t].pc
    ensures v == t
  {
    if !ch.Spawn? && v != t {
      ActKeeps(th, main, v, ch);
      hide Act, OwnInv, ClaimInv;
    }
  }

  // Nobody returns from a join by another thread's step.
  lemma OnlyOwnReturns(th: Threads, main: Tid, v: Tid, ch: Choice, t: Tid)
    requires Open(th, main, v, ch) && t in th && th[t].pc.Joining? && Inv(th)
    requires t in After(th, main, v, ch) && After(th, main, v, ch)[t].pc.Idle?
    ensures v == t
  {
    if !ch.Spawn? && v != t {
      ActKeeps(th, main, v, ch);
      hide Act, OwnInv, ClaimInv;
    }
  }

  // t's next step may load or store a field of c's block.
  predicate Touches(th: Threads, t: Tid, c: Tid)
    requires t in th
  {
    || Claims(th[t].pc, c)
    || Storing(th[t].pc, c)
    || (t == c && (Living(th[t].pc) || th[t].pc == Exiting(XWake) || th[t].pc == Exiting(XClear)))
    || (th[t].pc.Joining? && th[t].pc.c == c && Known(th, c))
    || (th[t].pc.Detaching? && th[t].pc.c == c && Known(th, c))
    || (th[t].pc.Scan? && c in th && th[c].ctl.inTable)
  }

  // Only the creator's late store of the new thread's id can reach a destroyed
  // block, and only one that was detached or joined.
  lemma OnlyTheLateStoreTouchesAFreedBlock(r: seq<State>, i: nat, t: Tid, c: Tid)
    requires IsRun(r) && i < |r| && t in r[i].th && Touches(r[i].th, t, c)
    ensures c in r[i].th
    ensures r[i].th[c].ctl.freed > 0 ==>
              Storing(r[i].th[t].pc, c) && (r[i].th[c].ctl.detached || r[i].th[c].ctl.joined)
  {
    RunInv(r, i);
    assert ClaimHolds(r[i].th, t, c) && StoreHolds(r[i].th, t, c);
  }

  // A joiner sleeps on a finished or cleared thread only while that thread's
  // own wake is still to come.
  lemma JoinersAreWoken(r: seq<State>, i: nat, t: Tid, c: Tid)
    requires IsRun(r) && i < |r| && t in r[i].th
    ensures r[i].th[t].pc == Joining(c, JFinSleep) ==>
              c in r[i].th && (!r[i].th[c].ctl.finished || r[i].th[c].pc == Exiting(XWake))
    ensures r[i].th[t].pc == Joining(c, JAliveSleep) ==>
              c in r[i].th && (r[i].th[c].ctl.alive || r[i].th[c].pc == Exiting(XClearWake))
  {
    RunInv(r, i);
    assert ClaimHolds(r[i].th, t, c);
  }

  // ------------------------------------------------- a join that fails late

  // Marked joined, not destroyed, and nobody is to destroy it.
  ghost predicate Orphaned(th: Threads, c: Tid) {
    && c in th && th[c].ctl.joined && th[c].ctl.freed == 0
    && forall t :: t in th ==> !Claims(th[t].pc, c)
  }

  lemma StepKeepsOrphan(th: Threads, main: Tid, t: Tid, ch: Choice, c: Tid)
    requires Inv(th) && Open(th, main, t, ch) && Orphaned(th, c)
    ensures Orphaned(After(th, main, t, ch), c)
  {
    var th' := After(th, main, t, ch);
    if !ch.Spawn? {
      ActKeeps(th, main, t, ch);
      hide OwnInv, ClaimInv, JoinStep, CreateStep, Open;
      forall u | u in th' ensures !Claims(th'[u].pc, c) {
        if Claims(th'[u].pc, c) {
          StepClaim(th, main, t, ch, u, c);
          OrphanIsNotUnclaimed(th, c);
        }
      }
      OrphanIsNotUnclaimed(th, c);
    }
  }

  lemma OrphanIsNotUnclaimed(th: Threads, c: Tid)
    requires Inv(th) && c in th && th[c].ctl.joined
    ensures !Unclaimed(th[c].ctl)
  {}

  // A step leaves a joined block without a destroyer exactly when it is a join
  // that gives up waiting for the kernel to clear the id.
  lemma OrphanedExactlyByALateFailure(th: Threads, main: Tid, t: Tid, ch: Choice, c: Tid)
    requires Inv(th) && Open(th, main, t, ch) && c in th && !Orphaned(th, c)
    ensures Orphaned(After(th, main, t, ch), c) <==> th[t].pc == Joining(c, JAliveWait) && ch.Fail?
  {
    var th' := After(th, main, t, ch);
    assert ClaimHolds(th, t, c);
    if th[t].pc == Joining(c, JAliveWait) && ch.Fail? {
      forall u | u in th' ensures !Claims(th'[u].pc, c) {
        if Claims(th'[u].pc, c) {
          StepClaim(th, main, t, ch, u, c);
        }
      }
    } else if Orphaned(th', c) {
      OrphanHadItsDestroyer(th, main, t, ch, c);
      hide OwnInv, ClaimInv;
    }
  }

  lemma ClaimLost(t: Tid, p: Pc, c: Tid, known: bool, x: Control, q: Pc, ch: Choice)
    requires Claims(p, c) && ClaimInv(p, x, q)
    requires var e := Act(t, p, known, x, q, ch); !Claims(e.pc, c) && e.ctl.joined && e.ctl.freed == 0
    ensures p == Joining(c, JAliveWait) && ch.Fail?
  {
    hide JoinStep;
    if p.Joining? {
      JoinLost(c, p.jat, known, x, q, ch);
    }
  }

  lemma JoinLost(c: Tid, at: JoinAt, known: bool, x: Control, q: Pc, ch: Choice)
    requires ClaimInv(Joining(c, at), x, q) && Claims(Joining(c, at), c)
    ensures var e := JoinStep(c, at, known, x, q, ch);
            !Claims(e.pc, c) && e.ctl.freed == 0 ==> (at.JAliveWait? && ch.Fail?) || !e.ctl.joined
  {
  }

  lemma ClaimsKept(th: Threads, main: Tid, t: Tid, ch: Choice, u: Tid, c: Tid)
    requires Inv(th) && Open(th, main, t, ch) && !ch.Spawn? && u in th && u != t && Claims(th[u].pc, c)
    ensures Claims(After(th, main, t, ch)[u].pc, c)
  {
    ActKeeps(th, main, t, ch);
    hide OwnInv, ClaimInv, Act;
  }

  lemma OrphanHadItsDestroyer(th: Threads, main: Tid, t: Tid, ch: Choice, c: Tid)
    requires Inv(th) && Open(th, main, t, ch) && c in th && !Orphaned(th, c)
    requires Orphaned(After(th, main, t, ch), c)
    ensures th[t].pc == Joining(c, JAliveWait) && ch.Fail?
  {
    var th' := After(th, main, t, ch);
    if ch.Spawn? {
      if th[c].ctl.joined && th[c].ctl.freed == 0 {
        var u :| u in th && Claims(th[u].pc, c);
        SpawnClaims(th, main, t, ch, u, c);
        assert false;
      }
    } else {
      var d := About(th, t, ch);
      ActKeeps(th, main, t, ch);
      hide OwnInv, ClaimInv, Act;
      if th[c].ctl.joined && th[c].ctl.freed == 0 {
        var u :| u in th && Claims(th[u].pc, c);
        assert ClaimHolds(th, u, c);
        if u != t {
          ClaimsKept(th, main, t, ch, u, c);
          assert false;
        }
        ClaimLost(t, th[t].pc, c, Found(th, main, t), th[d].ctl, th[d].pc, ch);
      }
    }
  }

  lemma {:induction false} OrphanedForEver(r: seq<State>, i: nat, j: nat, c: Tid)
    requires IsRun(r) && i <= j < |r| && Orphaned(r[i].th, c)
    ensures Orphaned(r[j].th, c)
    decreases j
  {
    hide *;
    if i < j {
      OrphanedForEver(r, i, j - 1, c);
      RunInv(r, j - 1);
      var t, ch := RunStep(r, j - 1);
      StepKeepsOrphan(r[j - 1].th, r[j - 1].main, t, ch, c);
    }
  }

  // ------------------------------------------- the late store can come too late

  function Last(r: seq<State>): State
    requires 0 < |r|
  {
    r[|r| - 1]
  }

  lemma Advance(r: seq<State>, t: Tid, ch: Choice) returns (r': seq<State>)
    requires 0 < |r| && IsRun(r) && Open(Last(r).th, Last(r).main, t, ch)
    ensures 0 < |r'| && IsRun(r')
    ensures Last(r') == Last(r).(th := After(Last(r).th, Last(r).main, t, ch))
  {
    var s' := Last(r).(th := After(Last(r).th, Last(r).main, t, ch));
    hide After, Init, Open;
    r' := r + [s'];
    forall i | 0 <= i < |r'| - 1 ensures Next(r'[i], r'[i + 1]) {
      if i < |r| - 1 {
        assert Next(r[i], r[i + 1]);
      }
    }
  }

  // A step that wakes nobody.
  lemma QuietStep(r: seq<State>, t: Tid, ch: Choice) returns (r': seq<State>)
    requires 0 < |r| && IsRun(r) && Open(Last(r).th, Last(r).main, t, ch) && !ch.Spawn?
    requires forall u :: u in Last(r).th && u != t ==> !Last(r).th[u].pc.Joining?
    ensures 0 < |r'| && IsRun(r') && Last(r').main == Last(r).main
    ensures var th := Last(r).th;
            var c, e := About(th, t, ch), Outcome(th, Last(r).main, t, ch);
            Last(r').th ==
              if c == t then th[t := Thread(e.ctl, e.pc)]
              else th[c := Thread(e.ctl, e.child)][t := th[t].(pc := e.pc)]
  {
    r' := Advance(r, t, ch);
    hide IsRun, Act, Found;
    var th := Last(r).th;
    var c, e := About(th, t, ch), Outcome(th, Last(r).main, t, ch);
    assert Last(r').th == if c == t then th[t := Thread(e.ctl, e.pc)]
                          else th[c := Thread(e.ctl, e.child)][t := th[t].(pc := e.pc)];
  }

  ghost predicate NobodyJoins(th: Threads) {
    forall u :: u in th ==> !th[u].pc.Joining?
  }

  lemma CreateUpToStore(r: seq<State>, t: Tid, c: Tid, detached: bool) returns (r': seq<State>)
    requires 0 < |r| && IsRun(r) && t in Last(r).th && Last(r).th[t].pc.Idle? && c !in Last(r).th
    requires NothingToReap(Last(r).th, Last(r).main) && NobodyJoins(Last(r).th)
    ensures 0 < |r'| && IsRun(r')
    ensures Last(r') == Last(r).(th := Last(r).th[t := Last(r).th[t].(pc := Creating(c, CStore))]
                                 [c := Thread(Control(true, false, true, false, false, detached, 0), Starting)])
  {
    hide IsRun;
    r' := QuietStep(r, t, Call(Create));
    r' := QuietStep(r', t, Go);
    r' := Advance(r', t, Spawn(c, detached));
    r' := QuietStep(r', t, Go);
    r' := QuietStep(r', t, Go);
    assert Last(r').th == Last(r).th[t := Last(r).th[t].(pc := Creating(c, CStore))]
      [c := Thread(Control(true, false, true, false, false, detached, 0), Starting)];
  }

  // The thread c starts and runs to its end.
  lemma RunToTheEnd(r: seq<State>, c: Tid) returns (r': seq<State>)
    requires 0 < |r| && IsRun(r) && c in Last(r).th && Last(r).th[c].pc.Starting? && c != Last(r).main
    requires NobodyJoins(Last(r).th)
    ensures 0 < |r'| && IsRun(r')
    ensures var x := Last(r).th[c].ctl;
            Last(r') == Last(r).(th := Last(r).th[c := Thread(x.(named := true, finished := true, alive := false), Gone)])
  {
    hide IsRun;
    r' := QuietStep(r, c, Go);
    r' := QuietStep(r', c, Call(Exit));
    r' := QuietStep(r', c, Go);
    r' := QuietStep(r', c, Go);
    r' := QuietStep(r', c, Go);
    r' := QuietStep(r', c, Go);
    assert Last(r').th == Last(r).th[c := Thread(Last(r).th[c].ctl.(named := true, finished := true, alive := false), Gone)];
  }

  // The main thread 0 has created thread 2, which is running.
  lemma TwoThreads() returns (r: seq<State>)
    ensures 0 < |r| && IsRun(r)
    ensures Last(r) == State(0, map[0 := Thread(Running(), Idle(Ok)), 2 := Thread(Running(), Idle(Ok))])
  {
    r := [State(0, map[0 := Thread(Running(), Idle(Ok))])];
    hide IsRun;
    r := CreateUpToStore(r, 0, 2, false);
    r := QuietStep(r, 0, Go);
    r := QuietStep(r, 2, Go);
    assert Last(r).th == map[0 := Thread(Running(), Idle(Ok)), 2 := Thread(Running(), Idle(Ok))];
  }

  function Running(): Control {
    Control(true, true, true, false, false, false, 0)
  }

  // Thread 2 reaps the detached thread 1 before its creator, the main thread 0,
  // has stored its id.
  lemma LateStoreCanHitAFreedBlock() returns (r: seq<State>)
    ensures 0 < |r| && IsRun(r) && 0 in Last(r).th && 1 in Last(r).th
    ensures Storing(Last(r).th[0].pc, 1) && Last(r).th[1].ctl.freed == 1
  {
    r := TwoThreads();
    hide IsRun, JoinStep, CreateStep;
    r := CreateUpToStore(r, 0, 1, true);
    r := RunToTheEnd(r, 1);
    var done := Control(true, true, false, true, false, true, 0);
    assert Last(r).th == map[0 := Thread(Running(), Creating(1, CStore)), 1 := Thread(done, Gone), 2 := Thread(Running(), Idle(Ok))];
    r := QuietStep(r, 2, Call(Create));
    r := QuietStep(r, 2, Reap(1));
    r := QuietStep(r, 2, Go);
  }

  // Thread 2 has marked itself finished; the kernel has not cleared its id yet.
  lemma EndOfTwo() returns (r: seq<State>)
    ensures 0 < |r| && IsRun(r)
    ensures Last(r) == State(0, map[0 := Thread(Running(), Idle(Ok)),
                                    2 := Thread(Running().(finished := true), Exiting(XClear))])
  {
    r := TwoThreads();
    hide IsRun, JoinStep, CreateStep;
    r := QuietStep(r, 2, Call(Exit));
    r := QuietStep(r, 2, Go);
    r := QuietStep(r, 2, Go);
    assert Last(r).th == map[0 := Thread(Running(), Idle(Ok)),
                             2 := Thread(Running().(finished := true), Exiting(XClear))];
  }

  // The main thread 0 joins it in that moment, and its wait for the kernel fails.
  lemma FailedJoinCanOrphan() returns (r: seq<State>)
    ensures 0 < |r| && IsRun(r) && 0 in Last(r).th
    ensures Last(r).th[0].pc == Idle(Error) && Orphaned(Last(r).th, 2)
  {
    r := EndOfTwo();
    hide IsRun, CreateStep;
    r := QuietStep(r, 0, Call(Join(2)));
    r := QuietStep(r, 0, Go);
    r := QuietStep(r, 0, Go);
    r := QuietStep(r, 0, Go);
    r := QuietStep(r, 0, Fail);
  }
}
