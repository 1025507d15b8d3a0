/**
  The three-state futex mutex: lock, trylock, timedlock, unlock, consistent and
  the robust release a thread performs when it exits.
 */
module Mutex {

  // One slot is shared by an unbounded set of threads. Each step of the transition
  // system is one atomic operation or one access to a plain field, and the kernel
  // futex is an atomic compare-and-sleep with a wake of up to n sleepers. The
  // invariant is inductive over every interleaving; the theorems at the end are about
  // every state of every run.

  // Thread ids are positive: 0 in the owner field means "nobody".
  type Tid = n: nat | 0 < n witness 1

  const UINT_MAX: nat := 0xFFFF_FFFF

  datatype Kind = Normal | Recursive | ErrorCheck | Default

  datatype Mode = Block | Try | Timed

  datatype Result =
    | NoResult | Ok | EAgain | EDeadLk | EBusy | ETimedOut | EInval | EPerm
    | ENotRecoverable | EOwnerDead

  datatype Op = Lock(mode: Mode) | Unlock | Consistent | Exit

  // What a thread does next on this mutex.
  datatype Pc =
    | Idle(last: Result)
    | Exited
    // mutex_lock_common
    | LkOwner(mode: Mode)
    | LkNested
    | LkCheck(mode: Mode)
    | LkClock
    | LkTry
    | LkFast(timed: bool)
    | LkSwap(timed: bool)
    | LkWait(timed: bool)
    | LkAsleep(timed: bool)
    | LkRecheck
    | LkBackout
    | LkBackoutWake
    | LkSetOwner
    | LkSetCount
    | LkNotice
    | LkInconsistent
    // pthread_mutex_unlock
    | UnOwner
    | UnCount
    | UnRobust
    | UnMark
    | UnZero
    | UnClear
    | UnSwap
    | UnWake
    // pthread_mutex_consistent
    | CoOwner
    | CoTest
    // __armos_pthread_release_robust
    | RbOwner
    | RbClear
    | RbZero
    | RbFlag
    | RbNotice
    | RbStore
    | RbWake

  /**
    The slot and three history variables that no step tests: the thread that
    took the word, and the numbers of owner deaths and of death notices given.
   */
  datatype Slot = Slot(
    kind: Kind, robust: bool,
    word: nat, owner: nat, recursion: nat,
    ownerDead: bool, inconsistent: bool, notRecoverable: bool,
    holder: nat, deaths: nat, notices: nat)

  // A thread: its program counter, and its acquisitions minus its releases (history).
  datatype Thread = Thread(pc: Pc, balance: int)

  datatype State = State(slot: Slot, th: map<Tid, Thread>)

  // Resolves the choices a step leaves open: which call, and whether a wait
  // ends by a signal, a deadline or a kernel error.
  datatype Choice = Call(op: Op) | Go | Interrupt | Expire | Fail

  // FUTEX_WAKE issued by a step: up to one sleeper, or 0x7fffffff of them.
  datatype Wake = None | One | All

  // What one thread's step does to the slot and to itself.
  datatype Effect = Effect(slot: Slot, me: Thread, wake: Wake)

  predicate Open(p: Pc, c: Choice) {
    match p
    case Idle(_) => c.Call?
    case Exited => false
    case LkClock => c.Go? || c.Fail? || c.Expire?
    case LkWait(_) => c.Go? || c.Fail?
    case LkAsleep(timed) => c.Interrupt? || (timed && c.Expire?)
    case _ => c.Go?
  }

  function To(x: Slot, me: Thread, p: Pc): Effect {
    Effect(x, me.(pc := p), None)
  }

  function Return(x: Slot, me: Thread, r: Result): Effect {
    To(x, me, Idle(r))
  }

  function Begin(op: Op): Pc {
    match op
    case Lock(m) => LkOwner(m)
    case Unlock => UnOwner
    case Consistent => CoOwner
    case Exit => RbOwner
  }

  function Take(x: Slot, t: Tid, me: Thread, w: nat): Effect {
    To(x.(word := w, holder := t), me, LkRecheck)
  }

  // mutex_lock_common before it tries to take the word.
  function Admit(x: Slot, t: Tid, me: Thread, c: Choice): Effect {
    match me.pc
    case LkOwner(m) =>
      if x.owner == t && x.kind.Recursive? then To(x, me, LkNested)
      else if x.owner == t && x.kind.ErrorCheck? then Return(x, me, EDeadLk)
      else To(x, me, LkCheck(m))
    case LkNested =>
      if x.recursion == UINT_MAX then Return(x, me, EAgain)
      else Return(x.(recursion := x.recursion + 1), me.(balance := me.balance + 1), Ok)
    case LkCheck(m) =>
      if x.notRecoverable then Return(x, me, ENotRecoverable)
      else if m.Try? then To(x, me, LkTry)
      else if m.Timed? then To(x, me, LkClock)
      else To(x, me, LkFast(false))
    case LkClock =>
      if c.Fail? then Return(x, me, EInval)
      else if c.Expire? then Return(x, me, ETimedOut)
      else To(x, me, LkFast(true))
    case _ => To(x, me, me.pc)
  }

  // The trylock compare-and-swap, and mutex_take_word.
  function TakeWord(x: Slot, t: Tid, me: Thread, c: Choice): Effect {
    match me.pc
    case LkTry => if x.word == 0 then Take(x, t, me, 1) else Return(x, me, EBusy)
    case LkFast(timed) => if x.word == 0 then Take(x, t, me, 1) else To(x, me, LkSwap(timed))
    case LkSwap(timed) =>
      if x.word == 0 then Take(x, t, me, 2) else To(x.(word := 2), me, LkWait(timed))
    case LkWait(timed) =>
      if c.Fail? then Return(x, me, EInval)
      else if x.word == 2 then To(x, me, LkAsleep(timed))
      else To(x, me, LkSwap(timed))
    case LkAsleep(timed) =>
      if c.Expire? then Return(x, me, ETimedOut) else To(x, me, LkSwap(timed))
    case _ => To(x, me, me.pc)
  }

  // mutex_lock_common once the word is taken.
  function Enter(x: Slot, t: Tid, me: Thread): Effect {
    match me.pc
    case LkRecheck => To(x, me, if x.notRecoverable then LkBackout else LkSetOwner)
    case LkBackout =>
      var x' := x.(word := 0, holder := 0);
      if x.word == 2 then To(x', me, LkBackoutWake) else Return(x', me, ENotRecoverable)
    case LkBackoutWake => Effect(x, me.(pc := Idle(ENotRecoverable)), One)
    case LkSetOwner => To(x.(owner := t), me, LkSetCount)
    case LkSetCount => To(x.(recursion := 1), me, LkNotice)
    case LkNotice =>
      if x.robust && x.ownerDead then To(x.(ownerDead := false, notices := x.notices + 1), me, LkInconsistent)
      else Return(x, me.(balance := me.balance + 1), Ok)
    case LkInconsistent =>
      Return(x.(inconsistent := true), me.(balance := me.balance + 1), EOwnerDead)
    case _ => To(x, me, me.pc)
  }

  // pthread_mutex_unlock until the fields are about to be cleared.
  function Release(x: Slot, t: Tid, me: Thread): Effect {
    match me.pc
    case UnOwner => if x.owner != t then Return(x, me, EPerm) else To(x, me, UnCount)
    case UnCount =>
      var me' := me.(balance := me.balance - 1);
      if x.recursion > 1 then Return(x.(recursion := x.recursion - 1), me', Ok) else To(x, me', UnRobust)
    case UnRobust =>
      if x.robust && x.inconsistent then To(x.(inconsistent := false), me, UnMark) else To(x, me, UnZero)
    case UnMark => To(x.(notRecoverable := true), me, UnZero)
    case _ => To(x, me, me.pc)
  }

  // The rest of pthread_mutex_unlock, and pthread_mutex_consistent.
  function Vacate(x: Slot, t: Tid, me: Thread): Effect {
    match me.pc
    case UnZero => To(x.(recursion := 0), me, UnClear)
    case UnClear => To(x.(owner := 0), me, UnSwap)
    case UnSwap =>
      var x' := x.(word := 0, holder := 0);
      if x.word == 2 then To(x', me, UnWake) else Return(x', me, Ok)
    case UnWake => Effect(x, me.(pc := Idle(Ok)), One)
    case CoOwner => if !x.robust || x.owner != t then Return(x, me, EInval) else To(x, me, CoTest)
    case CoTest =>
      if !x.inconsistent then Return(x, me, EInval) else Return(x.(inconsistent := false), me, Ok)
    case _ => To(x, me, me.pc)
  }

  // __armos_pthread_release_robust, seen by one slot.
  function Quit(x: Slot, t: Tid, me: Thread): Effect {
    match me.pc
    case RbOwner => To(x, me, if x.robust && x.owner == t then RbClear else Exited)
    case RbClear => To(x.(owner := 0), me.(balance := 0), RbZero)
    case RbZero => To(x.(recursion := 0), me, RbFlag)
    case RbFlag => To(x.(inconsistent := false), me, RbNotice)
    case RbNotice => To(x.(ownerDead := true, deaths := x.deaths + 1), me, RbStore)
    case RbStore => To(x.(word := 0, holder := 0), me, RbWake)
    case RbWake => Effect(x, me.(pc := Exited), All)
    case _ => To(x, me, me.pc)
  }

  predicate InAdmit(p: Pc) {
    p.LkOwner? || p.LkNested? || p.LkCheck? || p.LkClock?
  }

  predicate InTakeWord(p: Pc) {
    p.LkTry? || p.LkFast? || p.LkSwap? || p.LkWait? || p.LkAsleep?
  }

  predicate InEnter(p: Pc) {
    p.LkRecheck? || p.LkBackout? || p.LkBackoutWake? || p.LkSetOwner? || p.LkSetCount?
    || p.LkNotice? || p.LkInconsistent?
  }

  predicate InRelease(p: Pc) {
    p.UnOwner? || p.UnCount? || p.UnRobust? || p.UnMark?
  }

  predicate InVacate(p: Pc) {
    p.UnZero? || p.UnClear? || p.UnSwap? || p.UnWake? || p.CoOwner? || p.CoTest?
  }

  function Act(x: Slot, t: Tid, me: Thread, c: Choice): Effect
    requires Open(me.pc, c)
  {
    if me.pc.Idle? then To(x, me, Begin(c.op))
    else if InAdmit(me.pc) then Admit(x, t, me, c)
    else if InTakeWord(me.pc) then TakeWord(x, t, me, c)
    else if InEnter(me.pc) then Enter(x, t, me)
    else if InRelease(me.pc) then Release(x, t, me)
    else if InVacate(me.pc) then Vacate(x, t, me)
    else Quit(x, t, me)
  }

  predicate Sleeping(s: State, t: Tid) {
    t in s.th && s.th[t].pc.LkAsleep?
  }

  predicate NoSleeper(th: map<Tid, Thread>) {
    forall t :: t in th ==> !th[t].pc.LkAsleep?
  }

  // A woken thread's futex call returns 0 and it goes back to the exchange.
  function Roused(me: Thread): Thread {
    if me.pc.LkAsleep? then me.(pc := LkSwap(me.pc.timed)) else me
  }

  // The threads after a wake: one sleeper of the kernel's choosing (if there is any), or all.
  predicate Woken(th: map<Tid, Thread>, w: Wake, th': map<Tid, Thread>) {
    match w
    case None => th' == th
    case One =>
      || (NoSleeper(th) && th' == th)
      || exists u: Tid :: u in th && th[u].pc.LkAsleep? && th' == th[u := Roused(th[u])]
    case All => th' == map u | u in th :: Roused(th[u])
  }

  // One step of thread t.
  predicate Step(s: State, t: Tid, c: Choice, s': State) {
    && t in s.th
    && Open(s.th[t].pc, c)
    && var e := Act(s.slot, t, s.th[t], c);
    && s'.slot == e.slot
    && Woken(s.th[t := e.me], e.wake, s'.th)
  }

  ghost predicate Next(s: State, s': State) {
    exists t: Tid, c: Choice :: Step(s, t, c, s')
  }

  // A slot just allocated (zeroed), seen by any finite set of threads.
  predicate Init(s: State) {
    && s.slot == Slot(s.slot.kind, s.slot.robust, 0, 0, 0, false, false, false, 0, 0, 0)
    && forall t :: t in s.th ==> s.th[t] == Thread(Idle(NoResult), 0)
  }

  ghost predicate IsRun(r: seq<State>) {
    && 0 < |r|
    && Init(r[0])
    && forall i :: 0 <= i < |r| - 1 ==> Next(r[i], r[i + 1])
  }

  // ---------------------------------------------------------------- invariant

  // Between taking the word and publishing the owner.
  predicate Entering(p: Pc) {
    p.LkRecheck? || p.LkBackout? || p.LkSetOwner?
  }

  // Between clearing the owner and clearing the word.
  predicate Leaving(p: Pc) {
    p.UnSwap? || p.RbZero? || p.RbFlag? || p.RbNotice? || p.RbStore?
  }

  // Owner published, but the lock has not returned, or the release is committed.
  predicate OwnerInside(p: Pc) {
    p.LkSetCount? || p.LkNotice? || p.LkInconsistent?
    || p.UnRobust? || p.UnMark? || p.UnZero? || p.UnClear?
  }

  // Reached only after this thread has seen itself in the owner field.
  predicate OwnerSeen(p: Pc) {
    p.LkNested? || p.UnCount? || p.CoTest? || p.RbClear?
  }

  // What the thread knows of the slot's flags at each point where it has the word.
  predicate FlagsAgree(x: Slot, p: Pc) {
    match p
    case LkRecheck => !x.inconsistent
    case LkBackout => !x.inconsistent && x.notRecoverable
    case LkSetOwner => !x.inconsistent && !x.notRecoverable
    case LkSetCount => !x.inconsistent && !x.notRecoverable
    case LkNotice => !x.inconsistent && !x.notRecoverable && x.recursion == 1
    case LkInconsistent => !x.inconsistent && !x.notRecoverable && x.recursion == 1 && x.robust
    case UnRobust => !x.notRecoverable && x.recursion == 1
    case UnMark => !x.inconsistent && !x.notRecoverable && x.recursion == 1 && x.robust
    case UnZero => !x.inconsistent && x.recursion == 1
    case UnClear => !x.inconsistent
    case UnSwap => !x.inconsistent && !x.ownerDead
    case RbClear => x.robust
    case RbZero => x.robust && !x.ownerDead
    case RbFlag => x.robust && !x.ownerDead
    case RbNotice => x.robust && !x.ownerDead && !x.inconsistent
    case RbStore => x.robust && !x.inconsistent && x.ownerDead
    case _ => true
  }

  predicate ThreadInv(x: Slot, t: Tid, me: Thread) {
    var p := me.pc;
    && me.balance == (if x.owner != t || OwnerInside(p) then 0 else x.recursion)
    && (x.owner == t && !OwnerInside(p) ==> 1 <= x.recursion)
    && (Entering(p) || Leaving(p) ==> x.holder == t && x.owner == 0)
    && (OwnerInside(p) || OwnerSeen(p) ==> x.owner == t)
    && FlagsAgree(x, p)
    && (x.owner == t ==> x.holder == t)
    && (x.owner == t && p.Exited? ==> !x.robust)
    && (p.RbWake? ==> x.owner != t)
    && (x.owner == t && x.ownerDead ==> p.LkSetCount? || p.LkNotice?)
    && (x.owner == t && x.notRecoverable ==> p.UnZero? || p.UnClear?)
    && (x.holder == t ==> x.owner == t || Entering(p) || Leaving(p))
  }

  predicate SlotInv(x: Slot) {
    && x.word <= 2
    && (x.word == 0 <==> x.holder == 0)
    && (x.owner != 0 ==> x.owner == x.holder)
    && x.recursion <= UINT_MAX
    && (x.holder == 0 ==> !x.inconsistent)
    && (x.ownerDead || x.inconsistent ==> x.robust)
    && x.deaths == x.notices + (if x.ownerDead then 1 else 0)
  }

  // Somebody is bound to wake a sleeper, or to put 2 back in the word.
  predicate Promised(p: Pc) {
    p.UnWake? || p.LkBackoutWake? || p.RbWake? || p.LkSwap?
  }

  ghost predicate WakeInv(s: State) {
    NoSleeper(s.th) || s.slot.word == 2 || exists t :: t in s.th && Promised(s.th[t].pc)
  }

  ghost predicate Inv(s: State) {
    && SlotInv(s.slot)
    && (s.slot.holder != 0 ==> s.slot.holder in s.th)
    && (forall t :: t in s.th ==> ThreadInv(s.slot, t, s.th[t]))
    && WakeInv(s)
  }

  // ------------------------------------------------------------ preservation

  // Apart from the word, a step changes the slot only for a thread that has
  // the word before or after it.
  predicate Footprint(x: Slot, t: Tid, x': Slot) {
    || x' == x.(word := x'.word)
    || (&& (x.holder == 0 || x.holder == t) && (x'.holder == 0 || x'.holder == t)
        && (x.owner == 0 || x.owner == t) && (x'.owner == 0 || x'.owner == t)
        && x'.robust == x.robust && x'.kind == x.kind)
  }

  lemma OthersKeepInv(x: Slot, t: Tid, x': Slot, u: Tid, me: Thread)
    requires u != t && ThreadInv(x, u, me) && Footprint(x, t, x')
    ensures ThreadInv(x', u, me)
  {
  }

  lemma AdmitInv(x: Slot, t: Tid, me: Thread, c: Choice)
    requires SlotInv(x) && ThreadInv(x, t, me)
    requires InAdmit(me.pc)
    ensures var e := Admit(x, t, me, c);
            SlotInv(e.slot) && ThreadInv(e.slot, t, e.me) && Footprint(x, t, e.slot)
  {
  }

  lemma TakeWordInv(x: Slot, t: Tid, me: Thread, c: Choice)
    requires SlotInv(x) && ThreadInv(x, t, me)
    requires InTakeWord(me.pc)
    ensures var e := TakeWord(x, t, me, c);
            SlotInv(e.slot) && ThreadInv(e.slot, t, e.me) && Footprint(x, t, e.slot)
  {
  }

  lemma EnterInv(x: Slot, t: Tid, me: Thread)
    requires SlotInv(x) && ThreadInv(x, t, me)
    requires InEnter(me.pc)
    ensures var e := Enter(x, t, me);
            SlotInv(e.slot) && ThreadInv(e.slot, t, e.me) && Footprint(x, t, e.slot)
  {
  }

  lemma ReleaseInv(x: Slot, t: Tid, me: Thread)
    requires SlotInv(x) && ThreadInv(x, t, me)
    requires InRelease(me.pc)
    ensures var e := Release(x, t, me);
            SlotInv(e.slot) && ThreadInv(e.slot, t, e.me) && Footprint(x, t, e.slot)
  {
  }

  lemma VacateInv(x: Slot, t: Tid, me: Thread)
    requires SlotInv(x) && ThreadInv(x, t, me)
    requires InVacate(me.pc)
    ensures var e := Vacate(x, t, me);
            SlotInv(e.slot) && ThreadInv(e.slot, t, e.me) && Footprint(x, t, e.slot)
  {
  }

  lemma QuitInv(x: Slot, t: Tid, me: Thread)
    requires SlotInv(x) && ThreadInv(x, t, me)
    requires !me.pc.Idle? && !InAdmit(me.pc) && !InTakeWord(me.pc) && !InEnter(me.pc) && !InRelease(me.pc) && !InVacate(me.pc)
    ensures var e := Quit(x, t, me);
            SlotInv(e.slot) && ThreadInv(e.slot, t, e.me) && Footprint(x, t, e.slot)
  {
  }

  lemma ActInv(x: Slot, t: Tid, me: Thread, c: Choice)
    requires SlotInv(x) && ThreadInv(x, t, me) && Open(me.pc, c)
    ensures var e := Act(x, t, me, c);
            SlotInv(e.slot) && ThreadInv(e.slot, t, e.me) && Footprint(x, t, e.slot)
  {
    hide Admit, TakeWord, Enter, Release, Vacate, Quit, SlotInv;
    var p := me.pc;
    if p.Idle? {
    } else if InAdmit(p) { AdmitInv(x, t, me, c);
    } else if InTakeWord(p) { TakeWordInv(x, t, me, c);
    } else if InEnter(p) { EnterInv(x, t, me);
    } else if InRelease(p) { ReleaseInv(x, t, me);
    } else if InVacate(p) { VacateInv(x, t, me);
    } else { QuitInv(x, t, me); }
  }

  // Waking sleepers moves nobody but sleepers, and those only to the exchange.
  lemma WokenMoves(th: map<Tid, Thread>, w: Wake, th': map<Tid, Thread>)
    requires Woken(th, w, th')
    ensures th'.Keys == th.Keys
    ensures forall u :: u in th ==> th'[u] == th[u] || (th[u].pc.LkAsleep? && th'[u] == Roused(th[u]))
  {
  }

  lemma RousedInv(x: Slot, t: Tid, me: Thread)
    requires ThreadInv(x, t, me)
    ensures ThreadInv(x, t, Roused(me))
  {
  }

  // What one step does to the wake obligations.
  predicate KeepsPromise(x: Slot, me: Thread, e: Effect) {
    && (x.word == 2 && e.slot.word != 2 ==> Promised(e.me.pc))
    && (Promised(me.pc) && e.wake.None? ==> e.slot.word == 2 || Promised(e.me.pc))
    && (e.me.pc.LkAsleep? ==> e.slot.word == 2)
  }

  lemma LockKeepsPromise(x: Slot, t: Tid, me: Thread, c: Choice)
    ensures InAdmit(me.pc) ==> KeepsPromise(x, me, Admit(x, t, me, c))
    ensures InTakeWord(me.pc) ==> KeepsPromise(x, me, TakeWord(x, t, me, c))
    ensures InEnter(me.pc) ==> KeepsPromise(x, me, Enter(x, t, me))
  {
  }

  lemma UnlockKeepsPromise(x: Slot, t: Tid, me: Thread)
    ensures InRelease(me.pc) ==> KeepsPromise(x, me, Release(x, t, me))
    ensures InVacate(me.pc) ==> KeepsPromise(x, me, Vacate(x, t, me))
    ensures !me.pc.LkAsleep? && !me.pc.LkSwap? && !me.pc.UnWake? && !me.pc.LkBackoutWake? ==>
              KeepsPromise(x, me, Quit(x, t, me))
  {
  }

  lemma ActKeepsPromise(x: Slot, t: Tid, me: Thread, c: Choice)
    requires Open(me.pc, c)
    ensures KeepsPromise(x, me, Act(x, t, me, c))
  {
    hide Admit, TakeWord, Enter, Release, Vacate, Quit;
    LockKeepsPromise(x, t, me, c);
    UnlockKeepsPromise(x, t, me);
  }

  lemma StepKeepsWake(s: State, t: Tid, c: Choice, s': State)
    requires SlotInv(s.slot) && WakeInv(s) && Step(s, t, c, s')
    ensures WakeInv(s')
  {
    hide Act;
    ActKeepsPromise(s.slot, t, s.th[t], c);
    var e := Act(s.slot, t, s.th[t], c);
    var mid := s.th[t := e.me];
    WokenMoves(mid, e.wake, s'.th);
    if e.wake.One? && !NoSleeper(mid) {
      var u: Tid :| u in mid && mid[u].pc.LkAsleep? && s'.th == mid[u := Roused(mid[u])];
      assert Promised(s'.th[u].pc);
    } else if e.wake.None? && Promised(e.me.pc) {
      assert t in s'.th && Promised(s'.th[t].pc);
    } else if e.wake.None? && s'.slot.word != 2 && !NoSleeper(s'.th) {
      var v :| v in s'.th && s'.th[v].pc.LkAsleep?;
      assert v in s.th && v != t;
      var u :| u in s.th && Promised(s.th[u].pc);
      assert u != t && u in s'.th && Promised(s'.th[u].pc);
    }
  }

  lemma StepKeepsInv(s: State, t: Tid, c: Choice, s': State)
    requires Inv(s) && Step(s, t, c, s')
    ensures Inv(s')
  {
    hide Act, ThreadInv, Woken;
    var e := Act(s.slot, t, s.th[t], c);
    var mid := s.th[t := e.me];
    ActInv(s.slot, t, s.th[t], c);
    WokenMoves(mid, e.wake, s'.th);
    forall u | u in s'.th ensures ThreadInv(s'.slot, u, s'.th[u]) {
      if u != t {
        OthersKeepInv(s.slot, t, s'.slot, u, s.th[u]);
        RousedInv(s'.slot, u, s.th[u]);
      } else {
        RousedInv(s'.slot, u, e.me);
      }
    }
    StepKeepsWake(s, t, c, s');
  }

  lemma InitInv(s: State)
    requires Init(s)
    ensures Inv(s)
  {
  }

  lemma {:induction false} RunKeepsInv(r: seq<State>, i: nat)
    requires IsRun(r) && i < |r|
    ensures Inv(r[i])
  {
    hide Inv, Init, Step;
    if i == 0 {
      InitInv(r[0]);
    } else {
      RunKeepsInv(r, i - 1);
      assert Next(r[i - 1], r[i - 1 + 1]);
      var t: Tid, c: Choice :| Step(r[i - 1], t, c, r[i]);
      StepKeepsInv(r[i - 1], t, c, r[i]);
    }
  }

  lemma RunStep(r: seq<State>, i: nat) returns (t: Tid, c: Choice)
    requires IsRun(r) && i + 1 < |r|
    ensures Inv(r[i]) && Step(r[i], t, c, r[i + 1])
  {
    hide Inv, Init, Step;
    RunKeepsInv(r, i);
    assert Next(r[i], r[i + 1]);
    t, c :| Step(r[i], t, c, r[i + 1]);
  }

  // ---------------------------------------------------------------- theorems

  // Mutual exclusion as the callers see it: at most one thread has locked more
  // often than it has unlocked, the slot names it, and the recursion count is
  // exactly its surplus.
  lemma MutualExclusion(r: seq<State>, i: nat, t: Tid, u: Tid)
    requires IsRun(r) && i < |r| && t in r[i].th && u in r[i].th
    ensures 0 <= r[i].th[t].balance <= UINT_MAX
    ensures r[i].th[t].balance > 0 ==>
              && r[i].slot.owner == t && r[i].slot.word != 0
              && r[i].slot.recursion == r[i].th[t].balance
    ensures r[i].th[t].balance > 0 && r[i].th[u].balance > 0 ==> t == u
  {
    RunKeepsInv(r, i);
    assert ThreadInv(r[i].slot, t, r[i].th[t]) && ThreadInv(r[i].slot, u, r[i].th[u]);
  }

  // The owner field is read without holding anything. The answer is still
  // exact: a thread starting an operation finds itself there iff it holds the mutex.
  lemma OwnerTestIsExact(r: seq<State>, i: nat, t: Tid)
    requires IsRun(r) && i < |r| && t in r[i].th
    requires var p := r[i].th[t].pc; p.LkOwner? || p.UnOwner? || p.CoOwner? || p.RbOwner? || p.Idle?
    ensures r[i].slot.owner == t <==> r[i].th[t].balance > 0
  {
    RunKeepsInv(r, i);
    assert ThreadInv(r[i].slot, t, r[i].th[t]);
  }

  // No stranded waiter, in every state of every interleaving.
  lemma NoStrandedWaiter(r: seq<State>, i: nat, t: Tid)
    requires IsRun(r) && i < |r| && Sleeping(r[i], t)
    ensures r[i].slot.word == 2 || exists u :: u in r[i].th && Promised(r[i].th[u].pc)
  {
    RunKeepsInv(r, i);
  }

  // No thread can take a step other than being called, signalled or timed out.
  predicate Quiet(s: State) {
    forall t :: t in s.th ==> s.th[t].pc.Idle? || s.th[t].pc.Exited? || s.th[t].pc.LkAsleep?
  }

  // When everything has come to rest, a thread sleeps only because somebody
  // still holds the mutex, and that thread has not given up a robust mutex by exiting.
  lemma SleepersAtRestHaveAHolder(r: seq<State>, i: nat, t: Tid)
    requires IsRun(r) && i < |r| && Quiet(r[i]) && Sleeping(r[i], t)
    ensures r[i].slot.owner in r[i].th
    ensures var h: Tid := r[i].slot.owner;
            r[i].th[h].balance > 0 && (r[i].th[h].pc.Exited? ==> !r[i].slot.robust)
  {
    RunKeepsInv(r, i);
    var h := r[i].slot.holder;
    assert r[i].slot.word == 2;
    assert h in r[i].th;
    assert ThreadInv(r[i].slot, h, r[i].th[h]);
  }

  // ------------------------------------------------------- what the calls answer

  // A mutex that does not look at who locks it again.
  predicate Careless(k: Kind) {
    k.Normal? || k.Default?
  }

  // A lock call of mode m under way, by a thread that held the mutex b times at its start.
  predicate LockAt(x: Slot, t: Tid, me: Thread, m: Mode, b: int) {
    && me.balance == b && (b > 0 ==> x.owner == t)
    && match me.pc
       case LkOwner(mode) => mode == m
       case LkNested => b > 0 && x.kind.Recursive?
       case LkCheck(mode) => mode == m && (b > 0 ==> Careless(x.kind))
       case LkClock => m.Timed? && (b > 0 ==> Careless(x.kind))
       case LkTry => m.Try? && (b > 0 ==> Careless(x.kind))
       case LkFast(timed) => !m.Try? && timed == m.Timed? && (b > 0 ==> Careless(x.kind))
       case LkSwap(timed) => !m.Try? && timed == m.Timed? && (b > 0 ==> Careless(x.kind))
       case LkWait(timed) => !m.Try? && timed == m.Timed? && (b > 0 ==> Careless(x.kind))
       case LkAsleep(timed) => !m.Try? && timed == m.Timed? && (b > 0 ==> Careless(x.kind))
       case _ => b == 0 && InEnter(me.pc)
  }

  // Errors that leave the mutex to others, each on its own path.
  predicate GaveUp(m: Mode, res: Result) {
    (res.EBusy? && m.Try?) || (res.ETimedOut? && m.Timed?) || (res.EInval? && !m.Try?)
  }

  // What the call may answer, and how often the caller then holds the mutex.
  predicate LockAnswer(k: Kind, m: Mode, b: int, res: Result, b': int) {
    if b == 0 then
      if res.Ok? || res.EOwnerDead? then b' == 1 else b' == 0 && (res.ENotRecoverable? || GaveUp(m, res))
    else match k
      case Recursive => if b == UINT_MAX then res.EAgain? && b' == b else res.Ok? && b' == b + 1
      case ErrorCheck => res.EDeadLk? && b' == b
      case _ => GaveUp(m, res) && b' == b
  }

  lemma ActAnswersLock(x: Slot, t: Tid, me: Thread, c: Choice, m: Mode, b: int)
    requires SlotInv(x) && ThreadInv(x, t, me) && Open(me.pc, c) && LockAt(x, t, me, m, b) && 0 <= b
    ensures var e := Act(x, t, me, c);
      if e.me.pc.Idle? then
        LockAnswer(x.kind, m, b, e.me.pc.last, e.me.balance) && (e.me.pc.last.EBusy? ==> x.word != 0)
      else LockAt(e.slot, t, e.me, m, b)
  {
    hide Admit, TakeWord, Enter, Release, Vacate, Quit, SlotInv, ThreadInv;
    if InAdmit(me.pc) {
      AdmitAnswers(x, t, me, c, m, b);
    } else if InTakeWord(me.pc) {
      TakeWordAnswers(x, t, me, c, m, b);
    } else {
      EnterAnswers(x, t, me, m, b);
    }
  }

  lemma AdmitAnswers(x: Slot, t: Tid, me: Thread, c: Choice, m: Mode, b: int)
    requires SlotInv(x) && ThreadInv(x, t, me) && LockAt(x, t, me, m, b) && 0 <= b && InAdmit(me.pc) && Open(me.pc, c)
    ensures var e := Admit(x, t, me, c);
      if e.me.pc.Idle? then LockAnswer(x.kind, m, b, e.me.pc.last, e.me.balance) && !e.me.pc.last.EBusy?
      else LockAt(e.slot, t, e.me, m, b)
  {
  }

  lemma TakeWordAnswers(x: Slot, t: Tid, me: Thread, c: Choice, m: Mode, b: int)
    requires SlotInv(x) && ThreadInv(x, t, me) && LockAt(x, t, me, m, b) && 0 <= b && InTakeWord(me.pc) && Open(me.pc, c)
    ensures var e := TakeWord(x, t, me, c);
      if e.me.pc.Idle? then
        LockAnswer(x.kind, m, b, e.me.pc.last, e.me.balance) && (e.me.pc.last.EBusy? ==> x.word != 0)
      else LockAt(e.slot, t, e.me, m, b)
  {
  }

  lemma EnterAnswers(x: Slot, t: Tid, me: Thread, m: Mode, b: int)
    requires SlotInv(x) && ThreadInv(x, t, me) && LockAt(x, t, me, m, b) && 0 <= b && InEnter(me.pc)
    ensures var e := Enter(x, t, me);
      if e.me.pc.Idle? then LockAnswer(x.kind, m, b, e.me.pc.last, e.me.balance) && !e.me.pc.last.EBusy?
      else LockAt(e.slot, t, e.me, m, b)
  {
  }

  lemma OthersLeaveLock(x: Slot, t: Tid, me: Thread, m: Mode, b: int, u: Tid, x': Slot)
    requires LockAt(x, t, me, m, b) && u != t && Footprint(x, u, x')
    ensures LockAt(x', t, me, m, b) && LockAt(x', t, Roused(me), m, b)
  {
  }

  lemma LockMove(s: State, v: Tid, c: Choice, s': State, t: Tid, m: Mode, b: int)
    requires Inv(s) && Step(s, v, c, s') && t in s.th && LockAt(s.slot, t, s.th[t], m, b) && 0 <= b
    ensures t in s'.th
    ensures if s'.th[t].pc.Idle? then
              && LockAnswer(s.slot.kind, m, b, s'.th[t].pc.last, s'.th[t].balance)
              && (s'.th[t].pc.last.EBusy? ==> s.slot.word != 0)
            else LockAt(s'.slot, t, s'.th[t], m, b)
    ensures s'.slot.kind == s.slot.kind
  {
    hide LockAt, LockAnswer, Act, Woken, ThreadInv, SlotInv;
    assert ThreadInv(s.slot, t, s.th[t]) && ThreadInv(s.slot, v, s.th[v]);
    var e := Act(s.slot, v, s.th[v], c);
    WokenMoves(s.th[v := e.me], e.wake, s'.th);
    ActInv(s.slot, v, s.th[v], c);
    if v == t {
      ActAnswersLock(s.slot, t, s.th[t], c, m, b);
      RousedLock(s'.slot, t, e.me, m, b);
    } else {
      OthersLeaveLock(s.slot, t, s.th[t], m, b, v, s'.slot);
      InCall(s.slot, t, s.th[t], m, b);
    }
  }

  lemma RousedLock(x: Slot, t: Tid, me: Thread, m: Mode, b: int)
    requires me.pc.Idle? || LockAt(x, t, me, m, b)
    ensures if me.pc.Idle? then Roused(me) == me else LockAt(x, t, Roused(me), m, b) && !Roused(me).pc.Idle?
  {
  }

  lemma InCall(x: Slot, t: Tid, me: Thread, m: Mode, b: int)
    requires LockAt(x, t, me, m, b)
    ensures !me.pc.Idle? && !Roused(me).pc.Idle?
  {
  }

  ghost predicate Calling(r: seq<State>, i: nat, j: nat, t: Tid)
    requires i <= j < |r|
  {
    forall k :: i <= k < j ==> t in r[k].th && !r[k].th[t].pc.Idle?
  }

  lemma {:induction false} LockUnderWay(r: seq<State>, i: nat, j: nat, t: Tid)
    requires IsRun(r) && i <= j < |r| && t in r[i].th && r[i].th[t].pc.LkOwner?
    requires Calling(r, i, j, t)
    ensures t in r[j].th && 0 <= r[i].th[t].balance && r[j].slot.kind == r[i].slot.kind
    ensures var m, b := r[i].th[t].pc.mode, r[i].th[t].balance;
            if r[j].th[t].pc.Idle? then
              && i < j && LockAnswer(r[i].slot.kind, m, b, r[j].th[t].pc.last, r[j].th[t].balance)
              && (r[j].th[t].pc.last.EBusy? ==> r[j - 1].slot.word != 0)
            else LockAt(r[j].slot, t, r[j].th[t], m, b)
    decreases j
  {
    hide IsRun, Step, Inv, LockAt, LockAnswer;
    if i == j {
      MutualExclusion(r, i, t, t);
      LockBegins(r[i], t);
    } else {
      LockUnderWay(r, i, j - 1, t);
      assert !r[j - 1].th[t].pc.Idle?;
      var v, c := RunStep(r, j - 1);
      LockMove(r[j - 1], v, c, r[j], t, r[i].th[t].pc.mode, r[i].th[t].balance);
    }
  }

  lemma LockBegins(s: State, t: Tid)
    requires t in s.th && s.th[t].pc.LkOwner? && (s.th[t].balance > 0 ==> s.slot.owner == t)
    ensures LockAt(s.slot, t, s.th[t], s.th[t].pc.mode, s.th[t].balance)
  {
  }

  /**
    What a lock call answers, in every interleaving. A holder gets 0 and one more level
    from a recursive mutex, EAGAIN from one at its last level, EDEADLK from an
    error-checking one, and never 0 from the others. A thread that does not hold it gets
    0 or EOWNERDEAD together with the mutex, or one of the errors of its own path. EBUSY
    is the answer only to a trylock that found the word taken.
   */
  lemma LockAnswers(r: seq<State>, i: nat, j: nat, t: Tid)
    requires IsRun(r) && i <= j < |r| && t in r[i].th && r[i].th[t].pc.LkOwner? && Calling(r, i, j, t)
    requires t in r[j].th && r[j].th[t].pc.Idle?
    ensures var k, m, b := r[i].slot.kind, r[i].th[t].pc.mode, r[i].th[t].balance;
            var res, b' := r[j].th[t].pc.last, r[j].th[t].balance;
      && (b > 0 && k.Recursive? && b < UINT_MAX ==> res.Ok? && b' == b + 1)
      && (b > 0 && k.Recursive? && b == UINT_MAX ==> res.EAgain? && b' == b)
      && (b > 0 && k.ErrorCheck? ==> res.EDeadLk? && b' == b)
      && (b > 0 && Careless(k) ==> !res.Ok? && !res.EOwnerDead? && b' == b)
      && (b == 0 && (res.Ok? || res.EOwnerDead?) ==> b' == 1)
      && (b == 0 && !res.Ok? && !res.EOwnerDead? ==> b' == 0)
      && (res.EDeadLk? <==> b > 0 && k.ErrorCheck?)
      && (res.EAgain? <==> b > 0 && k.Recursive? && b == UINT_MAX)
      && (res.EBusy? ==> m.Try? && i < j && r[j - 1].slot.word != 0)
      && (res.ETimedOut? ==> m.Timed?)
  {
    hide IsRun;
    LockUnderWay(r, i, j, t);
    MutualExclusion(r, i, t, t);
  }

  // A deadline that passes, before the wait or in it, answers ETIMEDOUT, and a clock or
  // futex that fails EINVAL.
  lemma DeadlineAnswers(s: State, t: Tid, c: Choice, s': State)
    requires Step(s, t, c, s') && Locking(s.th[t].pc) && (c.Expire? || c.Fail?)
    ensures t in s'.th && s'.th[t].pc == Idle(if c.Expire? then ETimedOut else EInval)
    ensures s'.slot == s.slot
  {
  }

  // An unlock call under way, by a thread that held the mutex b times at its start.
  predicate UnlockAt(x: Slot, t: Tid, me: Thread, b: int) {
    match me.pc
    case UnOwner => me.balance == b
    case UnCount => me.balance == b
    case UnWake => b == 1 && me.balance == 0
    case _ => b == 1 && me.balance == 0 && (me.pc.UnSwap? || (OwnerInside(me.pc) && !InEnter(me.pc)))
  }

  lemma ActAnswersUnlock(x: Slot, t: Tid, me: Thread, c: Choice, b: int)
    requires SlotInv(x) && ThreadInv(x, t, me) && Open(me.pc, c) && UnlockAt(x, t, me, b)
    ensures var e := Act(x, t, me, c);
      if e.me.pc.Idle? then
        if b == 0 then e.me.pc.last.EPerm? && e.me.balance == 0 else e.me.pc.last.Ok? && e.me.balance == b - 1
      else UnlockAt(e.slot, t, e.me, b)
  {
    hide Admit, TakeWord, Quit;
  }

  lemma UnlockMove(s: State, v: Tid, c: Choice, s': State, t: Tid, b: int)
    requires Inv(s) && Step(s, v, c, s') && t in s.th && UnlockAt(s.slot, t, s.th[t], b)
    ensures t in s'.th
    ensures if s'.th[t].pc.Idle? then
              if b == 0 then s'.th[t].pc.last.EPerm? && s'.th[t].balance == 0
              else s'.th[t].pc.last.Ok? && s'.th[t].balance == b - 1
            else UnlockAt(s'.slot, t, s'.th[t], b)
  {
    hide Act, Woken, ThreadInv, SlotInv;
    assert ThreadInv(s.slot, t, s.th[t]) && ThreadInv(s.slot, v, s.th[v]);
    var e := Act(s.slot, v, s.th[v], c);
    WokenMoves(s.th[v := e.me], e.wake, s'.th);
    if v == t {
      ActAnswersUnlock(s.slot, t, s.th[t], c, b);
    }
  }

  // Unlocking gives EPERM to a thread that does not hold the mutex, and otherwise 0 and
  // one level less.
  lemma {:induction false} UnlockAnswers(r: seq<State>, i: nat, j: nat, t: Tid)
    requires IsRun(r) && i <= j < |r| && t in r[i].th && r[i].th[t].pc.UnOwner? && Calling(r, i, j, t)
    ensures t in r[j].th
    ensures var b := r[i].th[t].balance;
            if r[j].th[t].pc.Idle? then
              if b == 0 then r[j].th[t].pc.last.EPerm? && r[j].th[t].balance == 0
              else r[j].th[t].pc.last.Ok? && r[j].th[t].balance == b - 1
            else UnlockAt(r[j].slot, t, r[j].th[t], b)
    decreases j
  {
    hide IsRun, Step, Inv;
    if i < j {
      UnlockAnswers(r, i, j - 1, t);
      assert !r[j - 1].th[t].pc.Idle?;
      var v, c := RunStep(r, j - 1);
      UnlockMove(r[j - 1], v, c, r[j], t, r[i].th[t].balance);
    }
  }

  // pthread_mutex_consistent answers 0 exactly when the caller holds a robust mutex that
  // is marked inconsistent, and then the mark is gone.
  lemma ConsistentAnswers(r: seq<State>, i: nat, t: Tid)
    requires IsRun(r) && i + 1 < |r| && t in r[i].th && t in r[i + 1].th
    requires (r[i].th[t].pc.CoOwner? || r[i].th[t].pc.CoTest?) && r[i + 1].th[t].pc.Idle?
    ensures var x, res := r[i].slot, r[i + 1].th[t].pc.last;
      && (res.Ok? || res.EInval?)
      && (res.Ok? <==> r[i].th[t].pc.CoTest? && x.robust && r[i].th[t].balance > 0 && x.inconsistent)
      && (res.EInval? ==> !(x.robust && r[i].th[t].balance > 0 && x.inconsistent))
      && (res.Ok? ==> !r[i + 1].slot.inconsistent)
  {
    hide IsRun;
    var v, c := RunStep(r, i);
    ConsistentMove(r[i], v, c, r[i + 1], t);
  }

  lemma ConsistentMove(s: State, v: Tid, c: Choice, s': State, t: Tid)
    requires Inv(s) && Step(s, v, c, s') && t in s.th && t in s'.th
    requires (s.th[t].pc.CoOwner? || s.th[t].pc.CoTest?) && s'.th[t].pc.Idle?
    ensures var x, res := s.slot, s'.th[t].pc.last;
      && (res.Ok? || res.EInval?)
      && (res.Ok? <==> s.th[t].pc.CoTest? && x.robust && s.th[t].balance > 0 && x.inconsistent)
      && (res.EInval? ==> !(x.robust && s.th[t].balance > 0 && x.inconsistent))
      && (res.Ok? ==> !s'.slot.inconsistent)
  {
    hide WakeInv;
    assert ThreadInv(s.slot, t, s.th[t]);
    var e := Act(s.slot, v, s.th[v], c);
    WokenMoves(s.th[v := e.me], e.wake, s'.th);
    hide Woken;
  }

  // --------------------------------------------------------- robust life cycle

  // Every death of an owner is announced exactly once; while one is pending
  // nobody holds the mutex.
  lemma DeathsAreAnnounced(r: seq<State>, i: nat)
    requires IsRun(r) && i < |r|
    ensures r[i].slot.deaths == r[i].slot.notices + (if r[i].slot.ownerDead then 1 else 0)
    ensures r[i].slot.ownerDead ==> forall t :: t in r[i].th ==> r[i].th[t].balance == 0
  {
    RunKeepsInv(r, i);
    forall t | t in r[i].th && r[i].slot.ownerDead ensures r[i].th[t].balance == 0 {
      assert ThreadInv(r[i].slot, t, r[i].th[t]);
    }
  }

  // The holder of a robust mutex that exits does not get past the mutex without leaving
  // the notice: by the time it gives the word away the mark is there.
  lemma DeathLeavesANotice(r: seq<State>, i: nat, t: Tid)
    requires IsRun(r) && i < |r| && t in r[i].th
    ensures r[i].th[t].pc.RbStore? ==> r[i].slot.ownerDead && r[i].slot.holder == t
    ensures r[i].th[t].pc.Exited? && r[i].slot.robust ==> r[i].slot.owner != t && r[i].slot.holder != t
  {
    RunKeepsInv(r, i);
    assert ThreadInv(r[i].slot, t, r[i].th[t]);
  }

  predicate Unheld(s: State) {
    forall t :: t in s.th ==> s.th[t].balance <= 0
  }

  // A notice is pending, or is being handed to the thread entering.
  ghost predicate NoticeDue(s: State) {
    s.slot.ownerDead || exists u :: u in s.th && s.th[u].pc.LkInconsistent?
  }

  lemma ActNotice(x: Slot, t: Tid, me: Thread, c: Choice)
    requires SlotInv(x) && ThreadInv(x, t, me) && Open(me.pc, c) && me.balance <= 0
    ensures var e := Act(x, t, me, c);
      && (e.me.balance > 0 ==> if me.pc.LkInconsistent? then e.me.pc == Idle(EOwnerDead)
                               else x.owner == t && !x.ownerDead)
      && (x.ownerDead ==> e.slot.ownerDead || e.me.pc.LkInconsistent?)
      && (me.pc.LkInconsistent? ==> e.me.balance > 0)
  {
  }

  lemma NoticeStep(s: State, t: Tid, c: Choice, s': State)
    requires Inv(s) && Unheld(s) && NoticeDue(s) && Step(s, t, c, s')
    ensures Unheld(s') ==> NoticeDue(s')
    ensures forall u :: u in s'.th && s'.th[u].balance > 0 ==> s'.th[u].pc == Idle(EOwnerDead)
  {
    var e := Act(s.slot, t, s.th[t], c);
    WokenMoves(s.th[t := e.me], e.wake, s'.th);
    ActNotice(s.slot, t, s.th[t], c);
    hide Woken, Act, SlotInv;
    if s.slot.ownerDead {
      assert t in s'.th;
      assert s'.slot.ownerDead || s'.th[t].pc.LkInconsistent?;
    } else {
      var v :| v in s.th && s.th[v].pc.LkInconsistent?;
      assert ThreadInv(s.slot, v, s.th[v]);
      assert v in s'.th;
      assert v != t ==> s'.th[v] == s.th[v];
      assert v == t ==> s'.th[v].balance == e.me.balance > 0;
    }
  }

  // After an owner dies, whoever next gets the mutex gets EOWNERDEAD with it.
  lemma {:induction false} NextAcquirerIsTold(r: seq<State>, i: nat, k: nat, t: Tid)
    requires IsRun(r) && i < k < |r| && r[i].slot.ownerDead
    requires forall j :: i <= j < k ==> Unheld(r[j])
    requires t in r[k].th && r[k].th[t].balance > 0
    ensures r[k].th[t].pc == Idle(EOwnerDead)
  {
    hide Step, Inv, Init;
    NoticeStaysDue(r, i, k - 1);
    var v, c := RunStep(r, k - 1);
    NoticeStep(r[k - 1], v, c, r[k]);
  }

  lemma {:induction false} NoticeStaysDue(r: seq<State>, i: nat, k: nat)
    requires IsRun(r) && i <= k < |r| && r[i].slot.ownerDead
    requires forall j :: i <= j <= k ==> Unheld(r[j])
    ensures NoticeDue(r[k])
    decreases k
  {
    hide Step, Inv, Init;
    if i < k {
      NoticeStaysDue(r, i, k - 1);
      var v, c := RunStep(r, k - 1);
      NoticeStep(r[k - 1], v, c, r[k]);
    }
  }

  // On the way to a successful return of lock.
  predicate Succeeding(p: Pc) {
    p.LkSetOwner? || p.LkSetCount? || p.LkNotice? || p.LkInconsistent? || p.LkNested?
  }

  predicate Lost(s: State) {
    s.slot.notRecoverable && s.slot.owner == 0
  }

  lemma LostStep(s: State, t: Tid, c: Choice, s': State)
    requires Inv(s) && Step(s, t, c, s')
    ensures s.slot.notRecoverable ==> s'.slot.notRecoverable
    ensures Lost(s) ==> Lost(s')
  {
    assert ThreadInv(s.slot, t, s.th[t]);
  }

  lemma LostAdmitsNobody(s: State, t: Tid)
    requires Inv(s) && Lost(s) && t in s.th
    ensures s.th[t].balance == 0 && !Succeeding(s.th[t].pc)
  {
    hide WakeInv, SlotInv;
    assert ThreadInv(s.slot, t, s.th[t]);
  }

  // Once a robust mutex has been unlocked inconsistent it is lost for good:
  // nobody owns it again and no lock call, blocked or later, is on its way to success.
  lemma {:induction false} LostForever(r: seq<State>, i: nat, j: nat)
    requires IsRun(r) && i <= j < |r| && Lost(r[i])
    ensures Lost(r[j])
    ensures forall t :: t in r[j].th ==> r[j].th[t].balance == 0 && !Succeeding(r[j].th[t].pc)
    decreases j
  {
    hide IsRun, Step, Inv, Lost, Succeeding;
    if i < j {
      LostForever(r, i, j - 1);
      var v, c := RunStep(r, j - 1);
      LostStep(r[j - 1], v, c, r[j]);
    }
    RunKeepsInv(r, j);
    forall t | t in r[j].th ensures r[j].th[t].balance == 0 && !Succeeding(r[j].th[t].pc) {
      LostAdmitsNobody(r[j], t);
    }
  }

  predicate Locking(p: Pc) {
    InAdmit(p) || InTakeWord(p) || InEnter(p)
  }

  lemma ActWhenLost(x: Slot, t: Tid, me: Thread, c: Choice)
    requires x.notRecoverable && x.owner == 0 && Open(me.pc, c) && Locking(me.pc) && !Succeeding(me.pc)
    ensures var p := Act(x, t, me, c).me.pc;
      && (me.pc.LkOwner? ==> p.LkCheck?)
      && (me.pc.LkCheck? ==> p == Idle(ENotRecoverable))
      && (p.Idle? ==> || p.last.ENotRecoverable?
                      || (p.last.EBusy? && me.pc.LkTry?)
                      || (p.last.ETimedOut? && (me.pc.LkClock? || me.pc == LkAsleep(true)))
                      || (p.last.EInval? && (me.pc.LkClock? || me.pc.LkWait?)))
  {
  }

  lemma StepKeepsKeys(s: State, t: Tid, c: Choice, s': State)
    requires Step(s, t, c, s')
    ensures s'.th.Keys == s.th.Keys
  {
    var e := Act(s.slot, t, s.th[t], c);
    WokenMoves(s.th[t := e.me], e.wake, s'.th);
    hide Act, Woken;
  }

  // A lock call that began once the mutex was lost can only give ENOTRECOVERABLE.
  lemma {:induction false} LaterLockIsRefused(r: seq<State>, i: nat, k: nat, t: Tid)
    requires IsRun(r) && i <= k < |r| && Lost(r[i]) && t in r[i].th && r[i].th[t].pc.LkOwner?
    requires forall m :: i <= m < k ==> t in r[m].th && Locking(r[m].th[t].pc)
    ensures t in r[k].th
    ensures r[k].th[t].pc.LkOwner? || r[k].th[t].pc.LkCheck? || r[k].th[t].pc == Idle(ENotRecoverable)
    decreases k
  {
    hide IsRun, Step, Inv, Act;
    if i < k {
      LaterLockIsRefused(r, i, k - 1, t);
      LostForever(r, i, k - 1);
      var v, c := RunStep(r, k - 1);
      StepKeepsKeys(r[k - 1], v, c, r[k]);
      assert Locking(r[k - 1].th[t].pc);
      LostMove(r[k - 1], v, c, r[k], t);
    }
  }

  lemma LostMove(s: State, v: Tid, c: Choice, s': State, t: Tid)
    requires Inv(s) && Lost(s) && Step(s, v, c, s') && t in s.th && t in s'.th && Locking(s.th[t].pc)
    ensures var p, p' := s.th[t].pc, s'.th[t].pc;
      && (p.LkOwner? ==> p'.LkOwner? || p'.LkCheck?)
      && (p.LkCheck? ==> p'.LkCheck? || p' == Idle(ENotRecoverable))
      && (p'.Idle? ==> || p'.last.ENotRecoverable?
                       || (p'.last.EBusy? && p.LkTry?)
                       || (p'.last.ETimedOut? && (p.LkClock? || p == LkAsleep(true)))
                       || (p'.last.EInval? && (p.LkClock? || p.LkWait?)))
  {
    LostAdmitsNobody(s, t);
    var e := Act(s.slot, v, s.th[v], c);
    WokenMoves(s.th[v := e.me], e.wake, s'.th);
    if v == t {
      ActWhenLost(s.slot, t, s.th[t], c);
    }
    hide Act, Woken, Inv;
  }

  // A lock call under way when the mutex was lost backs out with ENOTRECOVERABLE,
  // unless its own trylock, deadline or futex error ends it first.
  lemma PendingLockFails(r: seq<State>, i: nat, k: nat, t: Tid)
    requires IsRun(r) && i <= k && k + 1 < |r| && Lost(r[i]) && t in r[k].th && Locking(r[k].th[t].pc)
    requires t in r[k + 1].th && r[k + 1].th[t].pc.Idle?
    ensures var p, last := r[k].th[t].pc, r[k + 1].th[t].pc.last;
      || last.ENotRecoverable?
      || (last.EBusy? && p.LkTry?)
      || (last.ETimedOut? && (p.LkClock? || p == LkAsleep(true)))
      || (last.EInval? && (p.LkClock? || p.LkWait?))
  {
    hide IsRun, Step, Inv, Act;
    LostForever(r, i, k);
    var v, c := RunStep(r, k);
    LostMove(r[k], v, c, r[k + 1], t);
  }

  // ... and the chain of back-outs leaves nobody asleep.
  lemma LostLeavesNoSleeper(r: seq<State>, i: nat)
    requires IsRun(r) && i < |r| && Lost(r[i]) && Quiet(r[i])
    ensures NoSleeper(r[i].th)
  {
    forall t | t in r[i].th ensures !r[i].th[t].pc.LkAsleep? {
      if Sleeping(r[i], t) {
        SleepersAtRestHaveAHolder(r, i, t);
      }
    }
  }

  // Thread t is unlocking a mutex it never repaired, or has finished doing so.
  predicate Ruining(s: State, t: Tid) {
    || s.slot.notRecoverable
    || (t in s.th && s.slot.owner == t && s.th[t].pc.UnRobust? && s.slot.inconsistent)
    || (t in s.th && s.slot.owner == t && s.th[t].pc.UnMark?)
  }

  // ... or it still has the mutex, and it is marked.
  predicate Condemned(s: State, t: Tid) {
    Ruining(s, t) || (t in s.th && s.slot.owner == t && s.slot.inconsistent)
  }

  // Past the owner test of pthread_mutex_consistent, or of the robust release at exit.
  predicate RepairsOrDies(p: Pc) {
    p.CoTest? || p.RbClear?
  }

  lemma ActRuins(x: Slot, t: Tid, me: Thread, c: Choice)
    requires SlotInv(x) && ThreadInv(x, t, me) && Open(me.pc, c)
    ensures var e := Act(x, t, me, c);
      && (x.notRecoverable ==> e.slot.notRecoverable)
      && (me.pc.UnMark? ==> e.slot.notRecoverable)
      && (me.pc.UnRobust? && x.inconsistent ==> e.me.pc.UnMark? && e.slot.owner == x.owner)
      && (x.owner == t && x.inconsistent && !RepairsOrDies(me.pc) && !me.pc.UnRobust? ==>
            e.slot.owner == t && e.slot.inconsistent)
  {
  }

  lemma OthersLeaveInconsistent(x: Slot, t: Tid, x': Slot)
    requires SlotInv(x) && x.owner != 0 && x.owner != t && x.inconsistent && Footprint(x, t, x')
    ensures x'.owner == x.owner && x'.inconsistent
  {
  }

  lemma CondemnedStep(s: State, t: Tid, u: Tid, c: Choice, s': State)
    requires Inv(s) && Condemned(s, t) && Step(s, u, c, s')
    requires t in s.th ==> !RepairsOrDies(s.th[t].pc)
    ensures Condemned(s', t)
  {
    var e := Act(s.slot, u, s.th[u], c);
    WokenMoves(s.th[u := e.me], e.wake, s'.th);
    ActRuins(s.slot, u, s.th[u], c);
    ActInv(s.slot, u, s.th[u], c);
    if s.slot.owner == t && s.slot.inconsistent && u != t {
      OthersLeaveInconsistent(s.slot, u, s'.slot);
    }
    hide Woken, Act, ThreadInv;
  }

  // A thread whose lock has just given EOWNERDEAD has the mutex, marked inconsistent.
  ghost predicate ToldInv(s: State) {
    forall t :: t in s.th && s.th[t].pc == Idle(EOwnerDead) ==> s.slot.owner == t && s.slot.inconsistent
  }

  lemma ActTold(x: Slot, t: Tid, me: Thread, c: Choice)
    requires SlotInv(x) && ThreadInv(x, t, me) && Open(me.pc, c)
    ensures var e := Act(x, t, me, c);
            e.me.pc == Idle(EOwnerDead) ==> e.slot.owner == t && e.slot.inconsistent
  {
  }

  lemma ToldStep(s: State, t: Tid, c: Choice, s': State)
    requires Inv(s) && ToldInv(s) && Step(s, t, c, s')
    ensures ToldInv(s')
  {
    var e := Act(s.slot, t, s.th[t], c);
    WokenMoves(s.th[t := e.me], e.wake, s'.th);
    ActTold(s.slot, t, s.th[t], c);
    ActInv(s.slot, t, s.th[t], c);
    hide Woken, Act, ThreadInv, WakeInv;
    forall u | u in s'.th && s'.th[u].pc == Idle(EOwnerDead)
      ensures s'.slot.owner == u && s'.slot.inconsistent
    {
      if u != t {
        OthersLeaveInconsistent(s.slot, t, s'.slot);
      }
    }
  }

  lemma InitTold(s: State)
    requires Init(s)
    ensures ToldInv(s)
  {
  }

  // EOWNERDEAD means what it says, for as long as its receiver has done nothing else.
  lemma {:induction false} ToldIsMarked(r: seq<State>, i: nat)
    requires IsRun(r) && i < |r|
    ensures ToldInv(r[i])
  {
    hide Step, Inv, ToldInv, Init, Next;
    if i == 0 {
      InitTold(r[0]);
    } else {
      ToldIsMarked(r, i - 1);
      var v, c := RunStep(r, i - 1);
      ToldStep(r[i - 1], v, c, r[i]);
    }
  }

  // A lock returned EOWNERDEAD. Until its receiver passes the owner test of
  // pthread_mutex_consistent, or exits, the mutex is its own and marked, or it is
  // being given up unrepaired: once the owner field is cleared it is lost.
  lemma {:induction false} UnrepairedUnlockLosesTheMutex(r: seq<State>, i: nat, j: nat, t: Tid)
    requires IsRun(r) && i <= j < |r|
    requires t in r[i].th && r[i].th[t].pc == Idle(EOwnerDead)
    requires forall k :: i <= k < j && t in r[k].th ==> !RepairsOrDies(r[k].th[t].pc)
    ensures Condemned(r[j], t)
    ensures r[j].slot.owner == 0 ==> Lost(r[j])
    decreases j
  {
    hide IsRun, Step, Inv, ThreadInv;
    if i < j {
      UnrepairedUnlockLosesTheMutex(r, i, j - 1, t);
      var v, c := RunStep(r, j - 1);
      CondemnedStep(r[j - 1], t, v, c, r[j]);
    } else {
      ToldIsMarked(r, i);
    }
  }
}
