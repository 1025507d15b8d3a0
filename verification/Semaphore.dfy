/**
  Unnamed semaphores: sem_wait, sem_trywait, sem_timedwait and sem_post, for an
  unbounded set of threads.
 */
module Semaphore {

  // One step is one atomic operation; the history
  // variables count the successful posts and waits.

  type Tid = nat

  const WORD: nat := 0x1_0000_0000
  const SEM_VALUE_MAX: nat := 0x7FFF_FFFF

  datatype Mode = Block | Try | Timed

  datatype Result = Ok | EAgain | ETimedOut | EOverflow | Error

  // `tested` is history: the sequence when the semaphore was found at zero. `snap` is
  // the sequence loaded.
  datatype Pc =
    | Idle(last: Result)
    // sem_wait_common
    | SLoad(mode: Mode)
    | SCas(mode: Mode, seen: nat)
    | SSeq(mode: Mode, tested: nat)
    | SJoin(mode: Mode, snap: nat)
    | SWait(mode: Mode, snap: nat)
    | SAsleep(mode: Mode, snap: nat)
    | SLeave(mode: Mode, res: Result)
    // sem_post
    | PLoad
    | PCas(seen: nat)
    | PSeq
    | PWake

  datatype Slot = Slot(value: nat, sequence: nat, waiters: nat, initial: nat, posts: nat, waits: nat)

  datatype State = State(slot: Slot, th: map<Tid, Pc>)

  datatype Op = Wait(mode: Mode) | Post

  datatype Choice = Call(op: Op) | Go | Interrupt | Expire | Fail

  // The slot and the counter after a step; wakeOne if it woke up to one sleeper.
  datatype Effect = Effect(slot: Slot, pc: Pc, wakeOne: bool)

  predicate Open(p: Pc, c: Choice) {
    match p
    case Idle(_) => c.Call?
    case SWait(_, _) => c.Go? || c.Fail?
    case SAsleep(m, _) => c.Interrupt? || (m.Timed? && c.Expire?)
    case _ => c.Go?
  }

  function To(x: Slot, p: Pc): Effect {
    Effect(x, p, false)
  }

  function Inc(w: nat): nat {
    if w == WORD - 1 then 0 else w + 1
  }

  function Dec(w: nat): nat {
    if w == 0 then WORD - 1 else w - 1
  }

  predicate Same(x: Slot, a: nat) {
    x.sequence % WORD == a % WORD
  }

  // With the value last seen: try to take one, or give up, or wait.
  function Tested(x: Slot, m: Mode, seen: nat): Pc {
    if seen > 0 then SCas(m, seen) else if m.Try? then Idle(EAgain) else SSeq(m, x.sequence)
  }

  function Act(x: Slot, p: Pc, c: Choice): Effect
    requires Open(p, c)
  {
    match p
    case Idle(_) => To(x, if c.op.Wait? then SLoad(c.op.mode) else PLoad)
    case SLoad(m) => To(x, Tested(x, m, x.value))
    case SCas(m, seen) =>
      if 0 < seen == x.value then To(x.(value := x.value - 1, waits := x.waits + 1), Idle(Ok))
      else To(x, Tested(x, m, x.value))
    case SSeq(m, _) => To(x, SJoin(m, x.sequence))
    case SJoin(m, snap) => To(x.(waiters := Inc(x.waiters)), SWait(m, snap))
    case SWait(m, snap) =>
      if c.Fail? then To(x, SLeave(m, Error))
      else if Same(x, snap) then To(x, SAsleep(m, snap))
      else To(x, SLeave(m, Ok))
    case SAsleep(m, _) => To(x, SLeave(m, if c.Expire? then ETimedOut else Ok))
    case SLeave(m, res) =>
      To(x.(waiters := Dec(x.waiters)), if res.Ok? then SLoad(m) else Idle(res))
    case PLoad => To(x, if x.value == SEM_VALUE_MAX then Idle(EOverflow) else PCas(x.value))
    case PCas(seen) =>
      if x.value == seen then To(x.(value := x.value + 1, posts := x.posts + 1), PSeq)
      else To(x, if x.value == SEM_VALUE_MAX then Idle(EOverflow) else PCas(x.value))
    case PSeq => To(x.(sequence := x.sequence + 1), PWake)
    case PWake => Effect(x, Idle(Ok), true)
  }

  predicate NoSleeper(th: map<Tid, Pc>) {
    forall t :: t in th ==> !th[t].SAsleep?
  }

  function Rouse(th: map<Tid, Pc>, u: Tid): map<Tid, Pc>
    requires u in th && th[u].SAsleep?
  {
    th[u := SLeave(th[u].mode, Ok)]
  }

  // FUTEX_WAKE(1): one sleeper of the kernel's choosing, if there is any.
  predicate Woken(th: map<Tid, Pc>, wakeOne: bool, th': map<Tid, Pc>) {
    if wakeOne && !NoSleeper(th) then exists u :: u in th && th[u].SAsleep? && th' == Rouse(th, u)
    else th' == th
  }

  predicate Step(s: State, t: Tid, c: Choice, s': State) {
    && t in s.th && Open(s.th[t], c)
    && var e := Act(s.slot, s.th[t], c);
    && s'.slot == e.slot
    && Woken(s.th[t := e.pc], e.wakeOne, s'.th)
  }

  ghost predicate Next(s: State, s': State) {
    exists t: Tid, c: Choice :: Step(s, t, c, s')
  }

  predicate Init(s: State) {
    && s.slot.value <= SEM_VALUE_MAX
    && s.slot == Slot(s.slot.value, 0, 0, s.slot.value, 0, 0)
    && |s.th| < WORD
    && forall t :: t in s.th ==> s.th[t] == Idle(Ok)
  }

  ghost predicate IsRun(r: seq<State>) {
    && 0 < |r|
    && Init(r[0])
    && forall i :: 0 <= i < |r| - 1 ==> Next(r[i], r[i + 1])
  }

  // ---------------------------------------------------------------- invariant

  predicate Counted(p: Pc) {
    p.SWait? || p.SAsleep? || p.SLeave?
  }

  // Posters that have raised the value but not the sequence.
  predicate Raising(p: Pc) {
    p.PSeq?
  }

  // Posters that have yet to make their wake call.
  predicate Waking(p: Pc) {
    p.PWake?
  }

  // Waiters that will look at the value again.
  predicate Taking(p: Pc) {
    p.SLoad? || p.SCas? || (p.SLeave? && p.res.Ok?)
  }

  // Posters that still owe a wake, and waiters that will look at the value again.
  predicate Attending(p: Pc) {
    Raising(p) || Waking(p) || Taking(p)
  }

  // Sleepers with no deadline of their own.
  predicate Bound(p: Pc) {
    p.SAsleep? && !p.mode.Timed?
  }

  function Those(th: map<Tid, Pc>, f: Pc -> bool): set<Tid> {
    set t | t in th && f(th[t])
  }

  predicate SlotInv(x: Slot) {
    && x.value == x.initial + x.posts - x.waits
    && x.value <= SEM_VALUE_MAX
  }

  predicate ThreadInv(p: Pc) {
    && (p.PCas? ==> p.seen < SEM_VALUE_MAX)
    && (p.SCas? ==> 0 < p.seen)
    && (p.SSeq? || p.SJoin? || p.SWait? || p.SAsleep? || p.SLeave? ==> !p.mode.Try?)
    && (p.SLeave? ==> p.res.Ok? || p.res.Error? || (p.res.ETimedOut? && p.mode.Timed?))
  }

  // ------------------------------------------------------------ preservation

  // One step of a thread, against the three head counts.
  lemma ActCounts(x: Slot, p: Pc, c: Choice)
    requires Open(p, c)
    ensures var e := Act(x, p, c);
      && (Counted(e.pc) && !Counted(p) ==> e.slot.waiters == Inc(x.waiters))
      && (Counted(p) && !Counted(e.pc) ==> e.slot.waiters == Dec(x.waiters))
      && (Counted(p) == Counted(e.pc) ==> e.slot.waiters == x.waiters)
      && (e.slot.value > x.value ==> e.slot.value == x.value + 1 && Raising(e.pc) && Attending(e.pc) && !Attending(p))
      && (Raising(p) ==> e.slot.sequence == x.sequence + 1)
      && (!Raising(p) ==> e.slot.sequence == x.sequence)
      && (Raising(e.pc) ==> e.slot.value == x.value + 1)
      && (Attending(p) && !Attending(e.pc) ==> e.slot.value < x.value || e.slot.value == 0 || e.wakeOne)
  {
    hide Same;
  }

  // How a thread comes to wait.
  lemma ActNap(x: Slot, p: Pc, c: Choice)
    requires Open(p, c)
    ensures var e := Act(x, p, c);
      && (e.pc.SSeq? ==> e.slot == x && e.pc.tested == x.sequence && x.value == 0)
      && (e.pc.SJoin? ==> e.slot == x && p.SSeq? && e.pc.snap == x.sequence)
      && (e.pc.SWait? ==> e.slot == x.(waiters := Inc(x.waiters)) && p.SJoin? && e.pc.snap == p.snap)
      && (e.pc.SAsleep? ==> e.slot == x && p.SWait? && e.pc.snap == p.snap && Same(x, p.snap))
      && (e.wakeOne <==> p.PWake?) && (e.wakeOne ==> e.slot == x && e.pc.Idle?)
  {
    hide Same, Inc, Dec;
  }

  lemma SizeWithout(a: set<Tid>, t: Tid)
    ensures |a| == |a - {t}| + if t in a then 1 else 0
  {
    if t !in a {
      assert a - {t} == a;
    }
  }

  // Changing one thread's counter changes a head count by at most one.
  lemma CountOne(th: map<Tid, Pc>, t: Tid, q: Pc, f: Pc -> bool)
    requires t in th
    ensures |Those(th[t := q], f)| == |Those(th, f)| - (if f(th[t]) then 1 else 0) + (if f(q) then 1 else 0)
  {
    assert Those(th, f) - {t} == Those(th[t := q], f) - {t};
    SizeWithout(Those(th, f), t);
    SizeWithout(Those(th[t := q], f), t);
  }

  // The head counts after a whole step.
  lemma StepCounts(s: State, t: Tid, c: Choice, s': State)
    requires Step(s, t, c, s')
    ensures var p, e := s.th[t], Act(s.slot, s.th[t], c);
      && |Those(s'.th, Counted)| == |Those(s.th, Counted)| - (if Counted(p) then 1 else 0) + (if Counted(e.pc) then 1 else 0)
      && |Those(s'.th, Raising)| == |Those(s.th, Raising)| - (if Raising(p) then 1 else 0) + (if Raising(e.pc) then 1 else 0)
      && |Those(s'.th, Attending)| == |Those(s.th, Attending)| +
           (if s'.th != s.th[t := e.pc] then 0 else (if Attending(e.pc) then 1 else 0) - (if Attending(p) then 1 else 0))
  {
    hide Act, Those, Counted, Raising, Attending;
    var p, e := s.th[t], Act(s.slot, s.th[t], c);
    var mid := s.th[t := e.pc];
    CountOne(s.th, t, e.pc, Counted);
    CountOne(s.th, t, e.pc, Raising);
    CountOne(s.th, t, e.pc, Attending);
    if s'.th != mid {
      var u :| u in mid && mid[u].SAsleep? && s'.th == Rouse(mid, u);
      var q := SLeave(mid[u].mode, Ok);
      CountOne(mid, u, q, Counted);
      CountOne(mid, u, q, Raising);
      CountOne(mid, u, q, Attending);
      ActNap(s.slot, p, c);
      RousedCounts(mid[u], p, e.pc);
    }
  }

  lemma RousedCounts(sleeper: Pc, p: Pc, q: Pc)
    requires sleeper.SAsleep? && p.PWake? && q.Idle?
    ensures Counted(sleeper) && Counted(SLeave(sleeper.mode, Ok))
    ensures !Raising(sleeper) && !Raising(SLeave(sleeper.mode, Ok))
    ensures !Attending(sleeper) && Attending(SLeave(sleeper.mode, Ok))
    ensures Attending(p) && !Attending(q)
  {
  }

  // A wake that finds nobody leaves nobody asleep.
  lemma WakeFindsNobody(s: State, t: Tid, c: Choice, s': State)
    requires Step(s, t, c, s') && Act(s.slot, s.th[t], c).wakeOne && s'.th == s.th[t := Act(s.slot, s.th[t], c).pc]
    ensures NoSleeper(s'.th)
  {
    hide Act;
  }

  lemma SameIsEqual(x: Slot, snap: nat)
    requires snap <= x.sequence < snap + WORD
    ensures Same(x, snap) <==> x.sequence == snap
  {
  }

  // ---------------------------------------------------------------- theorems

  lemma StepConserves(s: State, t: Tid, c: Choice, s': State)
    requires SlotInv(s.slot) && Step(s, t, c, s') && (forall u :: u in s.th ==> ThreadInv(s.th[u]))
    ensures SlotInv(s'.slot) && s'.slot.initial == s.slot.initial
    ensures forall u :: u in s'.th ==> ThreadInv(s'.th[u])
  {
    hide Same;
  }

  // Conservation over every run: the value is what it started with, plus the
  // posts, minus the successful waits, and never leaves 0 .. SEM_VALUE_MAX.
  lemma {:induction false} ValueIsConserved(r: seq<State>, i: nat)
    requires IsRun(r) && i < |r|
    ensures r[i].slot.value == r[0].slot.value + r[i].slot.posts - r[i].slot.waits <= SEM_VALUE_MAX
    ensures SlotInv(r[i].slot) && r[i].slot.initial == r[0].slot.value
    ensures forall u :: u in r[i].th ==> ThreadInv(r[i].th[u])
  {
    if i > 0 {
      hide Step;
      ValueIsConserved(r, i - 1);
      assert Next(r[i - 1], r[i - 1 + 1]);
      var t: Tid, c: Choice :| Step(r[i - 1], t, c, r[i]);
      StepConserves(r[i - 1], t, c, r[i]);
    }
  }

  // What the calls answer: a wait that gets 0 has taken a unit, EAGAIN goes to a trywait
  // that found none, ETIMEDOUT to a timed one, and EOVERFLOW to a post at SEM_VALUE_MAX.
  lemma CallsAnswer(r: seq<State>, i: nat, t: Tid)
    requires IsRun(r) && i + 1 < |r| && t in r[i].th && !r[i].th[t].Idle?
    requires t in r[i + 1].th && r[i + 1].th[t].Idle?
    ensures var p, res, x, x' := r[i].th[t], r[i + 1].th[t].last, r[i].slot, r[i + 1].slot;
      if p.PLoad? || p.PCas? || p.PSeq? || p.PWake? then
        (res.Ok? && p.PWake?) || (res.EOverflow? && x.value == SEM_VALUE_MAX && x'.value == x.value)
      else match res
        case Ok => x'.value == x.value - 1 && x'.waits == x.waits + 1
        case EAgain => p.mode.Try? && x.value == 0 && x'.value == x.value
        case ETimedOut => p.mode.Timed? && x'.value == x.value
        case Error => x'.value == x.value
        case EOverflow => false
  {
    hide IsRun, Step;
    ValueIsConserved(r, i);
    var v, c := RunStep(r, i);
    AnswerStep(r[i], v, c, r[i + 1], t);
  }

  lemma AnswerStep(s: State, v: Tid, c: Choice, s': State, t: Tid)
    requires Step(s, v, c, s') && t in s.th && !s.th[t].Idle? && t in s'.th && s'.th[t].Idle? && ThreadInv(s.th[t])
    ensures var p, res, x, x' := s.th[t], s'.th[t].last, s.slot, s'.slot;
      if p.PLoad? || p.PCas? || p.PSeq? || p.PWake? then
        (res.Ok? && p.PWake?) || (res.EOverflow? && x.value == SEM_VALUE_MAX && x'.value == x.value)
      else match res
        case Ok => x'.value == x.value - 1 && x'.waits == x.waits + 1
        case EAgain => p.mode.Try? && x.value == 0 && x'.value == x.value
        case ETimedOut => p.mode.Timed? && x'.value == x.value
        case Error => x'.value == x.value
        case EOverflow => false
  {
    hide Same, Inc, Dec;
  }

  // A deadline that passes in the wait answers ETIMEDOUT, and a futex that fails its error.
  lemma DeadlineAnswers(s: State, t: Tid, c: Choice, s': State)
    requires Step(s, t, c, s') && !s.th[t].Idle? && (c.Expire? || c.Fail?)
    ensures t in s'.th && s'.th[t] == SLeave(s.th[t].mode, if c.Expire? then ETimedOut else Error)
  {
    hide Same;
  }

  // t's step from k to k + 1 raised the value by one.
  ghost predicate Raised(r: seq<State>, k: nat, t: Tid)
    requires k + 1 < |r|
  {
    && t in r[k].th && r[k].th[t].PCas? && t in r[k + 1].th && r[k + 1].th[t].PSeq?
    && r[k + 1].slot.value == r[k].slot.value + 1
  }

  lemma PostMoves(s: State, v: Tid, c: Choice, s': State, t: Tid)
    requires Step(s, v, c, s') && t in s.th && (s.th[t].PLoad? || s.th[t].PCas? || s.th[t].PSeq? || s.th[t].PWake?)
    ensures t in s'.th
    ensures var p, p' := s.th[t], s'.th[t];
      && (p.PLoad? || p.PCas? ==> p'.PLoad? || p'.PCas? || p' == Idle(EOverflow) || p'.PSeq?)
      && ((p.PLoad? || p.PCas?) && p'.PSeq? ==> p.PCas? && s'.slot.value == s.slot.value + 1)
      && (p.PSeq? ==> p'.PSeq? || p'.PWake?)
      && (p.PWake? ==> p'.PWake? || p' == Idle(Ok))
  {
    hide Same, Inc, Dec;
  }

  // A post that gives 0 has raised the value by one; EOVERFLOW is the only other answer.
  lemma {:induction false} PostAnswers(r: seq<State>, i: nat, j: nat, t: Tid)
    requires IsRun(r) && i <= j < |r| && t in r[i].th && r[i].th[t].PLoad?
    requires forall k :: i <= k < j ==> t in r[k].th && !r[k].th[t].Idle?
    ensures t in r[j].th
    ensures var p := r[j].th[t];
      && (p.PLoad? || p.PCas? || p.PSeq? || p.PWake? || p == Idle(Ok) || p == Idle(EOverflow))
      && (p.PSeq? || p.PWake? || p == Idle(Ok) ==> exists k :: i <= k < j && Raised(r, k, t))
    decreases j
  {
    hide IsRun, Step;
    if i < j {
      PostAnswers(r, i, j - 1, t);
      assert !r[j - 1].th[t].Idle?;
      var v, c := RunStep(r, j - 1);
      PostMoves(r[j - 1], v, c, r[j], t);
      if r[j].th[t].PSeq? && !r[j - 1].th[t].PSeq? {
        assert Raised(r, j - 1, t);
      }
    }
  }

  ghost predicate WaitersInv(s: State) {
    |s.th| < WORD && s.slot.waiters == |Those(s.th, Counted)|
  }

  lemma CountedFit(th: map<Tid, Pc>, t: Tid)
    requires t in th
    ensures |Those(th, Counted)| <= |th|
    ensures if Counted(th[t]) then 0 < |Those(th, Counted)| else |Those(th, Counted)| < |th|
  {
    var a := Those(th, Counted);
    assert |th.Keys - a| == |th.Keys| - |a| && |th.Keys| == |th|;
    if Counted(th[t]) {
      assert t in a;
    } else {
      assert t in th.Keys - a;
    }
  }

  lemma WaitersStep(s: State, t: Tid, c: Choice, s': State)
    requires WaitersInv(s) && Step(s, t, c, s')
    ensures WaitersInv(s')
  {
    hide Act, Those, Counted, Raising, Attending;
    ActCounts(s.slot, s.th[t], c);
    StepCounts(s, t, c, s');
    CountedFit(s.th, t);
    assert s'.th.Keys == s.th.Keys && |s'.th.Keys| == |s'.th| && |s.th.Keys| == |s.th|;
  }

  lemma InitWaiters(s: State)
    requires Init(s)
    ensures WaitersInv(s)
  {
    assert Those(s.th, Counted) == {};
  }

  // sem_destroy's busy test reads exactly the threads between their two updates of waiters.
  lemma {:induction false} WaitersIsExact(r: seq<State>, i: nat)
    requires IsRun(r) && i < |r|
    ensures |r[i].th| < WORD && r[i].slot.waiters == |Those(r[i].th, Counted)|
  {
    hide Step, Init, Those, Counted;
    if i == 0 {
      InitWaiters(r[0]);
    } else {
      WaitersIsExact(r, i - 1);
      assert Next(r[i - 1], r[i - 1 + 1]);
      var t: Tid, c: Choice :| Step(r[i - 1], t, c, r[i]);
      WaitersStep(r[i - 1], t, c, r[i]);
    }
  }

  // ------------------------------------------------------ what the load decides

  function Count(th: map<Tid, Pc>, f: Pc -> bool): nat {
    |Those(th, f)|
  }

  function Min(a: nat, b: nat): nat {
    if a < b then a else b
  }

  // Every unit has a poster that has yet to advance the sequence, or a waiter on its way
  // to the value, or a wake to come that will find a sleeper with no deadline.
  ghost predicate Covered(s: State) {
    s.slot.value <= Count(s.th, Raising) + Count(s.th, Taking) + Min(Count(s.th, Waking), Count(s.th, Bound))
  }

  // Every unit has a thread that will take it or announce it.
  ghost predicate Attended(s: State) {
    s.slot.value <= Count(s.th, Attending)
  }

  lemma AttendingIs(th: map<Tid, Pc>)
    ensures Count(th, Attending) == Count(th, Raising) + Count(th, Waking) + Count(th, Taking)
  {
    var a, b, c := Those(th, Raising), Those(th, Waking), Those(th, Taking);
    assert Those(th, Attending) == a + b + c;
    assert a !! b && (a + b) !! c;
  }

  // A step in terms of the four counts, short of a wake.
  lemma ActCovered(x: Slot, p: Pc, c: Choice)
    requires Open(p, c) && !Raising(p) && !Waking(p)
    ensures var e := Act(x, p, c);
      && !Waking(e.pc) && e.slot.sequence == x.sequence
      && (Raising(e.pc) ==> e.slot.value == x.value + 1 && !Taking(p))
      && (!Raising(e.pc) ==> e.slot.value <= x.value)
      && (Taking(p) && !Taking(e.pc) ==> !Raising(e.pc) && (e.slot.value == x.value - 1 || e.slot.value == 0))
      && (Bound(p) && !Bound(e.pc) ==> Taking(e.pc))
  {
    hide Same, Inc, Dec;
  }

  function One(b: bool): nat {
    if b then 1 else 0
  }

  lemma CountStep(th: map<Tid, Pc>, t: Tid, q: Pc, f: Pc -> bool)
    requires t in th
    ensures Count(th[t := q], f) == Count(th, f) - One(f(th[t])) + One(f(q))
  {
    CountOne(th, t, q, f);
  }

  // The four counts, when t goes on to q.
  lemma CountSteps(th: map<Tid, Pc>, t: Tid, q: Pc)
    requires t in th
    ensures var th' := th[t := q];
      && Count(th', Raising) == Count(th, Raising) - One(Raising(th[t])) + One(Raising(q))
      && Count(th', Waking) == Count(th, Waking) - One(Waking(th[t])) + One(Waking(q))
      && Count(th', Taking) == Count(th, Taking) - One(Taking(th[t])) + One(Taking(q))
      && Count(th', Bound) == Count(th, Bound) - One(Bound(th[t])) + One(Bound(q))
  {
    hide *;
    CountStep(th, t, q, Raising);
    CountStep(th, t, q, Waking);
    CountStep(th, t, q, Taking);
    CountStep(th, t, q, Bound);
  }

  // As long as the sequence stands still, a covered value stays covered.
  lemma CoveredStep(s: State, t: Tid, c: Choice, s': State)
    requires Step(s, t, c, s') && Covered(s) && s'.slot.sequence == s.slot.sequence
    ensures Covered(s')
  {
    hide Act, Count;
    var p, e := s.th[t], Act(s.slot, s.th[t], c);
    var mid := s.th[t := e.pc];
    ActCounts(s.slot, p, c);
    ActNap(s.slot, p, c);
    CountSteps(s.th, t, e.pc);
    if !Waking(p) {
      ActCovered(s.slot, p, c);
    } else if s'.th != mid {
      var u :| u in mid && mid[u].SAsleep? && s'.th == Rouse(mid, u);
      CountSteps(mid, u, SLeave(mid[u].mode, Ok));
    } else {
      NobodyBound(mid);
      NobodyWaking(s.th, t);
    }
  }

  lemma NobodyBound(th: map<Tid, Pc>)
    requires NoSleeper(th)
    ensures Count(th, Bound) == 0
  {
    assert Those(th, Bound) == {};
  }

  lemma NobodyWaking(th: map<Tid, Pc>, t: Tid)
    requires t in th
    ensures Waking(th[t]) ==> Count(th, Waking) > 0
  {
    if Waking(th[t]) {
      assert t in Those(th, Waking);
    }
  }

  // While somebody sleeps, an attended value stays attended.
  lemma AttendedStep(s: State, t: Tid, c: Choice, s': State, u: Tid)
    requires Step(s, t, c, s') && Attended(s) && u in s'.th && s'.th[u].SAsleep?
    ensures Attended(s')
  {
    hide Act, Those, Counted, Raising, Attending, Same;
    ActCounts(s.slot, s.th[t], c);
    ActNap(s.slot, s.th[t], c);
    StepCounts(s, t, c, s');
    if Act(s.slot, s.th[t], c).wakeOne && s'.th == s.th[t := Act(s.slot, s.th[t], c).pc] {
      WakeFindsNobody(s, t, c, s');
    }
  }

  predicate InWait(p: Pc) {
    p.SJoin? || p.SWait? || p.SAsleep?
  }

  // Fewer than 2^32 posts pass between the load and the futex call.
  predicate InTime(s: State, t: Tid) {
    t in s.th && s.th[t].SWait? ==> s.slot.sequence < s.th[t].snap + WORD
  }

  // A thread that loaded `snap` in a covered state.
  ghost predicate WaitInv(s: State, t: Tid, snap: nat) {
    && t in s.th && InWait(s.th[t]) && s.th[t].snap == snap <= s.slot.sequence
    && (!s.th[t].SAsleep? && snap == s.slot.sequence ==> Covered(s))
    && (s.th[t].SAsleep? ==> Attended(s))
  }

  lemma OtherMoves(s: State, t: Tid, c: Choice, s': State, u: Tid)
    requires Step(s, t, c, s') && u in s.th
    ensures u in s'.th
    ensures u == t ==> s'.th[u] == Act(s.slot, s.th[t], c).pc || s'.th[u].SLeave?
    ensures u != t ==> s'.th[u] == s.th[u] || s'.th[u].SLeave?
  {
    hide Act;
  }

  lemma WaitStep(s: State, t: Tid, c: Choice, s': State, u: Tid, snap: nat)
    requires Step(s, t, c, s') && WaitInv(s, u, snap) && InTime(s, u) && u in s'.th && InWait(s'.th[u])
    ensures WaitInv(s', u, snap)
  {
    OtherMoves(s, t, c, s', u);
    ActCounts(s.slot, s.th[t], c);
    ActNap(s.slot, s.th[t], c);
    assert s.slot.sequence <= s'.slot.sequence;
    if s'.th[u].SAsleep? {
      if !s.th[u].SAsleep? {
        SameIsEqual(s.slot, snap);
        CoveredIsAttended(s);
      }
      AttendedStep(s, t, c, s', u);
    } else if s'.slot.sequence == snap {
      CoveredStep(s, t, c, s');
    }
    hide *;
  }

  lemma CoveredIsAttended(s: State)
    requires Covered(s)
    ensures Attended(s)
  {
    AttendingIs(s.th);
  }

  lemma LoadStep(s: State, t: Tid, c: Choice, s': State, u: Tid)
    requires Step(s, t, c, s') && Covered(s) && u in s.th && s.th[u].SSeq? && u in s'.th && InWait(s'.th[u])
    ensures WaitInv(s', u, s.slot.sequence)
  {
    hide Covered, Attended, Act;
    OtherMoves(s, t, c, s', u);
    ActNap(s.slot, s.th[t], c);
    CoveredStep(s, t, c, s');
  }

  function Last(r: seq<State>): State
    requires 0 < |r|
  {
    r[|r| - 1]
  }

  // r' goes on from r with the load of t, and t waits with it to the end of r'.
  ghost predicate Continues(r: seq<State>, t: Tid, r': seq<State>) {
    && IsRun(r') && |r| < |r'| && r == r'[..|r|]
    && forall m :: |r| <= m < |r'| ==> t in r'[m].th && InWait(r'[m].th[t]) && InTime(r'[m], t)
  }

  lemma RunStep(r: seq<State>, k: nat) returns (t: Tid, c: Choice)
    requires IsRun(r) && k + 1 < |r|
    ensures Step(r[k], t, c, r[k + 1])
  {
    hide Init, Step;
    assert Next(r[k], r[k + 1]);
    t, c :| Step(r[k], t, c, r[k + 1]);
  }

  lemma {:induction false} CoveredWaits(r: seq<State>, t: Tid, r': seq<State>, m: nat)
    requires 0 < |r| && t in Last(r).th && Last(r).th[t].SSeq? && Covered(Last(r))
    requires Continues(r, t, r') && |r| <= m < |r'|
    ensures WaitInv(r'[m], t, Last(r).slot.sequence)
    decreases m
  {
    hide IsRun, Step, WaitInv, Covered, InTime, InWait;
    var u, c := RunStep(r', m - 1);
    if m == |r| {
      assert r'[..|r|][m - 1] == r'[m - 1];
      LoadStep(r'[m - 1], u, c, r'[m], t);
    } else {
      CoveredWaits(r, t, r', m - 1);
      WaitStep(r'[m - 1], u, c, r'[m], t, Last(r).slot.sequence);
    }
  }

  // A sleeper on a unit that nobody will take or announce.
  ghost predicate Stranded(s: State, t: Tid) {
    t in s.th && s.th[t].SAsleep? && !Attended(s)
  }

  /**
    What the state at the load decides. Take any run in which a waiter that found the
    value at zero is about to load the sequence. If the value is covered there, the waiter
    never sleeps on a unit that nobody attends to; otherwise some continuation makes it.
   */
  lemma LoadIsSafeIff(r: seq<State>, t: Tid)
    requires 0 < |r| && IsRun(r) && t in Last(r).th && Last(r).th[t].SSeq?
    ensures (forall r' :: Continues(r, t, r') ==> !Stranded(Last(r'), t)) <==> Covered(Last(r))
  {
    hide IsRun, Stranded, Covered;
    if Covered(Last(r)) {
      forall r' | 0 < |r'| && Continues(r, t, r') ensures !Stranded(Last(r'), t) {
        NotStranded(r, t, r');
      }
    } else {
      var r' := Strand(r, t);
    }
  }

  lemma NotStranded(r: seq<State>, t: Tid, r': seq<State>)
    requires 0 < |r| && t in Last(r).th && Last(r).th[t].SSeq? && Covered(Last(r))
    requires 0 < |r'| && Continues(r, t, r')
    ensures !Stranded(Last(r'), t)
  {
    hide IsRun, Covered, Attended;
    CoveredWaits(r, t, r', |r'| - 1);
  }

  // No post has advanced the sequence since the value was found at zero: whatever has
  // been added is still being announced.
  ghost predicate TurnedInv(s: State, p: Pc) {
    p.SSeq? ==> p.tested <= s.slot.sequence &&
                (p.tested == s.slot.sequence ==> s.slot.value <= Count(s.th, Raising))
  }

  lemma TurnedStep(s: State, t: Tid, c: Choice, s': State, u: Tid)
    requires Step(s, t, c, s') && u in s.th && TurnedInv(s, s.th[u])
    ensures u in s'.th && TurnedInv(s', s'.th[u])
  {
    hide Act, Those, Counted, Raising, Attending, Same;
    OtherMoves(s, t, c, s', u);
    ActCounts(s.slot, s.th[t], c);
    ActNap(s.slot, s.th[t], c);
    StepCounts(s, t, c, s');
  }

  lemma {:induction false} RunTurned(r: seq<State>, i: nat)
    requires IsRun(r) && i < |r|
    ensures forall u :: u in r[i].th ==> TurnedInv(r[i], r[i].th[u])
  {
    if i > 0 {
      hide Step, TurnedInv, Init;
      RunTurned(r, i - 1);
      var t, c := RunStep(r, i - 1);
      assert r[i].th.Keys == r[i - 1].th.Keys by {
        StepKeys(r[i - 1], t, c, r[i]);
      }
      forall u | u in r[i].th ensures TurnedInv(r[i], r[i].th[u]) {
        TurnedStep(r[i - 1], t, c, r[i], u);
      }
    }
  }

  lemma StepKeys(s: State, t: Tid, c: Choice, s': State)
    requires Step(s, t, c, s')
    ensures s'.th.Keys == s.th.Keys
  {
    hide Act;
  }

  // A waiter that loaded the sequence before any post followed its test never sleeps on
  // a unit that nobody attends to. At rest the value is zero.
  lemma PromptSleeperIsNotStranded(r: seq<State>, t: Tid, r': seq<State>)
    requires 0 < |r| && IsRun(r) && t in Last(r).th && Last(r).th[t].SSeq?
    requires Last(r).th[t].tested == Last(r).slot.sequence && 0 < |r'| && Continues(r, t, r')
    ensures !Stranded(Last(r'), t)
    ensures Last(r').th[t].SAsleep? && AtRest(Last(r').th) ==> Last(r').slot.value == 0
  {
    hide IsRun;
    RunTurned(r, |r| - 1);
    assert TurnedInv(Last(r), Last(r).th[t]);
    NotStranded(r, t, r');
    if AtRest(Last(r').th) {
      assert Those(Last(r').th, Attending) == {};
    }
  }

  predicate AtRest(th: map<Tid, Pc>) {
    forall u :: u in th ==> th[u].Idle? || th[u].SAsleep?
  }

  // ------------------------------------------------- a post that is not heard

  lemma Extend(r: seq<State>, t: Tid, c: Choice, s': State) returns (r': seq<State>)
    requires 0 < |r| && IsRun(r) && Step(Last(r), t, c, s')
    ensures IsRun(r') && r' == r + [s']
  {
    hide Step, Init;
    r' := r + [s'];
    forall i | 0 <= i < |r'| - 1 ensures Next(r'[i], r'[i + 1]) {
      if i < |r| - 1 {
        assert Next(r[i], r[i + 1]);
      } else {
        assert Step(r'[i], t, c, r'[i + 1]);
      }
    }
  }

  // A step of t, waking nobody because nobody sleeps.
  lemma Advance(r: seq<State>, t: Tid, c: Choice) returns (r': seq<State>)
    requires 0 < |r| && IsRun(r) && t in Last(r).th && Open(Last(r).th[t], c)
    requires Act(Last(r).slot, Last(r).th[t], c).wakeOne ==> NoSleeper(Last(r).th)
    ensures 0 < |r'| && IsRun(r')
    ensures var e := Act(Last(r).slot, Last(r).th[t], c); r' == r + [State(e.slot, Last(r).th[t := e.pc])]
  {
    hide Act, IsRun;
    var e := Act(Last(r).slot, Last(r).th[t], c);
    ActNap(Last(r).slot, Last(r).th[t], c);
    var s' := State(e.slot, Last(r).th[t := e.pc]);
    assert Step(Last(r), t, c, s');
    r' := Extend(r, t, c, s');
  }

  // r' goes on from r while t stays where it is and the sequence stands still.
  ghost predicate Idles(r: seq<State>, t: Tid, r': seq<State>)
    requires 0 < |r| && t in Last(r).th
  {
    && |r| <= |r'| && IsRun(r') && r == r'[..|r|]
    && forall m :: |r| - 1 <= m < |r'| ==>
         t in r'[m].th && r'[m].th[t] == Last(r).th[t] && r'[m].slot.sequence == Last(r).slot.sequence
  }

  lemma IdlesOn(r: seq<State>, t: Tid, q: seq<State>, r': seq<State>)
    requires 0 < |r| && t in Last(r).th && Idles(r, t, q) && Idles(q, t, r')
    ensures Idles(r, t, r')
  {
    hide IsRun;
    assert q[|q| - 1] == r'[..|q|][|q| - 1];
    forall m | |r| - 1 <= m < |r'|
      ensures t in r'[m].th && r'[m].th[t] == Last(r).th[t] && r'[m].slot.sequence == Last(r).slot.sequence
    {
      if m < |q| {
        assert q[m] == r'[..|q|][m];
      }
    }
  }

  predicate OnAlarm(p: Pc) {
    p.SAsleep? && p.mode.Timed?
  }

  // The deadlines of the sleepers that have one pass.
  lemma {:induction false} ExpireAll(r: seq<State>, t: Tid) returns (r': seq<State>)
    requires 0 < |r| && IsRun(r) && t in Last(r).th && Last(r).th[t].SWait? && !Covered(Last(r))
    ensures Idles(r, t, r') && !Covered(Last(r')) && Those(Last(r').th, OnAlarm) == {}
    decreases Count(Last(r).th, OnAlarm)
  {
    hide IsRun, Count;
    if Those(Last(r).th, OnAlarm) == {} {
      r' := r;
    } else {
      var u :| u in Those(Last(r).th, OnAlarm);
      var q := Advance(r, u, Expire);
      CountSteps(Last(r).th, u, Last(q).th[u]);
      CountStep(Last(r).th, u, Last(q).th[u], OnAlarm);
      r' := ExpireAll(q, t);
      IdlesOn(r, t, q, r');
    }
  }

  // The wakes under way are made, each for a sleeper other than t or for nobody.
  lemma {:induction false} WakeAll(r: seq<State>, t: Tid) returns (r': seq<State>)
    requires 0 < |r| && IsRun(r) && t in Last(r).th && Last(r).th[t].SWait? && !Covered(Last(r))
    requires Those(Last(r).th, OnAlarm) == {}
    ensures Idles(r, t, r') && !Attended(Last(r'))
    decreases Count(Last(r).th, Waking)
  {
    hide IsRun, Count;
    if Those(Last(r).th, Waking) == {} {
      r' := r;
      NoneWaking(Last(r));
    } else {
      var u :| u in Those(Last(r).th, Waking);
      var q := WakeOne(r, t, u);
      r' := WakeAll(q, t);
      IdlesOn(r, t, q, r');
    }
  }

  lemma NoneWaking(s: State)
    requires Those(s.th, Waking) == {} && !Covered(s)
    ensures !Attended(s)
  {
    hide Those;
    AttendingIs(s.th);
  }

  lemma WakeOne(r: seq<State>, t: Tid, u: Tid) returns (q: seq<State>)
    requires 0 < |r| && IsRun(r) && t in Last(r).th && Last(r).th[t].SWait? && !Covered(Last(r))
    requires Those(Last(r).th, OnAlarm) == {} && u in Last(r).th && Waking(Last(r).th[u])
    ensures Idles(r, t, q) && !Covered(Last(q)) && Those(Last(q).th, OnAlarm) == {}
    ensures Count(Last(q).th, Waking) < Count(Last(r).th, Waking)
  {
    hide IsRun, Count;
    var s := Last(r);
    var mid := s.th[u := Idle(Ok)];
    CountSteps(s.th, u, Idle(Ok));
    if NoSleeper(s.th) {
      NobodyBound(s.th);
      q := Advance(r, u, Go);
    } else {
      var v :| v in s.th && s.th[v].SAsleep?;
      assert v !in Those(s.th, OnAlarm);
      CountSteps(mid, v, SLeave(mid[v].mode, Ok));
      var s' := s.(th := Rouse(mid, v));
      assert v in mid && mid[v].SAsleep?;
      assert Step(s, u, Go, s');
      q := Extend(r, u, Go, s');
    }
    assert Those(Last(q).th, OnAlarm) <= Those(s.th, OnAlarm);
  }

  // An uncovered load: t loads and joins, the deadlines and wakes under way pass it by,
  // and it sleeps.
  lemma Strand(r: seq<State>, t: Tid) returns (r': seq<State>)
    requires 0 < |r| && IsRun(r) && t in Last(r).th && Last(r).th[t].SSeq? && !Covered(Last(r))
    ensures 0 < |r'| && Continues(r, t, r') && Stranded(Last(r'), t)
  {
    hide IsRun, Same, Count;
    SameNow(Last(r).slot);
    var a := Advance(r, t, Go);
    CountSteps(Last(r).th, t, Last(a).th[t]);
    var b := Advance(a, t, Go);
    CountSteps(Last(a).th, t, Last(b).th[t]);
    var q := ExpireAll(b, t);
    var d := WakeAll(q, t);
    IdlesOn(b, t, q, d);
    SameNow(Last(d).slot);
    r' := Advance(d, t, Go);
    CountStep(Last(d).th, t, Last(r').th[t], Attending);
    Joined(r, t, b, d, r');
  }

  lemma Joined(r: seq<State>, t: Tid, b: seq<State>, d: seq<State>, r': seq<State>)
    requires 0 < |r| && |b| == |r| + 2 && r == b[..|r|] && t in Last(b).th && Idles(b, t, d)
    requires IsRun(r') && |r'| == |d| + 1 && d == r'[..|d|] && t in Last(r').th && Last(r').th[t].SAsleep?
    requires t in b[|r|].th && b[|r|].th[t].SJoin? && Last(b).th[t] == SWait(Last(b).th[t].mode, Last(b).slot.sequence)
    ensures Continues(r, t, r')
  {
    hide IsRun;
    forall m | |r| <= m < |r'| ensures t in r'[m].th && InWait(r'[m].th[t]) && InTime(r'[m], t) {
      if m < |d| {
        assert r'[m] == r'[..|d|][m];
        if m < |b| {
          assert d[m] == d[..|b|][m];
        }
      }
    }
    assert r == r'[..|r|];
  }

  lemma SameNow(x: Slot)
    ensures Same(x, x.sequence)
  {
  }

  lemma PostUnheard(r: seq<State>) returns (r': seq<State>)
    requires 0 < |r| && IsRun(r)
    requires Last(r) == State(Slot(0, 0, 0, 0, 0, 0), map[1 := SSeq(Block, 0), 2 := Idle(Ok)])
    ensures 0 < |r'| && IsRun(r')
    ensures Last(r') == State(Slot(1, 1, 0, 0, 1, 0), map[1 := SSeq(Block, 0), 2 := Idle(Ok)])
  {
    hide IsRun, Same;
    r' := Advance(r, 2, Call(Post));
    r' := Advance(r', 2, Go);
    r' := Advance(r', 2, Go);
    r' := Advance(r', 2, Go);
    r' := Advance(r', 2, Go);
    assert Last(r').th == map[1 := SSeq(Block, 0), 2 := Idle(Ok)];
  }

  lemma SleepAnyway(r: seq<State>) returns (r': seq<State>)
    requires 0 < |r| && IsRun(r)
    requires Last(r) == State(Slot(1, 1, 0, 0, 1, 0), map[1 := SSeq(Block, 0), 2 := Idle(Ok)])
    ensures 0 < |r'| && IsRun(r')
    ensures Last(r') == State(Slot(1, 1, 1, 0, 1, 0), map[1 := SAsleep(Block, 1), 2 := Idle(Ok)])
  {
    hide IsRun, Same;
    r' := Advance(r, 1, Go);
    r' := Advance(r', 1, Go);
    SameIsEqual(Last(r').slot, 1);
    r' := Advance(r', 1, Go);
    assert Last(r').th == map[1 := SAsleep(Block, 1), 2 := Idle(Ok)];
  }

  // The waiter loads the sequence after it has found the value at zero. A post
  // that falls in between raises both; the waiter then sleeps on a positive
  // value, and nothing is left that would wake it.
  lemma WaiterCanSleepOnAPostedValue() returns (r: seq<State>)
    ensures 0 < |r| && IsRun(r)
    ensures Last(r) == State(Slot(1, 1, 1, 0, 1, 0), map[1 := SAsleep(Block, 1), 2 := Idle(Ok)])
  {
    hide Same;
    r := [State(Slot(0, 0, 0, 0, 0, 0), map[1 := Idle(Ok), 2 := Idle(Ok)])];
    assert IsRun(r);
    hide IsRun;
    r := Advance(r, 1, Call(Wait(Block)));
    r := Advance(r, 1, Go);
    assert Last(r).th == map[1 := SSeq(Block, 0), 2 := Idle(Ok)];
    r := PostUnheard(r);
    r := SleepAnyway(r);
  }
}
