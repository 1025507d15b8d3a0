/**
  Read-write locks: rdlock, wrlock, their try and timed forms, and unlock, for
  an unbounded set of threads that unlock only what they hold.
 */
module RwLock {

  // Each step is one atomic operation. The history variables are the read locks
  // held, as a multiset of threads (a thread may hold several), the thread that
  // holds the write lock, and how many writers have left the queue without it.

  type Tid = n: nat | 0 < n witness 1

  const WORD: nat := 0x1_0000_0000
  const INT32_MAX: int := 0x7FFF_FFFF

  datatype Mode = Block | Try | Timed

  datatype Result = Ok | EAgain | EBusy | EDeadLk | EPerm | ETimedOut | Error

  // What turned a thread away: the state word, or for a reader the count of waiting
  // writers alone, when so many writers had given up.
  datatype Cause = ByState | ByQueue(quits: nat)

  // `tested` and `cause` are history: the sequence when the thread was turned away,
  // and what turned it away. `snap` is the sequence loaded.
  datatype Pc =
    | Idle(last: Result)
    // rwlock_rdlock_common
    | RdLoad(mode: Mode)
    | RdGate(mode: Mode, seen: int)
    | RdCas(mode: Mode, seen: int)
    | RdSeq(mode: Mode, tested: nat, cause: Cause)
    | RdWait(mode: Mode, snap: nat)
    | RdAsleep(mode: Mode, snap: nat)
    // rwlock_wrlock_common
    | WrSelf(mode: Mode)
    | WrJoin(mode: Mode)
    | WrCas(mode: Mode)
    | WrWon
    | WrName
    | WrSeq(mode: Mode, tested: nat)
    | WrWait(mode: Mode, snap: nat)
    | WrAsleep(mode: Mode, snap: nat)
    | WrQuit(res: Result)
    // pthread_rwlock_unlock
    | UnLoad
    | UnName
    | UnStore
    | UnDec
    | UnSeq
    | UnWake

  datatype Slot = Slot(
    state: int, sequence: nat, waitingWriters: nat, writer: nat,
    readers: multiset<Tid>, holder: nat, quits: nat)

  datatype State = State(slot: Slot, th: map<Tid, Pc>)

  datatype Op = Read(mode: Mode) | Write(mode: Mode) | Unlock

  datatype Choice = Call(op: Op) | Go | Interrupt | Expire | Fail

  // The slot and the thread's counter after a step; wakeAll if it woke every sleeper.
  datatype Effect = Effect(slot: Slot, pc: Pc, wakeAll: bool)

  // Well-behaved clients unlock only a lock they hold.
  predicate Holds(x: Slot, t: Tid) {
    t in x.readers || x.holder == t
  }

  predicate Open(x: Slot, t: Tid, p: Pc, c: Choice) {
    match p
    case Idle(_) => c.Call? && (c.op.Unlock? ==> Holds(x, t))
    case RdLoad(_) => c.Go? || c.Fail?
    case WrJoin(_) => c.Go? || c.Fail?
    case RdWait(_, _) => c.Go? || c.Fail?
    case WrWait(_, _) => c.Go? || c.Fail?
    case RdAsleep(m, _) => c.Interrupt? || (m.Timed? && c.Expire?)
    case WrAsleep(m, _) => c.Interrupt? || (m.Timed? && c.Expire?)
    case _ => c.Go?
  }

  function To(x: Slot, p: Pc): Effect {
    Effect(x, p, false)
  }

  function Inc(w: nat): nat {
    if w == WORD - 1 then 0 else w + 1
  }

  function Dec(w: nat): nat {
    if w == 0 then WORD - 1 else w - 1
  }

  predicate Same(x: Slot, a: nat) {
    x.sequence % WORD == a % WORD
  }

  function ReadStep(x: Slot, t: Tid, p: Pc, c: Choice): Effect {
    match p
    case RdLoad(m) =>
      if c.Fail? then To(x, Idle(Error))
      else if x.state >= 0 then To(x, RdGate(m, x.state))
      else To(x, if m.Try? then Idle(EBusy) else RdSeq(m, x.sequence, ByState))
    case RdGate(m, seen) =>
      if x.waitingWriters == 0 then To(x, if seen == INT32_MAX then Idle(EAgain) else RdCas(m, seen))
      else To(x, if m.Try? then Idle(EBusy) else RdSeq(m, x.sequence, ByQueue(x.quits)))
    case RdCas(m, seen) =>
      if x.state == seen then To(x.(state := seen + 1, readers := x.readers + multiset{t}), Idle(Ok))
      else To(x, RdLoad(m))
    case RdSeq(m, _, _) => To(x, RdWait(m, x.sequence))
    case RdWait(m, snap) =>
      if c.Fail? then To(x, Idle(Error))
      else To(x, if Same(x, snap) then RdAsleep(m, snap) else RdLoad(m))
    case RdAsleep(m, _) => To(x, if c.Expire? then Idle(ETimedOut) else RdLoad(m))
    case _ => To(x, p)
  }

  function WriteStep(x: Slot, t: Tid, p: Pc, c: Choice): Effect {
    match p
    case WrSelf(m) => To(x, if x.writer == t then Idle(EDeadLk) else WrJoin(m))
    case WrJoin(m) =>
      if c.Fail? then To(x, Idle(Error)) else To(x.(waitingWriters := Inc(x.waitingWriters)), WrCas(m))
    case WrCas(m) =>
      if x.state == 0 then To(x.(state := -1, holder := t), WrWon)
      else To(x, if m.Try? then WrQuit(EBusy) else WrSeq(m, x.sequence))
    case WrWon => To(x.(waitingWriters := Dec(x.waitingWriters)), WrName)
    case WrName => To(x.(writer := t), Idle(Ok))
    case WrSeq(m, _) => To(x, WrWait(m, x.sequence))
    case WrWait(m, snap) =>
      if c.Fail? then To(x, WrQuit(Error))
      else To(x, if Same(x, snap) then WrAsleep(m, snap) else WrCas(m))
    case WrAsleep(m, _) => To(x, if c.Expire? then WrQuit(ETimedOut) else WrCas(m))
    case WrQuit(res) => To(x.(waitingWriters := Dec(x.waitingWriters), quits := x.quits + 1), Idle(res))
    case _ => To(x, p)
  }

  function UnlockStep(x: Slot, t: Tid, p: Pc): Effect {
    match p
    case UnLoad => To(x, if x.state == -1 then UnName else if x.state > 0 then UnDec else Idle(EPerm))
    case UnName => if x.writer != t then To(x, Idle(EPerm)) else To(x.(writer := 0), UnStore)
    case UnStore => To(x.(state := 0, holder := 0), UnSeq)
    case UnDec => To(x.(state := x.state - 1, readers := x.readers - multiset{t}), UnSeq)
    case UnSeq => To(x.(sequence := x.sequence + 1), UnWake)
    case UnWake => Effect(x, Idle(Ok), true)
    case _ => To(x, p)
  }

  predicate Reading(p: Pc) {
    p.RdLoad? || p.RdGate? || p.RdCas? || p.RdSeq? || p.RdWait? || p.RdAsleep?
  }

  predicate Unlocking(p: Pc) {
    p.UnLoad? || p.UnName? || p.UnStore? || p.UnDec? || p.UnSeq? || p.UnWake?
  }

  function Begin(op: Op): Pc {
    match op
    case Read(m) => RdLoad(m)
    case Write(m) => WrSelf(m)
    case Unlock => UnLoad
  }

  function Act(x: Slot, t: Tid, p: Pc, c: Choice): Effect
    requires Open(x, t, p, c)
  {
    if p.Idle? then To(x, Begin(c.op))
    else if Reading(p) then ReadStep(x, t, p, c)
    else if Unlocking(p) then UnlockStep(x, t, p)
    else WriteStep(x, t, p, c)
  }

  function Roused(p: Pc): Pc {
    match p
    case RdAsleep(m, _) => RdLoad(m)
    case WrAsleep(m, _) => WrCas(m)
    case _ => p
  }

  function After(s: State, t: Tid, c: Choice): State
    requires t in s.th && Open(s.slot, t, s.th[t], c)
  {
    var e := Act(s.slot, t, s.th[t], c);
    var th := s.th[t := e.pc];
    State(e.slot, if e.wakeAll then map u | u in th :: Roused(th[u]) else th)
  }

  ghost predicate Next(s: State, s': State) {
    exists t: Tid, c: Choice :: t in s.th && Open(s.slot, t, s.th[t], c) && s' == After(s, t, c)
  }

  predicate Init(s: State) {
    && s.slot == Slot(0, 0, 0, 0, multiset{}, 0, 0)
    && |s.th| < WORD
    && forall t :: t in s.th ==> s.th[t] == Idle(Ok)
  }

  ghost predicate IsRun(r: seq<State>) {
    && 0 < |r|
    && Init(r[0])
    && forall i :: 0 <= i < |r| - 1 ==> Next(r[i], r[i + 1])
  }

  // ---------------------------------------------------------------- invariant

  // Inside the write-acquire loop, between the two changes of waiting_writers.
  predicate Queued(p: Pc) {
    p.WrCas? || p.WrWon? || p.WrSeq? || p.WrWait? || p.WrAsleep? || p.WrQuit?
  }

  function Queue(th: map<Tid, Pc>): set<Tid> {
    set t | t in th && Queued(th[t])
  }

  predicate SlotInv(x: Slot) {
    && x.state == (if x.holder != 0 then -1 else |x.readers|)
    && (x.holder != 0 ==> x.readers == multiset{})
    && x.state <= INT32_MAX
    && (x.writer != 0 ==> x.writer == x.holder)
  }

  predicate ThreadInv(x: Slot, t: Tid, p: Pc) {
    && (p.WrWon? || p.WrName? || p.UnStore? ==> x.holder == t && x.writer == 0)
    && (p.UnName? ==> x.holder == t)
    && (x.holder == t ==> x.writer == t || p.WrWon? || p.WrName? || p.UnStore?)
    && (p.UnDec? ==> t in x.readers)
    && (p.UnLoad? ==> Holds(x, t))
    && (p.RdGate? ==> 0 <= p.seen <= INT32_MAX)
    && (p.RdCas? ==> 0 <= p.seen < INT32_MAX)
  }

  ghost predicate Inv(s: State) {
    && |s.th| < WORD
    && SlotInv(s.slot)
    && s.slot.waitingWriters == |Queue(s.th)|
    && forall t :: t in s.th ==> ThreadInv(s.slot, t, s.th[t])
  }

  predicate Keeps(x: Slot, t: Tid, p: Pc, e: Effect) {
    && SlotInv(e.slot) && ThreadInv(e.slot, t, e.pc)
    && e.slot.waitingWriters == (if Queued(e.pc) && !Queued(p) then Inc(x.waitingWriters)
                                 else if Queued(p) && !Queued(e.pc) then Dec(x.waitingWriters)
                                 else x.waitingWriters)
  }

  lemma ReadInv(x: Slot, t: Tid, p: Pc, c: Choice)
    requires SlotInv(x) && ThreadInv(x, t, p) && Open(x, t, p, c) && Reading(p)
    ensures Keeps(x, t, p, ReadStep(x, t, p, c))
  {
    hide Same;
  }

  lemma WriteInv(x: Slot, t: Tid, p: Pc, c: Choice)
    requires SlotInv(x) && ThreadInv(x, t, p) && Open(x, t, p, c) && !p.Idle? && !Reading(p) && !Unlocking(p)
    ensures Keeps(x, t, p, WriteStep(x, t, p, c))
  {
    hide Same;
  }

  lemma UnlockInv(x: Slot, t: Tid, p: Pc)
    requires SlotInv(x) && ThreadInv(x, t, p) && Unlocking(p)
    ensures Keeps(x, t, p, UnlockStep(x, t, p))
  {
    hide Same, Inc, Dec;
    if p.UnDec? {
      assert |x.readers - multiset{t}| == |x.readers| - 1;
    } else if p.UnLoad? {
      assert t in x.readers ==> |x.readers| > 0;
    } else {
    }
  }

  lemma ActInv(x: Slot, t: Tid, p: Pc, c: Choice)
    requires SlotInv(x) && ThreadInv(x, t, p) && Open(x, t, p, c)
    ensures Keeps(x, t, p, Act(x, t, p, c))
  {
    if Reading(p) { ReadInv(x, t, p, c); }
    else if Unlocking(p) { UnlockInv(x, t, p); }
    else if !p.Idle? { WriteInv(x, t, p, c); }
    hide ReadStep, WriteStep, UnlockStep;
  }

  // What thread t does leaves another thread's claims alone.
  lemma OthersInv(x: Slot, t: Tid, p: Pc, c: Choice, u: Tid, q: Pc)
    requires SlotInv(x) && ThreadInv(x, t, p) && Open(x, t, p, c)
    requires u != t && ThreadInv(x, u, q)
    ensures ThreadInv(Act(x, t, p, c).slot, u, q)
  {
    hide Same, Inc, Dec, ReadStep, UnlockStep;
    if Reading(p) {
      OthersRead(x, t, p, c, u, q);
    } else if Unlocking(p) {
      OthersUnlock(x, t, p, u, q);
    } else {
    }
  }

  lemma OthersRead(x: Slot, t: Tid, p: Pc, c: Choice, u: Tid, q: Pc)
    requires Reading(p) && SlotInv(x) && ThreadInv(x, t, p) && u != t && ThreadInv(x, u, q)
    ensures ThreadInv(ReadStep(x, t, p, c).slot, u, q)
  {
    hide Same;
  }

  lemma OthersUnlock(x: Slot, t: Tid, p: Pc, u: Tid, q: Pc)
    requires Unlocking(p) && SlotInv(x) && ThreadInv(x, t, p) && u != t && ThreadInv(x, u, q)
    ensures ThreadInv(UnlockStep(x, t, p).slot, u, q)
  {
    hide Same;
  }

  // ------------------------------------------------------------ preservation

  lemma Subset(a: set<Tid>, b: set<Tid>)
    requires a <= b
    ensures |a| <= |b|
    ensures forall t :: t in b && t !in a ==> |a| < |b|
  {
    assert |b - a| == |b| - |a|;
  }

  // Only t can enter or leave the queue of writers.
  lemma QueueStep(th: map<Tid, Pc>, t: Tid, th': map<Tid, Pc>)
    requires t in th && th'.Keys == th.Keys && |th| < WORD
    requires forall u :: u in th && u != t ==> (Queued(th'[u]) <==> Queued(th[u]))
    ensures var n, n' := |Queue(th)|, |Queue(th')|;
            n' == (if Queued(th'[t]) && !Queued(th[t]) then Inc(n)
                   else if Queued(th[t]) && !Queued(th'[t]) then Dec(n) else n)
  {
    var was := Queue(th);
    assert Queue(th') == if Queued(th'[t]) then was + {t} else was - {t};
    if t in was {
      assert was + {t} == was;
    } else {
      assert was - {t} == was;
    }
    Subset(was, th.Keys);
    assert |th.Keys| == |th|;
  }

  lemma RousedInv(x: Slot, t: Tid, p: Pc)
    requires ThreadInv(x, t, p)
    ensures ThreadInv(x, t, Roused(p)) && (Queued(Roused(p)) <==> Queued(p))
  {
  }

  lemma StepInv(s: State, t: Tid, c: Choice)
    requires Inv(s) && t in s.th && Open(s.slot, t, s.th[t], c)
    ensures Inv(After(s, t, c))
  {
    hide Act, SlotInv, ThreadInv, Queue, Inc, Dec, Roused, Queued;
    var x, p := s.slot, s.th[t];
    var e := Act(x, t, p, c);
    var s' := After(s, t, c);
    ActInv(x, t, p, c);
    assert s'.th.Keys == s.th.Keys;
    assert |s'.th.Keys| == |s'.th| && |s.th.Keys| == |s.th|;
    forall u | u in s.th
      ensures ThreadInv(s'.slot, u, s'.th[u])
      ensures Queued(s'.th[u]) <==> Queued(if u == t then e.pc else s.th[u])
    {
      if u == t {
        RousedInv(s'.slot, u, e.pc);
      } else {
        OthersInv(x, t, p, c, u, s.th[u]);
        RousedInv(s'.slot, u, s.th[u]);
      }
    }
    QueueStep(s.th, t, s'.th);
  }

  lemma {:induction false} RunInv(r: seq<State>, i: nat)
    requires IsRun(r) && i < |r|
    ensures Inv(r[i])
  {
    if i == 0 {
      assert Queue(r[0].th) == {};
    } else {
      RunInv(r, i - 1);
      hide Inv, Init, Open;
      assert Next(r[i - 1], r[i - 1 + 1]);
      var t: Tid, c: Choice :| t in r[i - 1].th && Open(r[i - 1].slot, t, r[i - 1].th[t], c)
                               && r[i] == After(r[i - 1], t, c);
      StepInv(r[i - 1], t, c);
    }
  }

  // ---------------------------------------------------------------- theorems

  // The state word is -1 exactly when one writer and no reader hold the lock,
  // and otherwise it is the number of read locks held.
  lemma StateIsExact(r: seq<State>, i: nat)
    requires IsRun(r) && i < |r|
    ensures r[i].slot.state == -1 <==> r[i].slot.holder != 0
    ensures r[i].slot.state == -1 ==> r[i].slot.readers == multiset{}
    ensures r[i].slot.state != -1 ==> 0 <= r[i].slot.state == |r[i].slot.readers| <= INT32_MAX
  {
    RunInv(r, i);
  }

  // A thread outside a call finds itself in `writer` iff it has the write lock,
  // so the EDEADLK and EPERM tests, made without any lock, are exact; and a
  // well-behaved unlock never fails.
  lemma WriterTestIsExact(r: seq<State>, i: nat, t: Tid)
    requires IsRun(r) && i < |r| && t in r[i].th
    requires r[i].th[t].Idle? || r[i].th[t].WrSelf? || r[i].th[t].UnName?
    ensures r[i].slot.writer == t <==> r[i].slot.holder == t
    ensures r[i].th[t].UnName? ==> r[i].slot.writer == t
  {
    RunInv(r, i);
    assert ThreadInv(r[i].slot, t, r[i].th[t]);
  }

  // waiting_writers counts the writers inside the acquire loop, whichever way they leave it.
  lemma WaitingWritersIsExact(r: seq<State>, i: nat)
    requires IsRun(r) && i < |r|
    ensures r[i].slot.waitingWriters == |Queue(r[i].th)|
  {
    RunInv(r, i);
  }

  // ------------------------------------------------------------------ wake-ups

  // The lock could not be had by a reader (a writer) just now.
  predicate Refuses(x: Slot, write: bool) {
    if write then x.state != 0 else x.state < 0
  }

  // A thread is about to advance the sequence, or to wake the sleepers.
  ghost predicate Bumping(th: map<Tid, Pc>) {
    exists u :: u in th && th[u].UnSeq?
  }

  ghost predicate Rousing(th: map<Tid, Pc>) {
    exists u :: u in th && th[u].UnWake?
  }

  // A reader that waiting writers turned away would still meet some.
  predicate Gated(x: Slot, cause: Cause) {
    cause.ByQueue? && x.waitingWriters != 0
  }

  // No writer has given up since the thread was turned away by waiting writers.
  predicate NobodyQuit(x: Slot, cause: Cause) {
    cause.ByQueue? ==> cause.quits == x.quits
  }

  // While no release has advanced the sequence since the test, the reason for
  // waiting still stands, or a release is on its way.
  ghost predicate Justified(s: State, write: bool, tested: nat, cause: Cause) {
    && tested <= s.slot.sequence
    && (cause.ByQueue? ==> !write && cause.quits <= s.slot.quits)
    && (tested == s.slot.sequence && NobodyQuit(s.slot, cause) ==>
          Refuses(s.slot, write) || Gated(s.slot, cause) || Bumping(s.th))
  }

  // A thread that has been turned away had reason to be.
  ghost predicate TurnedInv(s: State, p: Pc) {
    match p
    case RdSeq(_, tested, cause) => Justified(s, false, tested, cause)
    case WrSeq(_, tested) => Justified(s, true, tested, ByState)
    case _ => true
  }

  lemma SameIsEqual(x: Slot, snap: nat)
    requires snap <= x.sequence < snap + WORD
    ensures Same(x, snap) <==> x.sequence == snap
  {
  }

  // A writer leaves the queue by winning, which shuts readers out, or by giving up.
  lemma ActQueue(x: Slot, t: Tid, p: Pc, c: Choice)
    requires SlotInv(x) && ThreadInv(x, t, p) && Open(x, t, p, c)
    requires p.WrJoin? ==> x.waitingWriters < WORD - 1
    ensures var e := Act(x, t, p, c);
      && e.slot.quits == (if p.WrQuit? then x.quits + 1 else x.quits)
      && (p.WrQuit? ==> e.slot.state == x.state && e.pc.Idle? && !e.wakeAll)
      && (x.waitingWriters != 0 && e.slot.waitingWriters == 0 ==> x.quits < e.slot.quits || Refuses(e.slot, false))
  {
    hide Same;
  }

  // A writer about to join finds fewer than 2^32 - 1 in the queue.
  lemma RoomToJoin(s: State, t: Tid)
    requires Inv(s) && t in s.th && s.th[t].WrJoin?
    ensures s.slot.waitingWriters < WORD - 1
  {
    hide SlotInv, ThreadInv;
    assert t !in Queue(s.th);
    Subset(Queue(s.th), s.th.Keys);
    assert |s.th.Keys| == |s.th|;
  }

  // Only a release that will advance the sequence lets anyone in.
  lemma ActRefuses(x: Slot, t: Tid, p: Pc, c: Choice, write: bool)
    requires SlotInv(x) && ThreadInv(x, t, p) && Open(x, t, p, c)
    ensures var e := Act(x, t, p, c); Refuses(x, write) && !Refuses(e.slot, write) ==> e.pc.UnSeq?
  {
    hide Same, Inc, Dec;
  }

  lemma ActSequence(x: Slot, t: Tid, p: Pc, c: Choice)
    requires Open(x, t, p, c)
    ensures var e := Act(x, t, p, c);
      && x.sequence <= e.slot.sequence
      && (p.UnSeq? ==> e.slot.sequence == x.sequence + 1 && e.pc.UnWake?)
      && (!p.UnSeq? ==> e.slot.sequence == x.sequence)
      && (e.wakeAll <==> p.UnWake?)
      && (e.wakeAll ==> e.pc.Idle?)
  {
    hide Same;
  }

  // While the sequence stands still, so does the reason for waiting.
  lemma JustifiedStays(s: State, t: Tid, c: Choice, write: bool, tested: nat, cause: Cause)
    requires Inv(s) && t in s.th && Open(s.slot, t, s.th[t], c) && Justified(s, write, tested, cause)
    ensures Justified(After(s, t, c), write, tested, cause)
  {
    hide Act, SlotInv, ThreadInv, Queue, Refuses, Open;
    assert ThreadInv(s.slot, t, s.th[t]);
    ActRefuses(s.slot, t, s.th[t], c, write);
    ActSequence(s.slot, t, s.th[t], c);
    if s.th[t].WrJoin? {
      RoomToJoin(s, t);
    }
    ActQueue(s.slot, t, s.th[t], c);
    var s' := After(s, t, c);
    if Act(s.slot, t, s.th[t], c).pc.UnSeq? {
      assert s'.th[t].UnSeq?;
    }
    if v :| v in s.th && v != t && s.th[v].UnSeq? {
      assert s'.th[v].UnSeq?;
    }
  }

  // A wake to come is not lost, and every advance of the sequence promises one.
  lemma RousingStays(s: State, t: Tid, c: Choice)
    requires t in s.th && Open(s.slot, t, s.th[t], c)
    ensures var s' := After(s, t, c);
            && s.slot.sequence <= s'.slot.sequence
            && (s.slot.sequence < s'.slot.sequence || (Rousing(s.th) && !s.th[t].UnWake?) ==> Rousing(s'.th))
  {
    hide Act, SlotInv, ThreadInv, Queue, Refuses, Open;
    ActSequence(s.slot, t, s.th[t], c);
    var s' := After(s, t, c);
    if Act(s.slot, t, s.th[t], c).pc.UnWake? {
      assert s'.th[t].UnWake?;
    }
    if v :| v in s.th && v != t && s.th[v].UnWake? {
      assert s'.th[v].UnWake?;
    }
  }

  // How a thread comes to wait.
  lemma ActTurned(x: Slot, t: Tid, p: Pc, c: Choice)
    requires Open(x, t, p, c)
    ensures var e := Act(x, t, p, c);
      && (e.pc.RdSeq? ==> e.slot == x && e.pc.tested == x.sequence && NobodyQuit(x, e.pc.cause))
      && (e.pc.RdSeq? ==> Refuses(x, false) || Gated(x, e.pc.cause))
      && (e.pc.WrSeq? ==> e.slot == x && e.pc.tested == x.sequence && Refuses(x, true))
      && (e.wakeAll ==> e.pc.Idle?)
  {
    hide Same, Inc, Dec;
  }

  lemma TurnedStep(s: State, t: Tid, c: Choice, u: Tid)
    requires Inv(s) && t in s.th && Open(s.slot, t, s.th[t], c) && u in s.th && TurnedInv(s, s.th[u])
    ensures var s' := After(s, t, c); u in s'.th && TurnedInv(s', s'.th[u])
  {
    hide Act, Inv, Open, Refuses, Bumping;
    if u == t {
      ActTurned(s.slot, t, s.th[t], c);
    } else {
      var q := s.th[u];
      if q.RdSeq? {
        JustifiedStays(s, t, c, false, q.tested, q.cause);
      } else if q.WrSeq? {
        JustifiedStays(s, t, c, true, q.tested, ByState);
      } else {
      }
    }
  }

  lemma {:induction false} RunTurned(r: seq<State>, i: nat)
    requires IsRun(r) && i < |r|
    ensures forall u :: u in r[i].th ==> TurnedInv(r[i], r[i].th[u])
  {
    hide Inv, Open, TurnedInv, After, Init;
    if i == 0 {
      InitTurned(r[0]);
    } else {
      RunTurned(r, i - 1);
      var t, c := RunStep(r, i - 1);
      AfterKeys(r[i - 1], t, c);
      forall u | u in r[i].th ensures TurnedInv(r[i], r[i].th[u]) {
        TurnedStep(r[i - 1], t, c, u);
      }
    }
  }

  lemma InitTurned(s: State)
    requires Init(s)
    ensures forall u :: u in s.th ==> TurnedInv(s, s.th[u])
  {
  }

  lemma RunStep(r: seq<State>, k: nat) returns (t: Tid, c: Choice)
    requires IsRun(r) && k + 1 < |r|
    ensures Inv(r[k]) && t in r[k].th && Open(r[k].slot, t, r[k].th[t], c) && r[k + 1] == After(r[k], t, c)
  {
    hide After, Inv, Init, Open;
    RunInv(r, k);
    assert Next(r[k], r[k + 1]);
    t, c :| t in r[k].th && Open(r[k].slot, t, r[k].th[t], c) && r[k + 1] == After(r[k], t, c);
  }

  lemma AfterKeys(s: State, t: Tid, c: Choice)
    requires t in s.th && Open(s.slot, t, s.th[t], c)
    ensures After(s, t, c).th.Keys == s.th.Keys
  {
    hide Act, Open;
  }

  // ------------------------------------------------------- what the calls answer

  // Another thread's step leaves what t holds alone.
  lemma OthersHold(x: Slot, u: Tid, p: Pc, c: Choice, t: Tid)
    requires SlotInv(x) && ThreadInv(x, u, p) && Open(x, u, p, c) && u != t
    ensures var e := Act(x, u, p, c); (e.slot.holder == t <==> x.holder == t) && e.slot.readers[t] == x.readers[t]
  {
    hide Same, Inc, Dec;
  }

  // A call of t under way in s; what it answers when it ends in s'.
  predicate ReadAt(p: Pc, m: Mode) {
    Reading(p) && p.mode == m
  }

  predicate ReadAnswer(x: Slot, p: Pc, m: Mode, res: Result) {
    match res
    case Ok => true
    case EBusy => m.Try? && (x.state < 0 || x.waitingWriters != 0)
    case EAgain => p == RdGate(m, INT32_MAX)
    case ETimedOut => m.Timed?
    case Error => true
    case _ => false
  }

  lemma ActReads(x: Slot, t: Tid, p: Pc, c: Choice, m: Mode)
    requires Open(x, t, p, c) && ReadAt(p, m)
    ensures var e := Act(x, t, p, c);
      && e.slot.readers[t] == x.readers[t] + (if e.pc == Idle(Ok) then 1 else 0)
      && (if e.pc.Idle? then ReadAnswer(x, p, m, e.pc.last) else ReadAt(e.pc, m))
      && (e.pc.RdGate? ==> e.pc.seen == x.state)
      && (e.pc.RdCas? ==> x.waitingWriters == 0) && (e.pc == Idle(Ok) ==> p.RdCas?)
      && !e.wakeAll
  {
    hide Same;
  }

  // Writing, and what the writer has meanwhile.
  predicate WriteAt(x: Slot, t: Tid, p: Pc, m: Mode) {
    match p
    case WrSelf(mode) => mode == m
    case WrJoin(mode) => mode == m && x.holder != t
    case WrCas(mode) => mode == m && x.holder != t
    case WrSeq(mode, _) => mode == m && x.holder != t && !m.Try?
    case WrWait(mode, _) => mode == m && x.holder != t && !m.Try?
    case WrAsleep(mode, _) => mode == m && x.holder != t && !m.Try?
    case WrWon => x.holder == t
    case WrName => x.holder == t
    case WrQuit(res) => x.holder != t && ((res.EBusy? && m.Try?) || (res.ETimedOut? && m.Timed?) || (res.Error? && !m.Try?))
    case _ => false
  }

  predicate WriteAnswer(m: Mode, res: Result, held: bool) {
    match res
    case Ok => held
    case EDeadLk => held
    case EBusy => m.Try? && !held
    case ETimedOut => m.Timed? && !held
    case Error => !held
    case _ => false
  }

  lemma ActWrites(x: Slot, t: Tid, p: Pc, c: Choice, m: Mode)
    requires SlotInv(x) && ThreadInv(x, t, p) && Open(x, t, p, c) && WriteAt(x, t, p, m)
    ensures var e := Act(x, t, p, c);
      && (if e.pc.Idle? then WriteAnswer(m, e.pc.last, e.slot.holder == t) else WriteAt(e.slot, t, e.pc, m))
      && (e.pc == Idle(EDeadLk) <==> p.WrSelf? && x.holder == t)
      && (e.pc == WrQuit(EBusy) ==> x.state != 0)
      && !e.wakeAll
  {
    hide Same, Inc, Dec;
  }

  // Unlocking: `write` says which lock it was, n how many read locks t had.
  predicate UnlockAt(x: Slot, t: Tid, p: Pc, write: bool, n: nat) {
    match p
    case UnLoad => (x.holder == t) == write && x.readers[t] == n
    case UnName => write && x.readers[t] == n
    case UnStore => write && x.readers[t] == n
    case UnDec => !write && 0 < n == x.readers[t]
    case UnSeq => x.holder != t && n == x.readers[t] + if write then 0 else 1
    case UnWake => x.holder != t && n == x.readers[t] + if write then 0 else 1
    case _ => false
  }

  lemma ActUnlocks(x: Slot, t: Tid, p: Pc, c: Choice, write: bool, n: nat)
    requires SlotInv(x) && ThreadInv(x, t, p) && Open(x, t, p, c) && UnlockAt(x, t, p, write, n)
    ensures var e := Act(x, t, p, c);
      if e.pc.Idle? then e.pc.last.Ok? && e.slot.holder != t && n == e.slot.readers[t] + if write then 0 else 1
      else UnlockAt(e.slot, t, e.pc, write, n)
  {
    hide Same, Inc, Dec;
    assert x.readers != multiset{} ==> |x.readers| > 0;
  }

  // t moves by its own step, or is woken.
  lemma StepOf(s: State, u: Tid, c: Choice, t: Tid)
    requires Inv(s) && u in s.th && Open(s.slot, u, s.th[u], c) && t in s.th
    ensures var s', e := After(s, u, c), Act(s.slot, u, s.th[u], c);
      && t in s'.th && s'.slot == e.slot
      && (u == t ==> s'.th[t] == e.pc || (e.wakeAll && s'.th[t] == Roused(e.pc)))
      && (u != t ==> (s'.th[t] == s.th[t] || s'.th[t] == Roused(s.th[t]))
                     && (s'.slot.holder == t <==> s.slot.holder == t) && s'.slot.readers[t] == s.slot.readers[t])
  {
    assert ThreadInv(s.slot, u, s.th[u]);
    if u != t {
      OthersHold(s.slot, u, s.th[u], c, t);
    }
    hide Act, Open, SlotInv, ThreadInv, Roused;
  }

  ghost predicate Calling(r: seq<State>, i: nat, j: nat, t: Tid)
    requires i <= j < |r|
  {
    forall k :: i <= k < j ==> t in r[k].th && !r[k].th[t].Idle?
  }

  ghost predicate WasState(r: seq<State>, i: nat, j: nat, state: int)
    requires i <= j < |r|
  {
    exists k :: i <= k < j && r[k].slot.state == state
  }

  // No writer was waiting at some point.
  ghost predicate WasQuiet(r: seq<State>, i: nat, j: nat)
    requires i <= j < |r|
  {
    exists k :: i <= k < j && r[k].slot.waitingWriters == 0
  }

  ghost predicate WasTaken(r: seq<State>, i: nat, j: nat)
    requires i <= j < |r|
  {
    exists k :: i <= k < j && r[k].slot.state != 0
  }

  // What rdlock and its kin answer: 0 together with one more read lock, and only if at some
  // point of the call no writer was waiting; EBUSY to a try that
  // meets a writer, holding or waiting; EAGAIN when the count of readers was at its limit;
  // ETIMEDOUT to a timed call.
  lemma {:induction false} ReadAnswers(r: seq<State>, i: nat, j: nat, t: Tid)
    requires IsRun(r) && i <= j < |r| && t in r[i].th && r[i].th[t].RdLoad? && Calling(r, i, j, t)
    ensures t in r[j].th
    ensures var m, n, p := r[i].th[t].mode, r[i].slot.readers[t], r[j].th[t];
      && r[j].slot.readers[t] == n + (if p == Idle(Ok) then 1 else 0)
      && (p.RdGate? ==> WasState(r, i, j, p.seen))
      && (p.RdCas? || p == Idle(Ok) ==> WasQuiet(r, i, j))
      && (if p.Idle? then
            i < j && ReadAnswer(r[j - 1].slot, r[j - 1].th[t], m, p.last) && (p.last.EAgain? ==> WasState(r, i, j, INT32_MAX))
          else ReadAt(p, m))
    decreases j
  {
    hide IsRun, Act, Open, After, Inv, ReadAnswer;
    if i < j {
      ReadAnswers(r, i, j - 1, t);
      assert !r[j - 1].th[t].Idle?;
      var u, c := RunStep(r, j - 1);
      StepOf(r[j - 1], u, c, t);
      if u == t {
        ActReads(r[j - 1].slot, t, r[j - 1].th[t], c, r[i].th[t].mode);
      }
      ReadGate(r[j - 1].slot, r[j - 1].th[t], r[i].th[t].mode, r[j].th[t]);
    }
  }

  lemma ReadGate(x: Slot, p: Pc, m: Mode, p': Pc)
    ensures p'.Idle? && ReadAnswer(x, p, m, p'.last) && p'.last.EAgain? ==> p == RdGate(m, INT32_MAX)
  {
  }

  // What wrlock and its kin answer: EDEADLK exactly to the writer itself, 0 together with
  // the write lock, EBUSY to a try that met a lock that was taken, ETIMEDOUT to a timed call.
  lemma {:induction false} WriteAnswers(r: seq<State>, i: nat, j: nat, t: Tid)
    requires IsRun(r) && i <= j < |r| && t in r[i].th && r[i].th[t].WrSelf? && Calling(r, i, j, t)
    ensures t in r[j].th
    ensures var m, p := r[i].th[t].mode, r[j].th[t];
      && (p == Idle(EDeadLk) || p.WrSelf? ==> (r[i].slot.holder == t <==> r[j].slot.holder == t))
      && (p == Idle(EDeadLk) ==> r[i].slot.holder == t) && (r[i].slot.holder == t ==> p.WrSelf? || p == Idle(EDeadLk))
      && (p == WrQuit(EBusy) || p == Idle(EBusy) ==> WasTaken(r, i, j))
      && (if p.Idle? then WriteAnswer(m, p.last, r[j].slot.holder == t) else WriteAt(r[j].slot, t, p, m))
    decreases j
  {
    hide IsRun, Act, Open, After, Inv;
    if i < j {
      WriteAnswers(r, i, j - 1, t);
      assert !r[j - 1].th[t].Idle?;
      var u, c := RunStep(r, j - 1);
      StepOf(r[j - 1], u, c, t);
      if u == t {
        WriterMoves(r[j - 1], t, c, r[i].th[t].mode);
      }
    }
  }

  lemma WriterMoves(s: State, t: Tid, c: Choice, m: Mode)
    requires Inv(s) && t in s.th && Open(s.slot, t, s.th[t], c) && WriteAt(s.slot, t, s.th[t], m)
    ensures var p, e := s.th[t], Act(s.slot, t, s.th[t], c);
      && (if e.pc.Idle? then WriteAnswer(m, e.pc.last, e.slot.holder == t) else WriteAt(e.slot, t, e.pc, m))
      && (e.pc == Idle(EDeadLk) <==> p.WrSelf? && s.slot.holder == t) && !e.pc.WrSelf?
      && (e.pc == Idle(EDeadLk) ==> e.slot.holder == t)
      && (e.pc == WrQuit(EBusy) ==> s.slot.state != 0) && (e.pc == Idle(EBusy) ==> p == WrQuit(EBusy))
      && !e.wakeAll
  {
    assert ThreadInv(s.slot, t, s.th[t]);
    ActWrites(s.slot, t, s.th[t], c, m);
    hide Inv, Same, Inc, Dec;
  }

  // Unlocking gives 0 and takes back the write lock, or one read lock.
  lemma {:induction false} UnlockAnswers(r: seq<State>, i: nat, j: nat, t: Tid)
    requires IsRun(r) && i <= j < |r| && t in r[i].th && r[i].th[t].UnLoad? && Calling(r, i, j, t)
    ensures t in r[j].th
    ensures var write, n, p := r[i].slot.holder == t, r[i].slot.readers[t], r[j].th[t];
      if p.Idle? then p.last.Ok? && r[j].slot.holder != t && n == r[j].slot.readers[t] + if write then 0 else 1
      else UnlockAt(r[j].slot, t, p, write, n)
    decreases j
  {
    hide IsRun, Act, Open, After;
    if i < j {
      UnlockAnswers(r, i, j - 1, t);
      assert !r[j - 1].th[t].Idle?;
      var u, c := RunStep(r, j - 1);
      StepOf(r[j - 1], u, c, t);
      if u == t {
        assert ThreadInv(r[j - 1].slot, t, r[j - 1].th[t]);
        ActUnlocks(r[j - 1].slot, t, r[j - 1].th[t], c, r[i].slot.holder == t, r[i].slot.readers[t]);
      }
      hide Inv;
    }
  }

  // A deadline that passes in the wait answers ETIMEDOUT, and an invalid one, or a futex
  // that fails, an error; a writer leaves the queue first.
  lemma DeadlineAnswers(s: State, t: Tid, c: Choice)
    requires t in s.th && Open(s.slot, t, s.th[t], c) && !s.th[t].Idle? && (c.Expire? || c.Fail?)
    ensures var p := After(s, t, c).th[t];
      p == Idle(if c.Expire? then ETimedOut else Error) || p == WrQuit(if c.Expire? then ETimedOut else Error)
  {
    hide Same;
  }

  // ------------------------------------------------------ what the load decides

  // About to load the sequence, and then waiting with what was loaded.
  predicate AtLoad(p: Pc, write: bool) {
    if write then p.WrSeq? else p.RdSeq?
  }

  predicate InWait(p: Pc, write: bool) {
    if write then p.WrWait? || p.WrAsleep? else p.RdWait? || p.RdAsleep?
  }

  predicate Asleep(p: Pc) {
    p.RdAsleep? || p.WrAsleep?
  }

  // Fewer than 2^32 releases pass between the load and the futex call.
  predicate InTime(s: State, t: Tid) {
    t in s.th && (s.th[t].RdWait? || s.th[t].WrWait?) ==> s.slot.sequence < s.th[t].snap + WORD
  }

  // Nothing keeps the thread out (for ByQueue: no queued writer either), and no
  // release is on its way that would wake it.
  ghost predicate Hopeless(s: State, write: bool, cause: Cause) {
    !Refuses(s.slot, write) && !Gated(s.slot, cause) && !Bumping(s.th) && !Rousing(s.th)
  }

  ghost predicate Stranded(s: State, t: Tid, write: bool, cause: Cause) {
    t in s.th && Asleep(s.th[t]) && Hopeless(s, write, cause)
  }

  // What must hold when the sequence is loaded.
  ghost predicate Covered(s: State, write: bool, cause: Cause) {
    Refuses(s.slot, write) || Gated(s.slot, cause) || Bumping(s.th)
  }

  // A thread that loaded `snap` in a covered state.
  ghost predicate WaitInv(s: State, t: Tid, write: bool, snap: nat, cause: Cause) {
    && t in s.th && InWait(s.th[t], write) && s.th[t].snap == snap
    && Justified(s, write, snap, cause)
    && (Asleep(s.th[t]) && snap < s.slot.sequence ==> Rousing(s.th))
  }

  // A waiting thread goes on only by its own step or by being woken.
  lemma ActWait(x: Slot, t: Tid, p: Pc, c: Choice, write: bool)
    requires Open(x, t, p, c) && InWait(Act(x, t, p, c).pc, write)
    ensures var e := Act(x, t, p, c);
      && !e.wakeAll && e.slot == x
      && (InWait(p, write) ==> e.pc.snap == p.snap && !Asleep(p) && Asleep(e.pc) && Same(x, p.snap))
      && (!InWait(p, write) ==> AtLoad(p, write) && e.pc.snap == x.sequence && !Asleep(e.pc))
  {
    hide Same, Inc, Dec, ReadStep, WriteStep;
    if Reading(p) {
      ReadWait(x, t, p, c, write);
    } else if !p.Idle? && !Unlocking(p) {
      WriteWait(x, t, p, c, write);
    }
  }

  lemma ReadWait(x: Slot, t: Tid, p: Pc, c: Choice, write: bool)
    requires Open(x, t, p, c) && Reading(p)
    ensures var e := ReadStep(x, t, p, c);
            && !e.wakeAll
            && (InWait(e.pc, write) ==> e.slot == x && !write)
            && (InWait(e.pc, write) && InWait(p, write) ==>
                  e.pc.snap == p.snap && !Asleep(p) && Asleep(e.pc) && Same(x, p.snap))
            && (InWait(e.pc, write) && !InWait(p, write) ==> p.RdSeq? && e.pc.snap == x.sequence && !Asleep(e.pc))
  {
    hide Same;
  }

  lemma WriteWait(x: Slot, t: Tid, p: Pc, c: Choice, write: bool)
    requires Open(x, t, p, c) && !p.Idle? && !Reading(p) && !Unlocking(p)
    ensures var e := WriteStep(x, t, p, c);
            && !e.wakeAll
            && (InWait(e.pc, write) ==> e.slot == x && write)
            && (InWait(e.pc, write) && InWait(p, write) ==>
                  e.pc.snap == p.snap && !Asleep(p) && Asleep(e.pc) && Same(x, p.snap))
            && (InWait(e.pc, write) && !InWait(p, write) ==> p.WrSeq? && e.pc.snap == x.sequence && !Asleep(e.pc))
  {
    hide Same, Inc, Dec;
  }

  lemma OtherWait(s: State, t: Tid, c: Choice, u: Tid, write: bool)
    requires t in s.th && Open(s.slot, t, s.th[t], c) && u in s.th && u != t
    requires InWait(After(s, t, c).th[u], write)
    ensures After(s, t, c).th[u] == s.th[u] && (Asleep(s.th[u]) ==> !s.th[t].UnWake?)
  {
    hide Act, Open;
    ActSequence(s.slot, t, s.th[t], c);
  }

  lemma WaitStep(s: State, t: Tid, c: Choice, u: Tid, write: bool, snap: nat, cause: Cause)
    requires Inv(s) && t in s.th && Open(s.slot, t, s.th[t], c)
    requires WaitInv(s, u, write, snap, cause) && InTime(s, u)
    requires u in After(s, t, c).th && InWait(After(s, t, c).th[u], write)
    ensures WaitInv(After(s, t, c), u, write, snap, cause)
  {
    hide Act, Open, Inv, Justified, Rousing, Same;
    JustifiedStays(s, t, c, write, snap, cause);
    RousingStays(s, t, c);
    if u == t {
      ActWait(s.slot, t, s.th[t], c, write);
      JustifiedSince(s, write, snap, cause);
      SameIsEqual(s.slot, snap);
    } else {
      OtherWait(s, t, c, u, write);
    }
  }

  lemma JustifiedSince(s: State, write: bool, tested: nat, cause: Cause)
    requires Justified(s, write, tested, cause)
    ensures tested <= s.slot.sequence
  {
  }

  // The load itself.
  lemma LoadStep(s: State, t: Tid, c: Choice, u: Tid, write: bool, cause: Cause)
    requires Inv(s) && t in s.th && Open(s.slot, t, s.th[t], c)
    requires u in s.th && AtLoad(s.th[u], write) && Covered(s, write, cause)
    requires cause.ByQueue? ==> !write && cause.quits == s.slot.quits
    requires u in After(s, t, c).th && InWait(After(s, t, c).th[u], write)
    ensures WaitInv(After(s, t, c), u, write, s.slot.sequence, cause)
  {
    hide Act, Open, Inv, Rousing, Same;
    assert Justified(s, write, s.slot.sequence, cause);
    JustifiedStays(s, t, c, write, s.slot.sequence, cause);
    hide Justified, Refuses;
    if u == t {
      ActWait(s.slot, t, s.th[t], c, write);
    } else {
      OtherWait(s, t, c, u, write);
    }
  }

  function Last(r: seq<State>): State
    requires 0 < |r|
  {
    r[|r| - 1]
  }

  // r' goes on from r with the load of t, and t waits with it to the end of r'.
  ghost predicate Continues(r: seq<State>, t: Tid, write: bool, r': seq<State>) {
    && IsRun(r') && |r| < |r'| && r == r'[..|r|]
    && forall m :: |r| <= m < |r'| ==> t in r'[m].th && InWait(r'[m].th[t], write) && InTime(r'[m], t)
  }

  lemma {:induction false} CoveredWaits(r: seq<State>, t: Tid, write: bool, cause: Cause, r': seq<State>, m: nat)
    requires 0 < |r| && t in Last(r).th && AtLoad(Last(r).th[t], write) && Covered(Last(r), write, cause)
    requires cause.ByQueue? ==> !write && cause.quits == Last(r).slot.quits
    requires Continues(r, t, write, r') && |r| <= m < |r'|
    ensures WaitInv(r'[m], t, write, Last(r).slot.sequence, cause)
    decreases m
  {
    hide IsRun, After, Open, Inv, WaitInv, Covered, InTime, AtLoad, InWait;
    var u, c := RunStep(r', m - 1);
    if m == |r| {
      assert r'[..|r|][m - 1] == r'[m - 1];
      LoadStep(r'[m - 1], u, c, t, write, cause);
    } else {
      CoveredWaits(r, t, write, cause, r', m - 1);
      WaitStep(r'[m - 1], u, c, t, write, Last(r).slot.sequence, cause);
    }
  }

  /**
    What the state at the load decides. Take any run in which a thread that was turned
    away is about to load the sequence. If the lock refuses it there, or a release is
    about to advance the sequence, it never sleeps without reason; otherwise some
    continuation strands it. Counting queued writers as a reason for a reader to wait
    (ByQueue), the same holds of the continuations in which no writer gives up.
   */
  lemma LoadIsSafeIff(r: seq<State>, t: Tid, write: bool, cause: Cause)
    requires 0 < |r| && IsRun(r) && t in Last(r).th && AtLoad(Last(r).th[t], write)
    requires cause.ByQueue? ==> !write && cause.quits == Last(r).slot.quits
    ensures (forall r' :: Continues(r, t, write, r') && NobodyQuit(Last(r').slot, cause) ==>
                            !Stranded(Last(r'), t, write, cause))
              <==> Covered(Last(r), write, cause)
  {
    hide IsRun, Stranded, NobodyQuit, Covered, AtLoad;
    if Covered(Last(r), write, cause) {
      forall r' | 0 < |r'| && Continues(r, t, write, r') && NobodyQuit(Last(r').slot, cause)
        ensures !Stranded(Last(r'), t, write, cause)
      {
        NotStranded(r, t, write, cause, r');
      }
    } else {
      var r' := Strand(r, t, write, cause);
    }
  }

  lemma NotStranded(r: seq<State>, t: Tid, write: bool, cause: Cause, r': seq<State>)
    requires 0 < |r| && t in Last(r).th && AtLoad(Last(r).th[t], write) && Covered(Last(r), write, cause)
    requires cause.ByQueue? ==> !write && cause.quits == Last(r).slot.quits
    requires 0 < |r'| && Continues(r, t, write, r') && NobodyQuit(Last(r').slot, cause)
    ensures !Stranded(Last(r'), t, write, cause)
  {
    hide IsRun;
    CoveredWaits(r, t, write, cause, r', |r'| - 1);
  }

  // A thread turned away finds a covered state if it loads the sequence before any
  // release has advanced it (and before any writer it was turned away by has given up).
  lemma PromptLoadIsCovered(r: seq<State>, i: nat, t: Tid)
    requires IsRun(r) && i < |r| && t in r[i].th
    ensures r[i].th[t].RdSeq? && r[i].th[t].tested == r[i].slot.sequence && NobodyQuit(r[i].slot, r[i].th[t].cause) ==>
              Covered(r[i], false, r[i].th[t].cause)
    ensures r[i].th[t].WrSeq? && r[i].th[t].tested == r[i].slot.sequence ==> Covered(r[i], true, ByState)
  {
    RunTurned(r, i);
    hide IsRun, Refuses, Bumping;
    assert TurnedInv(r[i], r[i].th[t]);
  }

  // A sleeper that loaded the sequence before any release followed its being turned
  // away is never stranded, whether the state or waiting writers turned it away, as long
  // as none of those writers has given up.
  lemma PromptSleeperIsNotStranded(r: seq<State>, t: Tid, write: bool, r': seq<State>)
    requires 0 < |r| && IsRun(r) && t in Last(r).th && AtLoad(Last(r).th[t], write)
    requires Last(r).th[t].tested == Last(r).slot.sequence && 0 < |r'| && Continues(r, t, write, r')
    ensures var cause := if write then ByState else Last(r).th[t].cause;
            NobodyQuit(Last(r).slot, cause) && NobodyQuit(Last(r').slot, cause) ==>
              !Stranded(Last(r'), t, write, cause)
  {
    hide IsRun, Continues, Stranded, Covered;
    PromptLoadIsCovered(r, |r| - 1, t);
    var cause := if write then ByState else Last(r).th[t].cause;
    if NobodyQuit(Last(r).slot, cause) && NobodyQuit(Last(r').slot, cause) {
      NotStranded(r, t, write, cause, r');
    }
  }

  // The only step that strands a sleeping reader is that of the last queued writer giving
  // up, when nothing else keeps the reader out or is about to wake it.
  lemma OnlyQuittingStrands(s: State, u: Tid, c: Choice, t: Tid, q: nat)
    requires Inv(s) && u in s.th && Open(s.slot, u, s.th[u], c)
    requires t in s.th && t in After(s, u, c).th && s.th[t].RdAsleep? && After(s, u, c).th[t].RdAsleep?
    requires !Stranded(s, t, false, ByQueue(q))
    ensures Stranded(After(s, u, c), t, false, ByQueue(q)) <==>
              && s.th[u].WrQuit? && Queue(s.th) == {u}
              && !Refuses(s.slot, false) && !Bumping(s.th) && !Rousing(s.th)
  {
    var s' := After(s, u, c);
    StepInv(s, u, c);
    ActWakes(s, u, c, t);
    StepGrounds(s, u, c);
    if s.th[u].WrQuit? {
      QuitGrounds(s, u, c);
    }
    hide Act, SlotInv, ThreadInv, Open, Refuses, After, Bumping, Rousing;
    assert s.slot.waitingWriters == 0 <==> Queue(s.th) == {};
    assert s'.slot.waitingWriters == 0 <==> Queue(s'.th) == {};
  }

  lemma ActWakes(s: State, u: Tid, c: Choice, t: Tid)
    requires u in s.th && Open(s.slot, u, s.th[u], c)
    requires t in s.th && t in After(s, u, c).th && s.th[t].RdAsleep? && After(s, u, c).th[t].RdAsleep?
    ensures !s.th[u].UnWake?
  {
    hide Act, Open;
    ActSequence(s.slot, u, s.th[u], c);
  }

  // What lets a reader in is announced, and an announcement under way is not lost.
  lemma StepGrounds(s: State, u: Tid, c: Choice)
    requires Inv(s) && u in s.th && Open(s.slot, u, s.th[u], c) && !s.th[u].UnWake?
    ensures var s' := After(s, u, c);
            && (Refuses(s.slot, false) && !Refuses(s'.slot, false) ==> Bumping(s'.th))
            && (Bumping(s.th) ==> Bumping(s'.th) || Rousing(s'.th))
            && (Rousing(s.th) ==> Rousing(s'.th))
            && (s.slot.waitingWriters != 0 && s'.slot.waitingWriters == 0 && !s.th[u].WrQuit? ==> Refuses(s'.slot, false))
  {
    hide Act, SlotInv, ThreadInv, Queue, Refuses, Open;
    assert ThreadInv(s.slot, u, s.th[u]);
    ActRefuses(s.slot, u, s.th[u], c, false);
    ActSequence(s.slot, u, s.th[u], c);
    RousingStays(s, u, c);
    if s.th[u].WrJoin? {
      RoomToJoin(s, u);
    }
    ActQueue(s.slot, u, s.th[u], c);
    var s' := After(s, u, c);
    if Act(s.slot, u, s.th[u], c).pc.UnSeq? {
      assert s'.th[u].UnSeq?;
    }
    if v :| v in s.th && v != u && s.th[v].UnSeq? {
      assert s'.th[v].UnSeq?;
    }
  }

  // A writer that gives up changes the queue and nothing else.
  lemma QuitGrounds(s: State, u: Tid, c: Choice)
    requires Inv(s) && u in s.th && Open(s.slot, u, s.th[u], c) && s.th[u].WrQuit?
    ensures var s' := After(s, u, c);
            && Refuses(s'.slot, false) == Refuses(s.slot, false)
            && Bumping(s'.th) == Bumping(s.th) && Rousing(s'.th) == Rousing(s.th)
            && Queue(s'.th) == Queue(s.th) - {u} && u in Queue(s.th)
  {
    hide Act, SlotInv, ThreadInv, Open;
    assert ThreadInv(s.slot, u, s.th[u]);
    ActQueue(s.slot, u, s.th[u], c);
    var s' := After(s, u, c);
    assert forall v :: v in s.th && v != u ==> s'.th[v] == s.th[v];
  }

  // ------------------------------------------------------------ how it goes wrong

  function Wakers(th: map<Tid, Pc>): set<Tid> {
    set u | u in th && th[u].UnWake?
  }

  // The releases under way make their wake calls; t, not asleep yet, does not move.
  lemma {:induction false} FinishWakes(r: seq<State>, t: Tid, write: bool) returns (r': seq<State>)
    requires 0 < |r| && IsRun(r) && t in Last(r).th && InWait(Last(r).th[t], write) && !Asleep(Last(r).th[t])
    ensures |r| <= |r'| && IsRun(r') && r == r'[..|r|]
    ensures forall m :: |r| <= m < |r'| ==> r'[m].slot == Last(r).slot && t in r'[m].th && r'[m].th[t] == Last(r).th[t]
    ensures Last(r').slot == Last(r).slot && t in Last(r').th && Last(r').th[t] == Last(r).th[t]
    ensures !Rousing(Last(r').th) && (Bumping(Last(r').th) ==> Bumping(Last(r).th))
    decreases |Wakers(Last(r).th)|
  {
    hide IsRun;
    if u :| u in Last(r).th && Last(r).th[u].UnWake? {
      var q := Advance(r, u, Go);
      FewerWakers(Last(r).th, u, Last(q).th);
      r' := FinishWakes(q, t, write);
      assert q == r'[..|q|] && r == q[..|r|];
    } else {
      r' := r;
    }
  }

  lemma FewerWakers(th: map<Tid, Pc>, u: Tid, th': map<Tid, Pc>)
    requires u in th && th[u].UnWake? && th'.Keys == th.Keys && th'[u].Idle?
    requires forall v :: v in th && v != u ==> th'[v] == Roused(th[v])
    ensures |Wakers(th')| < |Wakers(th)|
  {
    assert Wakers(th') == Wakers(th) - {u};
  }

  // An uncovered load: t loads, the wakes under way find it awake, and it sleeps.
  lemma Strand(r: seq<State>, t: Tid, write: bool, cause: Cause) returns (r': seq<State>)
    requires 0 < |r| && IsRun(r) && t in Last(r).th && AtLoad(Last(r).th[t], write)
    requires cause.ByQueue? ==> cause.quits == Last(r).slot.quits
    requires !Covered(Last(r), write, cause)
    ensures 0 < |r'| && Continues(r, t, write, r') && NobodyQuit(Last(r').slot, cause)
    ensures Stranded(Last(r'), t, write, cause)
  {
    hide IsRun, Same;
    SameNow(Last(r).slot);
    var a := Advance(r, t, Go);
    var b := FinishWakes(a, t, write);
    r' := Advance(b, t, Go);
    assert r == r'[..|r|];
  }

  lemma Advance(r: seq<State>, t: Tid, c: Choice) returns (r': seq<State>)
    requires 0 < |r| && IsRun(r) && t in Last(r).th && Open(Last(r).slot, t, Last(r).th[t], c)
    ensures 0 < |r'| && IsRun(r') && r' == r + [After(Last(r), t, c)]
  {
    hide After, Init, Open;
    var s' := After(Last(r), t, c);
    r' := r + [s'];
    forall i | 0 <= i < |r'| - 1 ensures Next(r'[i], r'[i + 1]) {
      if i < |r| - 1 {
        assert Next(r[i], r[i + 1]);
      }
    }
  }

  lemma WriteLock(r: seq<State>, t: Tid) returns (r': seq<State>)
    requires 0 < |r| && IsRun(r) && t in Last(r).th && Last(r).th[t].Idle?
    requires Last(r).slot == Slot(0, 0, 0, 0, multiset{}, 0, 0)
    ensures 0 < |r'| && IsRun(r')
    ensures Last(r') == State(Slot(-1, 0, 0, t, multiset{}, t, 0), Last(r).th[t := Idle(Ok)])
  {
    hide IsRun, Same;
    r' := Advance(r, t, Call(Write(Block)));
    r' := Advance(r', t, Go);
    r' := Advance(r', t, Go);
    r' := Advance(r', t, Go);
    r' := Advance(r', t, Go);
    r' := Advance(r', t, Go);
    assert Last(r').th == Last(r).th[t := Idle(Ok)];
  }

  lemma WriteUnlock(r: seq<State>, t: Tid, u: Tid) returns (r': seq<State>)
    requires 0 < |r| && IsRun(r) && u != t
    requires Last(r) == State(Slot(-1, 0, 0, t, multiset{}, t, 0), map[t := Idle(Ok), u := RdSeq(Block, 0, ByState)])
    ensures 0 < |r'| && IsRun(r')
    ensures Last(r') == State(Slot(0, 1, 0, 0, multiset{}, 0, 0), map[t := UnWake, u := RdSeq(Block, 0, ByState)])
  {
    hide IsRun, Same;
    r' := Advance(r, t, Call(Unlock));
    r' := Advance(r', t, Go);
    r' := Advance(r', t, Go);
    r' := Advance(r', t, Go);
    r' := Advance(r', t, Go);
    assert Last(r').th == map[t := UnWake, u := RdSeq(Block, 0, ByState)];
  }

  lemma FallAsleep(r: seq<State>, t: Tid) returns (r': seq<State>)
    requires 0 < |r| && IsRun(r) && t in Last(r).th && Last(r).th[t].RdSeq?
    ensures 0 < |r'| && IsRun(r')
    ensures var s := Last(r); Last(r') == s.(th := s.th[t := RdAsleep(s.th[t].mode, s.slot.sequence)])
  {
    hide IsRun, Same;
    SameNow(Last(r).slot);
    r' := Advance(r, t, Go);
    r' := Advance(r', t, Go);
    assert Last(r').th == Last(r).th[t := RdAsleep(Last(r).th[t].mode, Last(r).slot.sequence)];
  }

  // Thread 2 has found the lock taken and has not loaded the sequence yet.
  lemma ReaderTurnedAway() returns (r: seq<State>)
    ensures 0 < |r| && IsRun(r)
    ensures Last(r) == State(Slot(-1, 0, 0, 1, multiset{}, 1, 0), map[1 := Idle(Ok), 2 := RdSeq(Block, 0, ByState)])
  {
    r := [State(Slot(0, 0, 0, 0, multiset{}, 0, 0), map[1 := Idle(Ok), 2 := Idle(Ok)])];
    assert IsRun(r);
    hide IsRun, Same;
    r := WriteLock(r, 1);
    r := Advance(r, 2, Call(Read(Block)));
    r := Advance(r, 2, Go);
    assert Last(r).th == map[1 := Idle(Ok), 2 := RdSeq(Block, 0, ByState)];
  }

  // The waiter loads the sequence after it has tested the state. If the holder
  // releases in between, the waiter sleeps on a free lock with no wake to come.
  lemma WaiterCanSleepOnAFreeLock() returns (r: seq<State>)
    ensures 0 < |r| && IsRun(r)
    ensures Last(r) == State(Slot(0, 1, 0, 0, multiset{}, 0, 0),
                             map[1 := Idle(Ok), 2 := RdAsleep(Block, 1)])
  {
    hide IsRun, Same;
    r := ReaderTurnedAway();
    r := WriteUnlock(r, 1, 2);
    r := Advance(r, 1, Go);
    assert Last(r).th == map[1 := Idle(Ok), 2 := RdSeq(Block, 0, ByState)];
    r := FallAsleep(r, 2);
  }

  lemma ReadLock(r: seq<State>, t: Tid) returns (r': seq<State>)
    requires 0 < |r| && IsRun(r) && t in Last(r).th && Last(r).th[t].Idle?
    requires Last(r).slot == Slot(0, 0, 0, 0, multiset{}, 0, 0)
    ensures 0 < |r'| && IsRun(r')
    ensures Last(r') == State(Slot(1, 0, 0, 0, multiset{t}, 0, 0), Last(r).th[t := Idle(Ok)])
  {
    hide IsRun, Same;
    r' := Advance(r, t, Call(Read(Block)));
    r' := Advance(r', t, Go);
    r' := Advance(r', t, Go);
    r' := Advance(r', t, Go);
    assert Last(r').th == Last(r).th[t := Idle(Ok)];
  }

  // A reader turned away by a writer that gives up (here a trywrlock) is not
  // woken either: it sleeps though the lock is open to readers.
  lemma GatedReaderCanSleepOnAnOpenLock() returns (r: seq<State>)
    ensures 0 < |r| && IsRun(r)
    ensures Last(r) == State(Slot(1, 0, 0, 0, multiset{1}, 0, 1),
                             map[1 := Idle(Ok), 2 := RdAsleep(Block, 0), 3 := Idle(EBusy)])
  {
    hide Same;
    r := [State(Slot(0, 0, 0, 0, multiset{}, 0, 0), map[1 := Idle(Ok), 2 := Idle(Ok), 3 := Idle(Ok)])];
    assert IsRun(r);
    hide IsRun;
    r := ReadLock(r, 1);
    r := TryWriteMeetsReader(r);
    r := TryWriteGivesUp(r);
    r := FallAsleep(r, 2);
  }

  lemma TryWriteMeetsReader(r: seq<State>) returns (r': seq<State>)
    requires 0 < |r| && IsRun(r)
    requires Last(r).slot == Slot(1, 0, 0, 0, multiset{1}, 0, 0)
    requires 2 in Last(r).th && Last(r).th[2].Idle? && 3 in Last(r).th && Last(r).th[3].Idle?
    ensures 0 < |r'| && IsRun(r')
    ensures Last(r') == State(Slot(1, 0, 1, 0, multiset{1}, 0, 0),
                              Last(r).th[3 := WrCas(Try)][2 := RdSeq(Block, 0, ByQueue(0))])
  {
    hide IsRun, Same;
    r' := Advance(r, 3, Call(Write(Try)));
    r' := Advance(r', 3, Go);
    r' := Advance(r', 3, Go);
    r' := Advance(r', 2, Call(Read(Block)));
    r' := Advance(r', 2, Go);
    r' := Advance(r', 2, Go);
    assert Last(r').th == Last(r).th[3 := WrCas(Try)][2 := RdSeq(Block, 0, ByQueue(0))];
  }

  lemma TryWriteGivesUp(r: seq<State>) returns (r': seq<State>)
    requires 0 < |r| && IsRun(r) && 3 in Last(r).th && Last(r).th[3] == WrCas(Try)
    requires Last(r).slot == Slot(1, 0, 1, 0, multiset{1}, 0, 0)
    ensures 0 < |r'| && IsRun(r')
    ensures Last(r') == State(Slot(1, 0, 0, 0, multiset{1}, 0, 1), Last(r).th[3 := Idle(EBusy)])
  {
    hide IsRun, Same;
    r' := Advance(r, 3, Go);
    r' := Advance(r', 3, Go);
    assert Last(r').th == Last(r).th[3 := Idle(EBusy)];
  }

  lemma SameNow(x: Slot)
    ensures Same(x, x.sequence)
  {
  }
}
