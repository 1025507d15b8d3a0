/**
  Condition variables: wait, timedwait, signal and broadcast over the sequence
  word, for an unbounded set of threads.
 */
module Cond {

  // The mutex of a wait is taken as the exclusive lock that module Mutex proves it
  // to be: one word naming its holder. A thread's snapshot of the sequence is kept
  // as the unbounded number of increments it stands for; the futex compares the
  // 32-bit words.

  type Tid = n: nat | 0 < n witness 1

  const WORD: nat := 0x1_0000_0000

  // The 32-bit sequence word after k increments.
  function Low(k: nat): nat {
    k % WORD
  }

  function Inc(w: nat): nat {
    if w == WORD - 1 then 0 else w + 1
  }

  function Dec(w: nat): nat {
    if w == 0 then WORD - 1 else w - 1
  }

  // What a wait returns: 0, ETIMEDOUT, the EOWNERDEAD of the lock at its end, the
  // error of the futex, of the lock at its end or of the unlock before it, or a
  // deadline that is already past or invalid. `held` (history) says whether the
  // caller had the mutex.
  datatype Result =
    | Ok | TimedOut | OwnerDead | WaitError | RelockError | UnlockError
    | Early(expired: bool, held: bool)

  datatype Pc =
    | Idle
    | Locking                                // pthread_mutex_lock by the client
    | WClock(held: bool)                     // timedwait: relative timeout
    | WSnap(timed: bool)                     // about to load the sequence
    | WJoin(timed: bool, snap: nat)          // about to count itself in waiters
    | WUnlock(timed: bool, snap: nat)        // about to unlock the mutex
    | WAbort                                 // unlock failed: leave waiters, return its error
    | WFutex(timed: bool, snap: nat)         // about to compare and sleep
    | Asleep(timed: bool, snap: nat)
    | WLeave(res: Result)                    // about to leave waiters
    | WRelock(res: Result)                   // about to lock the mutex again
    | Back(res: Result)                      // the wait has just returned
    | SigInc | SigWake(n: nat, held: bool)
    | BcInc | BcWake(n: nat)

  datatype State = State(total: nat, waiters: nat, lock: nat, th: map<Tid, Pc>)

  datatype Op = Lock | Unlock | Wait(timed: bool) | Signal | Broadcast

  // Inherit: the lock at the end of a wait gives EOWNERDEAD.
  datatype Choice = Call(op: Op) | Go | Interrupt | Expire | Fail | Inherit

  datatype Wake = None | One | All

  datatype Effect = Effect(total: nat, waiters: nat, lock: nat, pc: Pc, wake: Wake)

  predicate Open(lock: nat, p: Pc, c: Choice) {
    match p
    case Idle => c.Call?
    case Locking => c.Go? && lock == 0
    case WClock(_) => c.Go? || c.Fail? || c.Expire?
    case WFutex(_, _) => c.Go? || c.Fail?
    case Asleep(timed, _) => c.Interrupt? || (timed && c.Expire?)
    case WRelock(_) => ((c.Go? || c.Inherit?) && lock == 0) || c.Fail?
    case _ => c.Go?
  }

  function To(s: State, p: Pc): Effect {
    Effect(s.total, s.waiters, s.lock, p, None)
  }

  function Begin(s: State, t: Tid, op: Op): Effect {
    match op
    case Lock => To(s, Locking)
    case Unlock => To(s.(lock := if s.lock == t then 0 else s.lock), Idle)
    case Wait(timed) => To(s, if timed then WClock(s.lock == t) else WSnap(false))
    case Signal => To(s, SigInc)
    case Broadcast => To(s, BcInc)
  }

  // One step of thread t at p: cond_wait_common, pthread_cond_signal, pthread_cond_broadcast.
  function Act(s: State, t: Tid, p: Pc, c: Choice): Effect
    requires Open(s.lock, p, c)
  {
    match p
    case Idle => Begin(s, t, c.op)
    case Locking => To(s.(lock := t), Idle)
    case WClock(held) => To(s, if c.Go? then WSnap(true) else Back(Early(c.Expire?, held)))
    case WSnap(timed) => To(s, WJoin(timed, s.total))
    case WJoin(timed, snap) => To(s.(waiters := Inc(s.waiters)), WUnlock(timed, snap))
    case WUnlock(timed, snap) =>
      if s.lock != t then To(s, WAbort) else To(s.(lock := 0), WFutex(timed, snap))
    case WAbort => To(s.(waiters := Dec(s.waiters)), Back(UnlockError))
    case WFutex(timed, snap) =>
      if c.Fail? then To(s, WLeave(WaitError))
      else if Low(s.total) == Low(snap) then To(s, Asleep(timed, snap))
      else To(s, WLeave(Ok))
    case Asleep(_, _) => To(s, WLeave(if c.Expire? then TimedOut else Ok))
    case WLeave(res) => To(s.(waiters := Dec(s.waiters)), WRelock(res))
    case WRelock(res) =>
      if c.Fail? then To(s, Back(RelockError)) else To(s.(lock := t), Back(if c.Inherit? then OwnerDead else res))
    case Back(_) => To(s, Idle)
    case SigInc => To(s.(total := s.total + 1), SigWake(s.total + 1, s.lock == t))
    case SigWake(_, _) => Effect(s.total, s.waiters, s.lock, Idle, One)
    case BcInc => To(s.(total := s.total + 1), BcWake(s.total + 1))
    case BcWake(_) => Effect(s.total, s.waiters, s.lock, Idle, All)
  }

  predicate NoSleeper(th: map<Tid, Pc>) {
    forall t :: t in th ==> !th[t].Asleep?
  }

  function Roused(p: Pc): Pc {
    if p.Asleep? then WLeave(Ok) else p
  }

  // The kernel wakes one sleeper of its choosing (if there is any), or all.
  predicate Woken(th: map<Tid, Pc>, w: Wake, th': map<Tid, Pc>) {
    match w
    case None => th' == th
    case One =>
      || (NoSleeper(th) && th' == th)
      || exists u: Tid :: u in th && th[u].Asleep? && th' == th[u := Roused(th[u])]
    case All => th' == map u | u in th :: Roused(th[u])
  }

  predicate Step(s: State, t: Tid, c: Choice, s': State) {
    && t in s.th
    && Open(s.lock, s.th[t], c)
    && var e := Act(s, t, s.th[t], c);
    && s'.total == e.total && s'.waiters == e.waiters && s'.lock == e.lock
    && Woken(s.th[t := e.pc], e.wake, s'.th)
  }

  ghost predicate Next(s: State, s': State) {
    exists t: Tid, c: Choice :: Step(s, t, c, s')
  }

  predicate Init(s: State) {
    && s.total == 0 && s.waiters == 0 && s.lock == 0
    && |s.th| < WORD
    && forall t :: t in s.th ==> s.th[t] == Idle
  }

  ghost predicate IsRun(r: seq<State>) {
    && 0 < |r|
    && Init(r[0])
    && forall i :: 0 <= i < |r| - 1 ==> Next(r[i], r[i + 1])
  }

  // Fewer than 2^32 signals and broadcasts pass between a wait's snapshot and
  // its futex call.
  ghost predicate Timely(s: State) {
    forall t :: t in s.th && s.th[t].WFutex? ==> s.total < s.th[t].snap + WORD
  }

  // ---------------------------------------------------------------- invariant

  predicate Counted(p: Pc) {
    p.WUnlock? || p.WAbort? || p.WFutex? || p.Asleep? || p.WLeave?
  }

  function Waiting(th: map<Tid, Pc>): set<Tid> {
    set t | t in th && Counted(th[t])
  }

  // In the futex, or certain to call it.
  predicate Blocked(p: Pc) {
    p.WFutex? || p.Asleep?
  }

  predicate SnapInv(total: nat, p: Pc) {
    && (p.WJoin? || p.WUnlock? || Blocked(p) ==> p.snap <= total)
    && (p.SigWake? || p.BcWake? ==> 0 < p.n <= total)
  }

  // A signaller that sent its signal holding the mutex holds it still, and
  // everyone blocked took its snapshot before that signal.
  predicate HeldSignal(s: State, g: Tid)
    requires g in s.th && s.th[g].SigWake? && s.th[g].held
  {
    && s.lock == g
    && forall t :: t in s.th && Blocked(s.th[t]) ==> s.th[t].snap < s.th[g].n
  }

  // The returns that leave the caller with the mutex.
  predicate WithMutex(res: Result) {
    match res
    case RelockError => false
    case UnlockError => false
    case Early(_, held) => held
    case _ => true
  }

  // Whether a thread inside a wait has the mutex.
  predicate BackInv(lock: nat, t: Tid, p: Pc) {
    match p
    case WClock(held) => lock == t <==> held
    case Back(res) => lock == t <==> WithMutex(res)
    case WLeave(res) => lock != t && WithMutex(res)
    case WRelock(res) => lock != t && WithMutex(res)
    case _ => p.WAbort? || Blocked(p) ==> lock != t
  }

  ghost predicate Inv(s: State) {
    && |s.th| < WORD
    && s.waiters == |Waiting(s.th)|
    && (forall t :: t in s.th ==> SnapInv(s.total, s.th[t]) && BackInv(s.lock, t, s.th[t]))
    && (forall g :: g in s.th && s.th[g].SigWake? && s.th[g].held ==> HeldSignal(s, g))
  }

  // ------------------------------------------------------------ preservation

  lemma WokenMoves(th: map<Tid, Pc>, w: Wake, th': map<Tid, Pc>)
    requires Woken(th, w, th')
    ensures th'.Keys == th.Keys
    ensures forall u :: u in th ==> th'[u] == th[u] || (th[u].Asleep? && th'[u] == WLeave(Ok))
    ensures w.All? ==> NoSleeper(th')
  {
  }

  // What a step changes, apart from whom it wakes.
  lemma ActFrame(s: State, t: Tid, c: Choice)
    requires t in s.th && Open(s.lock, s.th[t], c)
    ensures var p := s.th[t];
            var e := Act(s, t, p, c);
      && s.total <= e.total
      && (e.lock != s.lock ==> (s.lock == t && e.lock == 0) || (s.lock == 0 && e.lock == t))
      && (Blocked(e.pc) && !Blocked(p) ==> s.lock == t && p.WUnlock? && e.pc.snap == p.snap)
      && (Blocked(e.pc) && Blocked(p) ==> e.pc.snap == p.snap)
      && (SnapInv(s.total, p) ==> SnapInv(e.total, e.pc))
      && (BackInv(s.lock, t, p) ==> BackInv(e.lock, t, e.pc))
      && (e.pc.SigWake? ==> p.SigInc? && e.pc == SigWake(e.total, s.lock == t) && e.lock == s.lock && e.total == s.total + 1)
      && e.waiters == (if Counted(e.pc) && !Counted(p) then Inc(s.waiters)
                       else if Counted(p) && !Counted(e.pc) then Dec(s.waiters) else s.waiters)
  {
    hide Low;
  }

  // Only t can enter or leave the counted set.
  lemma WaitingStep(th: map<Tid, Pc>, t: Tid, th': map<Tid, Pc>)
    requires t in th && th'.Keys == th.Keys && |th| < WORD
    requires forall u :: u in th && u != t ==> (Counted(th'[u]) <==> Counted(th[u]))
    ensures var n, n' := |Waiting(th)|, |Waiting(th')|;
            n' == (if Counted(th'[t]) && !Counted(th[t]) then Inc(n)
                   else if Counted(th[t]) && !Counted(th'[t]) then Dec(n) else n)
  {
    var was := Waiting(th);
    assert Waiting(th') == if Counted(th'[t]) then was + {t} else was - {t};
    if t in was {
      assert was + {t} == was;
    } else {
      assert was - {t} == was;
    }
    Subset(was, th.Keys);
    assert |th.Keys| == |th|;
  }

  lemma WaitersStep(s: State, t: Tid, c: Choice, s': State)
    requires Inv(s) && Step(s, t, c, s')
    ensures s'.waiters == |Waiting(s'.th)| && |s'.th| == |s.th|
  {
    hide Act, Woken, SnapInv, BackInv, HeldSignal, Waiting, Inc, Dec;
    ActFrame(s, t, c);
    var e := Act(s, t, s.th[t], c);
    WokenMoves(s.th[t := e.pc], e.wake, s'.th);
    assert s'.th.Keys == s.th.Keys;
    assert |s'.th.Keys| == |s'.th| && |s.th.Keys| == |s.th|;
    WaitingStep(s.th, t, s'.th);
  }

  lemma Subset(a: set<Tid>, b: set<Tid>)
    requires a <= b
    ensures |a| <= |b|
    ensures forall t :: t in b && t !in a ==> |a| < |b|
  {
    assert |b - a| == |b| - |a|;
  }

  lemma HeldStep(s: State, t: Tid, c: Choice, s': State, g: Tid)
    requires Inv(s) && Step(s, t, c, s')
    requires g in s'.th && s'.th[g].SigWake? && s'.th[g].held
    ensures HeldSignal(s', g)
  {
    hide Act, Woken, Waiting, Counted;
    ActFrame(s, t, c);
    var e := Act(s, t, s.th[t], c);
    WokenMoves(s.th[t := e.pc], e.wake, s'.th);
    assert SnapInv(s.total, s.th[t]);
    if g == t {
      forall u | u in s'.th && Blocked(s'.th[u]) ensures s'.th[u].snap < s'.th[g].n {
        assert SnapInv(s.total, s.th[u]);
      }
    } else {
      assert HeldSignal(s, g);
    }
  }

  lemma StepInv(s: State, t: Tid, c: Choice, s': State)
    requires Inv(s) && Step(s, t, c, s')
    ensures Inv(s')
  {
    hide Act, Woken, Waiting;
    WaitersStep(s, t, c, s');
    ActFrame(s, t, c);
    var e := Act(s, t, s.th[t], c);
    WokenMoves(s.th[t := e.pc], e.wake, s'.th);
    forall u | u in s'.th ensures SnapInv(s'.total, s'.th[u]) && BackInv(s'.lock, u, s'.th[u]) {
      assert SnapInv(s.total, s.th[u]) && BackInv(s.lock, u, s.th[u]);
    }
    forall g | g in s'.th && s'.th[g].SigWake? && s'.th[g].held ensures HeldSignal(s', g) {
      HeldStep(s, t, c, s', g);
    }
  }

  lemma {:induction false} RunInv(r: seq<State>, i: nat)
    requires IsRun(r) && i < |r|
    ensures Inv(r[i])
  {
    if i == 0 {
      assert Waiting(r[0].th) == {};
    } else {
      RunInv(r, i - 1);
      hide Inv, Step, Init;
      assert Next(r[i - 1], r[i - 1 + 1]);
      var t: Tid, c: Choice :| Step(r[i - 1], t, c, r[i]);
      StepInv(r[i - 1], t, c, r[i]);
    }
  }

  lemma RunStep(r: seq<State>, i: nat) returns (t: Tid, c: Choice)
    requires IsRun(r) && i + 1 < |r|
    ensures Inv(r[i]) && Step(r[i], t, c, r[i + 1])
  {
    hide Inv, Init, Step;
    RunInv(r, i);
    assert Next(r[i], r[i + 1]);
    t, c :| Step(r[i], t, c, r[i + 1]);
  }

  // ---------------------------------------------------------------- theorems

  // Whatever pthread_cond_wait and timedwait return, the caller has the mutex, except
  // that an unlock or relock that failed leaves it without, and that a deadline refused
  // at once leaves things as they were at the call.
  lemma WaitReturnsHoldingTheMutex(r: seq<State>, i: nat, t: Tid)
    requires IsRun(r) && i < |r| && t in r[i].th && r[i].th[t].Back?
    ensures r[i].lock == t <==> var res := r[i].th[t].res;
              !res.RelockError? && !res.UnlockError? && (res.Early? ==> res.held)
  {
    RunInv(r, i);
    assert BackInv(r[i].lock, t, r[i].th[t]);
  }

  // A wait under way, begun with or without the mutex.
  predicate WaitAt(lock: nat, t: Tid, p: Pc, timed: bool, held: bool) {
    match p
    case WClock(h) => timed && h == held == (lock == t)
    case WSnap(w) => w == timed && held == (lock == t)
    case WJoin(w, _) => w == timed && held == (lock == t)
    case WUnlock(w, _) => w == timed && held == (lock == t)
    case WAbort => !held
    case WFutex(w, _) => w == timed && held
    case Asleep(w, _) => w == timed && held
    case WLeave(res) => held && (res.Ok? || res.WaitError? || (res.TimedOut? && timed))
    case WRelock(res) => held && (res.Ok? || res.WaitError? || (res.TimedOut? && timed))
    case _ => false
  }

  predicate WaitAnswer(timed: bool, held: bool, res: Result) {
    match res
    case UnlockError => !held
    case Early(_, h) => timed && h == held
    case TimedOut => timed && held
    case _ => held
  }

  lemma WaitMove(s: State, v: Tid, c: Choice, s': State, t: Tid, timed: bool, held: bool)
    requires Step(s, v, c, s') && t in s.th && WaitAt(s.lock, t, s.th[t], timed, held)
    ensures t in s'.th
    ensures if s'.th[t].Back? then WaitAnswer(timed, held, s'.th[t].res) else WaitAt(s'.lock, t, s'.th[t], timed, held)
  {
    var e := Act(s, v, s.th[v], c);
    WokenMoves(s.th[v := e.pc], e.wake, s'.th);
    hide Woken, Low, Inc, Dec;
  }

  // What a wait answers, in every interleaving: the unlock's error exactly when it was
  // called without the mutex and got so far, and ETIMEDOUT only if it was timed.
  lemma {:induction false} WaitAnswers(r: seq<State>, i: nat, j: nat, t: Tid)
    requires IsRun(r) && i <= j < |r| && t in r[i].th && (r[i].th[t].WClock? || r[i].th[t] == WSnap(false))
    requires forall k :: i <= k < j ==> t in r[k].th && !r[k].th[t].Back?
    ensures t in r[j].th
    ensures var timed, held := r[i].th[t].WClock?, r[i].lock == t;
            if r[j].th[t].Back? then WaitAnswer(timed, held, r[j].th[t].res)
            else WaitAt(r[j].lock, t, r[j].th[t], timed, held)
    decreases j
  {
    hide IsRun, Step;
    if i == j {
      RunInv(r, i);
      assert BackInv(r[i].lock, t, r[i].th[t]);
    } else {
      WaitAnswers(r, i, j - 1, t);
      var v, c := RunStep(r, j - 1);
      hide Inv, WaitAt;
      WaitMove(r[j - 1], v, c, r[j], t, r[i].th[t].WClock?, r[i].lock == t);
    }
  }

  // A sleeper whose deadline ends its sleep gets ETIMEDOUT, and one that is woken or
  // interrupted gets 0, unless the lock at the end has something else to say.
  lemma {:induction false} SleepAnswers(r: seq<State>, i: nat, j: nat, v: Tid, c: Choice, t: Tid)
    requires IsRun(r) && i < j < |r| && t in r[i].th && r[i].th[t].Asleep? && Step(r[i], v, c, r[i + 1])
    requires forall k :: i < k < j ==> t in r[k].th && (r[k].th[t].WLeave? || r[k].th[t].WRelock?)
    requires t in r[i + 1].th && !r[i + 1].th[t].Asleep?
    ensures t in r[j].th
    ensures var res := if v == t && c.Expire? then TimedOut else Ok;
            var p := r[j].th[t];
            p == WLeave(res) || p == WRelock(res) || p == Back(res) || p == Back(OwnerDead) || p == Back(RelockError)
    decreases j
  {
    hide IsRun, Step;
    if j == i + 1 {
      WakingUp(r[i], v, c, r[j], t);
    } else {
      SleepAnswers(r, i, j - 1, v, c, t);
      var u, d := RunStep(r, j - 1);
      hide Inv;
      LeavingMove(r[j - 1], u, d, r[j], t);
    }
  }

  // A deadline or an error, wherever it strikes, has an answer of its own.
  lemma DeadlineAnswers(s: State, t: Tid, c: Choice, s': State)
    requires Step(s, t, c, s') && (c.Expire? || c.Fail?)
    ensures t in s'.th
    ensures var p, p' := s.th[t], s'.th[t];
      && (p.WClock? ==> p' == Back(Early(c.Expire?, p.held)))
      && (p.Asleep? ==> p' == WLeave(TimedOut))
      && (p.WFutex? ==> p' == WLeave(WaitError))
      && (p.WRelock? ==> p' == Back(RelockError))
  {
    hide Low;
  }

  lemma WakingUp(s: State, v: Tid, c: Choice, s': State, t: Tid)
    requires Step(s, v, c, s') && t in s.th && s.th[t].Asleep? && t in s'.th && !s'.th[t].Asleep?
    ensures s'.th[t] == WLeave(if v == t && c.Expire? then TimedOut else Ok)
  {
    var e := Act(s, v, s.th[v], c);
    WokenMoves(s.th[v := e.pc], e.wake, s'.th);
    hide Woken, Low, Inc, Dec;
  }

  lemma LeavingMove(s: State, v: Tid, c: Choice, s': State, t: Tid)
    requires Step(s, v, c, s') && t in s.th && (s.th[t].WLeave? || s.th[t].WRelock?)
    ensures t in s'.th
    ensures var p, p' := s.th[t], s'.th[t];
            || p' == p || p' == WRelock(p.res) || p' == Back(p.res)
            || p' == Back(OwnerDead) || p' == Back(RelockError)
  {
    var e := Act(s, v, s.th[v], c);
    WokenMoves(s.th[v := e.pc], e.wake, s'.th);
    hide Woken, Low, Inc, Dec;
  }

  // pthread_cond_destroy's busy test reads exactly the threads between their two
  // updates of waiters.
  lemma WaitersIsExact(r: seq<State>, i: nat)
    requires IsRun(r) && i < |r|
    ensures r[i].waiters == 0 <==> forall t :: t in r[i].th ==> !Counted(r[i].th[t])
  {
    RunInv(r, i);
    if r[i].waiters != 0 {
      var t :| t in Waiting(r[i].th);
    } else {
      forall t | t in r[i].th ensures !Counted(r[i].th[t]) {
        assert t !in Waiting(r[i].th);
      }
    }
  }

  // A waiter falls asleep iff the sequence moved by a multiple of 2^32 since its
  // snapshot. So it sleeps through a signal iff a whole wrap has passed.
  lemma SleepsIffWholeWraps(s: State, t: Tid)
    requires t in s.th && s.th[t].WFutex? && s.th[t].snap <= s.total
    ensures Act(s, t, s.th[t], Go).pc.Asleep? <==> (s.total - s.th[t].snap) % WORD == 0
  {
    WrapTest(s.th[t].snap, s.total);
  }

  lemma WrapTest(a: nat, b: nat)
    requires a <= b
    ensures Low(a) == Low(b) <==> (b - a) % WORD == 0
  {
    var d := b - a;
    assert b == a + d;
    assert a == WORD * (a / WORD) + Low(a) && b == WORD * (b / WORD) + Low(b);
    assert d == WORD * (d / WORD) + d % WORD;
  }

  // Nobody who falls asleep in a timely state has missed an increment.
  lemma TimelySleep(s: State, t: Tid, c: Choice, s': State, u: Tid)
    requires Inv(s) && Timely(s) && Step(s, t, c, s')
    requires u in s'.th && s'.th[u].Asleep?
    ensures u in s.th && Blocked(s.th[u]) && s.th[u].snap == s'.th[u].snap
    ensures s.th[u].Asleep? || s'.th[u].snap == s.total
  {
    hide Act, Woken, Waiting, Low, Open;
    var e := Act(s, t, s.th[t], c);
    WokenMoves(s.th[t := e.pc], e.wake, s'.th);
    ActSleeps(s, t, c);
    assert SnapInv(s.total, s.th[u]);
    if s.th[u].WFutex? {
      WrapTest(s.th[u].snap, s.total);
    }
  }

  lemma ActSleeps(s: State, t: Tid, c: Choice)
    requires t in s.th && Open(s.lock, s.th[t], c)
    ensures var p, e := s.th[t], Act(s, t, s.th[t], c);
            e.pc.Asleep? ==> p.WFutex? && e.pc.snap == p.snap && Low(s.total) == Low(p.snap)
  {
    hide Low, Inc, Dec;
  }

  lemma TotalGrows(s: State, t: Tid, c: Choice, s': State)
    requires Step(s, t, c, s')
    ensures s.total <= s'.total
  {
  }

  // Thread b makes the wake call of the broadcast that was the n-th increment.
  predicate BroadcastEnds(s: State, b: Tid, n: nat, s': State) {
    b in s.th && s.th[b] == BcWake(n) && b in s'.th && s'.th[b].Idle?
  }

  // At that moment nobody is asleep at all.
  lemma BroadcastWakesAll(s: State, t: Tid, c: Choice, s': State, b: Tid, n: nat)
    requires Inv(s) && Step(s, t, c, s') && BroadcastEnds(s, b, n, s')
    ensures NoSleeper(s'.th) && n <= s.total
  {
    hide Waiting, Woken;
    var e := Act(s, t, s.th[t], c);
    WokenMoves(s.th[t := e.pc], e.wake, s'.th);
    assert SnapInv(s.total, s.th[b]);
  }

  // A broadcast is never lost: when its wake call is done, and for ever after,
  // no thread whose snapshot preceded its increment is asleep.
  lemma {:induction false} BroadcastReachesEveryone(r: seq<State>, i: nat, j: nat, b: Tid, n: nat)
    requires IsRun(r) && i < j < |r|
    requires forall k :: i <= k < j ==> Timely(r[k])
    requires BroadcastEnds(r[i], b, n, r[i + 1])
    ensures n <= r[j].total
    ensures forall t :: t in r[j].th && r[j].th[t].Asleep? ==> n <= r[j].th[t].snap
    decreases j
  {
    hide Inv, Init, Step, Timely;
    var t, c := RunStep(r, j - 1);
    TotalGrows(r[j - 1], t, c, r[j]);
    if j == i + 1 {
      BroadcastWakesAll(r[i], t, c, r[j], b, n);
    } else {
      BroadcastReachesEveryone(r, i, j - 1, b, n);
      forall u | u in r[j].th && r[j].th[u].Asleep? ensures n <= r[j].th[u].snap {
        TimelySleep(r[j - 1], t, c, r[j], u);
      }
    }
  }

  // Thread g makes the wake call of a signal it sent, the n-th increment, holding the mutex.
  predicate SignalEnds(s: State, g: Tid, n: nat, s': State) {
    g in s.th && s.th[g] == SigWake(n, true) && g in s'.th && s'.th[g].Idle?
  }

  // A waiter that took its snapshot before increment n and is done with the
  // futex, or will find the word changed when it gets there.
  predicate Released(s: State, u: Tid, n: nat, s': State) {
    && u in s.th && Blocked(s.th[u]) && s.th[u].snap < n
    && u in s'.th
    && (s'.th[u].WLeave? || (s'.th[u].WFutex? && s'.th[u].snap < s'.total))
  }

  ghost predicate SomeReleased(s: State, n: nat, s': State) {
    exists u :: Released(s, u, n, s')
  }

  // A signal sent with the mutex held is never lost to a latecomer: if anybody
  // is blocked when it is sent, it releases a thread blocked before it.
  lemma SignalReleasesAnEarlierWaiter(r: seq<State>, i: nat, g: Tid, n: nat, w: Tid)
    requires IsRun(r) && i + 1 < |r|
    requires SignalEnds(r[i], g, n, r[i + 1])
    requires w in r[i].th && Blocked(r[i].th[w])
    ensures SomeReleased(r[i], n, r[i + 1])
  {
    hide IsRun, SomeReleased;
    var t, c := RunStep(r, i);
    SignalStep(r[i], t, c, r[i + 1], g, n);
    assert HeldSignal(r[i], g);
    HeardStep(r[i], g, r[i + 1], w);
  }

  lemma SignalStep(s: State, t: Tid, c: Choice, s': State, g: Tid, n: nat)
    requires Step(s, t, c, s') && SignalEnds(s, g, n, s')
    ensures t == g && c.Go?
  {
    var e := Act(s, t, s.th[t], c);
    WokenMoves(s.th[t := e.pc], e.wake, s'.th);
    hide Woken;
  }

  ghost predicate SomeoneShortOfTheFutex(s: State, n: nat) {
    exists w :: w in s.th && s.th[w].WFutex? && s.th[w].snap < n
  }

  ghost predicate NoLatecomerAsleep(s: State, n: nat) {
    forall u :: u in s.th && s.th[u].Asleep? ==> s.th[u].snap < n
  }

  // With or without the mutex: the wake call of the n-th increment is sure to release
  // a thread blocked before it exactly when such a thread has yet to make its futex
  // call, or nobody who blocked after the increment is asleep.
  lemma SignalIsHeardIff(r: seq<State>, i: nat, g: Tid, w: Tid)
    requires IsRun(r) && i < |r| && g in r[i].th && r[i].th[g].SigWake?
    requires w in r[i].th && Blocked(r[i].th[w]) && r[i].th[w].snap < r[i].th[g].n
    ensures var s, n := r[i], r[i].th[g].n;
            (forall s' :: Step(s, g, Go, s') ==> SomeReleased(s, n, s'))
              <==> SomeoneShortOfTheFutex(s, n) || NoLatecomerAsleep(s, n)
  {
    hide IsRun, Step, SomeReleased;
    var s, n := r[i], r[i].th[g].n;
    RunInv(r, i);
    if SomeoneShortOfTheFutex(s, n) || NoLatecomerAsleep(s, n) {
      forall s' | Step(s, g, Go, s') ensures SomeReleased(s, n, s') {
        HeardStep(s, g, s', w);
      }
    } else {
      var s' := Unheard(s, g);
    }
  }

  lemma HeardStep(s: State, g: Tid, s': State, w: Tid)
    requires Inv(s) && g in s.th && s.th[g].SigWake? && Step(s, g, Go, s')
    requires w in s.th && Blocked(s.th[w]) && s.th[w].snap < s.th[g].n
    requires SomeoneShortOfTheFutex(s, s.th[g].n) || NoLatecomerAsleep(s, s.th[g].n)
    ensures SomeReleased(s, s.th[g].n, s')
  {
    hide Waiting;
    var n := s.th[g].n;
    var mid := s.th[g := Idle];
    assert SnapInv(s.total, s.th[g]);
    WokenMoves(mid, One, s'.th);
    if v :| v in s.th && s.th[v].WFutex? && s.th[v].snap < n {
      assert Released(s, v, n, s');
    } else {
      assert mid[w].Asleep?;
      var u: Tid :| u in mid && mid[u].Asleep? && s'.th == mid[u := Roused(mid[u])];
      assert Released(s, u, n, s');
    }
  }

  // The kernel wakes the latecomer.
  lemma Unheard(s: State, g: Tid) returns (s': State)
    requires g in s.th && s.th[g].SigWake?
    requires !SomeoneShortOfTheFutex(s, s.th[g].n) && !NoLatecomerAsleep(s, s.th[g].n)
    ensures Step(s, g, Go, s') && !SomeReleased(s, s.th[g].n, s')
  {
    var u :| u in s.th && s.th[u].Asleep? && s.th[u].snap >= s.th[g].n;
    var mid := s.th[g := Idle];
    assert u in mid && mid[u].Asleep?;
    s' := s.(th := mid[u := Roused(mid[u])]);
  }

  // ... and a released thread never sleeps in that wait again.
  lemma {:induction false} ReleasedStaysAwake(r: seq<State>, i: nat, j: nat, u: Tid)
    requires IsRun(r) && i <= j < |r|
    requires u in r[i].th && r[i].th[u].WFutex? && r[i].th[u].snap < r[i].total
    requires forall k :: i <= k < j ==> Timely(r[k]) && u in r[k].th && r[k].th[u] == r[i].th[u]
    ensures r[i].total <= r[j].total
    ensures u in r[j].th && (r[j].th[u] == r[i].th[u] || r[j].th[u].WLeave?)
    decreases j
  {
    hide Inv, Init, Step;
    if i < j {
      ReleasedStaysAwake(r, i, j - 1, u);
      var t, c := RunStep(r, j - 1);
      TotalGrows(r[j - 1], t, c, r[j]);
      AwakeStep(r[j - 1], t, c, r[j], u);
    }
  }

  lemma AwakeStep(s: State, t: Tid, c: Choice, s': State, u: Tid)
    requires Inv(s) && Timely(s) && Step(s, t, c, s')
    requires u in s.th && s.th[u].WFutex? && s.th[u].snap < s.total
    ensures u in s'.th && (s'.th[u] == s.th[u] || s'.th[u].WLeave?)
  {
    hide Waiting, Woken, Low;
    WrapTest(s.th[u].snap, s.total);
    var e := Act(s, t, s.th[t], c);
    WokenMoves(s.th[t := e.pc], e.wake, s'.th);
  }

  // ------------------------------------------------- a signal sent without it

  function Last(r: seq<State>): State
    requires 0 < |r|
  {
    r[|r| - 1]
  }

  lemma Extend(r: seq<State>, t: Tid, c: Choice, s': State) returns (r': seq<State>)
    requires 0 < |r| && IsRun(r) && Step(Last(r), t, c, s')
    ensures IsRun(r') && r' == r + [s']
  {
    hide Step, Init;
    r' := r + [s'];
    forall i | 0 <= i < |r'| - 1 ensures Next(r'[i], r'[i + 1]) {
      if i < |r| - 1 {
        assert Next(r[i], r[i + 1]);
      } else {
        assert Step(r'[i], t, c, r'[i + 1]);
      }
    }
  }

  // A step that wakes nobody.
  lemma Advance(r: seq<State>, t: Tid, c: Choice) returns (r': seq<State>)
    requires 0 < |r| && IsRun(r) && t in Last(r).th && Open(Last(r).lock, Last(r).th[t], c)
    requires Act(Last(r), t, Last(r).th[t], c).wake.None?
    ensures 0 < |r'| && IsRun(r')
    ensures var e := Act(Last(r), t, Last(r).th[t], c);
            Last(r') == State(e.total, e.waiters, e.lock, Last(r).th[t := e.pc])
  {
    hide Act, IsRun;
    var e := Act(Last(r), t, Last(r).th[t], c);
    var s' := State(e.total, e.waiters, e.lock, Last(r).th[t := e.pc]);
    assert Step(Last(r), t, c, s');
    r' := Extend(r, t, c, s');
  }

  lemma LockAndSleep(r: seq<State>, t: Tid) returns (r': seq<State>)
    requires 0 < |r| && IsRun(r) && Last(r).lock == 0 && Last(r).waiters < 9
    requires t in Last(r).th && Last(r).th[t].Idle?
    ensures 0 < |r'| && IsRun(r')
    ensures var s := Last(r); Last(r') == s.(waiters := s.waiters + 1, th := s.th[t := Asleep(false, s.total)])
  {
    hide IsRun, Low;
    r' := Advance(r, t, Call(Lock));
    r' := Advance(r', t, Go);
    r' := Advance(r', t, Call(Wait(false)));
    r' := Advance(r', t, Go);
    r' := Advance(r', t, Go);
    r' := Advance(r', t, Go);
    r' := Advance(r', t, Go);
    var s := Last(r);
    assert Last(r').th == s.th[t := Asleep(false, s.total)];
  }

  // Thread 1 is blocked when thread 3 signals, and thread 2 blocks after the increment.
  lemma TwoAsleepOneSignalling() returns (r: seq<State>)
    ensures 0 < |r| && IsRun(r)
    ensures Last(r).th == map[1 := Asleep(false, 0), 2 := Asleep(false, 1), 3 := SigWake(1, false)]
  {
    var s0 := State(0, 0, 0, map[1 := Idle, 2 := Idle, 3 := Idle]);
    r := [s0];
    assert IsRun(r);
    hide IsRun;
    r := LockAndSleep(r, 1);
    r := Advance(r, 3, Call(Signal));
    r := Advance(r, 3, Go);
    r := LockAndSleep(r, 2);
  }

  // Without the mutex the guarantee fails: the wake goes to thread 2, and
  // thread 1, blocked before the signal, sleeps on with no wake to come.
  lemma SignalWithoutMutexCanMiss() returns (r: seq<State>)
    ensures IsRun(r) && |r| > 1
    ensures r[|r| - 2].th == map[1 := Asleep(false, 0), 2 := Asleep(false, 1), 3 := SigWake(1, false)]
    ensures r[|r| - 1].th == map[1 := Asleep(false, 0), 2 := WLeave(Ok), 3 := Idle]
  {
    r := TwoAsleepOneSignalling();
    hide IsRun;
    var s := Last(r);
    var mid := s.th[3 := Idle];
    var s' := s.(th := mid[2 := Roused(mid[2])]);
    assert 2 in mid && mid[2].Asleep?;
    assert Step(s, 3, Go, s');
    r := Extend(r, 3, Go, s');
  }
}
