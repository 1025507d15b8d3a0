/**
  pthread_barrier_wait as a transition system over exactly `count` threads.
 */
module Barrier {

  // The slot holds `waiting` and a 32-bit generation word. The history variables
  // are the unbounded round number behind that word, the thread that closed each
  // round, and for every thread how many rounds it has entered and what each of
  // its completed calls returned.

  type Tid = nat

  const WORD: nat := 0x1_0000_0000

  // The 32-bit word that stands for an unbounded round number.
  function Low(k: nat): nat {
    k % WORD
  }

  datatype Pc =
    | Out                        // not in a call
    | Load                       // about to load generation_word
    | Add(seen: nat)             // about to add one to waiting
    | Reset                      // last to arrive: about to store waiting = 0
    | Advance                    // about to add one to generation_word
    | WakeAll                    // about to wake every sleeper
    | Test(seen: nat)            // about to compare generation_word again
    | Sleep(seen: nat)           // about to enter the futex
    | Asleep(seen: nat)
    | Failed                     // the futex gave an error, and so did the call

  datatype Thread = Thread(pc: Pc, entered: nat, results: seq<bool>)

  datatype State = State(
    count: nat, waiting: nat, word: nat,
    th: map<Tid, Thread>, closers: seq<Tid>)

  // The number of completed rounds.
  function Round(s: State): nat {
    |s.closers|
  }

  predicate Init(s: State) {
    && 0 < s.count == |s.th|
    && s.waiting == 0 && s.word == 0 && s.closers == []
    && forall t :: t in s.th ==> s.th[t] == Thread(Out, 0, [])
  }

  function Set(s: State, t: Tid, p: Pc): State
    requires t in s.th
  {
    s.(th := s.th[t := s.th[t].(pc := p)])
  }

  function Return(s: State, t: Tid, serial: bool): State
    requires t in s.th
  {
    s.(th := s.th[t := s.th[t].(pc := Out, results := s.th[t].results + [serial])])
  }

  function Rouse(me: Thread): Thread {
    if me.pc.Asleep? then me.(pc := Test(me.pc.seen)) else me
  }

  // One step of thread t. A sleeper moves only when a signal ends its sleep, and a
  // thread whose call gave an error not at all.
  function Step(s: State, t: Tid): State
    requires t in s.th
  {
    var me := s.th[t];
    match me.pc
    case Out => Set(s, t, Load)
    case Load => Set(s, t, Add(s.word))
    case Add(seen) =>
      var n := s.waiting + 1;
      s.(waiting := n,
         th := s.th[t := me.(entered := me.entered + 1, pc := if n == s.count then Reset else Test(seen))])
    case Reset => Set(s.(waiting := 0), t, Advance)
    case Advance => Set(s.(word := (s.word + 1) % WORD, closers := s.closers + [t]), t, WakeAll)
    case WakeAll => Return(s.(th := map u | u in s.th :: Rouse(s.th[u])), t, true)
    case Test(seen) => if s.word == seen then Set(s, t, Sleep(seen)) else Return(s, t, false)
    case Sleep(seen) => if s.word == seen then Set(s, t, Asleep(seen)) else Set(s, t, Test(seen))
    case Asleep(seen) => Set(s, t, Test(seen))
    case Failed => s
  }

  predicate CanFail(s: State, t: Tid) {
    t in s.th && (s.th[t].pc.Sleep? || s.th[t].pc.Asleep?)
  }

  // The futex call of t ends with an error other than EAGAIN and EINTR.
  function Fail(s: State, t: Tid): State
    requires CanFail(s, t)
  {
    Set(s, t, Failed)
  }

  ghost predicate Next(s: State, s': State) {
    exists t: Tid :: t in s.th && (s' == Step(s, t) || (CanFail(s, t) && s' == Fail(s, t)))
  }

  ghost predicate IsRun(r: seq<State>) {
    && 0 < |r|
    && Init(r[0])
    && forall i :: 0 <= i < |r| - 1 ==> Next(r[i], r[i + 1])
  }

  // ---------------------------------------------------------------- invariant

  // The threads that have entered the round in progress, when k are complete.
  function Arrived(th: map<Tid, Thread>, k: nat): set<Tid> {
    set t | t in th && th[t].entered == k + 1
  }

  predicate Waits(p: Pc) {
    p.Test? || p.Sleep? || p.Asleep?
  }

  predicate Before(p: Pc) {
    p.Out? || p.Load? || p.Add?
  }

  predicate Closing(p: Pc) {
    p.Reset? || p.Advance?
  }

  // What each completed call of t returned: the serial value iff t closed that round.
  predicate ResultsAgree(closers: seq<Tid>, t: Tid, results: seq<bool>) {
    && |results| <= |closers|
    && forall j :: 0 <= j < |results| ==> (results[j] <==> closers[j] == t)
  }

  // The word a waiter compares against belongs to the round before the one it entered.
  predicate ThreadInv(closers: seq<Tid>, t: Tid, me: Thread) {
    var k := |closers|;
    && k <= me.entered <= k + 1
    && me.entered == |me.results| + (if Before(me.pc) then 0 else 1)
    && (Before(me.pc) || me.pc.WakeAll? ==> me.entered == k)
    && (Closing(me.pc) ==> me.entered == k + 1)
    && (me.pc.Add? ==> me.pc.seen == Low(k))
    && (Waits(me.pc) ==> me.pc.seen == Low(me.entered - 1))
    && ((Waits(me.pc) || me.pc.WakeAll?) && me.entered == k ==> (closers[k - 1] == t <==> me.pc.WakeAll?))
    && ResultsAgree(closers, t, me.results)
  }

  predicate NobodyCloses(th: map<Tid, Thread>) {
    forall t :: t in th ==> !Closing(th[t].pc)
  }

  // Everybody has arrived and t alone is closing the round.
  predicate Closes(s: State, t: Tid) {
    && t in s.th && Closing(s.th[t].pc)
    && s.waiting == (if s.th[t].pc.Reset? then s.count else 0)
    && (forall u :: u in s.th ==> s.th[u].entered == Round(s) + 1)
    && (forall u :: u in s.th && u != t ==> !Closing(s.th[u].pc))
  }

  // Either nobody is closing the round and `waiting` counts the arrivals, or
  // one thread is closing it and everybody has arrived.
  ghost predicate CountInv(s: State) {
    || (NobodyCloses(s.th) && s.waiting == |Arrived(s.th, Round(s))| < s.count)
    || (exists t :: Closes(s, t))
  }

  ghost predicate WakePending(th: map<Tid, Thread>) {
    exists u :: u in th && th[u].pc.WakeAll?
  }

  // A sleeper of a completed round has its wake still coming.
  ghost predicate WakeInv(s: State) {
    (exists t :: t in s.th && s.th[t].pc.Asleep? && s.th[t].entered == Round(s)) ==> WakePending(s.th)
  }

  ghost predicate Inv(s: State) {
    && 0 < s.count == |s.th|
    && s.word == Low(Round(s))
    && (forall t :: t in s.th ==> ThreadInv(s.closers, t, s.th[t]))
    && CountInv(s)
    && WakeInv(s)
  }

  // ------------------------------------------------------------ preservation

  // A thread that finds the word it loaded is waiting for the round in progress:
  // the counter cannot have moved past it by a multiple of 2^32.
  lemma WordTestIsExact(closers: seq<Tid>, t: Tid, me: Thread)
    requires ThreadInv(closers, t, me) && Waits(me.pc)
    ensures Low(|closers|) == me.pc.seen <==> me.entered == |closers| + 1
  {
  }

  // Steps that touch neither the slot nor anyone's round.
  predicate Plain(p: Pc) {
    Waits(p) || p.Out? || p.Load? || p.Failed?
  }

  lemma PlainMove(s: State, t: Tid)
    requires Inv(s) && t in s.th && Plain(s.th[t].pc)
    ensures var me := s.th[t];
            var s' := Step(s, t);
            && s' == s.(th := s.th[t := s'.th[t]])
            && s'.th[t].entered == me.entered
            && ThreadInv(s.closers, t, s'.th[t])
            && !Closing(s'.th[t].pc) && !me.pc.WakeAll? && !Closing(me.pc)
            && (s'.th[t].pc.Asleep? ==> me.entered == Round(s) + 1)
  {
    hide Low, CountInv, WakeInv;
    assert ThreadInv(s.closers, t, s.th[t]);
    if Waits(s.th[t].pc) {
      WordTestIsExact(s.closers, t, s.th[t]);
    }
  }

  lemma PlainStep(s: State, t: Tid)
    requires Inv(s) && t in s.th && Plain(s.th[t].pc)
    ensures Inv(Step(s, t))
  {
    hide Step, ThreadInv, Low;
    PlainMove(s, t);
    var s' := Step(s, t);
    assert Arrived(s'.th, Round(s')) == Arrived(s.th, Round(s));
    if c :| Closes(s, c) {
      assert Closes(s', c);
    }
    if WakePending(s.th) {
      var v :| v in s.th && s.th[v].pc.WakeAll?;
      assert s'.th[v].pc.WakeAll?;
    }
  }

  lemma FailedThread(closers: seq<Tid>, t: Tid, me: Thread)
    requires ThreadInv(closers, t, me) && Waits(me.pc)
    ensures ThreadInv(closers, t, me.(pc := Failed))
  {
    hide Low;
  }

  lemma FailStep(s: State, t: Tid)
    requires Inv(s) && CanFail(s, t)
    ensures Inv(Fail(s, t))
  {
    hide Low, ThreadInv;
    var s' := Fail(s, t);
    FailedThread(s.closers, t, s.th[t]);
    assert Arrived(s'.th, Round(s')) == Arrived(s.th, Round(s));
    if c :| Closes(s, c) {
      assert Closes(s', c);
    }
    if WakePending(s.th) {
      var v :| v in s.th && s.th[v].pc.WakeAll?;
      assert s'.th[v].pc.WakeAll?;
    }
  }

  lemma FullSet(a: set<Tid>, b: set<Tid>)
    requires a <= b && |a| == |b|
    ensures a == b
  {
    assert |b - a| == |b| - |a|;
  }

  lemma AddMove(s: State, t: Tid)
    requires Inv(s) && t in s.th && s.th[t].pc.Add?
    ensures s.th[t].entered == Round(s)
    ensures NobodyCloses(s.th) && s.waiting == |Arrived(s.th, Round(s))| < s.count
    ensures ThreadInv(s.closers, t, Step(s, t).th[t])
  {
    hide Low, WakeInv;
    assert ThreadInv(s.closers, t, s.th[t]);
    assert !exists c :: Closes(s, c);
  }

  lemma AddStep(s: State, t: Tid)
    requires Inv(s) && t in s.th && s.th[t].pc.Add?
    ensures Inv(Step(s, t))
  {
    hide ThreadInv, Low;
    AddMove(s, t);
    var s' := Step(s, t);
    assert Arrived(s'.th, Round(s')) == Arrived(s.th, Round(s)) + {t};
    if s.waiting + 1 == s.count {
      FullSet(Arrived(s'.th, Round(s')), s'.th.Keys);
      assert forall u :: u in s'.th ==> u in Arrived(s'.th, Round(s'));
      assert Closes(s', t);
    }
    if WakePending(s.th) {
      var v :| v in s.th && s.th[v].pc.WakeAll?;
      assert s'.th[v].pc.WakeAll?;
    }
  }

  lemma ResetStep(s: State, t: Tid)
    requires Inv(s) && t in s.th && s.th[t].pc.Reset?
    ensures Inv(Step(s, t))
  {
    hide Low;
    var s' := Step(s, t);
    assert ThreadInv(s.closers, t, s.th[t]);
    assert Closes(s, t);
    assert Closes(s', t);
  }

  // Closing a round turns every waiter of it into a waiter of a completed round.
  lemma ThreadOverAdvance(closers: seq<Tid>, t: Tid, u: Tid, me: Thread)
    requires ThreadInv(closers, u, me) && me.entered == |closers| + 1
    requires if u == t then me.pc.Advance? else !Closing(me.pc)
    ensures ThreadInv(closers + [t], u, if u == t then me.(pc := WakeAll) else me)
  {
    hide Low;
  }

  lemma AdvanceStep(s: State, t: Tid)
    requires Inv(s) && t in s.th && s.th[t].pc.Advance?
    ensures Inv(Step(s, t))
  {
    hide ThreadInv, Low, Arrived;
    var s' := Step(s, t);
    LowNext(Round(s));
    assert Closes(s, t);
    forall u | u in s'.th ensures ThreadInv(s'.closers, u, s'.th[u]) {
      ThreadOverAdvance(s.closers, t, u, s.th[u]);
    }
    NoArrivals(s'.th, Round(s'));
    assert s'.th[t].pc.WakeAll?;
  }

  lemma LowNext(k: nat)
    ensures Low(k + 1) == (Low(k) + 1) % WORD
  {
  }

  lemma NoArrivals(th: map<Tid, Thread>, k: nat)
    requires forall t :: t in th ==> th[t].entered == k
    ensures |Arrived(th, k)| == 0
  {
    assert Arrived(th, k) == {};
  }

  lemma WakeMove(s: State, t: Tid, u: Tid)
    requires Inv(s) && t in s.th && s.th[t].pc.WakeAll? && u in s.th
    ensures var s' := Step(s, t);
            && u in s'.th && ThreadInv(s.closers, u, s'.th[u])
            && s'.th[u].entered == s.th[u].entered
            && !s'.th[u].pc.Asleep?
            && (Closing(s'.th[u].pc) <==> Closing(s.th[u].pc))
    ensures s.th[t].entered == Round(s)
  {
    hide Low, CountInv, WakeInv;
    assert ThreadInv(s.closers, t, s.th[t]);
    assert ThreadInv(s.closers, u, s.th[u]);
  }

  lemma WakeStep(s: State, t: Tid)
    requires Inv(s) && t in s.th && s.th[t].pc.WakeAll?
    ensures Inv(Step(s, t))
  {
    var s' := Step(s, t);
    assert s'.th.Keys == s.th.Keys;
    assert s' == s.(th := s'.th);
    hide Step, ThreadInv, Low;
    forall u | u in s'.th
      ensures ThreadInv(s'.closers, u, s'.th[u]) && s'.th[u].entered == s.th[u].entered
      ensures !s'.th[u].pc.Asleep? && (Closing(s'.th[u].pc) <==> Closing(s.th[u].pc))
    {
      WakeMove(s, t, u);
    }
    WakeMove(s, t, t);
    assert Arrived(s'.th, Round(s)) == Arrived(s.th, Round(s));
    assert !exists c :: Closes(s, c);
  }

  lemma StepInv(s: State, t: Tid)
    requires Inv(s) && t in s.th
    ensures Inv(Step(s, t))
  {
    hide Inv, Step;
    match s.th[t].pc
    case Add(_) => AddStep(s, t);
    case Reset => ResetStep(s, t);
    case Advance => AdvanceStep(s, t);
    case WakeAll => WakeStep(s, t);
    case _ => PlainStep(s, t);
  }

  lemma StepFrame(s: State, t: Tid)
    requires t in s.th
    ensures Step(s, t).count == s.count && Step(s, t).th.Keys == s.th.Keys
    ensures CanFail(s, t) ==> Fail(s, t).count == s.count && Fail(s, t).th.Keys == s.th.Keys
  {
  }

  lemma {:induction false} RunInv(r: seq<State>, i: nat)
    requires IsRun(r) && i < |r|
    ensures Inv(r[i])
    ensures r[i].count == r[0].count && r[i].th.Keys == r[0].th.Keys
  {
    if i == 0 {
      assert Arrived(r[0].th, 0) == {};
    } else {
      hide Inv, Init, Step, Fail;
      RunInv(r, i - 1);
      assert Next(r[i - 1], r[i - 1 + 1]);
      var s := r[i - 1];
      var t: Tid :| t in s.th && (r[i] == Step(s, t) || (CanFail(s, t) && r[i] == Fail(s, t)));
      if CanFail(s, t) {
        FailStep(s, t);
      }
      StepInv(s, t);
      StepFrame(s, t);
    }
  }

  // ---------------------------------------------------------------- theorems

  // No thread leaves round n before every thread has entered it.
  lemma NobodyLeavesEarly(r: seq<State>, i: nat, t: Tid, u: Tid)
    requires IsRun(r) && i < |r| && t in r[i].th && u in r[i].th
    ensures |r[i].th[t].results| <= r[i].th[u].entered
  {
    RunInv(r, i);
    assert ThreadInv(r[i].closers, t, r[i].th[t]) && ThreadInv(r[i].closers, u, r[i].th[u]);
  }

  predicate GotSerial(s: State, t: Tid, n: nat) {
    t in s.th && n < |s.th[t].results| && s.th[t].results[n]
  }

  // The serial value of a round goes to one thread at most, and once all have
  // left the round, to exactly one.
  lemma OneSerialPerRound(r: seq<State>, i: nat, n: nat)
    requires IsRun(r) && i < |r|
    ensures forall t, u :: GotSerial(r[i], t, n) && GotSerial(r[i], u, n) ==> t == u
    ensures (forall t :: t in r[i].th ==> n < |r[i].th[t].results|) ==>
              exists t :: GotSerial(r[i], t, n)
  {
    RunInv(r, i);
    forall t, u | GotSerial(r[i], t, n) && GotSerial(r[i], u, n) ensures t == u
    {
      assert ThreadInv(r[i].closers, t, r[i].th[t]) && ThreadInv(r[i].closers, u, r[i].th[u]);
    }
    if forall t :: t in r[i].th ==> n < |r[i].th[t].results| {
      ClosersTakePart(r, i);
      SomeThread(r[i]);
      var w :| w in r[i].th;
      assert ThreadInv(r[i].closers, w, r[i].th[w]);
      var c := r[i].closers[n];
      assert ThreadInv(r[i].closers, c, r[i].th[c]);
      assert GotSerial(r[i], c, n);
    }
  }

  lemma SomeThread(s: State)
    requires Inv(s)
    ensures exists t :: t in s.th
  {
    assert s.th.Keys != {};
  }

  lemma {:induction false} ClosersTakePart(r: seq<State>, i: nat)
    requires IsRun(r) && i < |r|
    ensures forall n :: 0 <= n < |r[i].closers| ==> r[i].closers[n] in r[i].th
  {
    if i > 0 {
      ClosersTakePart(r, i - 1);
      assert Next(r[i - 1], r[i - 1 + 1]);
    }
  }

  // A sleeper waits for the round in progress, or the thread that closed its
  // round has not made its wake call yet.
  lemma NobodyLeftAsleep(r: seq<State>, i: nat, t: Tid)
    requires IsRun(r) && i < |r| && t in r[i].th && r[i].th[t].pc.Asleep?
    ensures r[i].th[t].entered == Round(r[i]) + 1 || WakePending(r[i].th)
  {
    RunInv(r, i);
    assert ThreadInv(r[i].closers, t, r[i].th[t]);
  }

  lemma FullArrival(s: State)
    requires Inv(s) && forall u :: u in s.th ==> u in Arrived(s.th, Round(s))
    ensures exists u :: u in s.th && Closing(s.th[u].pc)
  {
    hide ThreadInv;
    assert Arrived(s.th, Round(s)) == s.th.Keys;
  }

  // When no thread can move on its own and one is asleep, some thread has not come to
  // that round yet, or has left the barrier with an error before it.
  lemma SleepersAtRestLackSomeone(r: seq<State>, i: nat, t: Tid)
    requires IsRun(r) && i < |r| && t in r[i].th && r[i].th[t].pc.Asleep?
    requires forall u :: u in r[i].th ==> r[i].th[u].pc.Asleep? || r[i].th[u].pc.Out? || r[i].th[u].pc.Failed?
    ensures exists u :: u in r[i].th && !r[i].th[u].pc.Asleep? && r[i].th[u].entered < r[i].th[t].entered
  {
    RunInv(r, i);
    var s := r[i];
    NobodyLeftAsleep(r, i, t);
    if forall u :: u in s.th ==> u in Arrived(s.th, Round(s)) {
      FullArrival(s);
      assert false;
    }
    var u :| u in s.th && u !in Arrived(s.th, Round(s));
    assert ThreadInv(s.closers, u, s.th[u]) && ThreadInv(s.closers, t, s.th[t]);
    if s.th[u].pc.Asleep? {
      NobodyLeftAsleep(r, i, u);
    }
  }

  // The generation word never runs ahead of a thread in a call by more than
  // one, so a waiter is deceived by no wrap of the 32-bit counter.
  lemma WrapIsHarmless(r: seq<State>, i: nat, t: Tid)
    requires IsRun(r) && i < |r| && t in r[i].th && Waits(r[i].th[t].pc)
    ensures Round(r[i]) <= r[i].th[t].entered <= Round(r[i]) + 1
    ensures r[i].word == r[i].th[t].pc.seen <==> r[i].th[t].entered == Round(r[i]) + 1
  {
    RunInv(r, i);
    assert ThreadInv(r[i].closers, t, r[i].th[t]);
    WordTestIsExact(r[i].closers, t, r[i].th[t]);
  }
}
