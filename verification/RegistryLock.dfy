/**
  The lock that guards the thread registry and the slot tables: a futex word that is
  0 or 1, released with a wake of one sleeper. Any number of threads, one step per
  atomic operation or system call.
 */
module RegistryLock {

  type Tid = nat  // 0 is no thread

  datatype Slot = Slot(word: nat, holder: Tid)

  datatype Pc = Idle | Try | Wait | Asleep | Held | WakeOne

  datatype State = State(slot: Slot, th: map<Tid, Pc>)

  function Act(x: Slot, t: Tid, p: Pc): (Slot, Pc) {
    match p
    case Idle => (x, Try)
    case Try => if x.word == 0 then (Slot(1, t), Held) else (x, Wait)
    case Wait => (x, if x.word == 1 then Asleep else Try)
    case Asleep => (x, Try)   // a signal
    case Held => (Slot(0, 0), WakeOne)
    case WakeOne => (x, Idle)
  }

  predicate NoSleeper(th: map<Tid, Pc>) {
    forall u :: u in th ==> !th[u].Asleep?
  }

  // A step of t; a wake reaches one sleeper u of the kernel's choosing, if any.
  predicate Step(s: State, t: Tid, u: Tid, s': State) {
    t in s.th &&
    var (x, p) := Act(s.slot, t, s.th[t]);
    var th := s.th[t := p];
    && s'.slot == x
    && if s.th[t].WakeOne? && !NoSleeper(th) then u in th && th[u].Asleep? && s'.th == th[u := Try]
       else s'.th == th
  }

  ghost predicate Next(s: State, s': State) {
    exists t: Tid, u: Tid :: Step(s, t, u, s')
  }

  predicate Init(s: State) {
    s.slot == Slot(0, 0) && 0 !in s.th && forall t :: t in s.th ==> s.th[t].Idle?
  }

  ghost predicate IsRun(r: seq<State>) {
    && 0 < |r|
    && Init(r[0])
    && forall i :: 0 <= i < |r| - 1 ==> Next(r[i], r[i + 1])
  }

  // Somebody is on the way to the lock, or about to wake a sleeper.
  ghost predicate SomeoneStirs(th: map<Tid, Pc>) {
    exists u :: u in th && Stirs(th[u])
  }

  predicate Stirs(p: Pc) {
    p.Try? || p.Wait? || p.WakeOne?
  }

  ghost predicate Inv(s: State) {
    && 0 !in s.th
    && s.slot.word == (if s.slot.holder != 0 then 1 else 0)
    && (s.slot.holder != 0 ==> s.slot.holder in s.th)
    && (forall t :: t in s.th ==> (s.slot.holder == t <==> s.th[t].Held?))
    && (forall t :: t in s.th && s.th[t].Asleep? ==> s.slot.word == 1 || SomeoneStirs(s.th))
  }

  lemma StepInv(s: State, t: Tid, u: Tid, s': State)
    requires Inv(s) && Step(s, t, u, s')
    ensures Inv(s')
  {
    assert s'.th.Keys == s.th.Keys;
    if s'.th != s.th[t := Act(s.slot, t, s.th[t]).1] {
      assert Stirs(s'.th[u]);
    } else {
      assert Stirs(s'.th[t]) || s'.slot.word == 1 || s.th[t].WakeOne?;
    }
  }

  lemma {:induction false} RunInv(r: seq<State>, i: nat)
    requires IsRun(r) && i < |r|
    ensures Inv(r[i])
  {
    if i > 0 {
      RunInv(r, i - 1);
      hide Inv, Init, Step;
      assert Next(r[i - 1], r[i - 1 + 1]);
      var t: Tid, u: Tid :| Step(r[i - 1], t, u, r[i]);
      StepInv(r[i - 1], t, u, r[i]);
    }
  }

  lemma MutualExclusion(r: seq<State>, i: nat, t: Tid, u: Tid)
    requires IsRun(r) && i < |r| && t in r[i].th && u in r[i].th && r[i].th[t].Held? && r[i].th[u].Held?
    ensures t == u
  {
    RunInv(r, i);
  }

  // A sleeper is never left behind: the lock is held, or somebody awake is about
  // to take it or to wake a sleeper.
  lemma NoStrandedSleeper(r: seq<State>, i: nat, t: Tid)
    requires IsRun(r) && i < |r| && t in r[i].th && r[i].th[t].Asleep?
    ensures (exists h :: h in r[i].th && r[i].th[h].Held?) || SomeoneStirs(r[i].th)
  {
    RunInv(r, i);
    assert r[i].slot.word == 1 ==> r[i].th[r[i].slot.holder].Held?;
  }
}
