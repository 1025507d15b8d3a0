/**
  pthread_once: any number of threads, one step per atomic operation or system call.
 */
module Once {

  type Tid = nat  // 0 is no thread

  // `runner` is the thread that won the exchange, `runs` counts the calls of the
  // routine that have begun and `finished` those that have returned.
  datatype Slot = Slot(word: nat, runner: Tid, runs: nat, finished: nat)

  datatype Pc =
    | Idle(done: bool)   // `done`: the last call has returned
    | Load | Cas | Run | Publish | WakeAll | Wait | Asleep

  datatype Effect = Effect(slot: Slot, pc: Pc, wakeAll: bool)

  datatype State = State(slot: Slot, th: map<Tid, Pc>)

  function To(x: Slot, p: Pc): Effect { Effect(x, p, false) }

  function Act(x: Slot, t: Tid, p: Pc): Effect {
    match p
    case Idle(_) => To(x, Load)
    case Load => To(x, if x.word == 2 then Idle(true) else if x.word == 0 then Cas else Wait)
    case Cas => if x.word == 0 then To(x.(word := 1, runner := t, runs := x.runs + 1), Run) else To(x, Wait)
    case Run => To(x.(finished := x.finished + 1), Publish)
    case Publish => To(x.(word := 2, runner := 0), WakeAll)
    case WakeAll => Effect(x, Idle(true), true)
    case Wait => To(x, if x.word == 1 then Asleep else Load)
    case Asleep => To(x, Load)   // a signal
  }

  function Roused(p: Pc): Pc { if p.Asleep? then Load else p }

  function After(s: State, t: Tid): State
    requires t in s.th
  {
    var e := Act(s.slot, t, s.th[t]);
    var th := s.th[t := e.pc];
    State(e.slot, if e.wakeAll then map u | u in th :: Roused(th[u]) else th)
  }

  ghost predicate Next(s: State, s': State) {
    exists t: Tid :: t in s.th && s' == After(s, t)
  }

  predicate Init(s: State) {
    s.slot == Slot(0, 0, 0, 0) && 0 !in s.th && forall t :: t in s.th ==> s.th[t] == Idle(false)
  }

  ghost predicate IsRun(r: seq<State>) {
    && 0 < |r|
    && Init(r[0])
    && forall i :: 0 <= i < |r| - 1 ==> Next(r[i], r[i + 1])
  }

  predicate SlotInv(x: Slot) {
    && x.word <= 2 && x.finished <= x.runs
    && x.runs == (if x.word == 0 then 0 else 1)
    && (x.runner != 0 <==> x.word == 1)
    && (x.word == 2 ==> x.finished == 1)
  }

  predicate ThreadInv(x: Slot, t: Tid, p: Pc) {
    && (x.runner == t && t != 0 <==> p.Run? || p.Publish?)
    && (p.Run? ==> x.finished == 0) && (p.Publish? ==> x.finished == 1)
    && (p.WakeAll? || p == Idle(true) ==> x.word == 2)
  }

  ghost predicate SomeoneWakes(th: map<Tid, Pc>) {
    exists u :: u in th && th[u].WakeAll?
  }

  ghost predicate Inv(s: State) {
    && SlotInv(s.slot) && 0 !in s.th
    && (forall t :: t in s.th ==> ThreadInv(s.slot, t, s.th[t]))
    && (s.slot.word == 1 ==> s.slot.runner in s.th)
    && (forall t :: t in s.th && s.th[t].Asleep? ==> s.slot.word == 1 || SomeoneWakes(s.th))
  }

  lemma ActInv(x: Slot, t: Tid, p: Pc)
    requires SlotInv(x) && t != 0 && ThreadInv(x, t, p)
    ensures var e := Act(x, t, p); SlotInv(e.slot) && ThreadInv(e.slot, t, e.pc)
  {
  }

  lemma OthersInv(x: Slot, t: Tid, p: Pc, u: Tid, q: Pc)
    requires SlotInv(x) && t != 0 && ThreadInv(x, t, p) && u != t && ThreadInv(x, u, q)
    ensures var e := Act(x, t, p); ThreadInv(e.slot, u, q) && ThreadInv(e.slot, u, Roused(q))
  {
  }

  lemma StepInv(s: State, t: Tid)
    requires Inv(s) && t in s.th
    ensures Inv(After(s, t))
  {
    var e, s' := Act(s.slot, t, s.th[t]), After(s, t);
    assert s'.th.Keys == s.th.Keys;
    ActInv(s.slot, t, s.th[t]);
    forall u | u in s.th && u != t ensures ThreadInv(s'.slot, u, s'.th[u]) {
      OthersInv(s.slot, t, s.th[t], u, s.th[u]);
    }
    if SomeoneWakes(s.th) {
      var w :| w in s.th && s.th[w].WakeAll?;
      assert w != t ==> s'.th[w].WakeAll?;
    }
    assert e.pc.WakeAll? ==> s'.th[t].WakeAll?;
  }

  lemma {:induction false} RunInv(r: seq<State>, i: nat)
    requires IsRun(r) && i < |r|
    ensures Inv(r[i])
  {
    if i > 0 {
      RunInv(r, i - 1);
      hide Inv, Init;
      assert Next(r[i - 1], r[i - 1 + 1]);
      var t: Tid :| t in r[i - 1].th && r[i] == After(r[i - 1], t);
      StepInv(r[i - 1], t);
    }
  }

  // The routine begins at most once, and a call that has returned comes after it
  // has returned.
  lemma RunsOnceBeforeAnyReturn(r: seq<State>, i: nat, t: Tid)
    requires IsRun(r) && i < |r| && t in r[i].th
    ensures r[i].slot.runs <= 1
    ensures r[i].th[t] == Idle(true) ==> r[i].slot.runs == r[i].slot.finished == 1
  {
    RunInv(r, i);
  }

  // Whoever sleeps does so while the routine runs, or is about to be woken.
  lemma SleepersWaitForTheRoutine(r: seq<State>, i: nat, t: Tid)
    requires IsRun(r) && i < |r| && t in r[i].th && r[i].th[t].Asleep?
    ensures SomeoneWakes(r[i].th) ||
            (r[i].slot.runner in r[i].th && (r[i].th[r[i].slot.runner].Run? || r[i].th[r[i].slot.runner].Publish?))
  {
    RunInv(r, i);
    assert r[i].slot.word == 1 ==> ThreadInv(r[i].slot, r[i].slot.runner, r[i].th[r[i].slot.runner]);
  }
}
