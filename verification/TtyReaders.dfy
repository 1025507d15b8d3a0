/**
  Readers of a terminal going to sleep while characters arrive.
 */
module TtyReaders {

  // Each region under the terminal's lock is one step; marking a task interruptible,
  // waking it and its return from schedule are steps of their own.

  import opened TtyInput

  type Tid = nat  // 0 is no task

  datatype Termios = Termios(
    icanon: bool, echo: bool, isig: bool, igncr: bool, icrnl: bool, inlcr: bool,
    vintr: char, vsusp: char, veof: char, verase: char, vkill: char, vwerase: char)

  // `wait` is read_wait.
  datatype Tty = Tty(queue: seq<char>, eof: bool, wait: Tid)

  datatype Pc =
    | Idle
    | Look        // top of the read loop
    | Mark        // read_wait published
    | Recheck     // marked interruptible
    | Unmark      // the recheck said to go on
    | Sleep       // in schedule
    | Woken       // back from schedule

  datatype Mode = Running | Interruptible | Dead

  datatype Reader = Reader(pc: Pc, mode: Mode)

  type Readers = map<Tid, Reader>

  // `wakes` holds the wake-ups that were decided under the lock and are still to
  // be delivered; `arrived` and `taken` are the ordinary characters that came in
  // while the ring had room, less those flushed, and the characters handed to readers.
  datatype State = State(
    tio: Termios, tty: Tty, th: Readers, wakes: multiset<Tid>, arrived: seq<char>, taken: seq<char>)

  datatype Event =
    | Input(c: char)
    | Flush                    // tcflush
    | SetTermios(tio: Termios, flush: bool)
    | Deliver(t: Tid)          // task_wake
    | Rouse(t: Tid)            // a signal or a timeout makes the reader ready
    | Kill(t: Tid)
    | Read(t: Tid)
    | Go(t: Tid, leave: bool)  // `leave`: the call returns where VMIN, VTIME, a signal or a full buffer let it

  // -------------------------------------------------------------------- input

  // Canonical mode with echo, where the kernel edits the line.
  predicate Cooked(tio: Termios) {
    tio.icanon && tio.echo
  }

  // The character after INLCR, IGNCR and ICRNL; nothing if it is ignored.
  function Normalize(tio: Termios, c: char): seq<char> {
    if c == '\r' then (if tio.igncr then [] else if tio.icrnl then ['\n'] else ['\r'])
    else if c == '\n' && tio.inlcr then ['\r']
    else [c]
  }

  predicate IsSignal(tio: Termios, c: char) {
    tio.isig && (c == tio.vintr || c == tio.vsusp)
  }

  predicate IsEdit(tio: Termios, c: char) {
    Cooked(tio) && (c == '\U{8}' || c == tio.verase || c == tio.vkill || c == tio.vwerase)
  }

  function Edit(tio: Termios, q: seq<char>, c: char): seq<char> {
    if c == '\U{8}' || c == tio.verase then EraseLast(q)
    else if c == tio.vkill then EraseLine(q)
    else EraseWord(q)
  }

  predicate Waits(th: Readers, t: Tid) {
    t != 0 && t in th && th[t].mode.Interruptible?
  }

  // Under the lock: the terminal afterwards, and whether its waiter is taken to be woken.
  datatype Outcome = Outcome(tty: Tty, take: bool)

  function Enqueue(tio: Termios, y: Tty, waits: bool, c: char): Outcome {
    if |y.queue| == SIZE - 1 then Outcome(y, false)
    else
      var y' := y.(queue := y.queue + [c]);
      if Cooked(tio) && !LineEnd(c) then Outcome(y', false)
      else Outcome(y'.(wait := 0), waits)
  }

  // tty_input_char_to; `waits` says that the waiter is interruptible.
  function Typed(tio: Termios, y: Tty, waits: bool, c0: char): Outcome {
    var n := Normalize(tio, c0);
    if n == [] then Outcome(y, false)
    else
      var c := n[0];
      if IsSignal(tio, c) then Outcome(y, false)
      else if Cooked(tio) && c == tio.veof then
        Outcome(y.(eof := true, wait := if waits then 0 else y.wait), waits)
      else if IsEdit(tio, c) then Outcome(y.(queue := Edit(tio, y.queue, c)), false)
      else Enqueue(tio, y, waits, c)
  }

  // -------------------------------------------------------------------- steps

  function Emit(s: State, o: Outcome): State {
    s.(tty := o.tty, wakes := if o.take then s.wakes + multiset{s.tty.wait} else s.wakes)
  }

  // The character a reader is to see of what was typed outside cooked mode.
  function Arrives(tio: Termios, room: bool, c: char): seq<char> {
    var n := Normalize(tio, c);
    if n != [] && room && !IsSignal(tio, n[0]) then n else []
  }

  // The terminal and the reader after one step of t in tty_read_to.
  function Advance1(y: Tty, th: Readers, t: Tid, leave: bool): (Tty, Reader)
    requires t in th
  {
    var me := th[t];
    match me.pc
    case Look =>
      if y.queue != [] then (y.(queue := y.queue[1..]), me.(pc := if leave then Idle else Look))
      else if y.eof then (y.(eof := false), me.(pc := Idle))
      else if leave then (y, me.(pc := Idle))
      else if y.wait != t && Waits(th, y.wait) then (y, me)
      else (y.(wait := t), me.(pc := Mark))
    case Mark => (y, Reader(Recheck, Interruptible))
    case Recheck =>
      if y.queue != [] || y.eof || y.wait != t then (y.(wait := if y.wait == t then 0 else y.wait), me.(pc := Unmark))
      else (y, me.(pc := Sleep))
    case Unmark => (y, Reader(Look, Running))
    case Sleep => (y, me.(pc := Woken))
    case Woken => (y.(wait := if y.wait == t then 0 else y.wait), me.(pc := if leave then Idle else Look))
    case Idle => (y, me)
  }

  predicate Enabled(s: State, e: Event) {
    match e
    case Deliver(t) => t in s.wakes
    case Rouse(t) => t in s.th && s.th[t].mode.Interruptible?
    case Kill(t) => t in s.th
    case Read(t) => t != 0 && t in s.th && s.th[t] == Reader(Idle, Running)
    case Go(t, _) =>
      && t != 0 && t in s.th && !s.th[t].mode.Dead? && !s.th[t].pc.Idle?
      && (s.th[t].pc.Sleep? ==> s.th[t].mode.Running?)
    case _ => true
  }

  function After(s: State, e: Event): State
    requires Enabled(s, e)
  {
    var y, th := s.tty, s.th;
    match e
    case Input(c) =>
      Emit(s.(arrived := s.arrived + Arrives(s.tio, |y.queue| < SIZE - 1, c)), Typed(s.tio, y, Waits(th, y.wait), c))
    case Flush => Emit(s.(arrived := s.taken), Outcome(Tty([], false, 0), Waits(th, y.wait)))
    case SetTermios(tio, flush) =>
      if flush then
        Emit(s.(tio := tio, arrived := s.taken), Outcome(Tty([], false, if Waits(th, y.wait) then 0 else y.wait), Waits(th, y.wait)))
      else s.(tio := tio)
    case Deliver(t) =>
      s.(wakes := s.wakes - multiset{t},
         th := if t in th && th[t].mode.Interruptible? then th[t := th[t].(mode := Running)] else th)
    case Rouse(t) => s.(th := th[t := th[t].(mode := Running)])
    case Kill(t) => s.(th := th[t := th[t].(mode := Dead)])
    case Read(t) => s.(th := th[t := Reader(Look, Running)])
    case Go(t, leave) =>
      var (y', me) := Advance1(y, th, t, leave);
      s.(tty := y', th := th[t := me],
         taken := if th[t].pc.Look? && y.queue != [] then s.taken + [y.queue[0]] else s.taken)
  }

  ghost predicate Next(s: State, s': State) {
    exists e: Event :: Enabled(s, e) && s' == After(s, e)
  }

  predicate Init(s: State) {
    s.tty == Tty([], false, 0) && s.wakes == multiset{} && s.arrived == [] && s.taken == []
    && forall t :: t in s.th ==> s.th[t] == Reader(Idle, Running)
  }

  ghost predicate IsRun(r: seq<State>) {
    && 0 < |r|
    && Init(r[0])
    && forall i :: 0 <= i < |r| - 1 ==> Next(r[i], r[i + 1])
  }

  ghost predicate FixedTermios(r: seq<State>) {
    forall i, j :: 0 <= i < |r| && 0 <= j < |r| ==> r[i].tio == r[j].tio
  }

  // ---------------------------------------------------------------- invariant

  // A reader has no reason to be awake: in cooked mode no line has ended, and
  // otherwise no character is queued.
  predicate Quiet(tio: Termios, q: seq<char>) {
    if Cooked(tio) then forall i :: 0 <= i < |q| ==> !LineEnd(q[i]) else q == []
  }

  // t is in schedule and nothing has made it ready yet.
  predicate Asleep(th: Readers, t: Tid) {
    t in th && th[t] == Reader(Sleep, Interruptible)
  }

  predicate Safe(tio: Termios, y: Tty, t: Tid) {
    y.wait == t && !y.eof && Quiet(tio, y.queue)
  }

  ghost predicate Inv(s: State) {
    && |s.tty.queue| < SIZE
    && 0 !in s.wakes
    && forall t :: t != 0 && Asleep(s.th, t) ==> t in s.wakes || Safe(s.tio, s.tty, t)
  }

  lemma EditIsQuiet(tio: Termios, q: seq<char>, c: char)
    requires Cooked(tio)
    ensures Edit(tio, q, c) <= q
    ensures Quiet(tio, q) ==> Quiet(tio, Edit(tio, q, c))
  {
    EditKeepsLines(q);
    hide EraseLast, EraseLine, EraseWord;
  }

  // A character keeps a sleeper safe, or takes it to be woken.
  lemma TypedIsSafe(tio: Termios, y: Tty, waits: bool, c: char, t: Tid)
    requires |y.queue| < SIZE
    ensures var o := Typed(tio, y, waits, c);
            && |o.tty.queue| < SIZE
            && (o.take ==> waits)
            && (waits && y.wait == t && Safe(tio, y, t) ==> o.take || Safe(tio, o.tty, t))
  {
    hide Edit, EraseLast, EraseLine, EraseWord;
    if Cooked(tio) {
      var n := Normalize(tio, c);
      if n != [] {
        EditIsQuiet(tio, y.queue, n[0]);
      }
    }
  }

  lemma QuietFacts(tio: Termios, q: seq<char>)
    ensures Quiet(tio, [])
    ensures q != [] && Quiet(tio, q) ==> Quiet(tio, q[1..])
  {
  }

  lemma InputInv(s: State, c: char)
    requires Inv(s)
    ensures Inv(After(s, Input(c)))
  {
    var waits := Waits(s.th, s.tty.wait);
    var o := Typed(s.tio, s.tty, waits, c);
    TypedIsSafe(s.tio, s.tty, waits, c, s.tty.wait);
    hide Typed, Quiet;
    forall t | t != 0 && Asleep(s.th, t) && t !in s.wakes ensures o.take || Safe(s.tio, o.tty, t) {
      assert Safe(s.tio, s.tty, t);
    }
  }

  // A step of a reader: no other reader loses its place, and it goes to sleep
  // only on a quiet terminal with itself registered.
  lemma ReadStep(tio: Termios, y: Tty, th: Readers, t: Tid, leave: bool, u: Tid)
    requires t in th && t != 0 && |y.queue| < SIZE
    requires th[t].pc.Sleep? ==> th[t].mode.Running?
    ensures var (y', me) := Advance1(y, th, t, leave);
            && |y'.queue| < SIZE
            && (u != t && u != 0 && Asleep(th, u) && Safe(tio, y, u) ==> Safe(tio, y', u))
            && (me == Reader(Sleep, Interruptible) ==> Safe(tio, y', t))
  {
    QuietFacts(tio, y.queue);
    hide Quiet;
  }

  lemma GoInv(s: State, t: Tid, leave: bool)
    requires Inv(s) && Enabled(s, Go(t, leave))
    ensures Inv(After(s, Go(t, leave)))
  {
    forall u { ReadStep(s.tio, s.tty, s.th, t, leave, u); }
    hide Advance1, Quiet, Safe;
    var s' := After(s, Go(t, leave));
    forall u | u != 0 && Asleep(s'.th, u) ensures u in s'.wakes || Safe(s'.tio, s'.tty, u) {
      assert u != t ==> Asleep(s.th, u);
    }
  }

  lemma StepInv(s: State, e: Event)
    requires Inv(s) && Enabled(s, e) && (e.SetTermios? ==> e.tio == s.tio)
    ensures Inv(After(s, e))
  {
    hide Typed, Advance1, Arrives;
    if e.Input? {
      InputInv(s, e.c);
    } else if e.Go? {
      GoInv(s, e.t, e.leave);
    } else {
      QuietFacts(s.tio, []);
      hide Quiet;
    }
  }

  lemma RunStep(r: seq<State>, k: nat) returns (e: Event)
    requires IsRun(r) && k + 1 < |r|
    ensures Enabled(r[k], e) && r[k + 1] == After(r[k], e)
  {
    hide After, Enabled, Init;
    assert Next(r[k], r[k + 1]);
    e :| Enabled(r[k], e) && r[k + 1] == After(r[k], e);
  }

  lemma {:induction false} RunInv(r: seq<State>, i: nat)
    requires IsRun(r) && FixedTermios(r) && i < |r|
    ensures Inv(r[i])
  {
    if i > 0 {
      hide IsRun, Inv, After, Enabled;
      RunInv(r, i - 1);
      var e := RunStep(r, i - 1);
      SetsTermios(r[i - 1], e);
      StepInv(r[i - 1], e);
    }
  }

  lemma SetsTermios(s: State, e: Event)
    requires Enabled(s, e)
    ensures e.SetTermios? ==> After(s, e).tio == e.tio
  {
    hide Typed, Advance1;
  }

  // ----------------------------------------------------------------- theorems

  // A reader that sleeps in schedule is about to be woken, or it is registered
  // and there is no end of file and nothing for it: no queued character at all,
  // or in cooked mode no completed line.
  lemma NoSleeperOnInput(r: seq<State>, i: nat, t: Tid)
    requires IsRun(r) && FixedTermios(r) && i < |r| && t != 0 && Asleep(r[i].th, t)
    ensures t in r[i].wakes ||
            (r[i].tty.wait == t && !r[i].tty.eof &&
             if Cooked(r[i].tio) then forall c :: c in r[i].tty.queue ==> !LineEnd(c) else r[i].tty.queue == [])
  {
    RunInv(r, i);
  }

  predicate InOrder(s: State) {
    s.arrived == s.taken + s.tty.queue
  }

  lemma StepKeepsOrder(s: State, e: Event)
    requires Enabled(s, e) && !Cooked(s.tio) && InOrder(s) && Inv(s)
    ensures InOrder(After(s, e))
  {
    var q := s.tty.queue;
    if e.Input? {
      var n := Normalize(s.tio, e.c);
      assert n == [] || n == [n[0]];
      assert s.taken + q + n == s.taken + (q + n);
    } else if e.Go? && q != [] {
      assert q == [q[0]] + q[1..];
      assert s.taken + q == s.taken + [q[0]] + q[1..];
    }
  }

  lemma StartsInOrder(r: seq<State>)
    requires IsRun(r)
    ensures InOrder(r[0])
  {
  }

  lemma SameTermios(r: seq<State>, i: nat)
    requires FixedTermios(r) && i < |r|
    ensures r[i].tio == r[0].tio
  {
  }

  lemma {:induction false} RunInOrder(r: seq<State>, i: nat)
    requires IsRun(r) && FixedTermios(r) && i < |r| && !Cooked(r[0].tio)
    ensures InOrder(r[i])
  {
    hide *;
    if i == 0 {
      StartsInOrder(r);
    } else {
      RunInOrder(r, i - 1);
      RunInv(r, i - 1);
      SameTermios(r, i - 1);
      var e := RunStep(r, i - 1);
      StepKeepsOrder(r[i - 1], e);
    }
  }

  // Outside cooked mode readers get, in order, every ordinary character that found
  // room, except what a flush discarded: no character is lost, doubled or moved.
  lemma CharactersKeepTheirOrder(r: seq<State>, i: nat)
    requires IsRun(r) && FixedTermios(r) && i < |r| && !Cooked(r[0].tio)
    ensures r[i].arrived == r[i].taken + r[i].tty.queue
  {
    hide IsRun, FixedTermios, Cooked;
    RunInOrder(r, i);
  }

  // What may stand in the queue: no signal, in cooked mode nothing that edits or ends the
  // file, no carriage return that should have been ignored or turned into a newline, and no
  // newline that should have been turned into a carriage return.
  predicate MayQueue(tio: Termios, c: char) {
    && (tio.isig ==> c != tio.vintr && c != tio.vsusp)
    && (tio.icanon && tio.echo ==> c !in {tio.veof, '\U{8}', tio.verase, tio.vkill, tio.vwerase})
    && (c == '\r' ==> (!tio.igncr && !tio.icrnl) || tio.inlcr)
    && (c == '\n' ==> !tio.inlcr || (tio.icrnl && !tio.igncr))
  }

  ghost predicate CleanQueue(tio: Termios, q: seq<char>) {
    forall i :: 0 <= i < |q| ==> MayQueue(tio, q[i])
  }

  lemma TypedIsClean(tio: Termios, y: Tty, waits: bool, c: char)
    requires CleanQueue(tio, y.queue)
    ensures CleanQueue(tio, Typed(tio, y, waits, c).tty.queue)
  {
    hide Edit, EraseLast, EraseLine, EraseWord;
    var n := Normalize(tio, c);
    if Cooked(tio) && n != [] {
      EditIsQuiet(tio, y.queue, n[0]);
    }
  }

  lemma CleanStep(s: State, e: Event)
    requires Enabled(s, e) && CleanQueue(s.tio, s.tty.queue) && (e.SetTermios? ==> e.tio == s.tio)
    ensures CleanQueue(After(s, e).tio, After(s, e).tty.queue)
  {
    if e.Input? {
      TypedIsClean(s.tio, s.tty, Waits(s.th, s.tty.wait), e.c);
    }
    hide Typed, MayQueue;
  }

  // Only what the modes let through is ever queued.
  lemma {:induction false} QueueIsClean(r: seq<State>, i: nat)
    requires IsRun(r) && FixedTermios(r) && i < |r|
    ensures forall k :: 0 <= k < |r[i].tty.queue| ==> MayQueue(r[i].tio, r[i].tty.queue[k])
  {
    hide After, Enabled, MayQueue, FixedTermios;
    if i > 0 {
      QueueIsClean(r, i - 1);
      var e := RunStep(r, i - 1);
      SetsTermios(r[i - 1], e);
      SameTermios(r, i - 1);
      SameTermios(r, i);
      CleanStep(r[i - 1], e);
    }
  }

  // An ordinary character goes behind the others, as the modes map it, if there is room.
  lemma OrdinaryIsQueued(s: State, c: char)
    requires Ordinary(s.tio, c) && |s.tty.queue| < SIZE - 1
    ensures After(s, Input(c)).tty.queue == s.tty.queue + Normalize(s.tio, c)
  {
    hide Edit;
    var n := Normalize(s.tio, c);
    if n != [] {
      assert n[0] in n && n == [n[0]];
    }
  }

  // What the editing characters of a cooked terminal do to the queue: erase takes one
  // character but no line end, kill everything back to the last line end, word erase the
  // last word with the blanks after it; a signal takes nothing.
  lemma EditCharacters(s: State, c: char)
    requires Cooked(s.tio) && Normalize(s.tio, c) == [c] && c != s.tio.veof
    ensures var tio, q, q' := s.tio, s.tty.queue, After(s, Input(c)).tty.queue;
      && (IsSignal(tio, c) ==> q' == q)
      && (!IsSignal(tio, c) && (c == '\U{8}' || c == tio.verase) ==>
            q' == if q != [] && !LineEnd(q[|q| - 1]) then q[..|q| - 1] else q)
      && (!IsSignal(tio, c) && c == tio.vkill && c != '\U{8}' && c != tio.verase ==>
            q' <= q && (q' == [] || LineEnd(q'[|q'| - 1])) && forall i :: |q'| <= i < |q| ==> !LineEnd(q[i]))
      && (!IsSignal(tio, c) && c == tio.vwerase && c != '\U{8}' && c != tio.verase && c != tio.vkill ==>
            q' == EraseWord(q))
  {
    EditKeepsLines(s.tty.queue);
    hide EraseLine, EraseWord;
  }

  // The end-of-file character of a cooked terminal wakes the sleeping reader.
  lemma EndOfFileIsHeard(r: seq<State>, i: nat, t: Tid, c: char)
    requires IsRun(r) && FixedTermios(r) && i < |r| && t != 0 && Asleep(r[i].th, t) && t !in r[i].wakes
    requires Cooked(r[i].tio) && Normalize(r[i].tio, c) == [r[i].tio.veof] && !IsSignal(r[i].tio, r[i].tio.veof)
    ensures var s' := After(r[i], Input(c)); t in s'.wakes && s'.tty.eof && s'.tty.queue == r[i].tty.queue
  {
    hide IsRun, FixedTermios, Edit, Advance1;
    RunInv(r, i);
    assert Safe(r[i].tio, r[i].tty, t);
  }

  // A reader that finds the queue empty takes the end of file, which is then gone.
  lemma EndOfFileIsReadOnce(s: State, t: Tid, leave: bool)
    requires Enabled(s, Go(t, leave)) && s.th[t].pc.Look? && s.tty.queue == [] && s.tty.eof
    ensures var s' := After(s, Go(t, leave)); !s'.tty.eof && s'.th[t].pc.Idle? && s'.taken == s.taken
  {
  }

  // Whoever sleeps without a wake on its way sleeps alone.
  lemma OneRegisteredSleeper(r: seq<State>, i: nat, t: Tid, u: Tid)
    requires IsRun(r) && FixedTermios(r) && i < |r| && t != 0 && u != 0
    requires Asleep(r[i].th, t) && Asleep(r[i].th, u) && t !in r[i].wakes && u !in r[i].wakes
    ensures t == u
  {
    RunInv(r, i);
  }

  // Changing the modes without flushing keeps the promise exactly when it does
  // not leave cooked mode over a line in progress that somebody waits on.
  lemma ModeChangeIsSafeIff(s: State, tio: Termios)
    requires Inv(s)
    ensures Inv(After(s, SetTermios(tio, false))) <==>
              !(Cooked(s.tio) && !Cooked(tio) && s.tty.queue != []
                && exists t :: t != 0 && Asleep(s.th, t) && t !in s.wakes)
  {
    var s' := After(s, SetTermios(tio, false));
    hide Typed, Advance1;
    if t :| t != 0 && Asleep(s.th, t) && t !in s.wakes {
      assert Safe(s.tio, s.tty, t);
      assert Inv(s') ==> Safe(tio, s.tty, t);
    }
  }

  // ------------------------------------------ a reader stranded by a mode change

  function Last(r: seq<State>): State
    requires 0 < |r|
  {
    r[|r| - 1]
  }

  lemma Extend(r: seq<State>, e: Event) returns (r': seq<State>)
    requires 0 < |r| && IsRun(r) && Enabled(Last(r), e)
    ensures 0 < |r'| && IsRun(r') && Last(r') == After(Last(r), e) && r' == r + [Last(r')]
  {
    var s' := After(Last(r), e);
    hide After, Init, Enabled;
    r' := r + [s'];
    forall i | 0 <= i < |r'| - 1 ensures Next(r'[i], r'[i + 1]) {
      if i < |r| - 1 {
        assert Next(r[i], r[i + 1]);
      }
    }
  }

  // A reader that finds nothing registers itself ...
  lemma Register(tio: Termios) returns (r: seq<State>)
    ensures 0 < |r| && IsRun(r)
    ensures Last(r) == State(tio, Tty([], false, 1), map[1 := Reader(Mark, Running)], multiset{}, [], [])
  {
    r := [State(tio, Tty([], false, 0), map[1 := Reader(Idle, Running)], multiset{}, [], [])];
    hide IsRun, Typed;
    r := Extend(r, Read(1));
    assert Last(r).th == map[1 := Reader(Look, Running)];
    r := Extend(r, Go(1, false));
    assert Last(r).th == map[1 := Reader(Mark, Running)];
  }

  // ... and falls asleep.
  lemma FallAsleep(tio: Termios) returns (r: seq<State>)
    ensures 0 < |r| && IsRun(r)
    ensures Last(r) == State(tio, Tty([], false, 1), map[1 := Reader(Sleep, Interruptible)], multiset{}, [], [])
  {
    r := Register(tio);
    hide IsRun, Typed;
    r := Extend(r, Go(1, false));
    assert Last(r).th == map[1 := Reader(Recheck, Interruptible)];
    r := Extend(r, Go(1, false));
    assert Last(r).th == map[1 := Reader(Sleep, Interruptible)];
  }

  // The reader of a cooked terminal sleeps, a letter is typed, and the terminal
  // leaves cooked mode without a flush: the reader sleeps on a queued character.
  lemma ModeChangeCanStrand(tio: Termios, raw: Termios) returns (r: seq<State>)
    requires Cooked(tio) && !Cooked(raw)
    requires !IsSignal(tio, 'a') && !IsEdit(tio, 'a') && tio.veof != 'a'
    ensures 0 < |r| && IsRun(r)
    ensures Last(r) == State(raw, Tty(['a'], false, 1), map[1 := Reader(Sleep, Interruptible)], multiset{}, ['a'], [])
  {
    r := FallAsleep(tio);
    hide IsRun, Edit, IsSignal, IsEdit, Advance1, EraseLast, EraseLine, EraseWord;
    assert Arrives(tio, true, 'a') == ['a'];
    assert Typed(tio, Tty([], false, 1), true, 'a') == Outcome(Tty(['a'], false, 1), false);
    hide Typed;
    r := Extend(r, Input('a'));
    r := Extend(r, SetTermios(raw, false));
  }

  // ------------------------------------------- a reader stranded by a long line

  // No signal, and in cooked mode no editing and no end of file.
  predicate Ordinary(tio: Termios, c: char) {
    forall n :: n in Normalize(tio, c) ==> !IsSignal(tio, n) && !IsEdit(tio, n) && !(Cooked(tio) && n == tio.veof)
  }

  // ... and no end of line, nor a character that is turned into another.
  predicate Plain(tio: Termios, c: char) {
    Ordinary(tio, c) && Normalize(tio, c) == [c] && !LineEnd(c)
  }

  // The only reader sleeps on a line in progress, and nothing is to wake it.
  function Dozing(tio: Termios, line: seq<char>): State {
    State(tio, Tty(line, false, 1), map[1 := Reader(Sleep, Interruptible)], multiset{}, line, [])
  }

  lemma PlainIsQueued(tio: Termios, line: seq<char>, c: char)
    requires Cooked(tio) && Plain(tio, c) && |line| < SIZE - 1
    ensures After(Dozing(tio, line), Input(c)) == Dozing(tio, line + [c])
  {
    hide Edit, Advance1;
    assert c in [c];
    assert !IsSignal(tio, c) && !IsEdit(tio, c) && c != tio.veof;
  }

  // A full ring drops every ordinary character, the one that would end the line included.
  lemma FullRingDrops(tio: Termios, line: seq<char>, c: char)
    requires Cooked(tio) && Ordinary(tio, c) && |line| == SIZE - 1
    ensures After(Dozing(tio, line), Input(c)) == Dozing(tio, line)
  {
    hide Edit, Advance1;
    var n := Normalize(tio, c);
    if n != [] {
      assert n[0] in n;
    }
  }

  lemma {:induction false} TypeLine(tio: Termios, line: seq<char>) returns (r: seq<State>)
    requires Cooked(tio) && |line| < SIZE && forall i :: 0 <= i < |line| ==> Plain(tio, line[i])
    ensures 0 < |r| && IsRun(r) && Last(r) == Dozing(tio, line)
    decreases |line|
  {
    hide IsRun, After, Plain;
    if line == [] {
      r := FallAsleep(tio);
    } else {
      var n := |line| - 1;
      r := TypeLine(tio, line[..n]);
      assert line[..n] + [line[n]] == line;
      PlainIsQueued(tio, line[..n], line[n]);
      r := Extend(r, Input(line[n]));
    }
  }

  // The exact condition: a character that ends the line takes the sleeping reader to be
  // woken if and only if the ring has room for it.
  lemma LineEndIsHeardIff(r: seq<State>, i: nat, t: Tid, c: char)
    requires IsRun(r) && FixedTermios(r) && i < |r| && t != 0 && Asleep(r[i].th, t) && t !in r[i].wakes
    requires Cooked(r[i].tio) && Ordinary(r[i].tio, c)
    requires Normalize(r[i].tio, c) != [] && LineEnd(Normalize(r[i].tio, c)[0])
    ensures t in After(r[i], Input(c)).wakes <==> |r[i].tty.queue| < SIZE - 1
  {
    hide IsRun, FixedTermios, Edit, Advance1;
    RunInv(r, i);
    assert Safe(r[i].tio, r[i].tty, t);
    var n := Normalize(r[i].tio, c);
    assert n[0] in n;
  }

  // A line that fills the ring cannot be ended: whatever ordinary characters are typed
  // after it, newlines among them, its reader sleeps on and no wake is on its way.
  lemma {:induction false} FullLineStrandsItsReader(tio: Termios, line: seq<char>, more: seq<char>)
    returns (r: seq<State>, k: nat)
    requires Cooked(tio) && |line| == SIZE - 1 && forall i :: 0 <= i < |line| ==> Plain(tio, line[i])
    requires forall i :: 0 <= i < |more| ==> Ordinary(tio, more[i])
    ensures IsRun(r) && |r| == k + 1 + |more|
    ensures forall m :: k <= m < |r| ==> r[m] == Dozing(tio, line)
    ensures forall m :: k <= m < |r| - 1 ==> r[m + 1] == After(r[m], Input(more[m - k]))
    decreases |more|
  {
    hide IsRun, After, Plain, Ordinary, Dozing;
    if more == [] {
      r := TypeLine(tio, line);
      k := |r| - 1;
    } else {
      var n := |more| - 1;
      var q;
      q, k := FullLineStrandsItsReader(tio, line, more[..n]);
      FullRingDrops(tio, line, more[n]);
      r := Extend(q, Input(more[n]));
      forall m | k <= m < |r| - 1 ensures r[m + 1] == After(r[m], Input(more[m - k])) {
        if m < |q| - 1 {
          assert q[m + 1] == After(q[m], Input(more[..n][m - k]));
        }
      }
    }
  }
}
