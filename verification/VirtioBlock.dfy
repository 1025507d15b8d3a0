/**
  The VirtIO block driver over one split virtqueue (section 2.6 of VIRTIO 1.1).
 */
module VirtioBlock {

  // Any number of tasks submit requests one at a time, the device returns chains, and
  // interrupt handlers complete requests. Ring indices are 16 bits wide; the model
  // counts without bound and compares low halves. The device may post used elements
  // with a wrong id, but it returns only a chain that it was given.

  type Tid = nat  // 0 is no task
  type Request = nat

  const VQ_SIZE: nat := 128
  const INDEX: nat := 0x1_0000
  const S_OK: nat := 0

  // A 16-bit index.
  function Low(n: nat): nat {
    n % INDEX
  }

  // virtio_blk_pending; `prev` stands for prev_used_idx.
  datatype Pending = Pending(active: bool, completed: bool, prev: nat)

  // `avail` counts the chains ever published, `used` lists the ids the device
  // ever put into the used ring, `lastUsed` stands for vq->last_used_idx, `pages`
  // are the requests whose DMA pages are allocated, `device` those whose chains the
  // device has, `status` their status bytes. `answers` is history: the status with
  // which the device returned each chain.
  datatype World = World(
    busy: Tid, failed: bool, pending: Pending,
    avail: nat, used: seq<nat>, lastUsed: nat,
    pages: set<Request>, device: set<Request>, requests: nat,
    status: map<Request, nat>, answers: map<Request, nat>)

  datatype Pc =
    | Idle
    | Check                      // busy
    | Submit(n: Request)         // DMA pages allocated
    | Prepare(n: Request)
    | Publish(n: Request)
    | Wait(n: Request)
    | Finish(n: Request, ok: bool)
    | Examine(n: Request)
    | MarkFailed(n: Request)
    | Failed(n: Request)         // the submission has returned an error
    | Done(n: Request)           // the submission has succeeded
    | Release
    | IrqSeen(prev: nat)         // interrupt handler: has read prev_used_idx
    | IrqAdvanced(prev: nat)     // interrupt handler: has seen the used index move

  datatype Choice =
    | Go
    | Fault       // no memory, a reset request, or a timeout
    | Interrupt   // the interrupt handler runs here

  datatype Effect = Effect(w: World, pc: Pc)

  datatype State = State(w: World, th: map<Tid, Pc>)

  datatype Event =
    | Step(t: Tid, ch: Choice)
    | Return(n: Request, status: nat)  // the device answers a chain and puts it into the used ring
    | Spurious(id: nat)                // the device posts an element that is no chain of ours

  // -------------------------------------------------------------------- steps

  // The id in a slot of the used ring: the last one written there, zero at first.
  function Slot(used: seq<nat>, pos: nat): nat {
    if used == [] then 0
    else if (|used| - 1) % VQ_SIZE == pos then used[|used| - 1]
    else Slot(used[..|used| - 1], pos)
  }

  // virtio_blk_used_advanced
  predicate Advanced(w: World, prev: nat) {
    Low(|w.used|) != Low(prev)
  }

  predicate Open(w: World, t: Tid, p: Pc, ch: Choice) {
    match p
    case Idle => t != 0 && ((ch.Go? && w.busy == 0) || ch.Interrupt?)
    case Wait(_) => ch.Fault? || (ch.Go? && (w.pending.completed || Advanced(w, w.lastUsed)))
    case _ => ch.Go? || ch.Fault?
  }

  // The two checks on the used ring: it moved by one, to our chain.
  predicate Accepts(w: World) {
    Low(|w.used|) == Low(w.lastUsed + 1) && Slot(w.used, w.lastUsed % VQ_SIZE) == 0
  }

  function Act(w: World, t: Tid, p: Pc, ch: Choice): Effect {
    match p
    case Idle =>
      if ch.Interrupt? then Effect(w, if w.pending.active then IrqSeen(w.pending.prev) else Idle)
      else Effect(w.(busy := t), Check)
    case Check =>
      if w.failed || ch.Fault? then Effect(w, Release)
      else Effect(w.(pages := w.pages + {w.requests}, requests := w.requests + 1), Submit(w.requests))
    case Submit(n) =>
      if w.failed then Effect(w, Failed(n)) else if ch.Fault? then Effect(w, MarkFailed(n))
      else Effect(w.(status := w.status[n := 0xFF]), Prepare(n))
    case Prepare(n) => Effect(w.(pending := Pending(true, false, w.lastUsed)), Publish(n))
    case Publish(n) => Effect(w.(avail := w.avail + 1, device := w.device + {n}), Wait(n))
    case Wait(n) => Effect(w, Finish(n, !ch.Fault?))
    case Finish(n, ok) => Effect(w.(pending := Pending(false, false, 0)), if ok then Examine(n) else MarkFailed(n))
    case Examine(n) =>
      if !Accepts(w) then Effect(w, MarkFailed(n))
      else Effect(w.(lastUsed := |w.used|), if n in w.status && w.status[n] == S_OK then Done(n) else Failed(n))
    case MarkFailed(n) => Effect(w.(failed := true), Failed(n))
    case Failed(n) => Effect(if w.failed then w else w.(pages := w.pages - {n}), Release)
    case Done(n) => Effect(w.(pages := w.pages - {n}), Release)
    case Release => Effect(w.(busy := 0), Idle)
    case IrqSeen(prev) => Effect(w, if Advanced(w, prev) then IrqAdvanced(prev) else Idle)
    case IrqAdvanced(prev) =>
      Effect(if w.pending.active && Low(w.pending.prev) == Low(prev) then w.(pending := w.pending.(completed := true)) else w,
             Idle)
  }

  predicate Enabled(s: State, e: Event) {
    match e
    case Step(t, ch) => t in s.th && Open(s.w, t, s.th[t], ch)
    case Return(n, _) => n in s.w.device
    case Spurious(id) => id != 0
  }

  function After(s: State, e: Event): State
    requires Enabled(s, e)
  {
    match e
    case Step(t, ch) =>
      var x := Act(s.w, t, s.th[t], ch);
      State(x.w, s.th[t := x.pc])
    case Return(n, status) =>
      s.(w := s.w.(used := s.w.used + [0], device := s.w.device - {n},
                   status := s.w.status[n := status], answers := s.w.answers[n := status]))
    case Spurious(id) => s.(w := s.w.(used := s.w.used + [id]))
  }

  ghost predicate Next(s: State, s': State) {
    exists e: Event :: Enabled(s, e) && s' == After(s, e)
  }

  predicate Init(s: State) {
    && s.w == World(0, false, Pending(false, false, 0), 0, [], 0, {}, {}, 0, map[], map[])
    && 0 !in s.th && forall t :: t in s.th ==> s.th[t].Idle?
  }

  ghost predicate IsRun(r: seq<State>) {
    && 0 < |r|
    && Init(r[0])
    && forall i :: 0 <= i < |r| - 1 ==> Next(r[i], r[i + 1])
  }

  // ---------------------------------------------------------------- invariant

  // Between virtio_blk_acquire and virtio_blk_release.
  predicate Holding(p: Pc) {
    !p.Idle? && !p.IrqSeen? && !p.IrqAdvanced?
  }

  // The chain has been published and its return not yet been accepted.
  predicate InFlight(p: Pc) {
    p.Wait? || p.Finish? || p.Examine?
  }

  // Not one of our chains was returned since the driver last looked.
  predicate NoReturn(w: World) {
    forall k :: w.lastUsed <= k < |w.used| ==> w.used[k] != 0
  }

  // The queue while nothing is in flight.
  predicate AtRest(w: World) {
    !w.failed ==> w.device == {} && NoReturn(w) && Low(w.avail) == Low(w.lastUsed)
  }

  // The queue while request n is in flight.
  predicate Flying(w: World, n: Request) {
    && !w.failed && n in w.pages && Low(w.avail) == Low(w.lastUsed + 1)
    && w.device <= {n}
    && (n in w.device ==> NoReturn(w))
  }

  // The pages allocated: none, or those of one request, unless the driver failed.
  predicate OnlyPages(w: World, pages: set<Request>) {
    !w.failed ==> w.pages == pages
  }

  predicate HolderInv(w: World, p: Pc) {
    match p
    case Check => AtRest(w) && OnlyPages(w, {})
    case Submit(n) => AtRest(w) && OnlyPages(w, {n}) && n in w.pages && n !in w.device
    case Prepare(n) => AtRest(w) && !w.failed && OnlyPages(w, {n})
    case Publish(n) => AtRest(w) && !w.failed && OnlyPages(w, {n})
    case Wait(n) => Flying(w, n) && OnlyPages(w, {n})
    case Finish(n, _) => Flying(w, n) && OnlyPages(w, {n})
    case Examine(n) => Flying(w, n) && OnlyPages(w, {n})
    case MarkFailed(n) => n in w.pages
    case Failed(n) => AtRest(w) && OnlyPages(w, {n})
    case Done(n) => AtRest(w) && !w.failed && OnlyPages(w, {n})
    case Release => AtRest(w) && OnlyPages(w, {})
    case _ => true
  }

  predicate AtMostOne(requests: set<Request>) {
    forall m, n :: m in requests && n in requests ==> m == n
  }

  predicate WorldInv(w: World) {
    && w.lastUsed <= |w.used|
    && w.device <= w.pages && AtMostOne(w.device)
    && (forall n :: n in w.pages ==> n < w.requests)
    && (w.busy == 0 ==> AtRest(w) && OnlyPages(w, {}))
  }

  ghost predicate Inv(s: State) {
    && WorldInv(s.w)
    && (forall t :: t in s.th && Holding(s.th[t]) ==> s.w.busy == t && HolderInv(s.w, s.th[t]))
  }

  // ------------------------------------------------------------ preservation

  lemma {:induction false} SlotIsWritten(used: seq<nat>, prev: nat)
    requires prev < |used|
    ensures exists k :: prev <= k < |used| && used[k] == Slot(used, prev % VQ_SIZE)
  {
    var n := |used| - 1;
    if n % VQ_SIZE == prev % VQ_SIZE {
      assert used[n] == Slot(used, prev % VQ_SIZE);
    } else {
      SlotIsWritten(used[..n], prev);
      var k :| prev <= k < n && used[..n][k] == Slot(used[..n], prev % VQ_SIZE);
      assert used[k] == used[..n][k];
    }
  }

  // What the driver accepts has come back, even if the index has gone round.
  lemma AcceptedWasReturned(w: World, n: Request)
    requires WorldInv(w) && Flying(w, n) && Accepts(w)
    ensures w.device == {}
  {
    assert Low(w.lastUsed) != Low(w.lastUsed + 1);
    SlotIsWritten(w.used, w.lastUsed);
  }

  lemma ActInv(w: World, t: Tid, p: Pc, ch: Choice)
    requires WorldInv(w) && Open(w, t, p, ch) && (Holding(p) ==> w.busy == t && HolderInv(w, p))
    requires t != 0
    ensures var e := Act(w, t, p, ch);
            && WorldInv(e.w)
            && (Holding(e.pc) ==> e.w.busy == t && HolderInv(e.w, e.pc))
            && (!Holding(p) && w.busy != 0 ==> !Holding(e.pc) && e.w == w.(pending := e.w.pending))
  {
    if p.Examine? && Accepts(w) {
      AcceptedWasReturned(w, p.n);
    }
    LowNext(w.avail, w.lastUsed);
    hide Low, Slot;
  }

  lemma LowNext(a: nat, b: nat)
    ensures Low(a) == Low(b) ==> Low(a + 1) == Low(b + 1)
  {
  }

  lemma DeviceInv(s: State, e: Event)
    requires Inv(s) && Enabled(s, e) && !e.Step?
    ensures Inv(After(s, e))
  {
    var w, w' := s.w, After(s, e).w;
    assert NoReturn(w) && e.Spurious? ==> NoReturn(w');
    hide Low, NoReturn;
    forall t | t in s.th && Holding(s.th[t]) ensures w'.busy == t && HolderInv(w', s.th[t]) {
      assert HolderInv(w, s.th[t]);
    }
  }

  lemma StepInv(s: State, e: Event)
    requires Inv(s) && Enabled(s, e) && 0 !in s.th
    ensures Inv(After(s, e)) && 0 !in After(s, e).th
  {
    match e
    case Step(t, ch) =>
      ActInv(s.w, t, s.th[t], ch);
      hide Act, WorldInv, HolderInv, Open;
      HolderIgnoresPending(s.w, After(s, e).w.pending);
    case _ => DeviceInv(s, e);
  }

  lemma HolderIgnoresPending(w: World, x: Pending)
    ensures forall p :: HolderInv(w, p) ==> HolderInv(w.(pending := x), p)
  {
    hide Low;
    var w' := w.(pending := x);
    assert NoReturn(w) == NoReturn(w');
    forall p | HolderInv(w, p) ensures HolderInv(w', p) {
    }
  }

  lemma RunStep(r: seq<State>, k: nat) returns (e: Event)
    requires IsRun(r) && k + 1 < |r|
    ensures Enabled(r[k], e) && r[k + 1] == After(r[k], e)
  {
    hide After, Enabled, Init;
    assert Next(r[k], r[k + 1]);
    e :| Enabled(r[k], e) && r[k + 1] == After(r[k], e);
  }

  lemma {:induction false} RunInv(r: seq<State>, i: nat)
    requires IsRun(r) && i < |r|
    ensures Inv(r[i]) && 0 !in r[i].th
  {
    if i > 0 {
      hide Inv, IsRun, After, Enabled;
      RunInv(r, i - 1);
      var e := RunStep(r, i - 1);
      StepInv(r[i - 1], e);
    }
  }

  // ----------------------------------------------------------------- theorems

  lemma OneHolder(r: seq<State>, i: nat, t: Tid, u: Tid)
    requires IsRun(r) && i < |r| && t in r[i].th && u in r[i].th && Holding(r[i].th[t]) && Holding(r[i].th[u])
    ensures t == u
  {
    RunInv(r, i);
  }

  // The device never has a chain whose pages have been freed, and never two: it has
  // that of the request in flight, unless the driver has given up.
  lemma DeviceOwnsItsPages(r: seq<State>, i: nat, n: Request)
    requires IsRun(r) && i < |r| && n in r[i].w.device
    ensures r[i].w.device == {n} && n in r[i].w.pages
    ensures !r[i].w.failed ==> r[i].w.busy != 0
    ensures forall t :: t in r[i].th && Holding(r[i].th[t]) && !r[i].w.failed ==>
              (InFlight(r[i].th[t]) || r[i].th[t].MarkFailed?) && (InFlight(r[i].th[t]) ==> r[i].th[t].n == n)
  {
    RunInv(r, i);
    hide Low, NoReturn;
  }

  // Whenever the driver is idle and has not failed, the device has returned
  // everything, the published and accepted indices agree and no page is left over.
  lemma IdleQueueIsEmpty(r: seq<State>, i: nat)
    requires IsRun(r) && i < |r| && r[i].w.busy == 0 && !r[i].w.failed
    ensures r[i].w.device == {} && Low(r[i].w.avail) == Low(r[i].w.lastUsed) && r[i].w.pages == {}
  {
    RunInv(r, i);
  }

  // Pages are freed only if their chain was never published or has come back.
  lemma FreedPagesAreOurs(r: seq<State>, i: nat, n: Request)
    requires IsRun(r) && i + 1 < |r| && n in r[i].w.pages && n !in r[i + 1].w.pages
    ensures n !in r[i].w.device
  {
    RunInv(r, i + 1);
    assert Next(r[i], r[i + 1]);
    var e: Event :| Enabled(r[i], e) && r[i + 1] == After(r[i], e);
    if e.Step? && n in r[i].w.device {
      DeviceUnmoved(r[i].w, e.t, r[i].th[e.t], e.ch, n);
    }
  }

  lemma DeviceUnmoved(w: World, t: Tid, p: Pc, ch: Choice, n: Request)
    requires n in w.device
    ensures n in Act(w, t, p, ch).w.device
  {
    hide Low, Slot;
  }

  // Once the driver has failed it publishes nothing more, and allocates and frees nothing.
  lemma {:induction false} NothingPublishedAfterFailure(r: seq<State>, i: nat, j: nat)
    requires IsRun(r) && i <= j < |r| && r[i].w.failed
    ensures r[j].w.failed && r[j].w.avail == r[i].w.avail && r[j].w.pages == r[i].w.pages
    decreases j
  {
    hide Inv, IsRun, After, Enabled;
    if i < j {
      NothingPublishedAfterFailure(r, i, j - 1);
      RunInv(r, j - 1);
      var e := RunStep(r, j - 1);
      FailedStep(r[j - 1], e);
    }
  }

  lemma FailedStep(s: State, e: Event)
    requires Inv(s) && Enabled(s, e) && s.w.failed
    ensures After(s, e).w.failed && After(s, e).w.avail == s.w.avail && After(s, e).w.pages == s.w.pages
  {
    hide Low, Slot;
  }

  // -------------------------------------------- a device that keeps to the rules

  // Every used element is one of our chains.
  predicate AllOurs(used: seq<nat>) {
    forall k :: 0 <= k < |used| ==> used[k] == 0
  }

  // No interrupt handler is delayed for 2^16 requests.
  ghost predicate Prompt(s: State) {
    forall t :: t in s.th && s.th[t].IrqAdvanced? ==> s.w.lastUsed < s.th[t].prev + INDEX
  }

  // At rest the used ring has not moved; in flight it moves when the chain returns.
  predicate Exact(w: World, p: Pc) {
    match p
    case Publish(n) => w.pending.active && |w.used| == w.lastUsed
    case Wait(n) => w.pending.active && |w.used| == w.lastUsed + (if w.device == {} then 1 else 0)
    case Finish(n, ok) =>
      w.pending.active && |w.used| == w.lastUsed + (if w.device == {} then 1 else 0) && (ok ==> w.device == {})
    case Examine(n) => !w.pending.active && |w.used| == w.lastUsed + 1 && w.device == {}
    case MarkFailed(n) => !w.pending.active
    case IrqSeen(prev) => prev <= w.lastUsed
    case IrqAdvanced(prev) => prev <= w.lastUsed && prev < |w.used|
    case Idle => true
    case _ => !w.pending.active && (!w.failed ==> |w.used| == w.lastUsed)
  }

  predicate PendingInv(w: World) {
    && (w.pending.active ==> w.pending.prev == w.lastUsed && |w.used| <= w.lastUsed + 1)
    && (w.pending.completed ==> w.pending.active && |w.used| == w.lastUsed + 1)
    && (w.busy == 0 ==> !w.pending.active && (!w.failed ==> |w.used| == w.lastUsed))
  }

  ghost predicate RuledInv(s: State) {
    && Inv(s) && 0 !in s.th
    && PendingInv(s.w)
    && (forall t :: t in s.th ==> Exact(s.w, s.th[t]))
    && (s.w.busy != 0 ==> s.w.busy in s.th && Holding(s.th[s.w.busy]))
  }

  lemma LowEqual(a: nat, b: nat)
    requires a <= b < a + INDEX && Low(a) == Low(b)
    ensures a == b
  {
  }

  lemma {:induction false} SlotOurs(used: seq<nat>, pos: nat)
    requires AllOurs(used)
    ensures Slot(used, pos) == 0
  {
    if used != [] && (|used| - 1) % VQ_SIZE != pos {
      SlotOurs(used[..|used| - 1], pos);
    }
  }

  lemma ExactAccepts(w: World, n: Request)
    requires Exact(w, Examine(n)) && AllOurs(w.used)
    ensures Accepts(w)
  {
    SlotOurs(w.used, w.lastUsed % VQ_SIZE);
  }

  lemma ActExact(w: World, t: Tid, p: Pc, ch: Choice)
    requires WorldInv(w) && Open(w, t, p, ch) && (Holding(p) ==> w.busy == t && HolderInv(w, p)) && t != 0
    requires PendingInv(w) && Exact(w, p) && AllOurs(w.used)
    requires p.IrqAdvanced? ==> w.lastUsed < p.prev + INDEX
    ensures var e := Act(w, t, p, ch);
            && PendingInv(e.w) && Exact(e.w, e.pc)
            && |e.w.used| == |w.used| && e.w.lastUsed >= w.lastUsed
            && (Holding(e.pc) || e.w.busy == 0 || e.w.busy == w.busy != t || (w.busy == t == e.w.busy && !Holding(p)))
            && (e.w == w.(pending := e.w.pending) ==> e.w.pending.active == w.pending.active || Holding(p))
  {
    if p.IrqAdvanced? && Low(w.lastUsed) == Low(p.prev) {
      LowEqual(p.prev, w.lastUsed);
    }
    if p.Examine? {
      ExactAccepts(w, p.n);
    }
    hide Slot, Low, NoReturn;
  }

  // What the others see of a step: the used ring stands still, and only the
  // holder moves anything else.
  lemma OthersExact(w: World, w': World, q: Pc)
    requires Exact(w, q) && w'.used == w.used && w'.lastUsed >= w.lastUsed
    requires Holding(q) ==> w' == w.(pending := w'.pending) && w'.pending.active == w.pending.active
    ensures Exact(w', q)
  {
  }

  lemma RuledStep(s: State, t: Tid, ch: Choice)
    requires RuledInv(s) && Enabled(s, Step(t, ch)) && AllOurs(s.w.used) && Prompt(s)
    ensures RuledInv(After(s, Step(t, ch)))
  {
    var w, p := s.w, s.th[t];
    var e := Act(w, t, p, ch);
    StepInv(s, Step(t, ch));
    ActInv(w, t, p, ch);
    ActExact(w, t, p, ch);
    UsedUnmoved(w, t, p, ch);
    hide Act, WorldInv, HolderInv, Open, AllOurs, Exact, PendingInv;
    forall u | u in s.th && u != t ensures Exact(e.w, s.th[u]) {
      OthersExact(w, e.w, s.th[u]);
    }
  }

  lemma UsedUnmoved(w: World, t: Tid, p: Pc, ch: Choice)
    ensures Act(w, t, p, ch).w.used == w.used
  {
    hide Low, Slot;
  }

  lemma RuledReturn(s: State, n: Request, status: nat)
    requires RuledInv(s) && Enabled(s, Return(n, status))
    ensures RuledInv(After(s, Return(n, status)))
  {
    StepInv(s, Return(n, status));
    var w, w' := s.w, After(s, Return(n, status)).w;
    assert w'.device == {};
    hide Low, NoReturn;
    if w.busy != 0 {
      assert HolderInv(w, s.th[w.busy]) && Exact(w, s.th[w.busy]);
    }
    forall t | t in s.th ensures Exact(w', s.th[t]) {
      assert Exact(w, s.th[t]) && (Holding(s.th[t]) ==> HolderInv(w, s.th[t]));
    }
  }

  lemma SpuriousIsNotOurs(s: State, id: nat)
    requires Enabled(s, Spurious(id))
    ensures !AllOurs(After(s, Spurious(id)).w.used)
  {
    assert After(s, Spurious(id)).w.used[|s.w.used|] == id;
  }

  ghost predicate Ruled(r: seq<State>) {
    forall i :: 0 <= i < |r| ==> AllOurs(r[i].w.used) && Prompt(r[i])
  }

  lemma {:induction false} RunRuled(r: seq<State>, i: nat)
    requires IsRun(r) && Ruled(r) && i < |r|
    ensures RuledInv(r[i])
  {
    if i == 0 {
      RunInv(r, 0);
    } else {
      RunRuled(r, i - 1);
      assert AllOurs(r[i].w.used) && AllOurs(r[i - 1].w.used) && Prompt(r[i - 1]);
      hide RuledInv, Init, Prompt;
      assert Next(r[i - 1], r[i - 1 + 1]);
      var e: Event :| Enabled(r[i - 1], e) && r[i] == After(r[i - 1], e);
      match e
      case Step(t, ch) => RuledStep(r[i - 1], t, ch);
      case Return(n, status) => RuledReturn(r[i - 1], n, status);
      case Spurious(id) => SpuriousIsNotOurs(r[i - 1], id);
    }
  }

  // With a device that returns only our chains, and handlers that are not held
  // up for 2^16 requests, a request that stops waiting finds its chain returned
  // by exactly one step of the used index, so only a timeout, a reset request or
  // a bad status fails it.
  lemma CompletionIsGenuine(r: seq<State>, i: nat, t: Tid)
    requires IsRun(r) && Ruled(r) && i < |r| && t in r[i].th && r[i].th[t].Examine?
    ensures r[i].w.device == {} && |r[i].w.used| == r[i].w.lastUsed + 1 && Accepts(r[i].w)
  {
    RunRuled(r, i);
    ExactAccepts(r[i].w, r[i].th[t].n);
    assert Exact(r[i].w, r[i].th[t]);
  }

  // -------------------------------------------------- which request succeeds

  // What the task that holds the queue knows of its request's answer.
  predicate Answered(w: World, p: Pc) {
    match p
    case Submit(n) => n !in w.answers
    case Prepare(n) => n !in w.answers
    case Publish(n) => n !in w.answers
    case Wait(n) => n in w.device || Read(w, n)
    case Finish(n, _) => n in w.device || Read(w, n)
    case Examine(n) => n in w.device || Read(w, n)
    case Done(n) => n in w.answers && w.answers[n] == S_OK
    case Failed(n) => !w.failed ==> n in w.answers && w.answers[n] != S_OK
    case _ => true
  }

  // The status byte is the device's answer.
  predicate Read(w: World, n: Request) {
    n in w.answers && n in w.status && w.status[n] == w.answers[n]
  }

  predicate OldAnswers(w: World) {
    forall n :: n in w.answers ==> n < w.requests
  }

  ghost predicate AnswerInv(s: State) {
    OldAnswers(s.w) && forall t :: t in s.th ==> Answered(s.w, s.th[t])
  }

  lemma ActAnswered(w: World, t: Tid, p: Pc, ch: Choice)
    requires WorldInv(w) && (Holding(p) ==> HolderInv(w, p)) && OldAnswers(w) && Answered(w, p)
    ensures var e := Act(w, t, p, ch);
            OldAnswers(e.w) && Answered(e.w, e.pc) && e.w.answers == w.answers
  {
    if p.Examine? && Accepts(w) {
      AcceptedWasReturned(w, p.n);
    }
    hide Low, Slot;
  }

  // Whoever does not hold the queue knows nothing, and keeps its hands off.
  lemma OthersAnswered(w: World, w': World, p: Pc)
    requires Answered(w, p) && (Holding(p) ==> w' == w.(pending := w'.pending))
    ensures Answered(w', p)
  {
  }

  lemma ReturnAnswered(w: World, n: Request, status: nat, p: Pc)
    requires n in w.device && WorldInv(w) && (Holding(p) ==> HolderInv(w, p)) && Answered(w, p)
    ensures Answered(w.(used := w.used + [0], device := w.device - {n},
                        status := w.status[n := status], answers := w.answers[n := status]), p)
  {
    hide Low, NoReturn;
  }

  lemma AnswerStep(s: State, e: Event)
    requires Inv(s) && AnswerInv(s) && Enabled(s, e) && 0 !in s.th
    ensures AnswerInv(After(s, e))
  {
    match e
    case Step(t, ch) =>
      var w, p := s.w, s.th[t];
      ActAnswered(w, t, p, ch);
      ActInv(w, t, p, ch);
      hide Act, WorldInv, HolderInv, Open, Answered, OldAnswers;
      forall u | u in s.th && u != t ensures Answered(Act(w, t, p, ch).w, s.th[u]) {
        OthersAnswered(w, Act(w, t, p, ch).w, s.th[u]);
      }
    case Return(n, status) =>
      forall u | u in s.th ensures Answered(After(s, e).w, s.th[u]) {
        ReturnAnswered(s.w, n, status, s.th[u]);
      }
      hide HolderInv, Answered;
    case Spurious(_) =>
  }

  lemma {:induction false} RunAnswered(r: seq<State>, i: nat)
    requires IsRun(r) && i < |r|
    ensures AnswerInv(r[i])
  {
    if i > 0 {
      hide Inv, IsRun, After, Enabled, AnswerInv;
      RunAnswered(r, i - 1);
      RunInv(r, i - 1);
      var e := RunStep(r, i - 1);
      AnswerStep(r[i - 1], e);
    }
  }

  // A request succeeds only if the device answered it with a good status, and one that
  // fails on a driver still in service was answered with a bad one.
  lemma SuccessIsTheDevices(r: seq<State>, i: nat, t: Tid, n: Request)
    requires IsRun(r) && i < |r| && t in r[i].th
    ensures r[i].th[t] == Done(n) ==> n in r[i].w.answers && r[i].w.answers[n] == S_OK
    ensures r[i].th[t] == Failed(n) && !r[i].w.failed ==> n in r[i].w.answers && r[i].w.answers[n] != S_OK
  {
    RunAnswered(r, i);
    assert Answered(r[i].w, r[i].th[t]);
  }

  // With a device that keeps to the rules the status alone decides.
  lemma StatusDecides(r: seq<State>, i: nat, t: Tid, n: Request)
    requires IsRun(r) && Ruled(r) && i + 1 < |r| && t in r[i].th && r[i].th[t] == Examine(n)
    requires t in r[i + 1].th && r[i + 1].th[t] != Examine(n)
    ensures n in r[i].w.answers && !r[i + 1].w.failed
    ensures r[i + 1].th[t] == if r[i].w.answers[n] == S_OK then Done(n) else Failed(n)
  {
    hide IsRun, Ruled, Inv;
    RunAnswered(r, i);
    RunInv(r, i);
    CompletionIsGenuine(r, i, t);
    var e := RunStep(r, i);
    assert Answered(r[i].w, r[i].th[t]);
    ExamineIsHealthy(r[i], t, n);
    hide Accepts;
  }

  lemma ExamineIsHealthy(s: State, t: Tid, n: Request)
    requires Inv(s) && t in s.th && s.th[t] == Examine(n)
    ensures !s.w.failed
  {
  }

  // ------------------------------------------------- the layout of the virtqueue

  const VQ_ALIGN: nat := 4096
  const PAGE_SIZE: nat := 4096

  function AlignUp2(n: nat): nat { (n + 1) / 2 * 2 }
  function AlignUp16(n: nat): nat { (n + 15) / 16 * 16 }
  function AlignUpQueue(n: nat): nat { (n + VQ_ALIGN - 1) / VQ_ALIGN * VQ_ALIGN }
  function PagesFor(n: nat): nat { (n + PAGE_SIZE - 1) / PAGE_SIZE }

  datatype Region = Region(start: nat, size: nat)

  datatype Layout = Layout(desc: Region, avail: Region, used: Region, pages: nat)

  // vq_alloc_legacy, with the addresses taken from the start of the allocation.
  function LegacyLayout(qsize: nat): Layout {
    var descSize := 16 * qsize;
    var availSize := AlignUp2(6 + 2 * qsize);
    var usedSize := AlignUpQueue(6 + 8 * qsize);
    var total := AlignUp16(descSize) + AlignUp2(availSize) + AlignUpQueue(usedSize);
    var pages := PagesFor(total);
    var availAt := AlignUp16(descSize);
    var usedAt := AlignUpQueue(AlignUp2(availAt + availSize));
    Layout(Region(0, descSize), Region(availAt, availSize), Region(usedAt, usedSize), pages)
  }

  lemma AlignedTwo(n: nat)
    ensures n <= AlignUp2(n) && AlignUp2(2 * n) == 2 * n
  {
  }

  lemma AlignedSixteen(n: nat)
    ensures AlignUp16(16 * n) == 16 * n
  {
  }

  lemma AlignedQueue(n: nat)
    ensures n <= AlignUpQueue(n) && AlignUpQueue(n) % VQ_ALIGN == 0
    ensures AlignUpQueue(AlignUpQueue(n)) == AlignUpQueue(n)
  {
  }

  lemma Even(n: nat)
    ensures 2 * n % 2 == 0
  {
  }

  lemma PagesSuffice(n: nat, used: nat)
    requires used % VQ_ALIGN == 0
    ensures AlignUpQueue(n) + used == PagesFor(n + used) * PAGE_SIZE
  {
    var k := used / VQ_ALIGN;
    assert n + used + PAGE_SIZE - 1 == (n + VQ_ALIGN - 1) + k * VQ_ALIGN;
  }

  lemma LegacyLayoutIs(qsize: nat)
    ensures var l := LegacyLayout(qsize);
            && l.desc == Region(0, 16 * qsize)
            && l.avail == Region(16 * qsize, 6 + 2 * qsize)
            && l.used == Region(AlignUpQueue(6 + 18 * qsize), AlignUpQueue(6 + 8 * qsize))
            && l.pages == PagesFor(6 + 18 * qsize + AlignUpQueue(6 + 8 * qsize))
  {
    hide AlignUp2, AlignUp16, AlignUpQueue, PagesFor;
    AlignedSixteen(qsize);
    AlignedTwo(3 + qsize);
    assert 2 * (3 + qsize) == 6 + 2 * qsize;
    AlignedTwo(3 + 9 * qsize);
    assert 2 * (3 + 9 * qsize) == 16 * qsize + (6 + 2 * qsize);
    AlignedQueue(6 + 8 * qsize);
  }

  // The three parts are aligned as section 2.6.2 of VIRTIO 1.1 asks, do not
  // overlap and lie inside the pages allocated for them.
  lemma LegacyLayoutIsSound(qsize: nat)
    ensures var l := LegacyLayout(qsize);
            && l.desc.size == 16 * qsize && l.avail.size >= 6 + 2 * qsize && l.used.size >= 6 + 8 * qsize
            && l.avail.start % 2 == 0 && l.used.start % VQ_ALIGN == 0
            && l.desc.start + l.desc.size <= l.avail.start
            && l.avail.start + l.avail.size <= l.used.start
            && l.used.start + l.used.size <= l.pages * PAGE_SIZE
  {
    hide *;
    LegacyLayoutIs(qsize);
    Even(8 * qsize);
    AlignedQueue(6 + 8 * qsize);
    AlignedQueue(6 + 18 * qsize);
    PagesSuffice(6 + 18 * qsize, AlignUpQueue(6 + 8 * qsize));
  }
}
