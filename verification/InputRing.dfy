/**
  The input event ring: 512 slots, of which 511 can be filled, edited in place.
  When it is full a key or configuration event pushes out the first event that is
  neither.
 */
module InputRing {

  const SIZE: nat := 512
  const SYNC: nat := 0
  const KEY: nat := 1
  const CONFIG: nat := 5

  datatype Event = Event(kind: nat, code: nat, value: int, time: nat)

  predicate Priority(e: Event) {
    e.kind == KEY || e.kind == CONFIG
  }

  // ------------------------------------------------------- what the ring stands for

  // s can be had from e by leaving events out.
  predicate Within(s: seq<Event>, e: seq<Event>) {
    if s == [] then true
    else if e == [] then false
    else if s[|s| - 1] == e[|e| - 1] then Within(s[..|s| - 1], e[..|e| - 1]) || Within(s, e[..|e| - 1])
    else Within(s, e[..|e| - 1])
  }

  lemma WithinGrows(s: seq<Event>, e: seq<Event>, x: Event)
    requires Within(s, e)
    ensures Within(s, e + [x]) && Within(s + [x], e + [x])
  {
    assert (e + [x])[..|e|] == e && (s + [x])[..|s|] == s;
  }

  lemma {:induction false} WithinDrops(a: seq<Event>, x: Event, b: seq<Event>, e: seq<Event>)
    requires Within(a + [x] + b, e)
    ensures Within(a + b, e)
    decreases |e|
  {
    var s, t := a + [x] + b, a + b;
    var e' := e[..|e| - 1];
    if b == [] {
      assert s == a + [x] && t == a && s[..|s| - 1] == a;
      WithinTail(a, x, e);
    } else {
      var b' := b[..|b| - 1];
      assert s[..|s| - 1] == a + [x] + b' && t[..|t| - 1] == a + b' && t[|t| - 1] == s[|s| - 1];
      if Within(s, e') {
        WithinDrops(a, x, b, e');
      } else {
        WithinDrops(a, x, b', e');
      }
    }
  }

  lemma {:induction false} WithinTail(a: seq<Event>, x: Event, e: seq<Event>)
    requires Within(a + [x], e)
    ensures Within(a, e)
    decreases |e|
  {
    var s, e' := a + [x], e[..|e| - 1];
    assert s[..|s| - 1] == a;
    assert e == e' + [e[|e| - 1]];
    if Within(s, e') {
      WithinTail(a, x, e');
    }
    WithinGrows(a, e', e[|e| - 1]);
  }

  predicate NoTwoSyncs(q: seq<Event>) {
    forall i :: 0 < i < |q| ==> q[i - 1].kind != SYNC || q[i].kind != SYNC
  }

  // The first event that may be pushed out, |q| if there is none.
  function FirstIdle(q: seq<Event>): (k: nat)
    ensures k <= |q| && (forall m :: 0 <= m < k ==> Priority(q[m])) && (k < |q| ==> !Priority(q[k]))
  {
    FirstIdleFrom(q, 0)
  }

  function FirstIdleFrom(q: seq<Event>, from: nat): (k: nat)
    requires from <= |q| && forall m :: 0 <= m < from ==> Priority(q[m])
    ensures from <= k <= |q| && (forall m :: 0 <= m < k ==> Priority(q[m])) && (k < |q| ==> !Priority(q[k]))
    decreases |q| - from
  {
    if from == |q| || !Priority(q[from]) then from else FirstIdleFrom(q, from + 1)
  }

  function Without(q: seq<Event>, k: nat): seq<Event>
    requires k < |q|
  {
    q[..k] + q[k + 1..]
  }

  // The queue after an event is emitted.
  function Emitted(q: seq<Event>, e: Event): seq<Event> {
    if e.kind == SYNC && q != [] && q[|q| - 1].kind == SYNC then q
    else if |q| < SIZE - 1 then q + [e]
    else if !Priority(e) then q
    else (if FirstIdle(q) < |q| then Without(q, FirstIdle(q)) else q[1..]) + [e]
  }

  // With room left nothing queued is dropped, and the event goes behind it unless it is a
  // second sync in a row. In a full ring an ordinary event is lost, and a key or
  // configuration event takes the place of another.
  lemma EventIsQueuedIff(q: seq<Event>, e: Event)
    requires |q| < SIZE
    ensures var r, twice := Emitted(q, e), e.kind == SYNC && q != [] && q[|q| - 1].kind == SYNC;
      && (|q| < SIZE - 1 ==> q <= r && (|r| == |q| <==> twice) && (!twice ==> r == q + [e]))
      && (|q| == SIZE - 1 && !Priority(e) ==> r == q)
      && (|q| == SIZE - 1 && Priority(e) ==> |r| == |q| && r[|r| - 1] == e)
  {
    var k := FirstIdle(q);
    if k < |q| {
      assert |Without(q, k)| == |q| - 1;
    }
  }

  // Two syncs never meet, not even when the event between them is pushed out.
  lemma EmittedNoTwoSyncs(q: seq<Event>, e: Event)
    requires NoTwoSyncs(q)
    ensures NoTwoSyncs(Emitted(q, e))
  {
    var k := FirstIdle(q);
    if k < |q| {
      var r := Without(q, k);
      assert forall i :: 0 <= i < |r| ==> r[i] == q[if i < k then i else i + 1];
    }
  }

  // The key and configuration events of a queue.
  function Keys(q: seq<Event>): seq<Event> {
    if q == [] then []
    else
      var e := q[|q| - 1];
      Keys(q[..|q| - 1]) + (if e.kind == KEY || e.kind == CONFIG then [e] else [])
  }

  lemma {:induction false} KeysJoin(a: seq<Event>, b: seq<Event>)
    ensures Keys(a + b) == Keys(a) + Keys(b)
  {
    if b == [] {
      assert a + b == a;
    } else {
      var b' := b[..|b| - 1];
      KeysJoin(a, b');
      assert (a + b)[..|a + b| - 1] == a + b';
    }
  }

  // Key and configuration events are queued in order and none is lost, unless
  // nothing else is queued in a full ring: then each new one pushes out the oldest.
  lemma KeysAreLostIff(q: seq<Event>, e: Event)
    requires |q| < SIZE
    ensures if |q| == SIZE - 1 && FirstIdle(q) == |q| && Priority(e)
            then Keys(Emitted(q, e)) == Keys(q[1..]) + [e] && Keys(q) == [q[0]] + Keys(q[1..])
            else Keys(Emitted(q, e)) == Keys(q) + Keys([e])
  {
    var k := FirstIdle(q);
    hide Keys, FirstIdle, Without;
    KeysJoin(q, [e]);
    KeysOfOne(e);
    assert Keys(q) + [] == Keys(q);
    if |q| == SIZE - 1 && Priority(e) {
      if k < |q| {
        KeysWithout(q, k);
        KeysJoin(Without(q, k), [e]);
      } else {
        assert q == [q[0]] + q[1..];
        KeysJoin([q[0]], q[1..]);
        KeysOfOne(q[0]);
        KeysJoin(q[1..], [e]);
      }
    }
  }

  lemma KeysOfOne(e: Event)
    ensures Keys([e]) == if Priority(e) then [e] else []
  {
    assert [e][..0] == [];
  }

  lemma {:induction false} KeysWithout(q: seq<Event>, k: nat)
    requires k < |q| && !Priority(q[k])
    ensures Keys(Without(q, k)) == Keys(q)
  {
    var n := |q| - 1;
    if k == n {
      assert Without(q, k) == q[..n];
    } else {
      KeysWithout(q[..n], k);
      assert Without(q, k)[..n - 1] == Without(q[..n], k) && Without(q, k)[n - 1] == q[n];
    }
  }

  lemma WithoutIsWithin(d: seq<Event>, q: seq<Event>, k: nat, log: seq<Event>)
    requires Within(d + q, log) && k < |q|
    ensures Within(d + Without(q, k), log)
  {
    hide Within;
    assert d + q == (d + q[..k]) + [q[k]] + q[k + 1..];
    WithinDrops(d + q[..k], q[k], q[k + 1..], log);
    assert (d + q[..k]) + q[k + 1..] == d + Without(q, k);
  }

  lemma AppendIsWithin(d: seq<Event>, q: seq<Event>, log: seq<Event>, e: Event)
    requires Within(d + q, log)
    ensures Within(d + (q + [e]), log + [e])
  {
    hide Within;
    WithinGrows(d + q, log, e);
    assert d + q + [e] == d + (q + [e]);
  }

  lemma EmittedIsWithin(d: seq<Event>, q: seq<Event>, log: seq<Event>, e: Event)
    requires Within(d + q, log)
    ensures Within(d + Emitted(q, e), log + [e])
  {
    var k := FirstIdle(q);
    hide Within, FirstIdle, Without;
    WithinGrows(d + q, log, e);
    AppendIsWithin(d, q, log, e);
    if q != [] {
      var j := if k < |q| then k else 0;
      WithoutIsWithin(d, q, j, log);
      AppendIsWithin(d, Without(q, j), log, e);
      WithoutFirst(q);
    }
  }

  lemma WithoutFirst(q: seq<Event>)
    requires q != []
    ensures Without(q, 0) == q[1..]
  {
  }

  // ------------------------------------------------------------------ the ring

  function Wrap(n: nat): nat {
    if n < SIZE then n else n - SIZE
  }

  function Unroll(b: seq<Event>, tail: nat, n: nat): (u: seq<Event>)
    requires |b| == SIZE && tail < SIZE && n <= SIZE
    ensures |u| == n
  {
    seq(n, i requires 0 <= i < n => b[Wrap(tail + i)])
  }

  lemma WrapApart(tail: nat, a: nat, b: nat)
    requires tail < SIZE && a < SIZE && b < SIZE
    ensures Wrap(tail + a) == Wrap(tail + b) <==> a == b
  {
  }

  lemma UnrollAt(b: seq<Event>, tail: nat, n: nat, m: nat)
    requires |b| == SIZE && tail < SIZE && m < n <= SIZE
    ensures Unroll(b, tail, n)[m] == b[Wrap(tail + m)]
  {
  }

  // Writing a slot in use, the slot behind the last, and leaving out either end.
  lemma UnrollWrite(b: seq<Event>, tail: nat, n: nat, m: nat, e: Event)
    requires |b| == SIZE && tail < SIZE && m < n <= SIZE
    ensures Unroll(b[Wrap(tail + m) := e], tail, n) == Unroll(b, tail, n)[m := e]
  {
    var b' := b[Wrap(tail + m) := e];
    forall i | 0 <= i < n ensures Unroll(b', tail, n)[i] == Unroll(b, tail, n)[m := e][i] {
      UnrollAt(b, tail, n, i);
      UnrollAt(b', tail, n, i);
      WrapApart(tail, i, m);
    }
  }

  lemma UnrollAppend(b: seq<Event>, tail: nat, n: nat, e: Event)
    requires |b| == SIZE && tail < SIZE && n < SIZE
    ensures Unroll(b[Wrap(tail + n) := e], tail, n + 1) == Unroll(b, tail, n) + [e]
  {
    var b' := b[Wrap(tail + n) := e];
    forall i | 0 <= i < n + 1 ensures Unroll(b', tail, n + 1)[i] == (Unroll(b, tail, n) + [e])[i] {
      UnrollAt(b', tail, n + 1, i);
      WrapApart(tail, i, n);
    }
  }

  lemma UnrollEnds(b: seq<Event>, tail: nat, n: nat)
    requires |b| == SIZE && tail < SIZE && 0 < n <= SIZE
    ensures Unroll(b, tail, n - 1) == Unroll(b, tail, n)[..n - 1]
    ensures Unroll(b, Wrap(tail + 1), n - 1) == Unroll(b, tail, n)[1..]
  {
    var u, v := Unroll(b, tail, n)[1..], Unroll(b, Wrap(tail + 1), n - 1);
    forall i | 0 <= i < n - 1 ensures u[i] == v[i] {
      UnrollAt(b, tail, n, i + 1);
      UnrollAt(b, Wrap(tail + 1), n - 1, i);
      assert Wrap(Wrap(tail + 1) + i) == Wrap(tail + (i + 1));
    }
  }

  // The queue while events k + 1 to j have moved down by one.
  function Moved(q: seq<Event>, k: nat, j: nat): seq<Event>
    requires k <= j < |q|
  {
    q[..k] + q[k + 1..j + 1] + q[j..]
  }

  lemma MoveOne(q: seq<Event>, k: nat, j: nat)
    requires k <= j && j + 1 < |q|
    ensures Moved(q, k, j)[j + 1] == q[j + 1]
    ensures Moved(q, k, j)[j := q[j + 1]] == Moved(q, k, j + 1)
  {
  }

  lemma MoveAll(q: seq<Event>, k: nat)
    requires k < |q|
    ensures Moved(q, k, k) == q
    ensures Moved(q, k, |q| - 1)[..|q| - 1] == Without(q, k)
  {
  }

  function Next(x: nat): nat { (x + 1) % SIZE }
  function Prev(x: nat): nat { (x + SIZE - 1) % SIZE }

  lemma NextIs(tail: nat, m: nat)
    requires tail < SIZE && m < SIZE
    ensures Wrap(tail + m) < SIZE && Next(Wrap(tail + m)) == Wrap(tail + m + 1)
  {
  }

  lemma PrevIs(tail: nat, m: nat)
    requires tail < SIZE && 0 < m < SIZE
    ensures Prev(Wrap(tail + m)) == Wrap(tail + m - 1) < SIZE
  {
  }

  lemma WrapShort(tail: nat)
    requires tail < SIZE
    ensures Wrap(tail) == tail && Wrap(tail + SIZE - 1 + 1) == tail
  {
  }

  class Ring {
    const buf: array<Event>
    var head: nat
    var tail: nat
    ghost var emitted: seq<Event>     // since the device was opened
    ghost var delivered: seq<Event>

    ghost predicate Shape()
      reads this
    {
      buf.Length == SIZE && head < SIZE && tail < SIZE
    }

    ghost function Count(): (n: nat)
      requires Shape()
      reads this
      ensures n < SIZE && Wrap(tail + n) == head && (n == 0 <==> head == tail)
    {
      if tail <= head then head - tail else head + SIZE - tail
    }

    // The queued events, oldest first.
    ghost function Queue(): seq<Event>
      requires Shape()
      reads this, buf
    {
      Unroll(buf[..], tail, Count())
    }

    // What was read and what is queued is what was emitted, in order and with some
    // events left out; two syncs are never next to each other in the queue.
    ghost predicate Valid()
      reads this, buf
    {
      Shape() && Within(delivered + Queue(), emitted) && NoTwoSyncs(Queue())
    }

    constructor ()
      ensures Valid() && fresh(buf) && Queue() == [] && delivered == [] && emitted == []
    {
      buf := new Event[SIZE](_ => Event(0, 0, 0, 0));
      head, tail, emitted, delivered := 0, 0, [], [];
    }

    lemma CountIs(m: nat)
      requires Shape() && m < SIZE && Wrap(tail + m) == head
      ensures Count() == m
    {
      WrapApart(tail, m, Count());
    }

    // Event j + 1 is copied over event j.
    method CopyDown(index: nat, next: nat, ghost j: nat, ghost n: nat)
      requires Shape() && j + 1 < n <= SIZE
      requires index == Wrap(tail + j) < SIZE && next == Wrap(tail + j + 1) < SIZE
      modifies buf
      ensures var u := Unroll(old(buf[..]), tail, n); Unroll(buf[..], tail, n) == u[j := u[j + 1]]
    {
      ghost var b := buf[..];
      hide Unroll, Wrap;
      UnrollAt(b, tail, n, j + 1);
      UnrollWrite(b, tail, n, j, buf[next]);
      buf[index] := buf[next];
      assert buf[..] == b[index := b[next]];
    }

    // The inner loop of input_drop_nonpriority_locked: later events move down.
    method MoveDown(at: nat, ghost k: nat)
      requires Shape() && k < Count() && at == Wrap(tail + k)
      modifies buf
      ensures Queue() == Moved(old(Queue()), k, Count() - 1)
    {
      hide Unroll, Moved, Wrap, Next, Count;
      ghost var q, n := Queue(), Count();
      MoveAll(q, k);
      NextIs(tail, k);
      var index, next := at, Next(at);
      ghost var j := k;
      while next != head
        invariant k <= j < n && index == Wrap(tail + j) && next == Wrap(tail + j + 1)
        invariant Unroll(buf[..], tail, n) == Moved(q, k, j)
        decreases n - j
      {
        WrapApart(tail, j + 1, n);
        NextIs(tail, j);
        NextIs(tail, j + 1);
        MoveOne(q, k, j);
        CopyDown(index, next, j, n);
        index := next;
        next := Next(next);
        j := j + 1;
      }
      WrapApart(tail, j + 1, n);
    }

    method RemoveAt(at: nat, ghost k: nat)
      requires Shape() && k < Count() && at == Wrap(tail + k)
      modifies buf, `head
      ensures Shape() && Queue() == Without(old(Queue()), k)
    {
      hide Unroll, Moved, Wrap, Prev, Count;
      ghost var q, n := Queue(), Count();
      MoveDown(at, k);
      MoveAll(q, k);
      UnrollEnds(buf[..], tail, n);
      PrevIs(tail, n);
      head := Prev(head);
      CountIs(n - 1);
    }

    // input_drop_nonpriority_locked
    method DropIdle() returns (dropped: bool)
      requires Shape()
      modifies buf, `head
      ensures Shape()
      ensures dropped <==> FirstIdle(old(Queue())) < |old(Queue())|
      ensures Queue() == if dropped then Without(old(Queue()), FirstIdle(old(Queue()))) else old(Queue())
    {
      hide Unroll, Wrap, Next, Count;
      ghost var q, k := Queue(), 0;
      WrapShort(tail);
      var index := tail;
      while index != head
        invariant head == old(head) && buf[..] == old(buf[..])
        invariant 0 <= k <= Count() && index == Wrap(tail + k)
        invariant forall m :: 0 <= m < k ==> Priority(q[m])
        decreases Count() - k
      {
        WrapApart(tail, k, Count());
        NextIs(tail, k);
        UnrollAt(buf[..], tail, Count(), k);
        if Priority(buf[index]) {
          index := Next(index);
          k := k + 1;
        } else {
          assert FirstIdle(q) == k;
          RemoveAt(index, k);
          return true;
        }
      }
      WrapApart(tail, k, Count());
      return false;
    }

    // The last event is a sync.
    method EndsInSync() returns (yes: bool)
      requires Shape()
      ensures yes <==> Queue() != [] && Queue()[|Queue()| - 1].kind == SYNC
    {
      if head == tail {
        return false;
      }
      PrevIs(tail, Count());
      UnrollAt(buf[..], tail, Count(), Count() - 1);
      yes := buf[Prev(head)].kind == SYNC;
    }

    method Store(e: Event)
      requires Shape() && Count() < SIZE - 1
      modifies buf, `head
      ensures Shape() && Queue() == old(Queue()) + [e]
    {
      ghost var b, n := buf[..], Count();
      hide Unroll, Wrap, Next, Count;
      UnrollAppend(b, tail, n, e);
      NextIs(tail, n);
      NextIs(tail, n + 1);
      buf[head] := e;
      assert buf[..] == b[head := e];
      head := Next(head);
      CountIs(n + 1);
    }

    // Room for a priority event: the first other event goes, or else the oldest.
    method MakeRoom()
      requires Shape() && Count() == SIZE - 1
      modifies buf, `head, `tail
      ensures Shape() && Count() < SIZE - 1
      ensures var q := old(Queue());
              Queue() == if FirstIdle(q) < |q| then Without(q, FirstIdle(q)) else q[1..]
    {
      assert |Queue()| == Count();
      var dropped := DropIdle();
      assert |Queue()| == Count();
      if !dropped {
        DropFirst();
      }
    }

    method DropFirst()
      requires Shape() && 0 < Count()
      modifies `tail
      ensures Shape() && Count() == old(Count()) - 1 && |old(Queue())| == old(Count())
      ensures Queue() == old(Queue())[1..]
    {
      ghost var n := Count();
      UnrollEnds(buf[..], tail, n);
      WrapShort(tail);
      NextIs(tail, 0);
      assert Wrap(Next(tail) + (n - 1)) == head;
      tail := Next(tail);
      CountIs(n - 1);
    }

    // armos_input_emit, on the ring.
    method EmitEvent(e: Event)
      requires Shape()
      modifies buf, `head, `tail
      ensures Shape() && Queue() == Emitted(old(Queue()), e)
    {
      ghost var q := Queue();
      assert |q| == Count() && (Next(head) == tail <==> Count() == SIZE - 1);
      hide Unroll, Next, Wrap, Count, FirstIdle, Without;
      var twice := EndsInSync();
      if e.kind == SYNC && twice {
        return;
      }
      if Next(head) == tail {
        if !Priority(e) {
          return;
        }
        MakeRoom();
      }
      Store(e);
    }

    // armos_input_emit
    method Emit(e: Event)
      requires Valid()
      modifies buf, `head, `tail, `emitted
      ensures Valid() && emitted == old(emitted) + [e]
      ensures Queue() == Emitted(old(Queue()), e)
    {
      hide Within, NoTwoSyncs, Unroll, Count, Emitted;
      EmittedIsWithin(delivered, Queue(), emitted, e);
      EmittedNoTwoSyncs(Queue(), e);
      emitted := emitted + [e];
      EmitEvent(e);
    }

    method Take() returns (e: Event)
      requires Shape() && head != tail
      modifies `tail
      ensures Shape() && [e] + Queue() == old(Queue()) && Count() == old(Count()) - 1
    {
      ghost var q := Queue();
      UnrollAt(buf[..], tail, Count(), 0);
      assert q == [q[0]] + q[1..];
      e := buf[tail];
      DropFirst();
    }

    // The copying loop of input_read.
    method CopyOut(capacity: nat) returns (events: seq<Event>)
      requires Shape()
      modifies `tail
      ensures Shape() && events + Queue() == old(Queue())
      ensures |events| == if capacity < |old(Queue())| then capacity else |old(Queue())|
    {
      hide Unroll, Wrap, Count;
      events := [];
      ghost var q := Queue();
      while |events| < capacity && tail != head
        invariant Shape() && |events| <= capacity
        invariant events + Queue() == q
        decreases Count()
      {
        ghost var now := Queue();
        var e := Take();
        events := events + [e];
        assert events[..|events| - 1] + now == q;
      }
    }

    // input_read
    method Read(capacity: nat) returns (events: seq<Event>)
      requires Valid()
      modifies `tail, `delivered
      ensures Valid() && delivered == old(delivered) + events
      ensures events + Queue() == old(Queue())
      ensures |events| == if capacity < |old(Queue())| then capacity else |old(Queue())|
    {
      hide Within, NoTwoSyncs, Unroll, Count;
      events := CopyOut(capacity);
      SyncsInTail(events, Queue());
      Regroup(delivered, events, Queue());
      delivered := delivered + events;
    }

    // Opening or closing the device discards what is queued.
    method Reset()
      requires Valid()
      modifies `tail, `emitted, `delivered
      ensures Valid() && Queue() == [] && emitted == [] && delivered == []
    {
      tail := head;
      emitted, delivered := [], [];
    }
  }

  lemma Regroup(a: seq<Event>, b: seq<Event>, c: seq<Event>)
    ensures a + b + c == a + (b + c)
  {
  }

  lemma SyncsInTail(a: seq<Event>, b: seq<Event>)
    requires NoTwoSyncs(a + b)
    ensures NoTwoSyncs(b)
  {
    forall i | 0 < i < |b| ensures b[i - 1].kind != SYNC || b[i].kind != SYNC {
      assert (a + b)[|a| + i] == b[i] && (a + b)[|a| + i - 1] == b[i - 1];
    }
  }
}
