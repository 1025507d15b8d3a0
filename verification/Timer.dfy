/**
  timerfd: a timer kept in 32-bit ticks that wrap, against a timer whose ticks are
  unbounded integers.
 */
module Timer {

  const WORD: nat := 0x1_0000_0000
  const HALF: nat := 0x8000_0000
  const U64_MAX: nat := 0xffff_ffff_ffff_ffff

  function Low(n: int): nat {
    n % WORD
  }

  // (int32_t)w < 0
  predicate Negative(w: nat) {
    w >= HALF
  }

  // ------------------------------------------------------- the unbounded timer

  // `due` counts the expirations so far.
  datatype Ideal = Ideal(armed: bool, deadline: int, interval: nat, due: nat)

  function Tick(i: Ideal, now: int): Ideal {
    if !i.armed || now < i.deadline then i
    else if i.interval == 0 then i.(armed := false, due := i.due + 1)
    else
      var n := 1 + (now - i.deadline) / i.interval;
      i.(deadline := i.deadline + n * i.interval, due := i.due + n)
  }

  lemma MulOrder(a: int, b: int, d: nat)
    ensures a <= b ==> a * d <= b * d
  {
  }

  lemma DivIs(a: int, d: nat, q: int)
    requires 0 < d && q * d <= a < q * d + d
    ensures a / d == q
  {
    var p := a / d;
    assert p * d <= a < p * d + d;
    MulOrder(p + 1, q, d);
    MulOrder(q + 1, p, d);
  }

  // How Tick counts: n instants, the next deadline after now and within an interval.
  lemma TickAdvances(i: Ideal, now: int)
    requires i.armed && 0 < i.interval && i.deadline <= now
    ensures var j := Tick(i, now);
            && j.armed && j.interval == i.interval && i.due < j.due
            && j.deadline == i.deadline + (j.due - i.due) * i.interval
            && now < j.deadline <= now + i.interval
  {
    var d := i.interval;
    var q := (now - i.deadline) / d;
    assert q * d <= now - i.deadline < q * d + d;
    assert (1 + q) * d == q * d + d;
  }

  // A tick is determined by where it lands.
  lemma TickIs(i: Ideal, now: int, n: nat)
    requires i.armed && 0 < i.interval && i.deadline <= now && 0 < n
    requires now < i.deadline + n * i.interval <= now + i.interval
    ensures Tick(i, now) == i.(deadline := i.deadline + n * i.interval, due := i.due + n)
  {
    assert (n - 1) * i.interval == n * i.interval - i.interval;
    DivIs(now - i.deadline, i.interval, n - 1);
  }

  // Looking at t1 and again at t2 is the same as looking at t2 alone.
  lemma TickTwice(i: Ideal, t1: int, t2: int)
    requires t1 <= t2
    ensures Tick(Tick(i, t1), t2) == Tick(i, t2)
  {
    if i.armed && i.deadline <= t1 && 0 < i.interval {
      var d := i.interval;
      TickAdvances(i, t1);
      var j := Tick(i, t1);
      if j.deadline <= t2 {
        TickAdvances(j, t2);
        var k := Tick(j, t2);
        assert (k.due - i.due) * d == (k.due - j.due) * d + (j.due - i.due) * d;
        hide Tick;
        TickIs(i, t2, k.due - i.due);
      } else {
        hide Tick;
        TickIs(i, t2, j.due - i.due);
      }
    }
  }

  // A timer without an interval goes off once, however often it is looked at.
  lemma OneShotFiresOnce(i: Ideal, t1: int, t2: int)
    requires i.armed && i.interval == 0 && t1 <= t2
    ensures var j := Tick(Tick(i, t1), t2);
            j.due == i.due + (if i.deadline <= t2 then 1 else 0) && (j.armed <==> t2 < i.deadline)
  {
    TickTwice(i, t1, t2);
  }

  // The instants D, D + interval, ... up to now, as a set.
  function Instants(deadline: int, interval: nat, now: int, n: nat): set<int> {
    if n == 0 then {}
    else
      var last := deadline + (n - 1) * interval;
      Instants(deadline, interval, now, n - 1) + (if last <= now then {last} else {})
  }

  lemma {:induction false} InstantsAreDue(deadline: int, interval: nat, now: int, n: nat)
    requires 0 < interval
    ensures forall x :: x in Instants(deadline, interval, now, n) ==> x < deadline + n * interval && x <= now
    ensures deadline + n * interval <= now + interval ==> |Instants(deadline, interval, now, n)| == n
    ensures deadline + n * interval > now ==>
              Instants(deadline, interval, now, n + 1) == Instants(deadline, interval, now, n)
  {
    if n > 0 {
      InstantsAreDue(deadline, interval, now, n - 1);
      assert n * interval == (n - 1) * interval + interval;
    }
  }

  // Tick adds as many expirations as there are due instants: the first n of them,
  // and the one after those is not due.
  lemma TickCountsInstants(i: Ideal, now: int)
    requires i.armed && 0 < i.interval && i.deadline <= now
    ensures var n := Tick(i, now).due - i.due;
            && |Instants(i.deadline, i.interval, now, n)| == n
            && i.deadline + n * i.interval > now
  {
    TickAdvances(i, now);
    hide Tick;
    var n := Tick(i, now).due - i.due;
    InstantsAreDue(i.deadline, i.interval, now, n);
  }

  // --------------------------------------------------------- the 32-bit timer

  function Min(a: nat, b: nat): nat { if a < b then a else b }

  class TimerFd {
    var armed: bool
    var deadline: nat
    var interval: nat
    var expirations: nat
    ghost var start: Ideal   // the unbounded timer when it was set
    ghost var seen: int      // when it was last looked at, or just before it was due
    ghost var taken: nat     // expirations handed to readers since
    ghost var lost: nat      // expirations beyond the 64-bit counter

    // The unbounded timer now.
    ghost function Ideally(): Ideal
      reads this
    {
      Tick(start, seen)
    }

    // The two timers agree: every due instant has been taken, is pending, or did not
    // fit the counter, and the deadline is the true one in 32 bits.
    ghost predicate Valid()
      reads this
    {
      && interval < WORD && expirations <= U64_MAX
      && Ideally().armed == armed && Ideally().interval == interval
      && Ideally().due == taken + expirations + lost
      && (armed ==> deadline == Low(Ideally().deadline))
    }

    // They agree, and a look at the 32-bit one now tells the truth: its deadline is
    // no more than 2^31 ticks ahead and less than 2^31 ticks past.
    ghost predicate AgreesAt(now: int)
      reads this
    {
      && Valid() && seen <= now
      && (armed ==> Ideally().deadline <= now + HALF && now < Ideally().deadline + HALF)
    }

    // They agree, and a look within the next 2^31 ticks tells the truth.
    ghost predicate AgreesFrom(now: int)
      reads this
    {
      Valid() && seen <= now && (armed ==> now < Ideally().deadline <= now + HALF)
    }

    lemma AgreesLater(now: int, later: int)
      requires AgreesFrom(now) && now <= later < now + HALF
      ensures AgreesAt(later)
    {
    }

    constructor ()
      ensures Valid() && !armed
    {
      armed, deadline, interval, expirations := false, 0, 0, 0;
      start, seen, taken, lost := Ideal(false, 0, 0, 0), 0, 0, 0;
    }

    // timerfd_update_locked, less than 2^31 ticks after the deadline.
    method Update(now: nat)
      requires AgreesAt(now)
      modifies `armed, `deadline, `expirations, `seen, `lost
      ensures Valid() && seen == now
      ensures interval <= HALF ==> AgreesFrom(now)
      ensures old(lost) <= lost && (old(lost) < lost ==> expirations == U64_MAX)
      ensures armed && 0 < interval ==> now < Ideally().deadline
      ensures armed && 0 < interval && old(Ideally()).deadline <= now ==> Ideally().deadline <= now + interval
    {
      ghost var i := Ideally();
      TickTwice(start, seen, now);
      var passed := Low(Low(now) - deadline);
      seen := now;
      if armed {
        Difference(now, i.deadline);
      }
      if !armed || Negative(passed) {
        return;
      }
      var n: nat;
      if interval == 0 {
        armed := false;
        n := 1;
      } else {
        TickAdvances(i, now);
        n := 1 + passed / interval;
        Shift(i.deadline, n * interval);
        deadline := Low(deadline + n * interval);
      }
      assert Ideally() == Tick(i, now) && Ideally().due == i.due + n;
      if U64_MAX - expirations < n {
        lost := lost + (n - (U64_MAX - expirations));
        expirations := U64_MAX;
      } else {
        expirations := expirations + n;
      }
    }

    // The locked part of timerfd_read. No value means that the caller must wait, with
    // `wakeup` as the deadline of its sleep; 0 stands for a sleep without one.
    method Read(now: nat) returns (value: nat, wakeup: nat)
      requires AgreesAt(now)
      modifies `armed, `deadline, `expirations, `seen, `lost, `taken
      ensures Valid() && seen == now && taken == old(taken) + value
      ensures interval <= HALF ==> AgreesFrom(now)
      ensures expirations == 0
      ensures value == Ideally().due - old(taken) - lost
      ensures wakeup != 0 <==> armed && Low(Ideally().deadline) != 0
      ensures wakeup != 0 ==> wakeup == Low(Ideally().deadline)
    {
      hide Tick, Low;
      Update(now);
      value, wakeup := expirations, 0;
      if armed {
        wakeup := deadline;
      }
      expirations := 0;
      taken := taken + value;
    }

    // The locked part of sys_timerfd_settime, for any number of ticks; absolute
    // times are those of the current turn of the tick counter.
    method SetTime(now: nat, first: nat, every: nat, absolute: bool)
      requires first < WORD && every < WORD
      modifies this
      ensures armed == (first != 0) && interval == every && expirations == 0 && taken == 0 && lost == 0
      ensures start == Ideal(first != 0, if absolute then now - Low(now) + first else now + first, every, 0)
      ensures Valid() && seen <= now
      ensures AgreesAt(now) <==> (first != 0 ==> start.deadline <= now + HALF && now < start.deadline + HALF)
    {
      interval, expirations, armed := every, 0, first != 0;
      ghost var due := if absolute then now - Low(now) + first else now + first;
      start, seen, taken, lost := Ideal(armed, due, every, 0), Min(now, if due > 0 then due - 1 else 0), 0, 0;
      if armed {
        deadline := if absolute then first else Low(Low(now) + first);
        Turn(now, first);
        Shift(now, first);
      }
    }
  }

  // A timer set one tick before the counter wraps, to go off at the wrap: its reader
  // must wait, and sleeps without a deadline.
  method SleepAcrossTheWrap() returns (timer: TimerFd, value: nat, wakeup: nat)
    ensures fresh(timer) && timer.Valid() && timer.armed && timer.Ideally().deadline == WORD
    ensures value == 0 && wakeup == 0
  {
    timer := new TimerFd();
    timer.SetTime(WORD - 1, 1, 0, false);
    value, wakeup := timer.Read(WORD - 1);
  }

  lemma Turn(now: nat, first: nat)
    requires first < WORD
    ensures Low(now - Low(now) + first) == first
  {
  }

  // The wrapped difference is the true one, if that fits 32 signed bits.
  lemma Difference(now: int, deadline: int)
    requires deadline <= now + HALF && now < deadline + HALF
    ensures var w := Low(Low(now) - Low(deadline));
            && (Negative(w) <==> now < deadline)
            && (deadline <= now ==> w == now - deadline)
  {
  }

  lemma Shift(d: int, n: nat)
    ensures Low(Low(d) + n) == Low(d + n)
  {
  }

  // The sign of the wrapped difference tells whether a deadline less than a turn
  // away has come exactly when it is at most 2^31 ticks ahead and less than 2^31
  // ticks past; beyond that it always tells the opposite.
  lemma SignIsRightIff(now: int, deadline: int)
    requires deadline - WORD < now < deadline + WORD
    ensures (!Negative(Low(Low(now) - Low(deadline))) <==> deadline <= now) <==>
              deadline <= now + HALF && now < deadline + HALF
  {
    if deadline > now + HALF {
      Difference(now, deadline - WORD);
      Turns(deadline);
    } else if now < deadline + HALF {
      Difference(now, deadline);
    } else {
      Difference(now, deadline + WORD);
      Turns(deadline + WORD);
    }
  }

  // A relative delay, of any length timerfd_settime accepts, is taken for one that
  // has passed exactly when it is longer than 2^31 ticks.
  lemma DelayFiresAtOnceIff(now: nat, first: nat)
    requires 0 < first < WORD
    ensures !Negative(Low(Low(now) - Low(now + first))) <==> first > HALF
  {
    SignIsRightIff(now, now + first);
  }

  // An absolute deadline of the current turn fires at once exactly when it came
  // less than 2^31 ticks ago or is more than 2^31 ticks ahead.
  lemma AbsoluteFiresAtOnceIff(now: nat, first: nat)
    requires 0 < first < WORD
    ensures var deadline := now - Low(now) + first;
            !Negative(Low(Low(now) - first)) <==> (deadline <= now < deadline + HALF) || now + HALF < deadline
  {
    Turn(now, first);
    SignIsRightIff(now, now - Low(now) + first);
  }

  // The deadline at tick 1 of this turn, set at the turn's last tick: it is long
  // due, and the code takes it for one to come.
  lemma OldDeadlineDoesNotFire()
    ensures var now, first := 0x1_FFFF_FFFF, 1;
            && Tick(Ideal(true, now - Low(now) + first, 0, 0), now).due == 1
            && Negative(Low(Low(now) - first))
  {
  }

  lemma Turns(n: int)
    ensures Low(n - WORD) == Low(n)
  {
  }

  // --------------------------------------------------------- ticks and timespecs

  const NANOS: nat := 1_000_000_000

  datatype Timespec = Timespec(sec: int, nsec: int)

  datatype Ticks = Invalid | Ticks(n: nat)

  // timerfd_timespec_to_ticks for a tick rate of `freq` per second.
  function ToTicks(v: Timespec, freq: nat): Ticks
    requires 0 < freq <= NANOS
  {
    var perTick := NANOS / freq;
    if v.sec < 0 || v.nsec < 0 || v.nsec >= NANOS || v.sec > (WORD - 1) / freq then Invalid
    else
      var total := v.sec * freq + (v.nsec + perTick - 1) / perTick;
      if total >= WORD then Invalid else Ticks(total)
  }

  // timerfd_ticks_to_timespec
  function ToTimespec(ticks: nat, freq: nat): Timespec
    requires 0 < freq <= NANOS
  {
    Timespec(ticks / freq, ticks % freq * (NANOS / freq))
  }

  // Every 32-bit number of ticks survives the way to a timespec and back.
  lemma TicksRoundTrip(ticks: nat, freq: nat)
    requires 0 < freq <= NANOS && ticks < WORD
    ensures ToTicks(ToTimespec(ticks, freq), freq) == Ticks(ticks)
  {
    hide ToTicks;
    var rest, sec := ticks % freq, ticks / freq;
    PerTick(freq);
    NanosBack(rest, NANOS / freq, freq);
    SecondsFit(ticks, freq);
    ToTicksIs(sec, rest * (NANOS / freq), freq, rest);
  }

  lemma ToTicksIs(sec: nat, nsec: nat, freq: nat, sub: nat)
    requires 0 < freq <= NANOS && 0 < NANOS / freq && nsec < NANOS && sec <= (WORD - 1) / freq
    requires (nsec + NANOS / freq - 1) / (NANOS / freq) == sub && sec * freq + sub < WORD
    ensures ToTicks(Timespec(sec, nsec), freq) == Ticks(sec * freq + sub)
  {
  }

  lemma NanosBack(rest: nat, per: nat, freq: nat)
    requires rest < freq && 0 < per && freq * per <= NANOS
    ensures rest * per < NANOS && (rest * per + per - 1) / per == rest
  {
    MulOrder(rest + 1, freq, per);
    assert (rest + 1) * per == rest * per + per;
    DivIs(rest * per + per - 1, per, rest);
  }

  lemma SecondsFit(ticks: nat, freq: nat)
    requires 0 < freq && ticks < WORD
    ensures ticks / freq <= (WORD - 1) / freq && ticks / freq * freq + ticks % freq == ticks
  {
    var a, b := ticks / freq, (WORD - 1) / freq;
    assert a * freq <= ticks && WORD - 1 < b * freq + freq;
    MulOrder(b + 1, a, freq);
  }

  // Which timespecs are accepted: the guard against overflow refuses nothing else.
  lemma ToTicksAcceptsIff(v: Timespec, freq: nat)
    requires 0 < freq <= NANOS
    ensures var per := NANOS / freq;
            0 < per && (ToTicks(v, freq).Ticks? <==>
              0 <= v.sec && 0 <= v.nsec < NANOS && v.sec * freq + (v.nsec + per - 1) / per < WORD)
  {
    PerTick(freq);
    if v.sec > (WORD - 1) / freq {
      MulOrder((WORD - 1) / freq + 1, v.sec, freq);
      assert ((WORD - 1) / freq + 1) * freq > WORD - 1;
    }
  }

  lemma PerTick(freq: nat)
    requires 0 < freq <= NANOS
    ensures 0 < NANOS / freq && freq * (NANOS / freq) <= NANOS
  {
  }

  // A timespec is never shortened, and lengthened by less than a tick, when ticks
  // divide the second.
  lemma TicksRoundUp(v: Timespec, freq: nat)
    requires 0 < freq <= NANOS && NANOS / freq * freq == NANOS && ToTicks(v, freq).Ticks?
    ensures var per := NANOS / freq;
            var wanted := v.sec * NANOS + v.nsec;
            wanted <= ToTicks(v, freq).n * per < wanted + per
  {
    var per := NANOS / freq;
    var sub := (v.nsec + per - 1) / per;
    assert sub * per <= v.nsec + per - 1 < sub * per + per;
    assert (v.sec * freq + sub) * per == v.sec * (freq * per) + sub * per by {
      assert v.sec * freq * per == v.sec * (freq * per);
    }
  }
}
