/** The render thread's schedule: deadlines with catch-up after short stalls and resynchronisation after long ones. */
module Pacing {
  import FlowControl

  /** One turn of the render loop as its surroundings decide it: the interval read at its start, how late after
      the deadline (or after the previous turn) it wakes, and how long its work takes. */
  datatype Turn = Turn(intervalNs: nat, late: nat, work: nat)

  datatype Wake = Wake(at: int, target: int, frameTicks: nat, after: int)

  function RoundedUp(n: nat): (t: nat)
    ensures t >= 1
  {
    var t := (n + 999999999) / 1000000000;
    if t <= 0 then 1 else t
  }

  /** Performance-counter ticks per frame, rounded up, at least one; an interval of 0 falls back to 60 Hz. */
  function TicksFor(intervalNs: nat, freq: nat): (t: nat)
    ensures t >= 1
  {
    RoundedUp((if intervalNs > 0 then intervalNs else 16666666) * freq)
  }

  function Later(a: int, b: int): int {
    if a > b then a else b
  }

  function WakeOf(freq: nat, next: int, clock: int, turn: Turn): Wake {
    var ticks := TicksFor(turn.intervalNs, freq);
    var at := Later(clock, next + ticks) + turn.late;
    Wake(at, next + ticks, ticks, at + turn.work)
  }

  predicate Resyncs(w: Wake) {
    w.after > w.target + w.frameTicks * 4
  }

  function NextTick(w: Wake): int {
    if Resyncs(w) then w.after else w.target
  }

  function Schedule(freq: nat, next: int, clock: int, turns: seq<Turn>): (wakes: seq<Wake>)
    ensures |wakes| == |turns|
    decreases |turns|
  {
    if turns == [] then []
    else
      var w := WakeOf(freq, next, clock, turns[0]);
      [w] + Schedule(freq, NextTick(w), w.after, turns[1..])
  }

  function TicksIn(wakes: seq<Wake>): nat {
    if wakes == [] then 0 else wakes[0].frameTicks + TicksIn(wakes[1..])
  }

  /** The render loop. The clock is monotone; the deadline is awaited before every wake. */
  method RenderLoop(freq: nat, start: int, turns: seq<Turn>) returns (wakes: seq<Wake>)
    ensures wakes == Schedule(freq, start, start, turns)
  {
    hide TicksFor;
    wakes := [];
    var nextTick, clock := start, start;
    var i := 0;
    while i < |turns|
      invariant 0 <= i <= |turns|
      invariant wakes + Schedule(freq, nextTick, clock, turns[i..]) == Schedule(freq, start, start, turns)
    {
      ghost var rest := Schedule(freq, nextTick, clock, turns[i..]);
      assert turns[i..][1..] == turns[i + 1..];
      var frameTicks := TicksFor(turns[i].intervalNs, freq);
      nextTick := nextTick + frameTicks;
      var wakeTick := Later(clock, nextTick) + turns[i].late;
      var afterTick := wakeTick + turns[i].work;
      wakes := wakes + [Wake(wakeTick, nextTick, frameTicks, afterTick)];
      if afterTick > nextTick + frameTicks * 4 {
        nextTick := afterTick;
      }
      clock := afterTick;
      i := i + 1;
      assert rest == [wakes[|wakes| - 1]] + Schedule(freq, nextTick, clock, turns[i..]);
    }
    assert turns[i..] == [];
    assert wakes + [] == wakes;
  }

  /** waitUntil: reads the clock until it has reached the target. It asks for a coarse sleep exactly when more than the
      spin window remains, and that sleep is the rest up to the window in whole units of 100 ns, at least one. */
  method WaitUntil(target: int, freq: nat, readings: seq<int>) returns (k: nat, sleeps100ns: seq<nat>)
    requires freq > 0
    ensures k <= |readings| && (forall j :: 0 <= j < k ==> readings[j] < target)
    ensures k < |readings| ==> readings[k] >= target
    ensures |sleeps100ns| == k
    ensures var spin := if freq / 2000 > 0 then freq / 2000 else 1;
            forall j :: 0 <= j < k ==> SleepFits(sleeps100ns[j], target - readings[j] - spin, freq)
  {
    var spinTicks := if freq / 2000 > 0 then freq / 2000 else 1;
    k := 0;
    sleeps100ns := [];
    while k < |readings|
      invariant k <= |readings| && |sleeps100ns| == k
      invariant forall j :: 0 <= j < k ==> readings[j] < target
      invariant forall j :: 0 <= j < k ==> SleepFits(sleeps100ns[j], target - readings[j] - spinTicks, freq)
    {
      var remaining := target - readings[k];
      if remaining <= 0 {
        break;
      }
      var due := 0;
      if remaining > spinTicks {
        due := (remaining - spinTicks) * 10000000 / freq;
        QuotientIsFloor((remaining - spinTicks) * 10000000, freq);
        if due == 0 {
          due := 1;
        }
      }
      sleeps100ns := sleeps100ns + [due];
      k := k + 1;
    }
  }

  /** No sleep when nothing is left before the spin window; otherwise the rest in whole units, and at least one. */
  predicate SleepFits(sleep100ns: nat, rest: int, freq: nat) {
    && (sleep100ns > 0 <==> rest > 0)
    && (rest > 0 ==> rest * 10000000 < (sleep100ns + 1) * freq)
    && (sleep100ns > 1 ==> sleep100ns * freq <= rest * 10000000)
  }

  lemma QuotientIsFloor(n: nat, d: nat)
    requires d > 0
    ensures n / d * d <= n < (n / d + 1) * d
  {
    assert n == d * (n / d) + n % d;
    assert (n / d + 1) * d == d * (n / d) + d;
  }

  lemma CeilingOf(n: nat)
    requires n > 0
    ensures n <= RoundedUp(n) * 1000000000 < n + 1000000000
  {}

  lemma PositiveProduct(a: nat, b: nat)
    requires a > 0 && b > 0
    ensures a * b > 0
  {}

  /** The frame period in ticks is the exact ceiling of the interval; an interval of 0 means 16666666 ns. */
  lemma TicksAreCeiling(intervalNs: nat, freq: nat)
    requires freq > 0
    ensures var t, ns := TicksFor(intervalNs, freq), if intervalNs > 0 then intervalNs else 16666666;
            ns * freq <= t * 1000000000 < ns * freq + 1000000000
  {
    var ns := if intervalNs > 0 then intervalNs else 16666666;
    hide RoundedUp;
    PositiveProduct(ns, freq);
    CeilingOf(ns * freq);
  }

  // ---- From turn to turn -----------------------------------------------------------------------

  /** A turn wakes when its deadline has come and the turn before is over, later by its own lateness only. Its deadline
      lies one period after the deadline before, or after the end of the turn before when that ended more than four
      periods past its deadline. */
  lemma {:induction false} NextTurnExactly(freq: nat, next: int, clock: int, turns: seq<Turn>, i: nat)
    requires i + 1 < |turns|
    ensures var wakes := Schedule(freq, next, clock, turns);
            var w, v := wakes[i], wakes[i + 1];
            && w.after == w.at + turns[i].work
            && v.target == (if w.after - w.target > 4 * w.frameTicks then w.after else w.target) + v.frameTicks
            && v.at == (if w.after > v.target then w.after else v.target) + turns[i + 1].late
    decreases |turns|
  {
    var w := WakeOf(freq, next, clock, turns[0]);
    if i > 0 { NextTurnExactly(freq, NextTick(w), w.after, turns[1..], i - 1); }
  }

  /** The first turn waits one period from the start. */
  lemma FirstTurnExactly(freq: nat, start: int, turns: seq<Turn>)
    requires turns != []
    ensures var w := Schedule(freq, start, start, turns)[0];
            w.target == start + w.frameTicks && w.at == w.target + turns[0].late
  {}

  /** No stall makes the loop wait: each turn wakes at most one period, and its own lateness, after the turn before. */
  lemma NeverFreezes(freq: nat, start: int, turns: seq<Turn>, i: nat)
    requires i + 1 < |turns|
    ensures var wakes := Schedule(freq, start, start, turns);
            wakes[i + 1].at - wakes[i].after <= wakes[i + 1].frameTicks + turns[i + 1].late
  {
    NextTurnExactly(freq, start, start, turns, i);
    TargetPassed(freq, start, start, turns, i);
  }

  lemma {:induction false} TargetPassed(freq: nat, next: int, clock: int, turns: seq<Turn>, i: nat)
    requires i < |turns|
    ensures var wakes := Schedule(freq, next, clock, turns); wakes[i].target <= wakes[i].at <= wakes[i].after
    decreases |turns|
  {
    var w := WakeOf(freq, next, clock, turns[0]);
    if i > 0 { TargetPassed(freq, NextTick(w), w.after, turns[1..], i - 1); }
  }

  // ---- Rate bound ------------------------------------------------------------------------------

  lemma {:induction false} WakesFollowTicks(freq: nat, next: int, clock: int, turns: seq<Turn>, j: nat)
    requires j < |turns|
    ensures var wakes := Schedule(freq, next, clock, turns);
            wakes[j].target >= next + TicksIn(wakes[..j + 1]) && wakes[j].at >= wakes[j].target
    decreases |turns|
  {
    var wakes := Schedule(freq, next, clock, turns);
    var w := wakes[0];
    assert wakes[..j + 1][1..] == wakes[1..][..j];
    if j == 0 {
      assert wakes[..1][1..] == [];
    } else {
      WakesFollowTicks(freq, NextTick(w), w.after, turns[1..], j - 1);
    }
  }

  /** Whatever stalls happen, from the end of one turn to a later wake the periods between them pass, less at most
      four periods of catch-up. */
  lemma {:induction false} CatchUpIsBounded(freq: nat, next: int, clock: int, turns: seq<Turn>, i: nat, j: nat)
    requires i < j < |turns|
    ensures var wakes := Schedule(freq, next, clock, turns);
            && wakes[i].at <= wakes[i].after
            && wakes[j].at - wakes[i].after >= TicksIn(wakes[i + 1..j + 1]) - 4 * wakes[i].frameTicks
    decreases |turns|
  {
    var wakes := Schedule(freq, next, clock, turns);
    var w := wakes[0];
    var later := Schedule(freq, NextTick(w), w.after, turns[1..]);
    assert wakes == [w] + later;
    if i == 0 {
      WakesFollowTicks(freq, NextTick(w), w.after, turns[1..], j - 1);
      Shifted(w, later, 0, j);
    } else {
      CatchUpIsBounded(freq, NextTick(w), w.after, turns[1..], i - 1, j - 1);
      Shifted(w, later, i, j);
    }
  }

  lemma Shifted(w: Wake, later: seq<Wake>, i: nat, j: nat)
    requires i <= j <= |later|
    ensures ([w] + later)[i + 1..j + 1] == later[i..j]
  {}

  predicate Periodic(wakes: seq<Wake>, period: nat) {
    forall k :: 0 <= k < |wakes| ==> wakes[k].frameTicks == period
  }

  lemma {:induction false} PeriodicTicks(wakes: seq<Wake>, period: nat)
    requires Periodic(wakes, period)
    ensures TicksIn(wakes) == |wakes| * period
  {
    if wakes != [] {
      PeriodicTicks(wakes[1..], period);
      assert (|wakes| - 1) * period + period == |wakes| * period;
    }
  }

  /** From turn i to a later turn j of the same period, with that period in between too, at least (j - i - 4) periods
      pass, whatever the rate was before and will be afterwards. */
  lemma TurnsApart(freq: nat, next: int, clock: int, turns: seq<Turn>, period: nat, i: nat, j: nat)
    requires i < j < |turns| && Periodic(Schedule(freq, next, clock, turns)[i..j + 1], period)
    ensures var wakes := Schedule(freq, next, clock, turns);
            wakes[i].at <= wakes[i].after && wakes[j].at - wakes[i].after >= (j - i - 4) * period
  {
    var wakes := Schedule(freq, next, clock, turns);
    CatchUpIsBounded(freq, next, clock, turns, i, j);
    assert wakes[i..j + 1][0] == wakes[i];
    assert wakes[i + 1..j + 1] == wakes[i..j + 1][1..];
    PeriodicTicks(wakes[i + 1..j + 1], period);
    assert (j - i) * period - 4 * period == (j - i - 4) * period;
  }

  /** Any stretch of time of length T in which the period is p holds at most T / p + 5 wakes, wherever in a run it
      lies. */
  lemma WakesPerWindow(freq: nat, next: int, clock: int, turns: seq<Turn>, period: nat, i: nat, j: nat)
    requires i <= j < |turns| && period > 0
    requires Periodic(Schedule(freq, next, clock, turns)[i..j + 1], period)
    ensures var wakes := Schedule(freq, next, clock, turns);
            wakes[j].at >= wakes[i].at && j - i + 1 <= (wakes[j].at - wakes[i].at) / period + 5
  {
    var wakes := Schedule(freq, next, clock, turns);
    WakesOrdered(freq, next, clock, turns, i, j);
    if i < j {
      TurnsApart(freq, next, clock, turns, period, i, j);
      assert (j - i) * period - 4 * period == (j - i - 4) * period;
    }
    FewPeriods(wakes[j].at - wakes[i].at, period, j - i);
  }

  lemma FewPeriods(window: nat, period: nat, n: nat)
    requires period > 0 && (n > 0 ==> window >= n * period - 4 * period)
    ensures n + 1 <= window / period + 5
  {
    if n >= 4 {
      assert n * period - 4 * period == (n - 4) * period;
      FlowControl.QuotientAtLeast(window, period, n - 4);
    } else {
      FlowControl.QuotientAtLeast(window, period, 0);
    }
  }

  lemma {:induction false} WakesOrdered(freq: nat, next: int, clock: int, turns: seq<Turn>, i: nat, j: nat)
    requires i <= j < |turns|
    ensures var wakes := Schedule(freq, next, clock, turns); clock <= wakes[i].at <= wakes[j].at
    decreases |turns|
  {
    var w := WakeOf(freq, next, clock, turns[0]);
    if j > 0 {
      WakesOrdered(freq, NextTick(w), w.after, turns[1..], if i == 0 then 0 else i - 1, j - 1);
    }
  }

  /** The period of a turn is that of the interval it read. */
  lemma {:induction false} PeriodOfTurn(freq: nat, next: int, clock: int, turns: seq<Turn>, k: nat)
    requires k < |turns|
    ensures Schedule(freq, next, clock, turns)[k].frameTicks == TicksFor(turns[k].intervalNs, freq)
    decreases |turns|
  {
    var w := WakeOf(freq, next, clock, turns[0]);
    if k > 0 { PeriodOfTurn(freq, NextTick(w), w.after, turns[1..], k - 1); }
  }

  /** The bound is met: after a stall of four periods five wakes fall on the same instant. */
  lemma BurstOfFive(freq: nat, intervalNs: nat)
    ensures var p := TicksFor(intervalNs, freq);
            var prompt := Turn(intervalNs, 0, 0);
            var wakes := Schedule(freq, 0, 0, [Turn(intervalNs, 4 * p, 0), prompt, prompt, prompt, prompt]);
            wakes[4].at == wakes[0].at && Periodic(wakes, p)
  {
    var p := TicksFor(intervalNs, freq);
    var prompt := Turn(intervalNs, 0, 0);
    var w0 := WakeOf(freq, 0, 0, Turn(intervalNs, 4 * p, 0));
    var w1 := WakeOf(freq, p, w0.after, prompt);
    var w2 := WakeOf(freq, 2 * p, w1.after, prompt);
    var w3 := WakeOf(freq, 3 * p, w2.after, prompt);
    var w4 := WakeOf(freq, 4 * p, w3.after, prompt);
    FirstTurn(freq, 4 * p, w3.after, prompt, []);
    FirstTurn(freq, 3 * p, w2.after, prompt, [prompt]);
    FirstTurn(freq, 2 * p, w1.after, prompt, [prompt, prompt]);
    FirstTurn(freq, p, w0.after, prompt, [prompt, prompt, prompt]);
    FirstTurn(freq, 0, 0, Turn(intervalNs, 4 * p, 0), [prompt, prompt, prompt, prompt]);
  }

  lemma FirstTurn(freq: nat, next: int, clock: int, turn: Turn, rest: seq<Turn>)
    ensures var w := WakeOf(freq, next, clock, turn);
            Schedule(freq, next, clock, [turn] + rest) == [w] + Schedule(freq, NextTick(w), w.after, rest)
  {
    assert ([turn] + rest)[1..] == rest;
  }

  /** Deadlines do not drift: up to the first resynchronisation they lie exactly on the grid of the periods. */
  lemma {:induction false} DeadlinesOnGrid(freq: nat, next: int, clock: int, turns: seq<Turn>, j: nat)
    requires j < |turns|
    requires forall k :: 0 <= k < j ==> !Resyncs(Schedule(freq, next, clock, turns)[k])
    ensures var wakes := Schedule(freq, next, clock, turns); wakes[j].target == next + TicksIn(wakes[..j + 1])
    decreases |turns|
  {
    var wakes := Schedule(freq, next, clock, turns);
    var w := wakes[0];
    assert wakes[..j + 1][1..] == wakes[1..][..j];
    if j == 0 {
      assert wakes[..1][1..] == [];
    } else {
      assert !Resyncs(wakes[0]);
      assert wakes[1..] == Schedule(freq, NextTick(w), w.after, turns[1..]);
      forall k | 0 <= k < j - 1 ensures !Resyncs(wakes[1..][k]) {
        assert wakes[1..][k] == wakes[k + 1];
      }
      DeadlinesOnGrid(freq, NextTick(w), w.after, turns[1..], j - 1);
    }
  }
}
