/** The rate of begin frames as a whole: scheduled ticks and input nudges in one interleaving. */
module BeginRate {
  import opened FlowControl
  import Pacing

  /** A run of flow control with the times of its ticks. `source` gives for each begin frame the tick it came from,
      `inForce` for each tick the intervals that were in force since the tick before, `since` those since the last. */
  datatype Trace = Trace(ledger: Ledger, ticks: seq<nat>, source: seq<nat>, inForce: seq<set<nat>>, since: set<nat>)

  function Trail(t: Trace, b: Beat): Trace {
    var l := Record(t.ledger, b);
    Trace(l, if b.Tick? then t.ticks + [b.now] else t.ticks,
          if Claims(t.ledger.flow, b) then t.source + [|t.ticks|] else t.source,
          if b.Tick? then t.inForce + [t.since] else t.inForce,
          if b.Tick? then {l.flow.intervalNs} else t.since + {l.flow.intervalNs})
  }

  function TrailAll(t: Trace, beats: seq<Beat>): Trace
    decreases |beats|
  {
    if beats == [] then t else TrailAll(Trail(t, beats[0]), beats[1..])
  }

  function InitialTrace(targetFps: nat): Trace {
    var l := InitialLedger(targetFps);
    Trace(l, [], [], [], {l.flow.intervalNs})
  }

  predicate Scheduled(begin: Begin) {
    !begin.nudge
  }

  /** Begin frames of the render thread come from ticks of their time, each tick sending at most one. */
  predicate Sourced(t: Trace) {
    var begins := t.ledger.begins;
    && |t.source| == |begins|
    && (forall k :: 0 <= k < |begins| && Scheduled(begins[k]) ==>
          t.source[k] < |t.ticks| && begins[k].at == t.ticks[t.source[k]])
    && (forall j, k :: 0 <= j < k < |begins| && Scheduled(begins[j]) && Scheduled(begins[k]) ==>
          t.source[j] < t.source[k])
  }

  /** Ticks come in the order of the clock. */
  predicate Timely(t: Trace, clock: nat) {
    && |t.inForce| == |t.ticks|
    && (forall j, k :: 0 <= j <= k < |t.ticks| ==> t.ticks[j] <= t.ticks[k])
    && (t.ticks != [] ==> t.ticks[|t.ticks| - 1] <= clock)
  }

  lemma SourcedStep(t: Trace, b: Beat)
    requires Sourced(t)
    ensures Sourced(Trail(t, b))
  {
    hide Step;
  }

  lemma TimelyStep(t: Trace, b: Beat, clock: nat)
    requires Timely(t, clock) && TimedBy(b, clock)
    ensures Timely(Trail(t, b), ClockAfter(b, clock))
  {
    hide Record;
  }

  lemma {:induction false} TrailRun(t: Trace, beats: seq<Beat>, clock: nat) returns (end: nat)
    requires Sourced(t) && Timely(t, clock) && Monotone(beats, clock)
    ensures Sourced(TrailAll(t, beats)) && Timely(TrailAll(t, beats), end)
    ensures TrailAll(t, beats).ledger == RecordAll(t.ledger, beats)
    decreases |beats|
  {
    hide Sourced, Timely;
    end := clock;
    if beats != [] {
      SourcedStep(t, beats[0]);
      TimelyStep(t, beats[0], clock);
      end := TrailRun(Trail(t, beats[0]), beats[1..], ClockAfter(beats[0], clock));
    }
  }

  // ---- Counting --------------------------------------------------------------------------------

  /** The begin frames of the render thread among `begins`. */
  function SentIn(begins: seq<Begin>): nat {
    if begins == [] then 0 else SentIn(begins[..|begins| - 1]) + if Scheduled(begins[|begins| - 1]) then 1 else 0
  }

  lemma {:induction false} SentAndNudges(begins: seq<Begin>)
    ensures SentIn(begins) + NudgesIn(begins) == |begins|
  {
    if begins != [] { SentAndNudges(begins[..|begins| - 1]); }
  }

  lemma {:induction false} SkipNudge(begins: seq<Begin>, i: nat, j: nat)
    requires i < j <= |begins| && begins[i].nudge
    ensures SentIn(begins[i..j]) == SentIn(begins[i + 1..j])
    decreases j
  {
    assert begins[i..j][..j - i - 1] == begins[i..j - 1];
    if i + 1 < j {
      SkipNudge(begins, i, j - 1);
      assert begins[i + 1..j][..j - i - 2] == begins[i + 1..j - 1];
    } else {
      assert begins[i..i] == [] && begins[j..j] == [];
    }
  }

  /** From a scheduled begin frame on, each further one uses a later tick. */
  lemma {:induction false} SentSpan(t: Trace, i: nat, j: nat) returns (last: nat)
    requires Sourced(t) && i <= j < |t.ledger.begins| && Scheduled(t.ledger.begins[i])
    ensures i <= last <= j && Scheduled(t.ledger.begins[last])
    ensures t.source[i] <= t.source[last]
    ensures SentIn(t.ledger.begins[i..j + 1]) <= t.source[last] - t.source[i] + 1
    decreases j
  {
    var begins := t.ledger.begins;
    assert begins[i..j + 1][..j - i] == begins[i..j];
    if i == j {
      last := j;
      assert begins[i..i] == [];
    } else {
      last := SentSpan(t, i, j - 1);
      if Scheduled(begins[j]) { last := j; }
    }
  }

  // ---- Ticks on the schedule -------------------------------------------------------------------

  /** A run of the render loop: what its turns read, and when the tick of each turn read the clock. */
  datatype Loop = Loop(freq: nat, start: int, turns: seq<Pacing.Turn>, readings: seq<nat>) {
    function Wakes(): seq<Pacing.Wake> {
      Pacing.Schedule(freq, start, start, turns)
    }
  }

  /** The loop drives the ticks: the tick of each turn reads the clock, in microseconds, between the wake and the end
      of the turn, and the turn has read an interval that was in force since the tick before. */
  predicate Drives(loop: Loop, t: Trace) {
    && loop.freq > 0 && |t.ticks| == |t.inForce| == |loop.readings| <= |loop.turns|
    && forall k :: 0 <= k < |t.ticks| ==>
         && loop.Wakes()[k].at <= loop.readings[k] <= loop.Wakes()[k].after
         && t.ticks[k] == loop.readings[k] * 1000000 / loop.freq
         && loop.turns[k].intervalNs in t.inForce[k]
  }

  /** No other interval was in force from the tick before the first to the last tick between two times. */
  predicate RateHolds(t: Trace, intervalNs: nat, from: nat, to: nat) {
    forall k :: 0 <= k < |t.inForce| && k < |t.ticks| && from <= t.ticks[k] <= to ==> t.inForce[k] == {intervalNs}
  }

  lemma FlooredDifference(a: nat, b: nat, freq: nat, first: nat, second: nat)
    requires freq > 0 && first == a * 1000000 / freq && second == b * 1000000 / freq
    ensures (b - a) * 1000000 < (second - first + 1) * freq
  {
    var x, y := a * 1000000, b * 1000000;
    assert x == freq * (x / freq) + x % freq && y == freq * (y / freq) + y % freq;
    assert (second - first + 1) * freq == freq * second - freq * first + freq;
  }

  lemma HeldPeriods(loop: Loop, t: Trace, clock: nat, intervalNs: nat, a: nat, b: nat)
    requires Drives(loop, t) && Timely(t, clock) && a <= b < |t.ticks|
    requires RateHolds(t, intervalNs, t.ticks[a], t.ticks[b])
    ensures Pacing.Periodic(loop.Wakes()[a..b + 1], Pacing.TicksFor(intervalNs, loop.freq))
  {
    hide Pacing.Schedule, Pacing.TicksFor;
    forall k | a <= k <= b ensures loop.Wakes()[k].frameTicks == Pacing.TicksFor(intervalNs, loop.freq) {
      Pacing.PeriodOfTurn(loop.freq, loop.start, loop.start, loop.turns, k);
      assert t.inForce[k] == {intervalNs};
    }
  }

  /** Ticks a and b are at least their periods apart, less four periods and the rounding of the clock. */
  lemma TicksApart(loop: Loop, t: Trace, clock: nat, intervalNs: nat, a: nat, b: nat)
    requires Drives(loop, t) && Timely(t, clock) && a <= b < |t.ticks|
    requires RateHolds(t, intervalNs, t.ticks[a], t.ticks[b])
    ensures (b - a - 4) * Pacing.TicksFor(intervalNs, loop.freq) * 1000000 < (t.ticks[b] - t.ticks[a] + 1) * loop.freq
  {
    hide Pacing.Schedule, Pacing.Periodic, Pacing.TicksFor, RateHolds;
    HeldPeriods(loop, t, clock, intervalNs, a, b);
    var period, later: int := Pacing.TicksFor(intervalNs, loop.freq), loop.readings[b];
    FlooredDifference(loop.readings[a], loop.readings[b], loop.freq, t.ticks[a], t.ticks[b]);
    if a < b { Pacing.TurnsApart(loop.freq, loop.start, loop.start, loop.turns, period, a, b); }
    PeriodsFit(b - a, period, later - loop.readings[a], (t.ticks[b] - t.ticks[a] + 1) * loop.freq);
  }

  lemma PeriodsFit(m: nat, period: nat, apart: int, limit: int)
    requires apart >= (m - 4) * period || (m == 0 && apart == 0)
    requires apart * 1000000 < limit
    ensures (m - 4) * period * 1000000 < limit
  {
    if m < 4 { assert (m - 4) * period <= 0; }
  }

  lemma Ordered(begins: seq<Begin>, i: nat, j: nat)
    requires Spaced(begins) && i <= j < |begins|
    ensures begins[i].at <= begins[j].at
  {
    SpacedSpan(begins, i, j);
  }

  lemma FewerPeriods(m: int, n: int, period: nat, limit: int)
    requires m <= n && n * period * 1000000 < limit
    ensures m * period * 1000000 < limit
  {
    assert m * period <= n * period;
  }

  lemma WiderWindow(n: int, narrow: nat, wide: nat, freq: nat)
    requires narrow <= wide && n < (narrow + 1) * freq
    ensures n < (wide + 1) * freq
  {
    assert (narrow + 1) * freq <= (wide + 1) * freq;
  }

  /** What is claimed of the render thread's begin frames in a window. */
  predicate FewSent(loop: Loop, intervalNs: nat, begins: seq<Begin>, i: nat, j: nat)
    requires i <= j < |begins|
  {
    && begins[i].at <= begins[j].at
    && (SentIn(begins[i..j + 1]) - 5) * Pacing.TicksFor(intervalNs, loop.freq) * 1000000
       < (begins[j].at - begins[i].at + 1) * loop.freq
  }

  lemma {:induction false} SentInWindow(loop: Loop, t: Trace, clock: nat, intervalNs: nat, i: nat, j: nat)
    requires Drives(loop, t) && Timely(t, clock) && Sourced(t) && Spaced(t.ledger.begins)
    requires i <= j < |t.ledger.begins|
    requires RateHolds(t, intervalNs, t.ledger.begins[i].at, t.ledger.begins[j].at)
    ensures FewSent(loop, intervalNs, t.ledger.begins, i, j)
    decreases j - i
  {
    var begins, period := t.ledger.begins, Pacing.TicksFor(intervalNs, loop.freq);
    hide Drives, Timely, Sourced, Spaced, Pacing.TicksFor;
    Ordered(begins, i, j);
    DrivesMeans(loop, t);
    if Scheduled(begins[i]) {
      SentFromTick(loop, t, clock, intervalNs, i, j);
    } else {
      SkipNudge(begins, i, j + 1);
      if i < j {
        Ordered(begins, i, i + 1);
        SentInWindow(loop, t, clock, intervalNs, i + 1, j);
        WiderWindow((SentIn(begins[i..j + 1]) - 5) * period * 1000000, begins[j].at - begins[i + 1].at,
                    begins[j].at - begins[i].at, loop.freq);
      } else {
        assert begins[i + 1..j + 1] == [];
        assert -5 * period * 1000000 <= 0 < loop.freq;
      }
    }
  }

  lemma DrivesMeans(loop: Loop, t: Trace)
    requires Drives(loop, t)
    ensures loop.freq > 0
  {}

  lemma SentFromTick(loop: Loop, t: Trace, clock: nat, intervalNs: nat, i: nat, j: nat)
    requires Drives(loop, t) && Timely(t, clock) && Sourced(t) && Spaced(t.ledger.begins)
    requires i <= j < |t.ledger.begins| && Scheduled(t.ledger.begins[i])
    requires RateHolds(t, intervalNs, t.ledger.begins[i].at, t.ledger.begins[j].at)
    ensures FewSent(loop, intervalNs, t.ledger.begins, i, j)
  {
    hide Drives, Timely, Spaced, Pacing.TicksFor, SentIn;
    var begins, period := t.ledger.begins, Pacing.TicksFor(intervalNs, loop.freq);
    var last := SentSpan(t, i, j);
    Ordered(begins, i, last);
    Ordered(begins, last, j);
    TicksApart(loop, t, clock, intervalNs, t.source[i], t.source[last]);
    var used: int := t.source[last] - t.source[i];
    FewerPeriods(SentIn(begins[i..j + 1]) - 5, used - 4, period, (begins[last].at - begins[i].at + 1) * loop.freq);
    WiderWindow((SentIn(begins[i..j + 1]) - 5) * period * 1000000, begins[last].at - begins[i].at,
                begins[j].at - begins[i].at, loop.freq);
  }

  /** In a stretch of T us during which one interval is in force the begin frames number at most five more than the
      T + 1 us hold periods of that interval, plus one nudge for every started 2000 us, in any interleaving of ticks
      on the schedule, nudges and control events, and whatever the rate was before and after. */
  lemma BeginsPerWindow(targetFps: nat, beats: seq<Beat>, loop: Loop, intervalNs: nat, i: nat, j: nat)
    requires Monotone(beats, 0) && Drives(loop, TrailAll(InitialTrace(targetFps), beats))
    requires i <= j < |RecordAll(InitialLedger(targetFps), beats).begins|
    requires var begins := RecordAll(InitialLedger(targetFps), beats).begins;
             RateHolds(TrailAll(InitialTrace(targetFps), beats), intervalNs, begins[i].at, begins[j].at)
    ensures var begins := RecordAll(InitialLedger(targetFps), beats).begins;
            var window := begins[i..j + 1];
            var span := begins[j].at - begins[i].at;
            && j - i + 1 == SentIn(window) + NudgesIn(window)
            && (SentIn(window) - 5) * Pacing.TicksFor(intervalNs, loop.freq) * 1000000 < (span + 1) * loop.freq
            && 2000 * (NudgesIn(window) - 1) <= span
  {
    hide Drives, RateHolds, Trail, Initial, Spaced, Pacing.TicksFor;
    var begins := RecordAll(InitialLedger(targetFps), beats).begins;
    var end := TrailRun(InitialTrace(targetFps), beats, 0);
    InitialPaced(targetFps);
    PacedRun(InitialLedger(targetFps), beats, 0);
    SentInWindow(loop, TrailAll(InitialTrace(targetFps), beats), end, intervalNs, i, j);
    SentAndNudges(begins[i..j + 1]);
    SpacedSpan(begins, i, j);
    FirstNudge(begins, i, j);
  }

  lemma InitialPaced(targetFps: nat)
    ensures Paced(InitialLedger(targetFps), 0)
  {
    FpsInterval(targetFps);
  }

  lemma {:induction false} FirstNudge(begins: seq<Begin>, i: nat, j: nat)
    requires i <= j < |begins|
    ensures NudgesIn(begins[i..j + 1]) <= NudgesIn(begins[i + 1..j + 1]) + 1
    decreases j
  {
    assert begins[i..j + 1][..j - i] == begins[i..j];
    if i < j {
      FirstNudge(begins, i, j - 1);
      assert begins[i + 1..j + 1][..j - i - 1] == begins[i + 1..j];
    } else {
      assert begins[i..i] == [];
    }
  }
}
