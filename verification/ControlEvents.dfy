/** What control events ask of flow control, and that it is what was last asked for. */
module ControlEvents {
  import opened FlowControl

  // ---- Frame rates -----------------------------------------------------------------------------

  /** The interval is one second divided by the rate, rounded down to nanoseconds. */
  predicate HasRate(intervalNs: nat, fps: nat) {
    intervalNs * fps <= 1000000000 < (intervalNs + 1) * fps
  }

  lemma QuotientHasRate(fps: nat)
    requires fps > 0
    ensures HasRate(1000000000 / fps, fps)
  {
    var q := 1000000000 / fps;
    assert 1000000000 == fps * q + 1000000000 % fps;
    assert q * fps == fps * q && (q + 1) * fps == fps * q + fps;
  }

  /** A frame-rate event sets exactly the rate asked for, 60 for none and 240 for more, and forgets the cadence. */
  lemma FrameRateIsSet(f: Flow, requested: nat)
    ensures var g := Step(f, SetFrameRate(requested));
            && HasRate(g.intervalNs, if requested == 0 then 60 else if requested > 240 then 240 else requested)
            && g == f.(intervalNs := g.intervalNs, smoothedUs := 0)
  {
    hide HasRate;
    QuotientHasRate(if requested == 0 then 60 else if requested > 240 then 240 else requested);
  }

  /** A new browser starts at 60 frames per second. */
  lemma BrowserStartsAtSixty(f: Flow)
    ensures var g := Step(f, BrowserCreated);
            && HasRate(g.intervalNs, 60)
            && g == f.(intervalNs := g.intervalNs, smoothedUs := 0, hasBrowser := true)
  {
    hide HasRate;
    QuotientHasRate(60);
  }

  /** The host starts at its target rate, kept within 1 and 240, without a browser, unpaused, with a cap of 2. */
  lemma InitialRate(targetFps: nat)
    ensures var f := Initial(targetFps);
            && HasRate(f.intervalNs, if targetFps < 1 then 1 else if targetFps > 240 then 240 else targetFps)
            && f == Flow(0, 0, 2, 0, f.intervalNs, 0, false, false)
  {
    hide HasRate;
    QuotientHasRate(if targetFps < 1 then 1 else if targetFps > 240 then 240 else targetFps);
  }

  /** A cadence of 0 is ignored. Any other is kept within 4166 and 66666 us and weighed 3 to 7 against the smoothed one,
      or taken as it is when there is none; the interval is up to one percent longer than the result. */
  lemma CadenceIsTaken(f: Flow, us: nat)
    requires f.smoothedUs == 0 || 4166 <= f.smoothedUs <= 66666
    ensures us == 0 ==> Step(f, SetCadence(us)) == f
    ensures us > 0 ==>
              var g, c := Step(f, SetCadence(us)), if us < 4166 then 4166 else if us > 66666 then 66666 else us;
              && g == f.(intervalNs := g.intervalNs, smoothedUs := g.smoothedUs)
              && (if f.smoothedUs == 0 then g.smoothedUs == c
                  else g.smoothedUs * 10 <= f.smoothedUs * 7 + c * 3 < g.smoothedUs * 10 + 10)
              && g.smoothedUs * 1010 - 1000 < g.intervalNs <= g.smoothedUs * 1010
  {
    if us > 0 { SmoothedBounds(f.smoothedUs, ClampedCadence(us)); }
  }

  /** The rate that was last asked for; unknown after a cadence. */
  datatype Rate = Unknown | Fps(n: nat)

  function RateAfter(before: Rate, b: Beat): Rate {
    match b
    case SetFrameRate(n) => Fps(if n == 0 then 60 else if n > 240 then 240 else n)
    case BrowserCreated => Fps(60)
    case SetCadence(us) => if us == 0 then before else Unknown
    case _ => before
  }

  function LastRate(before: Rate, beats: seq<Beat>): Rate
    decreases |beats|
  {
    if beats == [] then before else LastRate(RateAfter(before, beats[0]), beats[1..])
  }

  predicate RunsAt(f: Flow, rate: Rate) {
    rate.Fps? ==> HasRate(f.intervalNs, rate.n)
  }

  lemma RateStep(f: Flow, b: Beat, rate: Rate)
    requires RunsAt(f, rate)
    ensures RunsAt(Step(f, b), RateAfter(rate, b))
  {
    hide HasRate;
    match b
    case SetFrameRate(n) => FrameRateIsSet(f, n);
    case BrowserCreated => BrowserStartsAtSixty(f);
    case _ =>
  }

  lemma RecordSteps(l: Ledger, b: Beat)
    ensures Record(l, b).flow == Step(l.flow, b)
  {}

  lemma {:induction false} RateRun(l: Ledger, beats: seq<Beat>, rate: Rate)
    requires RunsAt(l.flow, rate)
    ensures RunsAt(RecordAll(l, beats).flow, LastRate(rate, beats))
    decreases |beats|
  {
    hide Record, Step, RunsAt, RateAfter;
    if beats != [] {
      RateStep(l.flow, beats[0], rate);
      RecordSteps(l, beats[0]);
      RateRun(Record(l, beats[0]), beats[1..], RateAfter(rate, beats[0]));
    }
  }

  /** In every run the interval is that of the rate last asked for, until a cadence arrives. */
  lemma IntervalFollowsEvents(targetFps: nat, beats: seq<Beat>)
    ensures var target := if targetFps < 1 then 1 else if targetFps > 240 then 240 else targetFps;
            RunsAt(RecordAll(InitialLedger(targetFps), beats).flow, LastRate(Fps(target), beats))
  {
    hide HasRate, Record;
    InitialRate(targetFps);
    var target := if targetFps < 1 then 1 else if targetFps > 240 then 240 else targetFps;
    RateRun(InitialLedger(targetFps), beats, Fps(target));
  }

  // ---- Cap, pause, browser ---------------------------------------------------------------------

  function LastCap(before: nat, beats: seq<Beat>): nat
    decreases |beats|
  {
    if beats == [] then before
    else
      var b := beats[0];
      LastCap(if !b.SetCap? then before else if b.requested == 0 then 2 else b.requested, beats[1..])
  }

  function LastPause(before: bool, beats: seq<Beat>): bool
    decreases |beats|
  {
    if beats == [] then before
    else LastPause(if beats[0].SetPaused? then beats[0].pause else before, beats[1..])
  }

  function LastBrowser(before: bool, beats: seq<Beat>): bool
    decreases |beats|
  {
    if beats == [] then before
    else LastBrowser(if beats[0].BrowserCreated? then true else if beats[0].BrowserClosed? then false else before,
                     beats[1..])
  }

  lemma {:induction false} SettingsRun(l: Ledger, beats: seq<Beat>)
    ensures var f := RecordAll(l, beats).flow;
            && f.cap == LastCap(l.flow.cap, beats)
            && f.paused == LastPause(l.flow.paused, beats)
            && f.hasBrowser == LastBrowser(l.flow.hasBrowser, beats)
    decreases |beats|
  {
    hide Record, ClampedFps, Smoothed, ClampedCadence, NudgeAccepted, CapReached;
    if beats != [] {
      RecordSteps(l, beats[0]);
      SettingsRun(Record(l, beats[0]), beats[1..]);
    }
  }

  /** In every run cap, pause and browser are what the last events about them said; 2, unpaused and none at first. */
  lemma SettingsFollowEvents(targetFps: nat, beats: seq<Beat>)
    ensures var f := RecordAll(InitialLedger(targetFps), beats).flow;
            && f.cap == LastCap(2, beats)
            && f.paused == LastPause(false, beats)
            && f.hasBrowser == LastBrowser(false, beats)
  {
    InitialRate(targetFps);
    SettingsRun(InitialLedger(targetFps), beats);
  }

  /** A change of the cap drops the debt and touches nothing else. */
  lemma CapDropsDebt(f: Flow, requested: nat)
    ensures var g := Step(f, SetCap(requested));
            g.sent - g.done == 0 && g.sent == f.sent && g == f.(cap := g.cap, done := g.done)
  {}
}
