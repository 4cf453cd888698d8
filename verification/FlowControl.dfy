/** Begin-frame flow control: the cap on begin frames in flight, the input nudge that bypasses it, and the
    interval both depend on. */
module FlowControl {
  import opened MachineWords

  datatype Flow = Flow(
    sent: nat, done: nat, cap: nat,
    lastBeginUs: nat, intervalNs: nat, smoothedUs: nat,
    paused: bool, hasBrowser: bool)

  datatype Beat =
    | Tick(now: nat)
    | Nudge(now: nat)
    | Completed
    | SetCap(requested: nat)
    | SetFrameRate(requested: nat)
    | SetCadence(cadenceUs: nat)
    | SetPaused(pause: bool)
    | BrowserCreated
    | BrowserClosed

  // ---- Intervals -------------------------------------------------------------------------------

  function ClampedFps(fps: nat): nat {
    if fps < 1 then 1 else if fps > 240 then 240 else fps
  }

  function FromFps(f: Flow, fps: nat): Flow {
    f.(intervalNs := 1000000000 / ClampedFps(fps), smoothedUs := 0)
  }

  function AppliedFps(requested: nat): nat {
    if requested == 0 then 60 else if requested > 240 then 240 else requested
  }

  const MIN_CADENCE_US := 4166
  const MAX_CADENCE_US := 66666

  function ClampedCadence(us: nat): (c: nat)
    ensures MIN_CADENCE_US <= c <= MAX_CADENCE_US
  {
    if us < MIN_CADENCE_US then MIN_CADENCE_US else if us > MAX_CADENCE_US then MAX_CADENCE_US else us
  }

  /** 32-bit unsigned arithmetic, as in the source. */
  function Smoothed(prev: nat, clamped: nat): nat {
    if prev == 0 then clamped else ((prev * 7) % TWO_32 + (clamped * 3) % TWO_32) % TWO_32 / 10
  }

  function FromCadence(f: Flow, us: nat): Flow {
    if us == 0 then f
    else
      var smooth := Smoothed(f.smoothedUs, ClampedCadence(us));
      f.(smoothedUs := smooth, intervalNs := (smooth + smooth / 100) * 1000)
  }

  // ---- Steps -----------------------------------------------------------------------------------

  predicate CapReached(f: Flow) {
    f.cap > 0 && (if f.sent > f.done then f.sent - f.done else 0) >= f.cap
  }

  function TrySend(f: Flow, now: nat): Flow {
    if CapReached(f) || !f.hasBrowser then f else f.(sent := f.sent + 1, lastBeginUs := now)
  }

  function NudgeUs(f: Flow): nat {
    var cadence := if f.intervalNs / 1000 > 0 then f.intervalNs / 1000 else 1;
    if cadence < 2000 then cadence else 2000
  }

  /** 64-bit unsigned difference. */
  function Elapsed(now: nat, prev: nat): nat {
    (now - prev) % TWO_64
  }

  predicate NudgeAccepted(f: Flow, now: nat) {
    !f.paused && Elapsed(now, f.lastBeginUs) >= NudgeUs(f)
  }

  function Step(f: Flow, b: Beat): Flow {
    match b
    case Tick(now) => if f.paused then f else TrySend(f, now)
    case Nudge(now) => if NudgeAccepted(f, now) then f.(lastBeginUs := now) else f
    case Completed => f.(done := f.done + 1)
    case SetCap(requested) => f.(cap := if requested == 0 then 2 else requested, done := f.sent)
    case SetFrameRate(requested) => FromFps(f, AppliedFps(requested))
    case SetCadence(us) => FromCadence(f, us)
    case SetPaused(pause) => f.(paused := pause)
    case BrowserCreated => FromFps(f.(hasBrowser := true), 60)
    case BrowserClosed => f.(hasBrowser := false)
  }

  function Initial(targetFps: nat): Flow {
    FromFps(Flow(0, 0, 2, 0, 16666667, 0, false, false), targetFps)
  }

  // ---- Runs ------------------------------------------------------------------------------------

  /** A begin frame that was claimed at time `at`, by the render thread or by an input nudge. */
  datatype Begin = Begin(at: nat, nudge: bool)

  /** The flow state with what happened so far; sends and completions are counted since the last cap change. */
  datatype Ledger = Ledger(flow: Flow, sends: nat, completions: nat, begins: seq<Begin>)

  predicate Claims(f: Flow, b: Beat) {
    match b
    case Tick(_) => !f.paused && !CapReached(f) && f.hasBrowser
    case Nudge(now) => NudgeAccepted(f, now)
    case _ => false
  }

  function Record(l: Ledger, b: Beat): Ledger {
    var f := Step(l.flow, b);
    match b
    case Tick(now) =>
      if Claims(l.flow, b) then Ledger(f, l.sends + 1, l.completions, l.begins + [Begin(now, false)])
      else l.(flow := f)
    case Nudge(now) =>
      if Claims(l.flow, b) then l.(flow := f, begins := l.begins + [Begin(now, true)]) else l.(flow := f)
    case Completed => l.(flow := f, completions := l.completions + 1)
    case SetCap(_) => Ledger(f, 0, 0, l.begins)
    case _ => l.(flow := f)
  }

  function RecordAll(l: Ledger, beats: seq<Beat>): Ledger
    decreases |beats|
  {
    if beats == [] then l else RecordAll(Record(l, beats[0]), beats[1..])
  }

  function InitialLedger(targetFps: nat): Ledger {
    Ledger(Initial(targetFps), 0, 0, [])
  }

  // ---- Backpressure ----------------------------------------------------------------------------

  /** Debt and credit are exactly the sends and completions counted since the last cap change. */
  predicate Balanced(l: Ledger) {
    && l.flow.cap >= 1
    && l.flow.sent - l.flow.done == l.sends - l.completions
    && l.flow.sent - l.flow.done <= l.flow.cap
  }

  lemma BalancedStep(l: Ledger, b: Beat)
    requires Balanced(l)
    ensures Balanced(Record(l, b))
  {}

  /** In every run the begin frames in flight never exceed the cap in force, also after it was lowered, and since
      the last cap change the counted sends never exceed completions plus cap. */
  lemma {:induction false} InFlightNeverExceedsCap(l: Ledger, beats: seq<Beat>)
    requires Balanced(l)
    ensures Balanced(RecordAll(l, beats))
    ensures var t := RecordAll(l, beats);
            t.flow.sent - t.flow.done <= t.flow.cap && t.sends <= t.completions + t.flow.cap
    decreases |beats|
  {
    if beats != [] {
      BalancedStep(l, beats[0]);
      InFlightNeverExceedsCap(Record(l, beats[0]), beats[1..]);
    }
  }

  /** The cap never holds back more than it must: an unpaused tick with a browser sends exactly when the sends
      since the last cap change are below completions plus cap. Nudges are not counted. */
  lemma TickSendsExactlyBelowCap(l: Ledger, now: nat)
    requires Balanced(l) && !l.flow.paused && l.flow.hasBrowser
    ensures Record(l, Tick(now)).sends == (if l.sends < l.completions + l.flow.cap then l.sends + 1 else l.sends)
    ensures Record(l, Nudge(now)).sends == l.sends && Record(l, Nudge(now)).flow.sent == l.flow.sent
  {}

  // ---- Nudge spacing ---------------------------------------------------------------------------

  const NUDGE_GAP_US := 2000

  /** The interval never gets short enough to matter, so the nudge gap is always the full one. */
  predicate SlowEnough(f: Flow) {
    && f.intervalNs >= 4166666
    && (f.smoothedUs == 0 || MIN_CADENCE_US <= f.smoothedUs <= MAX_CADENCE_US)
  }

  lemma SmoothedBounds(prev: nat, clamped: nat)
    requires MIN_CADENCE_US <= clamped <= MAX_CADENCE_US
    requires prev == 0 || MIN_CADENCE_US <= prev <= MAX_CADENCE_US
    ensures MIN_CADENCE_US <= Smoothed(prev, clamped) <= MAX_CADENCE_US
    ensures prev != 0 ==> Smoothed(prev, clamped) == (prev * 7 + clamped * 3) / 10
  {}

  lemma MultiplesOrdered(c: nat, a: int, b: int)
    ensures a <= b ==> c * a <= c * b
  {}

  lemma QuotientAtLeast(n: nat, c: nat, k: nat)
    requires c > 0 && k * c <= n
    ensures n / c >= k
  {
    MultiplesOrdered(c, n / c + 1, k);
    assert n == c * (n / c) + n % c && c * (n / c + 1) == c * (n / c) + c;
  }

  lemma FpsInterval(fps: nat)
    ensures 1000000000 / ClampedFps(fps) >= 4166666
  {
    QuotientAtLeast(1000000000, ClampedFps(fps), 4166666);
  }

  lemma SlowEnoughStep(f: Flow, b: Beat)
    requires SlowEnough(f)
    ensures SlowEnough(Step(f, b))
  {
    match b
    case SetFrameRate(requested) => FpsInterval(AppliedFps(requested));
    case BrowserCreated => FpsInterval(60);
    case SetCadence(us) => if us > 0 { SmoothedBounds(f.smoothedUs, ClampedCadence(us)); }
    case _ =>
  }

  predicate TimedBy(b: Beat, clock: nat) {
    match b
    case Tick(now) => clock <= now < TWO_64
    case Nudge(now) => clock <= now < TWO_64
    case _ => true
  }

  function ClockAfter(b: Beat, clock: nat): nat {
    match b
    case Tick(now) => now
    case Nudge(now) => now
    case _ => clock
  }

  /** Handler steps read one monotone clock. */
  predicate Monotone(beats: seq<Beat>, clock: nat) {
    beats == [] || (TimedBy(beats[0], clock) && Monotone(beats[1..], ClockAfter(beats[0], clock)))
  }

  function NudgesIn(begins: seq<Begin>): nat {
    if begins == [] then 0 else NudgesIn(begins[..|begins| - 1]) + if begins[|begins| - 1].nudge then 1 else 0
  }

  function LastAt(begins: seq<Begin>): nat {
    if begins == [] then 0 else begins[|begins| - 1].at
  }

  /** The i-th begin frame does not precede the one before, and as a nudge comes a full gap after it. */
  predicate Follows(begins: seq<Begin>, i: int)
    requires 0 <= i < |begins|
  {
    begins[i].at >= (if i == 0 then 0 else begins[i - 1].at) + if begins[i].nudge then NUDGE_GAP_US else 0
  }

  predicate Spaced(begins: seq<Begin>) {
    forall i :: 0 <= i < |begins| ==> Follows(begins, i)
  }

  predicate Paced(l: Ledger, clock: nat) {
    && SlowEnough(l.flow)
    && l.flow.lastBeginUs == LastAt(l.begins) <= clock < TWO_64
    && Spaced(l.begins)
  }

  lemma PacedStep(l: Ledger, b: Beat, clock: nat)
    requires Paced(l, clock) && TimedBy(b, clock)
    ensures Paced(Record(l, b), ClockAfter(b, clock))
  {
    hide Smoothed, Spaced;
    SlowEnoughStep(l.flow, b);
    if Claims(l.flow, b) { SpacedStep(l.begins, Begin(ClockAfter(b, clock), b.Nudge?)); }
  }

  lemma SpacedStep(begins: seq<Begin>, begin: Begin)
    requires Spaced(begins) && begin.at >= LastAt(begins) + if begin.nudge then NUDGE_GAP_US else 0
    ensures Spaced(begins + [begin])
  {
    var more := begins + [begin];
    forall i | 0 <= i < |more| ensures Follows(more, i) {
      if i > 0 { assert more[i - 1] == begins[i - 1]; }
      if i < |begins| { assert more[i] == begins[i] && Follows(begins, i); }
    }
  }

  lemma {:induction false} PacedRun(l: Ledger, beats: seq<Beat>, clock: nat)
    requires Paced(l, clock) && Monotone(beats, clock)
    ensures SlowEnough(RecordAll(l, beats).flow) && Spaced(RecordAll(l, beats).begins)
    decreases |beats|
  {
    if beats != [] {
      PacedStep(l, beats[0], clock);
      PacedRun(Record(l, beats[0]), beats[1..], ClockAfter(beats[0], clock));
    }
  }

  lemma {:induction false} SpacedSpan(begins: seq<Begin>, i: nat, j: nat)
    requires Spaced(begins) && i <= j < |begins|
    ensures begins[j].at - begins[i].at >= NUDGE_GAP_US * NudgesIn(begins[i + 1..j + 1])
    decreases j - i
  {
    if i < j {
      SpacedSpan(begins, i, j - 1);
      assert Follows(begins, j);
      assert begins[i + 1..j + 1][..j - i - 1] == begins[i + 1..j];
    } else {
      assert begins[i + 1..j + 1] == [];
    }
  }

  /** In every run, between any two begin frames lie at least 2000 us for every nudge after the first of the two:
      k nudges span at least 2000 * (k - 1) us, and none comes within 2000 us after a render-thread begin frame. */
  lemma NudgesAreSpaced(targetFps: nat, beats: seq<Beat>, i: nat, j: nat)
    requires Monotone(beats, 0)
    requires i <= j < |RecordAll(InitialLedger(targetFps), beats).begins|
    ensures var begins := RecordAll(InitialLedger(targetFps), beats).begins;
            begins[j].at - begins[i].at >= 2000 * NudgesIn(begins[i + 1..j + 1])
  {
    FpsInterval(targetFps);
    PacedRun(InitialLedger(targetFps), beats, 0);
    SpacedSpan(RecordAll(InitialLedger(targetFps), beats).begins, i, j);
  }

  /** A nudge goes through exactly when the host is not paused and 2000 us have passed since the last begin frame. */
  lemma NudgeAcceptedExactly(l: Ledger, clock: nat, now: nat)
    requires Paced(l, clock) && TimedBy(Nudge(now), clock)
    ensures NudgeAccepted(l.flow, now) <==> !l.flow.paused && now >= l.flow.lastBeginUs + 2000
  {}

  // ---- Cadence smoothing -----------------------------------------------------------------------

  function Repeated(prev: nat, c: nat, n: nat): nat
    decreases n
  {
    if n == 0 then prev else Repeated(Smoothed(prev, c), c, n - 1)
  }

  /** Where a constant cadence `c` drives the filter: exactly onto it from above, and to three short of it from
      more than three below. */
  function RestValue(prev: nat, c: nat): nat {
    if prev == 0 || prev >= c then c else if prev + 3 <= c then c - 3 else prev
  }

  predicate CadenceState(prev: nat, c: nat) {
    MIN_CADENCE_US <= c <= MAX_CADENCE_US && (prev == 0 || MIN_CADENCE_US <= prev <= MAX_CADENCE_US)
  }

  /** One sample moves the filter towards its rest value without passing it, and strictly unless it is there. */
  lemma SmoothingApproaches(prev: nat, c: nat)
    requires CadenceState(prev, c)
    ensures var next, rest := Smoothed(prev, c), RestValue(prev, c);
            && CadenceState(next, c) && next != 0 && RestValue(next, c) == rest
            && (prev == 0 ==> next == rest)
            && (prev > rest ==> rest <= next < prev)
            && (0 < prev < rest ==> prev < next <= rest)
            && (prev == rest ==> next == rest)
  {
    SmoothedBounds(prev, c);
  }

  function Gap(prev: nat, rest: nat): nat {
    if prev == 0 then 1 else if prev > rest then prev - rest else rest - prev
  }

  /** Under a constant cadence the filter reaches its rest value in finitely many samples and stays there. */
  lemma {:induction false} SmoothingSettles(prev: nat, c: nat, n: nat)
    requires CadenceState(prev, c) && n >= Gap(prev, RestValue(prev, c))
    ensures Repeated(prev, c, n) == RestValue(prev, c)
    ensures c - 3 <= RestValue(prev, c) <= c
    decreases n
  {
    if n > 0 {
      SmoothingApproaches(prev, c);
      SmoothingSettles(Smoothed(prev, c), c, n - 1);
    }
  }

  /** The settled interval is at most one percent slower than the consumer, and faster by at most 3 us, which only
      happens when the cadence was approached from below. */
  lemma SettledInterval(f: Flow, us: nat, n: nat)
    requires MIN_CADENCE_US <= us <= MAX_CADENCE_US && CadenceState(f.smoothedUs, us)
    requires n >= Gap(f.smoothedUs, RestValue(f.smoothedUs, us))
    ensures var t := FromCadence(f.(smoothedUs := Repeated(f.smoothedUs, us, n)), us);
            && (us - 3) * 1000 <= t.intervalNs <= us * 1010
            && (f.smoothedUs == 0 || f.smoothedUs >= us ==> us * 1000 <= t.intervalNs)
  {
    SmoothingSettles(f.smoothedUs, us, n);
    SmoothingApproaches(RestValue(f.smoothedUs, us), us);
  }
}
