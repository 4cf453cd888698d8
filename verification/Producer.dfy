/** The whole producer: frames, flow control and telemetry driven by one interleaving of handler steps. */
module Producer {
  import opened Geometry
  import opened Publication
  import opened Protocol
  import opened Telemetry
  import FlowControl

  datatype Action =
    | Draw(event: Event, startUs: nat, endUs: nat)
    | Pace(beat: FlowControl.Beat)

  /** What an observer of the events could note down about them: how long each view frame's copy took, one list
      for every log line so far and one since the last, and how many begin frames the render thread sent. */
  datatype Notes = Notes(logged: seq<seq<nat>>, current: seq<nat>, begun: nat)

  /** `framesAtCap` is the number of frames that were published when the cap was last set. */
  datatype State = State(run: Run, ledger: FlowControl.Ledger, meter: Meter, framesAtCap: nat, notes: Notes)

  function NoteCopy(n: Notes, copyUs: nat, logs: bool): Notes {
    if logs then n.(logged := n.logged + [n.current + [copyUs]], current := [])
    else n.(current := n.current + [copyUs])
  }

  function Begin(slots: nat, maxRects: nat, hasFence: bool, targetFps: nat): (s: State)
    requires 2 <= slots && 1 <= maxRects < 256
    ensures Proper(s.run)
  {
    State(Start(slots, maxRects, hasFence), FlowControl.InitialLedger(targetFps), Meter(ZERO, 0, []), 0,
          Notes([], [], 0))
  }

  /** Every published frame, view or popup, counts as one completion. */
  function Act(s: State, a: Action): (t: State)
    requires Proper(s.run)
    ensures Proper(t.run)
  {
    match a
    case Draw(e, startUs, endUs) =>
      AdvanceProper(s.run, e);
      var published, meter := Publishes(s.run.host, e), AfterEvent(s.meter, s.run.host, e, startUs, endUs);
      State(Advance(s.run, e), if published then FlowControl.Record(s.ledger, FlowControl.Completed) else s.ledger,
            meter, s.framesAtCap,
            if published && e.ViewPaint?
            then NoteCopy(s.notes, if startUs < endUs then endUs - startUs else 0, meter.windows != s.meter.windows)
            else s.notes)
    case Pace(b) =>
      if b.Completed? then s
      else
        var begins := b.Tick? && FlowControl.Claims(s.ledger.flow, b);
        s.(ledger := FlowControl.Record(s.ledger, b),
              meter := if begins then AfterBegin(s.meter) else s.meter,
              notes := if begins then s.notes.(begun := s.notes.begun + 1) else s.notes,
              framesAtCap := if b.SetCap? then FramesIn(s.run.log) else s.framesAtCap)
  }

  function ActAll(s: State, actions: seq<Action>): (t: State)
    requires Proper(s.run)
    ensures Proper(t.run)
    decreases |actions|
  {
    if actions == [] then s else ActAll(Act(s, actions[0]), actions[1..])
  }

  // ---- Backpressure against published frames ---------------------------------------------------

  ghost predicate CreditsMatch(s: State) {
    && Proper(s.run) && FlowControl.Balanced(s.ledger)
    && s.framesAtCap <= FramesIn(s.run.log)
    && s.ledger.completions == FramesIn(s.run.log) - s.framesAtCap
  }

  lemma PublishCounts(r: Run, e: Event)
    requires Proper(r)
    ensures FramesIn(Advance(r, e).log) == FramesIn(r.log) + if Publishes(r.host, e) then 1 else 0
  {
    var t := Advance(r, e);
    LogGrowth(r, e);
    if t.log != r.log { LogStep(r.log, t.log[|r.log|]); }
  }

  lemma CreditsStep(s: State, a: Action)
    requires CreditsMatch(s)
    ensures CreditsMatch(Act(s, a))
  {
    match a
    case Draw(e, _, _) =>
      PublishCounts(s.run, e);
      FlowControl.BalancedStep(s.ledger, FlowControl.Completed);
    case Pace(b) => FlowControl.BalancedStep(s.ledger, b);
  }

  lemma {:induction false} CreditsRun(s: State, actions: seq<Action>)
    requires CreditsMatch(s)
    ensures CreditsMatch(ActAll(s, actions))
    decreases |actions|
  {
    if actions != [] {
      CreditsStep(s, actions[0]);
      CreditsRun(Act(s, actions[0]), actions[1..]);
    }
  }

  /** Whatever the interleaving, begin frames in flight stay within the cap in force, and the begin frames counted
      since the cap was last set never exceed the frames published since then plus the cap. */
  lemma SendsBoundedByFrames(slots: nat, maxRects: nat, hasFence: bool, targetFps: nat, actions: seq<Action>)
    requires 2 <= slots && 1 <= maxRects < 256
    ensures var s := ActAll(Begin(slots, maxRects, hasFence, targetFps), actions);
            && s.ledger.flow.sent - s.ledger.flow.done <= s.ledger.flow.cap
            && s.ledger.sends <= FramesIn(s.run.log) - s.framesAtCap + s.ledger.flow.cap
  {
    CreditsRun(Begin(slots, maxRects, hasFence, targetFps), actions);
  }

  /** And the bound is used up: in every interleaving a tick of an unpaused host with a browser sends exactly when the
      begin frames counted since the cap was set are fewer than the frames published since then plus the cap. */
  lemma TicksUseTheBound(slots: nat, maxRects: nat, hasFence: bool, targetFps: nat, actions: seq<Action>, now: nat)
    requires 2 <= slots && 1 <= maxRects < 256
    ensures var s := ActAll(Begin(slots, maxRects, hasFence, targetFps), actions);
            var t := Act(s, Pace(FlowControl.Tick(now)));
            var sends := !s.ledger.flow.paused && s.ledger.flow.hasBrowser
                         && s.ledger.sends < FramesIn(s.run.log) - s.framesAtCap + s.ledger.flow.cap;
            && t.ledger.sends == s.ledger.sends + (if sends then 1 else 0)
            && t.ledger.flow == if sends then s.ledger.flow.(sent := s.ledger.flow.sent + 1, lastBeginUs := now)
                                else s.ledger.flow
  {
    hide Act, FlowControl.Record;
    CreditsRun(Begin(slots, maxRects, hasFence, targetFps), actions);
    TickUsesTheBound(ActAll(Begin(slots, maxRects, hasFence, targetFps), actions), now);
  }

  lemma TickUsesTheBound(s: State, now: nat)
    requires CreditsMatch(s) && Proper(s.run)
    ensures var t := Act(s, Pace(FlowControl.Tick(now)));
            var sends := !s.ledger.flow.paused && s.ledger.flow.hasBrowser
                         && s.ledger.sends < FramesIn(s.run.log) - s.framesAtCap + s.ledger.flow.cap;
            && t.ledger.sends == s.ledger.sends + (if sends then 1 else 0)
            && t.ledger.flow == if sends then s.ledger.flow.(sent := s.ledger.flow.sent + 1, lastBeginUs := now)
                                else s.ledger.flow
  {
    hide FramesIn;
  }

  // ---- Telemetry against the log ---------------------------------------------------------------

  function Add(a: Stats, b: Stats): Stats {
    Stats(a.produced + b.produced, a.forced + b.forced, a.manual + b.manual, a.recreated + b.recreated,
          a.overflowed + b.overflowed, a.dirtyCount + b.dirtyCount, a.dirtyArea + b.dirtyArea,
          a.copyUsSum + b.copyUsSum, if a.copyUsMax > b.copyUsMax then a.copyUsMax else b.copyUsMax,
          a.begins + b.begins)
  }

  function SumOf(windows: seq<Stats>): Stats {
    if windows == [] then ZERO else Add(SumOf(windows[..|windows| - 1]), windows[|windows| - 1])
  }

  /** The points a rectangle covers, counted column by column. */
  function PixelsOf(r: Rect): nat
    decreases if r.w > 0 then r.w else 0
  {
    if r.w <= 0 || r.h <= 0 then 0 else r.h + PixelsOf(r.(w := r.w - 1))
  }

  function PixelsOfAll(rects: seq<Rect>): nat {
    if rects == [] then 0 else PixelsOfAll(rects[..|rects| - 1]) + PixelsOf(rects[|rects| - 1])
  }

  lemma {:induction false} AreaIsPixels(r: Rect)
    ensures AreaOf(r) == PixelsOf(r)
    decreases if r.w > 0 then r.w else 0
  {
    if r.w > 0 && r.h > 0 {
      AreaIsPixels(r.(w := r.w - 1));
      assert (r.w - 1) * r.h + r.h == r.w * r.h;
    }
  }

  lemma {:induction false} AreasArePixels(rects: seq<Rect>)
    ensures AreaOfAll(rects) == PixelsOfAll(rects)
  {
    if rects != [] {
      AreasArePixels(rects[..|rects| - 1]);
      AreaIsPixels(rects[|rects| - 1]);
    }
  }

  /** What the log itself says: frames, FULL frames, first frames after a restart, RESIZED and OVERFLOW frames,
      and the rectangles that view frames shipped. */
  function TallyEntry(before: seq<Entry>, x: Entry): Stats {
    if !x.Shown? then ZERO
    else if !x.frame.isView then ZERO.(produced := 1)
    else
      var h := x.frame.header;
      ZERO.(produced := 1, forced := One(h.flags.full),
            manual := One(h.flags.resized || ViewsSinceRestart(before) == 0),
            recreated := One(h.flags.resized), overflowed := One(h.flags.overflow), dirtyCount := h.dirtyCount,
            dirtyArea := if h.dirtyCount <= |h.dirtyRects| then PixelsOfAll(h.Dirty()) else 0)
  }

  function Tally(log: seq<Entry>): Stats {
    if log == [] then ZERO else Add(Tally(log[..|log| - 1]), TallyEntry(log[..|log| - 1], log[|log| - 1]))
  }

  function SumOfAll(copies: seq<nat>): nat {
    if copies == [] then 0 else SumOfAll(copies[..|copies| - 1]) + copies[|copies| - 1]
  }

  /** The sum and the maximum of the noted copy times; the maximum of none is 0. */
  predicate Timed(s: Stats, copies: seq<nat>) {
    && s.copyUsSum == SumOfAll(copies)
    && (forall i :: 0 <= i < |copies| ==> copies[i] <= s.copyUsMax)
    && (if copies == [] then s.copyUsMax == 0 else s.copyUsMax in copies)
  }

  function Total(m: Meter): Stats {
    Add(SumOf(m.windows), m.live)
  }

  /** Logged and live counters together report the log and the begin frames sent. */
  predicate Reports(total: Stats, tally: Stats, begun: nat) {
    total.(copyUsSum := 0, copyUsMax := 0) == tally.(begins := begun)
  }

  /** Each kind of forced frame is a forced frame, each forced frame a produced one, and only the others carry
      rectangles, as many as fit. */
  predicate Plausible(s: Stats, maxRects: nat) {
    && s.manual <= s.forced && s.recreated <= s.forced && s.overflowed <= s.forced <= s.produced
    && s.dirtyCount <= maxRects * (s.produced - s.forced)
  }

  predicate Fits(s: Stats, copies: seq<nat>, maxRects: nat) {
    Plausible(s, maxRects) && Timed(s, copies)
  }

  function MaxRects(s: State): nat {
    |s.run.host.header.dirtyRects|
  }

  predicate WindowsFit(windows: seq<Stats>, logged: seq<seq<nat>>, maxRects: nat) {
    && |windows| == |logged|
    && (forall i :: 0 <= i < |windows| ==> Fits(windows[i], logged[i], maxRects))
  }

  ghost predicate Truthful(s: State) {
    && Proper(s.run) && Counted(s.run)
    && Reports(Total(s.meter), Tally(s.run.log), s.notes.begun)
    && Fits(s.meter.live, s.notes.current, MaxRects(s))
    && WindowsFit(s.meter.windows, s.notes.logged, MaxRects(s))
  }

  lemma WindowsStep(windows: seq<Stats>, w: Stats)
    ensures SumOf(windows + [w]) == Add(SumOf(windows), w)
  {
    assert (windows + [w])[..|windows|] == windows;
  }

  lemma TallyStep(log: seq<Entry>, x: Entry)
    ensures Tally(log + [x]) == Add(Tally(log), TallyEntry(log, x))
  {
    assert (log + [x])[..|log|] == log;
  }

  lemma TimedStep(s: Stats, copies: seq<nat>, copyUs: nat)
    requires Timed(s, copies)
    ensures Timed(CopyCounted(s, copyUs), copies + [copyUs])
  {
    assert (copies + [copyUs])[..|copies|] == copies;
    assert (copies + [copyUs])[|copies|] == copyUs;
    if copies != [] {
      var i :| 0 <= i < |copies| && copies[i] == s.copyUsMax;
      assert (copies + [copyUs])[i] == s.copyUsMax;
    }
  }

  lemma DirtySumStep(maxRects: nat, n: nat, sum: nat, listed: nat)
    requires sum <= maxRects * n && listed <= maxRects
    ensures sum + listed <= maxRects * (n + 1) && sum <= maxRects * (n + 1)
  {
    assert maxRects * (n + 1) == maxRects * n + maxRects;
  }

  lemma SampleFits(s: Stats, v: Sample, copies: seq<nat>, maxRects: nat)
    requires Fits(s, copies, maxRects)
    requires (v.manual || v.recreated || v.overflow ==> v.full) && (!v.full ==> |v.listed| <= maxRects)
    ensures Fits(AddSample(s, v), copies + [v.copyUs], maxRects)
  {
    var counted := ForcedCounted(s, v.full, v.manual, v.recreated, v.overflow, v.listed);
    TimedStep(counted, copies, v.copyUs);
    DirtySumStep(maxRects, s.produced - s.forced, s.dirtyCount, if v.full then 0 else |v.listed|);
  }

  lemma PopupFits(s: Stats, copies: seq<nat>, maxRects: nat)
    requires Fits(s, copies, maxRects)
    ensures Fits(s.(produced := s.produced + 1), copies, maxRects)
  {
    DirtySumStep(maxRects, s.produced - s.forced, s.dirtyCount, 0);
  }

  /** A log line takes the live counters over and loses nothing. */
  lemma LogKeepsTotal(m: Meter, endUs: nat)
    ensures Total(MaybeLog(m, endUs)) == Total(m)
  {
    hide SumOf, Add;
    WindowsStep(m.windows, m.live);
    AddZero(Add(SumOf(m.windows), m.live));
  }

  lemma AddZero(a: Stats)
    ensures Add(a, ZERO) == a
  {}

  lemma LogKeepsFit(m: Meter, endUs: nat, n: Notes, copyUs: nat, maxRects: nat)
    requires Fits(m.live, n.current + [copyUs], maxRects) && WindowsFit(m.windows, n.logged, maxRects)
    ensures var after := MaybeLog(m, endUs);
            var noted := NoteCopy(n, copyUs, after.windows != m.windows);
            && Fits(after.live, noted.current, maxRects) && WindowsFit(after.windows, noted.logged, maxRects)
            && noted.begun == n.begun
  {
    ZeroFits(maxRects);
  }

  /** A view frame's sample says of the frame what its header says. */
  lemma SampleMatchesHeader(r: Run, image: Image, listed: seq<Rect>, api: Answers, copyUs: nat)
    requires Proper(r) && Counted(r) && Publishes(r.host, ViewPaint(image, listed, api))
    ensures var v := SampleOf(r.host, image, listed, api, copyUs);
            var h := AdvanceView(r, image, listed, api).host.header;
            && v.full == h.flags.full && v.recreated == h.flags.resized && v.overflow == h.flags.overflow
            && v.manual == (h.flags.resized || ViewsSinceRestart(r.log) == 0)
            && (v.manual || v.recreated || v.overflow ==> v.full)
            && h.dirtyCount == (if v.full then 0 else |listed|) && (!v.full ==> |listed| <= |r.host.header.dirtyRects|)
            && h.dirtyCount <= |h.dirtyRects| && h.Dirty() == (if v.full then [] else listed)
  {
    hide CreateTextures, EnsureTextures, PublishView;
    EnsureLeaves(r.host, image.width, image.height, api);
    var n := EnsureTextures(r.host, image.width, image.height, api);
    ViewLeaves(n.host, image, listed, n.recreated, api);
  }

  lemma ReportsSample(m: Meter, v: Sample, tally: Stats, begun: nat, entry: Stats)
    requires Reports(Total(m), tally, begun)
    requires entry == ZERO.(produced := 1, forced := One(v.full), manual := One(v.manual),
                            recreated := One(v.recreated), overflowed := One(v.overflow),
                            dirtyCount := if v.full then 0 else |v.listed|,
                            dirtyArea := if v.full then 0 else AreaOfAll(v.listed))
    ensures Reports(Total(m.(live := AddSample(m.live, v))), Add(tally, entry), begun)
  {}

  lemma EntryOfFrame(before: seq<Entry>, f: Frame, v: Sample)
    requires f.isView && v.full == f.header.flags.full && v.recreated == f.header.flags.resized
    requires v.overflow == f.header.flags.overflow && f.header.dirtyCount <= |f.header.dirtyRects|
    requires v.manual == (f.header.flags.resized || ViewsSinceRestart(before) == 0)
    requires f.header.dirtyCount == (if v.full then 0 else |v.listed|)
    requires f.header.Dirty() == (if v.full then [] else v.listed)
    ensures TallyEntry(before, Shown(f)) ==
            ZERO.(produced := 1, forced := One(v.full), manual := One(v.manual), recreated := One(v.recreated),
                  overflowed := One(v.overflow), dirtyCount := if v.full then 0 else |v.listed|,
                  dirtyArea := if v.full then 0 else AreaOfAll(v.listed))
  {
    hide AreaOfAll, PixelsOfAll, ViewsSinceRestart, One;
    var a := TallyEntry(before, Shown(f));
    if v.full {
      NoArea(f.header.Dirty());
      assert a.dirtyCount == 0 && a.dirtyArea == 0;
    } else {
      AreasArePixels(v.listed);
      assert a.dirtyCount == |v.listed| && a.dirtyArea == AreaOfAll(v.listed);
    }
  }

  /** What the log says of a new view frame is what its sample says. */
  lemma ViewTally(r: Run, image: Image, listed: seq<Rect>, api: Answers, copyUs: nat)
    requires Proper(r) && Counted(r) && Publishes(r.host, ViewPaint(image, listed, api))
    ensures var v, t := SampleOf(r.host, image, listed, api, copyUs), AdvanceView(r, image, listed, api);
            TallyEntry(r.log, t.log[|r.log|]) ==
            ZERO.(produced := 1, forced := One(v.full), manual := One(v.manual), recreated := One(v.recreated),
                  overflowed := One(v.overflow), dirtyCount := if v.full then 0 else |v.listed|,
                  dirtyArea := if v.full then 0 else AreaOfAll(v.listed))
  {
    hide Counted, OnViewPaint, AreaOfAll, TallyEntry, ViewsSinceRestart;
    SampleMatchesHeader(r, image, listed, api, copyUs);
    var x := AdvanceView(r, image, listed, api).log[|r.log|];
    EntryOfFrame(r.log, x.frame, SampleOf(r.host, image, listed, api, copyUs));
  }

  lemma NoArea(rects: seq<Rect>)
    requires rects == []
    ensures PixelsOfAll(rects) == 0
  {}

  lemma TruthfulView(s: State, image: Image, listed: seq<Rect>, api: Answers, startUs: nat, endUs: nat)
    requires Truthful(s) && Publishes(s.run.host, ViewPaint(image, listed, api))
    ensures Truthful(Act(s, Draw(ViewPaint(image, listed, api), startUs, endUs)))
  {
    hide Counted, Fits, WindowsFit, Reports, Publishes, OnViewPaint, TallyEntry, Tally, Add, Total, MaybeLog;
    var e := ViewPaint(image, listed, api);
    var r := Advance(s.run, e);
    var v := SampleOf(s.run.host, image, listed, api, CopyTime(startUs, endUs));
    var counted := s.meter.(live := AddSample(s.meter.live, v));
    CountedStep(s.run, e);
    LogGrowth(s.run, e);
    var x := r.log[|s.run.log|];
    TallyStep(s.run.log, x);
    SampleMatchesHeader(s.run, image, listed, api, v.copyUs);
    ViewTally(s.run, image, listed, api, v.copyUs);
    SampleFits(s.meter.live, v, s.notes.current, MaxRects(s));
    ReportsSample(s.meter, v, Tally(s.run.log), s.notes.begun, TallyEntry(s.run.log, x));
    LogKeepsTotal(counted, endUs);
    LogKeepsFit(counted, endUs, s.notes, v.copyUs, MaxRects(s));
  }

  lemma TruthfulPopup(s: State, image: Image, api: Answers, startUs: nat, endUs: nat)
    requires Truthful(s) && Publishes(s.run.host, PopupPaint(image, api))
    ensures Truthful(Act(s, Draw(PopupPaint(image, api), startUs, endUs)))
  {
    hide Counted, Fits, WindowsFit, Reports, OnPopupPaint, Tally, Add, Total;
    var r := AdvancePopup(s.run, image, api);
    CountedPopup(s.run, image, api);
    TallyStep(s.run.log, r.log[|s.run.log|]);
    PopupFits(s.meter.live, s.notes.current, MaxRects(s));
    ReportsPopup(s.meter, Tally(s.run.log), s.notes.begun);
  }

  lemma ReportsPopup(m: Meter, tally: Stats, begun: nat)
    requires Reports(Total(m), tally, begun)
    ensures var after := m.(live := m.live.(produced := m.live.produced + 1));
            Reports(Total(after), Add(tally, ZERO.(produced := 1)), begun)
  {}

  lemma QuietTally(log: seq<Entry>, more: seq<Entry>)
    requires more == log || (|more| == |log| + 1 && more == log + [more[|log|]] && !more[|log|].Shown?)
    ensures Tally(more) == Tally(log)
  {
    if more != log { TallyStep(log, more[|log|]); }
  }

  lemma TruthfulQuiet(s: State, e: Event, startUs: nat, endUs: nat)
    requires Truthful(s) && !Publishes(s.run.host, e)
    ensures Truthful(Act(s, Draw(e, startUs, endUs)))
  {
    hide Counted, Fits, WindowsFit, Reports, Step;
    CountedStep(s.run, e);
    LogGrowth(s.run, e);
    QuietTally(s.run.log, Advance(s.run, e).log);
  }

  lemma TruthfulPace(s: State, a: Action)
    requires Truthful(s) && a.Pace?
    ensures Truthful(Act(s, a))
  {
    hide Counted, WindowsFit, FlowControl.Record;
  }

  lemma TruthfulAct(s: State, a: Action)
    requires Truthful(s)
    ensures Truthful(Act(s, a))
  {
    hide Advance, Counted, Fits, WindowsFit, Reports, OnViewPaint, EnsureTextures, PopupStored;
    if a.Pace? {
      TruthfulPace(s, a);
    } else {
      if a.event.ViewPaint? && Publishes(s.run.host, a.event) {
        TruthfulView(s, a.event.image, a.event.listed, a.event.api, a.startUs, a.endUs);
      } else if Publishes(s.run.host, a.event) {
        TruthfulPopup(s, a.event.image, a.event.api, a.startUs, a.endUs);
      } else {
        TruthfulQuiet(s, a.event, a.startUs, a.endUs);
      }
    }
  }

  lemma ZeroFits(maxRects: nat)
    ensures Fits(ZERO, [], maxRects)
  {
    assert maxRects * 0 == 0;
  }

  lemma BlankTruthful(s: State)
    requires Proper(s.run) && Counted(s.run) && s.run.log == []
    requires s.meter.live == ZERO && s.meter.windows == [] && s.notes == Notes([], [], 0)
    ensures Truthful(s)
  {
    BlankReports(s.meter, s.run.log);
    ZeroFits(MaxRects(s));
  }

  lemma BlankReports(m: Meter, log: seq<Entry>)
    requires m.live == ZERO && m.windows == [] && log == []
    ensures Reports(Total(m), Tally(log), 0)
  {
    assert SumOf(m.windows) == ZERO && Tally(log) == ZERO;
  }

  lemma {:induction false} TruthfulRun(s: State, actions: seq<Action>)
    requires Truthful(s)
    ensures Truthful(ActAll(s, actions))
    decreases |actions|
  {
    if actions != [] {
      TruthfulAct(s, actions[0]);
      TruthfulRun(Act(s, actions[0]), actions[1..]);
    }
  }

  /** Over any run the logged windows and the live counters add up to what the published headers say, and every
      window, logged or live, is plausible in itself and holds the sum and maximum of its own copy times. */
  lemma TelemetryReportsTheLog(slots: nat, maxRects: nat, hasFence: bool, targetFps: nat, actions: seq<Action>)
    requires 2 <= slots && 1 <= maxRects < 256
    ensures Truthful(ActAll(Begin(slots, maxRects, hasFence, targetFps), actions))
  {
    var s := Begin(slots, maxRects, hasFence, targetFps);
    StartCounted(slots, maxRects, hasFence);
    BlankTruthful(s);
    TruthfulRun(s, actions);
  }
}
