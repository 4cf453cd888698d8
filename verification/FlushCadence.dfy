/** When submitted work really leaves for the GPU: the flush cadence over whole runs. */
module FlushCadence {
  import opened Geometry
  import opened Gpu
  import opened Publication
  import opened Protocol
  import opened FrameRing
  import opened FrameReads

  predicate FlushBehind(log: seq<Command>, at: nat) {
    exists q :: at <= q < |log| && log[q].Flush?
  }

  /** Every view frame at least `age` view frames old has a flush behind its seal. */
  ghost predicate FlushedFrom(r: Run, age: nat) {
    forall i :: 0 <= i < |r.log| && r.log[i].Shown? && r.log[i].frame.isView
                && r.views - r.log[i].frame.ordinal >= age ==>
      FlushBehind(r.host.gpu, r.log[i].frame.sealAt)
  }

  lemma FlushKept(log: seq<Command>, more: seq<Command>, at: nat)
    requires log <= more && FlushBehind(log, at)
    ensures FlushBehind(more, at)
  {
    var q :| at <= q < |log| && log[q].Flush?;
    assert more[q].Flush?;
  }

  /** The flush counter is zero after a view frame exactly when that frame ended in a flush. */
  lemma PublishFlushes(s: Host, image: Image, listed: seq<Rect>, recreated: bool, api: Answers)
    requires Sane(s) && AllPresent(s.ring)
    ensures var t := PublishView(s, image, listed, recreated, api);
            && (t.sinceFlush == 0 <==> FlushBehind(t.gpu, |s.gpu| + 1 + |PlaneCopy(s)|))
            && (t.sinceFlush > 0 ==> t.sinceFlush == s.sinceFlush + 1)
  {
    var t, k := PublishView(s, image, listed, recreated, api), |s.gpu| + 1 + |PlaneCopy(s)|;
    var full := ForcedFull(s, listed, recreated);
    ViewCommandAt(s, image, full, api, 1 + |PlaneCopy(s)|);
    assert t.gpu[k] == Seal(s, api);
    if FlushesAfterSignal(s, full, api) {
      ViewCommandAt(s, image, full, api, 2 + |PlaneCopy(s)|);
      assert t.gpu[k + 1] == Flush;
    } else {
      assert |t.gpu| == k + 1;
    }
  }

  lemma FlushedView(r: Run, image: Image, listed: seq<Rect>, api: Answers)
    requires Kept(r) && FlushedFrom(r, r.host.sinceFlush) && Publishes(r.host, ViewPaint(image, listed, api))
    ensures var t := AdvanceView(r, image, listed, api); FlushedFrom(t, t.host.sinceFlush)
  {
    EnsureSane(r.host, image.width, image.height, api);
    EnsureLeaves(r.host, image.width, image.height, api);
    var n := EnsureTextures(r.host, image.width, image.height, api);
    PublishFlushes(n.host, image, listed, n.recreated, api);
    ViewLeaves(n.host, image, listed, n.recreated, api);
    var t, at := AdvanceView(r, image, listed, api), |n.host.gpu| + 1 + |PlaneCopy(n.host)|;
    forall i | 0 <= i < |t.log| && t.log[i].Shown? && t.log[i].frame.isView
               && t.views - t.log[i].frame.ordinal >= t.host.sinceFlush
      ensures FlushBehind(t.host.gpu, t.log[i].frame.sealAt)
    {
      if i < |r.log| {
        assert FrameKept(r, r.log[i].frame);
        if t.host.sinceFlush == 0 {
          EarlierSeal(t.host.gpu, r.log[i].frame.sealAt, at);
        } else {
          FlushKept(r.host.gpu, t.host.gpu, r.log[i].frame.sealAt);
        }
      }
    }
  }

  lemma EarlierSeal(log: seq<Command>, early: nat, late: nat)
    requires early <= late && FlushBehind(log, late)
    ensures FlushBehind(log, early)
  {
    var q :| late <= q < |log| && log[q].Flush?;
  }

  lemma FlushedQuiet(r: Run, e: Event)
    requires Kept(r) && FlushedFrom(r, r.host.sinceFlush) && !(e.ViewPaint? && Publishes(r.host, e))
    ensures var t := Advance(r, e); FlushedFrom(t, t.host.sinceFlush)
  {
    var t := Advance(r, e);
    StepAppends(r.host, e);
    QuietCounter(r.host, e);
    if !Publishes(r.host, e) { QuietLog(r, e); }
    forall i | 0 <= i < |t.log| && t.log[i].Shown? && t.log[i].frame.isView
               && t.views - t.log[i].frame.ordinal >= t.host.sinceFlush
      ensures FlushBehind(t.host.gpu, t.log[i].frame.sealAt)
    {
      FlushKept(r.host.gpu, t.host.gpu, r.log[i].frame.sealAt);
    }
  }

  lemma QuietCounter(s: Host, e: Event)
    requires WellFormed(s) && !(e.ViewPaint? && Publishes(s, e))
    ensures Step(s, e).sinceFlush == s.sinceFlush
  {
    hide CreateTextures, EnsureTextures, StorePopup, PublishPopup;
    match e
    case ViewPaint(image, _, api) => EnsureLeaves(s, image.width, image.height, api);
    case PopupPaint(image, api) =>
      PopupPaintParts(s, image, api);
      StoreLeaves(s, image);
      if Publishes(s, e) { PopupLeaves(StorePopup(s, image), api); }
    case _ =>
  }

  lemma {:induction false} FlushedReplay(r: Run, events: seq<Event>)
    requires Kept(r) && FlushedFrom(r, r.host.sinceFlush)
    ensures var t := Replay(r, events); FlushedFrom(t, t.host.sinceFlush)
    decreases |events|
  {
    if events != [] {
      var e := events[0];
      if e.ViewPaint? && Publishes(r.host, e) { FlushedView(r, e.image, e.listed, e.api); } else { FlushedQuiet(r, e); }
      KeptStep(r, e);
      FlushedReplay(Advance(r, e), events[1..]);
    }
  }

  /** Whatever came before, once a view frame is published at a flush interval k > 0 every view frame except the
      newest k - 1 has been flushed; a FULL frame, or one whose signal failed, flushes them all. */
  lemma FlushWithinInterval(slots: nat, maxRects: nat, hasFence: bool, events: seq<Event>, e: Event)
    requires 2 <= slots && 1 <= maxRects < 256 && e.ViewPaint?
    requires Publishes(Replay(Start(slots, maxRects, hasFence), events).host, e)
    ensures var t := Advance(Replay(Start(slots, maxRects, hasFence), events), e);
            && (t.host.flushEvery > 0 ==> FlushedFrom(t, t.host.flushEvery - 1))
            && (t.host.header.flags.full || t.host.header.fence == 0 ==> FlushedFrom(t, 0))
  {
    var r := Replay(Start(slots, maxRects, hasFence), events);
    StartKept(slots, maxRects, hasFence);
    KeptReplay(Start(slots, maxRects, hasFence), events);
    FlushedReplay(Start(slots, maxRects, hasFence), events);
    FlushedView(r, e.image, e.listed, e.api);
    CounterBelowInterval(r.host, e);
  }

  lemma CounterBelowInterval(s: Host, e: Event)
    requires WellFormed(s) && 1 <= s.nextFence && e.ViewPaint? && Publishes(s, e)
    ensures var t := Step(s, e);
            && (t.flushEvery > 0 ==> t.sinceFlush < t.flushEvery)
            && (t.header.flags.full || t.header.fence == 0 ==> t.sinceFlush == 0)
  {
    hide CreateTextures, EnsureTextures;
    EnsureLeaves(s, e.image.width, e.image.height, e.api);
  }

  // ---- Exactly when a frame flushes --------------------------------------------------------------

  /** The frame's seal is a flush, or a flush stands right behind it. */
  predicate FlushedBy(gpu: seq<Command>, f: Frame) {
    && f.sealAt < |gpu|
    && (gpu[f.sealAt].Flush? || (f.sealAt + 1 < |gpu| && gpu[f.sealAt + 1].Flush?))
  }

  /** How many view frames were published after the last one that flushed. */
  function ViewsSinceFlush(log: seq<Entry>, gpu: seq<Command>): nat {
    if log == [] then 0
    else
      var earlier, last := ViewsSinceFlush(log[..|log| - 1], gpu), log[|log| - 1];
      if !last.Shown? || !last.frame.isView then earlier else if FlushedBy(gpu, last.frame) then 0 else earlier + 1
  }

  /** The flush interval that was last set; 1 when none was. */
  function LastFlushInterval(before: nat, events: seq<Event>): nat
    decreases |events|
  {
    if events == [] then before
    else LastFlushInterval(if events[0].SetFlushInterval? then events[0].frames else before, events[1..])
  }

  lemma {:induction false} CountStable(log: seq<Entry>, gpu: seq<Command>, more: seq<Command>)
    requires gpu <= more && (|gpu| < |more| ==> !more[|gpu|].Flush?)
    requires forall i :: 0 <= i < |log| && log[i].Shown? ==> log[i].frame.sealAt < |gpu|
    ensures ViewsSinceFlush(log, more) == ViewsSinceFlush(log, gpu)
  {
    if log != [] { CountStable(log[..|log| - 1], gpu, more); }
  }

  lemma CountStep(log: seq<Entry>, x: Entry, gpu: seq<Command>)
    ensures ViewsSinceFlush(log + [x], gpu) ==
            if !x.Shown? || !x.frame.isView then ViewsSinceFlush(log, gpu)
            else if FlushedBy(gpu, x.frame) then 0 else ViewsSinceFlush(log, gpu) + 1
  {
    assert (log + [x])[..|log|] == log;
  }

  /** No event starts with a flush, so a flush behind a seal belongs to that seal's frame. */
  lemma StartsWithoutFlush(s: Host, e: Event)
    requires WellFormed(s)
    ensures s.gpu <= Step(s, e).gpu && (|s.gpu| < |Step(s, e).gpu| ==> !Step(s, e).gpu[|s.gpu|].Flush?)
  {
    hide EnsureTextures, PublishView, StorePopup, PublishPopup;
    match e
    case ViewPaint(image, listed, api) => ViewStartsWithoutFlush(s, image, listed, api);
    case PopupPaint(image, api) =>
      PopupPaintParts(s, image, api);
      StoreStartsWithoutFlush(s, image);
      StoreLeaves(s, image);
      if Publishes(s, e) { PopupLeaves(StorePopup(s, image), api); }
    case _ =>
  }

  lemma StoreStartsWithoutFlush(s: Host, image: Image)
    ensures var t := StorePopup(s, image); |s.gpu| < |t.gpu| && !t.gpu[|s.gpu|].Flush?
  {}

  lemma EnsureStartsWithoutFlush(s: Host, width: nat, height: nat, api: Answers)
    ensures var t := EnsureTextures(s, width, height, api).host;
            s.gpu <= t.gpu && (|s.gpu| < |t.gpu| ==> !t.gpu[|s.gpu|].Flush?)
  {}

  lemma ViewStartsWithoutFlush(s: Host, image: Image, listed: seq<Rect>, api: Answers)
    requires WellFormed(s)
    ensures var t := OnViewPaint(s, image, listed, api);
            s.gpu <= t.gpu && (|s.gpu| < |t.gpu| ==> !t.gpu[|s.gpu|].Flush?)
  {
    hide EnsureTextures, PublishView;
    EnsureStartsWithoutFlush(s, image.width, image.height, api);
    var n := EnsureTextures(s, image.width, image.height, api);
    if n.ok { PublishStartsWithCopy(n.host, image, listed, n.recreated, api); }
  }

  lemma PublishStartsWithCopy(s: Host, image: Image, listed: seq<Rect>, recreated: bool, api: Answers)
    requires s.ring != [] && AllPresent(s.ring)
    ensures var t := PublishView(s, image, listed, recreated, api);
            s.gpu <= t.gpu && |s.gpu| < |t.gpu| && t.gpu[|s.gpu|].CopyResource?
  {}

  ghost predicate CadenceHeld(r: Run) {
    Kept(r) && r.host.sinceFlush == ViewsSinceFlush(r.log, r.host.gpu)
  }

  /** The seal part of a published view frame, as it stands in the queue. */
  lemma SealFlushes(s: Host, image: Image, listed: seq<Rect>, recreated: bool, api: Answers)
    requires s.ring != [] && AllPresent(s.ring) && s.nextFence > 0
    ensures var t, k := PublishView(s, image, listed, recreated, api), |s.gpu| + 1 + |PlaneCopy(s)|;
            var h := t.header;
            var flushes := t.gpu[k].Flush? || (k + 1 < |t.gpu| && t.gpu[k + 1].Flush?);
            && k < |t.gpu|
            && (flushes <==> h.fence == 0 || h.flags.full || (s.flushEvery > 0 && s.sinceFlush + 1 >= s.flushEvery))
            && t.sinceFlush == if flushes then 0 else s.sinceFlush + 1
  {
    var t, k := PublishView(s, image, listed, recreated, api), |s.gpu| + 1 + |PlaneCopy(s)|;
    var full := ForcedFull(s, listed, recreated);
    ViewCommandAt(s, image, full, api, 1 + |PlaneCopy(s)|);
    assert t.gpu[k] == Seal(s, api);
    if |t.gpu| > k + 1 { ViewCommandAt(s, image, full, api, 2 + |PlaneCopy(s)|); }
  }

  lemma FlushesOfView(r: Run, e: Event)
    requires CadenceHeld(r) && e.ViewPaint? && Publishes(r.host, e)
    ensures var t := Advance(r, e);
            && t.log == r.log + [t.log[|r.log|]] && t.log[|r.log|].Shown?
            && var f := t.log[|r.log|].frame;
               && f.isView && f.header == t.host.header
               && (FlushedBy(t.host.gpu, f) <==>
                     || f.header.fence == 0 || f.header.flags.full
                     || (r.host.flushEvery > 0 && ViewsSinceFlush(r.log, r.host.gpu) + 1 >= r.host.flushEvery))
               && t.host.sinceFlush == if FlushedBy(t.host.gpu, f) then 0 else r.host.sinceFlush + 1
  {
    hide CreateTextures, EnsureTextures, PublishView, FrameKept, FencesIncrease;
    EnsureSane(r.host, e.image.width, e.image.height, e.api);
    EnsureLeaves(r.host, e.image.width, e.image.height, e.api);
    var n := EnsureTextures(r.host, e.image.width, e.image.height, e.api);
    SealFlushes(n.host, e.image, e.listed, n.recreated, e.api);
  }

  lemma CadenceStep(r: Run, e: Event)
    requires CadenceHeld(r)
    ensures CadenceHeld(Advance(r, e))
  {
    hide Step, Publishes, FlushedBy, Kept, OnViewPaint, OnPopupPaint;
    KeptStep(r, e);
    KeptSeals(r);
    var t := Advance(r, e);
    StartsWithoutFlush(r.host, e);
    CountStable(r.log, r.host.gpu, t.host.gpu);
    LogGrowth(r, e);
    if t.log != r.log { CountStep(r.log, t.log[|r.log|], t.host.gpu); }
    if e.ViewPaint? && Publishes(r.host, e) {
      FlushesOfView(r, e);
    } else {
      QuietCounter(r.host, e);
      OnlyViewsAreViews(r, e);
    }
  }

  lemma KeptSeals(r: Run)
    requires Kept(r)
    ensures Proper(r) && forall i :: 0 <= i < |r.log| && r.log[i].Shown? ==> r.log[i].frame.sealAt < |r.host.gpu|
  {
    forall i | 0 <= i < |r.log| && r.log[i].Shown? ensures r.log[i].frame.sealAt < |r.host.gpu| {
      assert FrameKept(r, r.log[i].frame);
    }
  }

  lemma OnlyViewsAreViews(r: Run, e: Event)
    requires Proper(r) && !(e.ViewPaint? && Publishes(r.host, e))
    ensures var t := Advance(r, e);
            forall i :: |r.log| <= i < |t.log| && t.log[i].Shown? ==> !t.log[i].frame.isView
  {
    hide OnViewPaint, OnPopupPaint;
  }

  lemma {:induction false} CadenceReplay(r: Run, events: seq<Event>)
    requires CadenceHeld(r)
    ensures CadenceHeld(Replay(r, events))
    ensures Replay(r, events).host.flushEvery == LastFlushInterval(r.host.flushEvery, events)
    decreases |events|
  {
    hide CadenceHeld, Advance, Step;
    CadenceProper(r);
    if events != [] {
      CadenceStep(r, events[0]);
      IntervalStep(r.host, events[0]);
      CadenceReplay(Advance(r, events[0]), events[1..]);
    }
  }

  lemma CadenceProper(r: Run)
    requires CadenceHeld(r)
    ensures Proper(r)
  {}

  lemma IntervalStep(s: Host, e: Event)
    requires WellFormed(s)
    ensures Step(s, e).flushEvery == if e.SetFlushInterval? then e.frames else s.flushEvery
  {
    hide CreateTextures, EnsureTextures, PublishView, StorePopup, PublishPopup;
    match e
    case ViewPaint(image, listed, api) =>
      EnsureLeaves(s, image.width, image.height, api);
      var n := EnsureTextures(s, image.width, image.height, api);
      if n.ok { ViewLeaves(n.host, image, listed, n.recreated, api); }
    case PopupPaint(image, api) =>
      PopupPaintParts(s, image, api);
      StoreLeaves(s, image);
      if Publishes(s, e) { PopupLeaves(StorePopup(s, image), api); }
    case _ =>
  }

  /** In every run a view frame flushes exactly when it advertises no fence value, or is FULL, or is at least the k-th
      view frame since the last one that flushed, k > 0 being the interval that was last set, 1 at first. */
  lemma FlushesExactly(slots: nat, maxRects: nat, hasFence: bool, events: seq<Event>, e: Event)
    requires 2 <= slots && 1 <= maxRects < 256 && e.ViewPaint?
    requires Publishes(Replay(Start(slots, maxRects, hasFence), events).host, e)
    ensures var r := Replay(Start(slots, maxRects, hasFence), events);
            var t, k := Advance(r, e), LastFlushInterval(1, events);
            && |t.log| == |r.log| + 1 && t.log[|r.log|].Shown? && t.log[|r.log|].frame.header == t.host.header
            && var h := t.host.header;
               FlushedBy(t.host.gpu, t.log[|r.log|].frame) <==>
                 h.fence == 0 || h.flags.full || (k > 0 && ViewsSinceFlush(r.log, r.host.gpu) + 1 >= k)
  {
    hide CadenceHeld, Advance, Publishes;
    StartKept(slots, maxRects, hasFence);
    assert CadenceHeld(Start(slots, maxRects, hasFence)) by { StartCadence(slots, maxRects, hasFence); }
    CadenceReplay(Start(slots, maxRects, hasFence), events);
    FlushesOfView(Replay(Start(slots, maxRects, hasFence), events), e);
  }

  lemma StartCadence(slots: nat, maxRects: nat, hasFence: bool)
    requires 2 <= slots && 1 <= maxRects < 256
    ensures CadenceHeld(Start(slots, maxRects, hasFence))
  {
    StartKept(slots, maxRects, hasFence);
  }

  /** A popup frame flushes exactly when it advertises no fence value, and its seal ends its commands. */
  lemma PopupFlushesExactly(r: Run, image: Image, api: Answers)
    requires Kept(r) && Publishes(r.host, PopupPaint(image, api))
    ensures var t := AdvancePopup(r, image, api); var f := t.log[|r.log|].frame;
            && f.sealAt + 1 == |t.host.gpu|
            && (FlushedBy(t.host.gpu, f) <==> f.header.fence == 0)
            && (forall i :: |r.host.gpu| <= i < f.sealAt ==> !t.host.gpu[i].Flush? && !t.host.gpu[i].Signal?)
  {
    hide StorePopup;
    StoreLeaves(r.host, image);
    StoreCommands(r.host, image);
  }

  lemma StoreCommands(s: Host, image: Image)
    ensures var t := StorePopup(s, image);
            forall i :: |s.gpu| <= i < |t.gpu| ==> !t.gpu[i].Flush? && !t.gpu[i].Signal?
  {}
}
