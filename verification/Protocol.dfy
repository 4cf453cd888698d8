/** Whole runs of the producer: the log of what was published, and what every published header obeys. */
module Protocol {
  import opened Geometry
  import opened Gpu
  import opened MachineWords
  import opened Publication

  /** The last view image published: the texture it was copied to and the position of that copy in the GPU queue. */
  datatype Front = Front(image: Image, texture: Texture, copyAt: nat)

  /** A published frame. `listed` is the dirty list of the browser, `texture` the one in the advertised slot,
      `sealAt` the position of the signal or flush, `ordinal` the number of view frames up to and with it. `held` are
      the textures the producer then used, `known` the ones a consumer has opened that opens the shared names anew at
      each RESIZED frame. */
  datatype Frame = Frame(
    isView: bool, header: FrameHeader, listed: seq<Rect>, texture: Option<Texture>,
    front: Option<Front>, sealAt: nat, ordinal: nat, held: Offer, known: Offer)
  {
    /** What the consumer has opened under the advertised slot. */
    function Opened(): Option<Texture> {
      if header.slot < |known.ring| then known.ring[header.slot] else None
    }
  }

  datatype Entry = Shown(frame: Frame) | Loaded | ResizeAsked

  datatype Run = Run(host: Host, front: Option<Front>, popup: Option<Image>, views: nat, log: seq<Entry>, known: Offer)

  predicate Proper(r: Run) {
    WellFormed(r.host) && r.host.writeSlot < |r.host.ring|
  }

  function Start(slots: nat, maxRects: nat, hasFence: bool): (r: Run)
    requires 2 <= slots && 1 <= maxRects < 256
    ensures Proper(r)
  {
    Run(InitialHost(slots, maxRects, hasFence), None, None, 0, [], Offer(seq(slots, i => None), None))
  }

  function AdvanceView(r: Run, image: Image, listed: seq<Rect>, api: Answers): (t: Run)
    requires Proper(r) && Publishes(r.host, ViewPaint(image, listed, api))
    ensures t.host == OnViewPaint(r.host, image, listed, api)
  {
    var before := EnsureTextures(r.host, image.width, image.height, api).host;
    var h := OnViewPaint(r.host, image, listed, api);
    var copyAt := |before.gpu|;
    var texture := before.ring[BackSlot(before)];
    var front := Some(Front(image, texture.value, copyAt));
    var known := if h.header.flags.resized then Offered(h) else r.known;
    var frame := Frame(true, h.header, listed, texture, front, copyAt + 1 + |PlaneCopy(before)|, r.views + 1,
                       Offer(h.ring, h.plane), known);
    Run(h, front, r.popup, r.views + 1, r.log + [Shown(frame)], known)
  }

  function AdvancePopup(r: Run, image: Image, api: Answers): (t: Run)
    requires Proper(r) && Publishes(r.host, PopupPaint(image, api))
    ensures t.host == OnPopupPaint(r.host, image, api)
  {
    var before := StorePopup(r.host, image);
    var h := OnPopupPaint(r.host, image, api);
    var frame := Frame(false, h.header, [], before.ring[before.writeSlot], r.front,
                       |before.gpu| + |PopupCommands(before, api)| - 1, r.views, Offer(h.ring, h.plane), r.known);
    Run(h, r.front, Some(image), r.views, r.log + [Shown(frame)], r.known)
  }

  function Advance(r: Run, e: Event): (t: Run)
    requires Proper(r)
    ensures t.host == Step(r.host, e)
  {
    var h := Step(r.host, e);
    match e
    case ViewPaint(image, listed, api) =>
      if Publishes(r.host, e) then AdvanceView(r, image, listed, api) else r.(host := h)
    case PopupPaint(image, api) =>
      if Publishes(r.host, e) then AdvancePopup(r, image, api)
      else
        var stored := if PopupStored(r.host, image, api) then Some(image) else None;
        r.(host := h, popup := if api.openOk then stored else r.popup)
    case Load(isMain, _) => r.(host := h, log := r.log + if isMain then [Loaded] else [])
    case Resize => r.(host := h, log := r.log + [ResizeAsked])
    case _ => r.(host := h)
  }

  lemma AdvanceProper(r: Run, e: Event)
    requires Proper(r)
    ensures Proper(Advance(r, e)) && SameShape(r.host, Advance(r, e).host)
  {}

  function Replay(r: Run, events: seq<Event>): (t: Run)
    requires Proper(r)
    ensures Proper(t) && SameShape(r.host, t.host)
    decreases |events|
  {
    AdvanceProper(r, if events == [] then Resize else events[0]);
    if events == [] then r else Replay(Advance(r, events[0]), events[1..])
  }

  /** Runs can be read event by event from the end as well. */
  lemma {:induction false} ReplayLast(r: Run, events: seq<Event>, e: Event)
    requires Proper(r)
    ensures Proper(Advance(Replay(r, events), e))
    ensures Replay(r, events + [e]) == Advance(Replay(r, events), e)
    decreases |events|
  {
    AdvanceProper(Replay(r, events), e);
    if events == [] {
      assert [] + [e] == [e] && [e][1..] == [];
      assert Replay(Advance(r, e), []) == Advance(r, e);
    } else {
      AdvanceProper(r, events[0]);
      ReplayLast(Advance(r, events[0]), events[1..], e);
      assert (events + [e])[1..] == events[1..] + [e];
    }
  }

  /** An event adds one entry to the log or none, and a frame exactly when it publishes. */
  lemma LogGrowth(r: Run, e: Event)
    requires Proper(r)
    ensures var t := Advance(r, e);
            && (t.log == r.log || (|t.log| == |r.log| + 1 && t.log == r.log + [t.log[|t.log| - 1]]))
            && (Publishes(r.host, e) ==> t.log != r.log && t.log[|t.log| - 1].Shown?)
            && (!Publishes(r.host, e) && t.log != r.log ==> !t.log[|t.log| - 1].Shown?)
  {
    assert r.log + [] == r.log;
  }

  // ---- Counters and flags ----------------------------------------------------------------------

  function FramesIn(log: seq<Entry>): nat {
    if log == [] then 0 else FramesIn(log[..|log| - 1]) + if log[|log| - 1].Shown? then 1 else 0
  }

  function LoadsIn(log: seq<Entry>): nat {
    if log == [] then 0 else LoadsIn(log[..|log| - 1]) + if log[|log| - 1].Loaded? then 1 else 0
  }

  /** View frames published since the last resize request, counting a frame that recreated the textures as the first. */
  function ViewsSinceRestart(log: seq<Entry>): nat {
    if log == [] then 0
    else
      var earlier := ViewsSinceRestart(log[..|log| - 1]);
      match log[|log| - 1]
      case ResizeAsked => 0
      case Loaded => earlier
      case Shown(f) => if !f.isView then earlier else if f.header.flags.resized then 1 else earlier + 1
  }

  lemma LogStep(log: seq<Entry>, x: Entry)
    ensures FramesIn(log + [x]) == FramesIn(log) + if x.Shown? then 1 else 0
    ensures LoadsIn(log + [x]) == LoadsIn(log) + if x.Loaded? then 1 else 0
    ensures ViewsSinceRestart(log + [x]) ==
            match x
            case ResizeAsked => 0
            case Loaded => ViewsSinceRestart(log)
            case Shown(f) => if !f.isView then ViewsSinceRestart(log)
                             else if f.header.flags.resized then 1 else ViewsSinceRestart(log) + 1
  {
    assert (log + [x])[..|log|] == log;
  }

  function Wrapped(n: nat): nat {
    n % TWO_32
  }

  lemma BumpedCounts(n: nat)
    ensures Bumped(Wrapped(n)) == Wrapped(n + 1)
  {}

  /** Both frame identifiers number the frames from 1; the sequence number also counts main-frame load events,
      modulo 2^32. */
  predicate NumberedAfter(before: seq<Entry>, h: FrameHeader) {
    && h.frameId == h.presentId == FramesIn(before) + 1
    && h.sequence == Wrapped(FramesIn(before) + LoadsIn(before) + 1)
  }

  /** A view frame is FULL exactly when the dirty list overflows or it is one of the first three since the last
      restart; otherwise it is DIRTY_ONLY and carries the browser's whole list. */
  predicate ViewRules(before: seq<Entry>, f: Frame, maxRects: nat) {
    var flags, earlier := f.header.flags, if f.header.flags.resized then 0 else ViewsSinceRestart(before);
    && flags.overflow == (|f.listed| > maxRects)
    && flags.full == (flags.overflow || earlier < 3)
    && flags.dirtyOnly == !flags.full && flags.popupPlane
    && (flags.full ==> f.header.dirtyCount == 0)
    && (flags.dirtyOnly ==> f.header.dirtyCount == |f.listed| <= |f.header.dirtyRects| && f.header.Dirty() == f.listed)
  }

  predicate PopupRules(f: Frame) {
    && f.header.flags == FrameFlags(false, true, false, false, true)
    && f.header.dirtyCount <= 1 <= |f.header.dirtyRects|
  }

  predicate FrameRules(before: seq<Entry>, f: Frame, maxRects: nat) {
    && NumberedAfter(before, f.header)
    && (if f.isView then ViewRules(before, f, maxRects) else PopupRules(f))
  }

  ghost predicate LogRules(log: seq<Entry>, maxRects: nat) {
    forall i :: 0 <= i < |log| && log[i].Shown? ==> FrameRules(log[..i], log[i].frame, maxRects)
  }

  ghost predicate Counted(r: Run) {
    && r.host.nextFrame == FramesIn(r.log) + 1
    && r.host.header.sequence == Wrapped(FramesIn(r.log) + LoadsIn(r.log))
    && r.host.warmup == (if ViewsSinceRestart(r.log) < 3 then 3 - ViewsSinceRestart(r.log) else 0)
    && (r.host.forceFull <==> ViewsSinceRestart(r.log) == 0)
    && LogRules(r.log, |r.host.header.dirtyRects|)
  }

  lemma LogRulesStep(log: seq<Entry>, x: Entry, maxRects: nat)
    requires LogRules(log, maxRects)
    requires x.Shown? ==> FrameRules(log, x.frame, maxRects)
    ensures LogRules(log + [x], maxRects)
  {
    forall i | 0 <= i < |log + [x]| && (log + [x])[i].Shown?
      ensures FrameRules((log + [x])[..i], (log + [x])[i].frame, maxRects)
    {
      assert (log + [x])[..i] == log[..i];
      if i == |log| {
        assert log[..i] == log;
      }
    }
  }

  lemma HeaderCounts(s: Host, image: Image, listed: seq<Rect>, recreated: bool, api: Answers)
    requires s.ring != []
    ensures var h := ViewHeader(s, image, listed, recreated, api);
            && h.frameId == h.presentId == s.nextFrame && h.sequence == Bumped(s.header.sequence)
            && h.flags.resized == recreated && |h.dirtyRects| == |s.header.dirtyRects|
  {
    hide Bumped;
  }

  lemma HeaderFlags(s: Host, image: Image, listed: seq<Rect>, recreated: bool, api: Answers)
    requires s.ring != [] && |s.header.dirtyRects| < 256
    ensures var h, overflow := ViewHeader(s, image, listed, recreated, api), |listed| > |s.header.dirtyRects|;
            && h.flags == FrameFlags(h.flags.full, !h.flags.full, overflow, recreated, true)
            && (h.flags.full <==> ForcedFull(s, listed, recreated))
            && (h.flags.full ==> h.dirtyCount == 0)
            && (!h.flags.full ==> h.dirtyCount == |listed| <= |h.dirtyRects| && h.Dirty() == listed)
  {
    hide Bumped;
  }

  /** A new view frame obeys the rules. */
  lemma NewViewRules(r: Run, image: Image, listed: seq<Rect>, api: Answers)
    requires Proper(r) && Counted(r) && Publishes(r.host, ViewPaint(image, listed, api))
    ensures FrameRules(r.log, AdvanceView(r, image, listed, api).log[|r.log|].frame, |r.host.header.dirtyRects|)
  {
    hide CreateTextures, EnsureTextures, PublishView, LogRules, Wrapped, Bumped, ViewHeader;
    BumpedCounts(FramesIn(r.log) + LoadsIn(r.log));
    EnsureLeaves(r.host, image.width, image.height, api);
    var n := EnsureTextures(r.host, image.width, image.height, api);
    ViewLeaves(n.host, image, listed, n.recreated, api);
    HeaderCounts(n.host, image, listed, n.recreated, api);
    HeaderFlags(n.host, image, listed, n.recreated, api);
  }

  lemma CountedView(r: Run, image: Image, listed: seq<Rect>, api: Answers)
    requires Proper(r) && Counted(r) && Publishes(r.host, ViewPaint(image, listed, api))
    ensures Counted(AdvanceView(r, image, listed, api))
  {
    hide CreateTextures, EnsureTextures, PublishView, LogRules, FrameRules, Wrapped, Bumped, ViewHeader;
    BumpedCounts(FramesIn(r.log) + LoadsIn(r.log));
    EnsureLeaves(r.host, image.width, image.height, api);
    var n := EnsureTextures(r.host, image.width, image.height, api);
    ViewLeaves(n.host, image, listed, n.recreated, api);
    HeaderCounts(n.host, image, listed, n.recreated, api);
    NewViewRules(r, image, listed, api);
    var x := AdvanceView(r, image, listed, api).log[|r.log|];
    LogStep(r.log, x);
    LogRulesStep(r.log, x, |r.host.header.dirtyRects|);
  }

  lemma NewPopupRules(r: Run, image: Image, api: Answers)
    requires Proper(r) && Counted(r) && Publishes(r.host, PopupPaint(image, api))
    ensures FrameRules(r.log, AdvancePopup(r, image, api).log[|r.log|].frame, |r.host.header.dirtyRects|)
  {
    hide StorePopup, PublishPopup, LogRules, Wrapped, Bumped;
    BumpedCounts(FramesIn(r.log) + LoadsIn(r.log));
    StoreLeaves(r.host, image);
    PopupLeaves(StorePopup(r.host, image), api);
  }

  lemma CountedPopup(r: Run, image: Image, api: Answers)
    requires Proper(r) && Counted(r) && Publishes(r.host, PopupPaint(image, api))
    ensures Counted(AdvancePopup(r, image, api))
  {
    hide StorePopup, PublishPopup, LogRules, FrameRules, Wrapped, Bumped;
    BumpedCounts(FramesIn(r.log) + LoadsIn(r.log));
    StoreLeaves(r.host, image);
    PopupLeaves(StorePopup(r.host, image), api);
    NewPopupRules(r, image, api);
    var x := AdvancePopup(r, image, api).log[|r.log|];
    LogStep(r.log, x);
    LogRulesStep(r.log, x, |r.host.header.dirtyRects|);
  }

  lemma CountedStep(r: Run, e: Event)
    requires Proper(r) && Counted(r)
    ensures Counted(Advance(r, e))
  {
    hide CreateTextures, EnsureTextures, PublishView, StorePopup, PublishPopup, Wrapped, Bumped;
    BumpedCounts(FramesIn(r.log) + LoadsIn(r.log));
    match e
    case ViewPaint(image, listed, api) =>
      EnsureLeaves(r.host, image.width, image.height, api);
      if Publishes(r.host, e) { CountedView(r, image, listed, api); }
    case PopupPaint(image, api) =>
      PopupPaintParts(r.host, image, api);
      StoreLeaves(r.host, image);
      if Publishes(r.host, e) { CountedPopup(r, image, api); }
    case Resize =>
      LogStep(r.log, ResizeAsked);
      LogRulesStep(r.log, ResizeAsked, |r.host.header.dirtyRects|);
    case Load(isMain, _) =>
      LogStep(r.log, Loaded);
      LogRulesStep(r.log, Loaded, |r.host.header.dirtyRects|);
      assert r.log + [] == r.log;
    case _ =>
  }

  lemma {:induction false} CountedReplay(r: Run, events: seq<Event>)
    requires Proper(r) && Counted(r)
    ensures Counted(Replay(r, events))
    decreases |events|
  {
    if events != [] {
      CountedStep(r, events[0]);
      AdvanceProper(r, events[0]);
      CountedReplay(Advance(r, events[0]), events[1..]);
    }
  }

  lemma StartCounted(slots: nat, maxRects: nat, hasFence: bool)
    requires 2 <= slots && 1 <= maxRects < 256
    ensures Counted(Start(slots, maxRects, hasFence))
  {}

  /** In every run every published header is numbered and flagged as the protocol says. */
  lemma EveryFrameObeysRules(slots: nat, maxRects: nat, hasFence: bool, events: seq<Event>, i: nat)
    requires 2 <= slots && 1 <= maxRects < 256
    requires i < |Replay(Start(slots, maxRects, hasFence), events).log|
    ensures var log := Replay(Start(slots, maxRects, hasFence), events).log;
            log[i].Shown? ==> FrameRules(log[..i], log[i].frame, maxRects)
  {
    StartCounted(slots, maxRects, hasFence);
    CountedReplay(Start(slots, maxRects, hasFence), events);
  }

  // ---- Warm-up ---------------------------------------------------------------------------------

  function ViewsIn(log: seq<Entry>): nat {
    if log == [] then 0
    else ViewsIn(log[..|log| - 1]) + if log[|log| - 1].Shown? && log[|log| - 1].frame.isView then 1 else 0
  }

  predicate Restarts(x: Entry) {
    x.ResizeAsked? || (x.Shown? && x.frame.isView && x.frame.header.flags.resized)
  }

  lemma {:induction false} RestartsBound(log: seq<Entry>, i: nat)
    requires i < |log| && Restarts(log[i])
    ensures ViewsSinceRestart(log) <= ViewsIn(log[i..])
    decreases |log|
  {
    var last := |log| - 1;
    if i < last {
      RestartsBound(log[..last], i);
      assert log[i..][..last - i] == log[..last][i..];
    } else {
      assert log[i..] == [log[i]];
      assert ViewsIn([log[i]][..0]) == 0;
    }
  }

  /** After a resize request the next three view frames are FULL, and after a recreation the recreating frame and
      the two after it, whatever popup frames, load events and settings come in between. */
  lemma ThreeFullAfterRestart(slots: nat, maxRects: nat, hasFence: bool, events: seq<Event>, i: nat, j: nat)
    requires 2 <= slots && 1 <= maxRects < 256
    requires var log := Replay(Start(slots, maxRects, hasFence), events).log;
             i < j < |log| && Restarts(log[i]) && log[j].Shown? && log[j].frame.isView && ViewsIn(log[i..j]) < 3
    ensures Replay(Start(slots, maxRects, hasFence), events).log[j].frame.header.flags.full
  {
    var log := Replay(Start(slots, maxRects, hasFence), events).log;
    EveryFrameObeysRules(slots, maxRects, hasFence, events, j);
    RestartsBound(log[..j], i);
    assert log[..j][i..] == log[i..j];
  }
}
