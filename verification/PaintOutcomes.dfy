/** What each event comes to, read off its answers: which paints publish, what they create, and what they number. */
module PaintOutcomes {
  import opened Geometry
  import opened Gpu
  import opened Publication
  import opened Protocol
  import opened FrameRing
  import opened RingAgreement
  import opened FrameReads
  import opened Announcements

  // ---- Creations -------------------------------------------------------------------------------

  predicate CreatedUpTo(api: Answers, n: nat) {
    forall j :: 0 <= j < n ==> api.Slot(j).Created?
  }

  lemma {:induction false} FirstFailureExactly(api: Answers, i: nat, slots: nat)
    requires i <= slots
    ensures var f := FirstFailure(api, i, slots);
            && (forall j :: i <= j < f ==> api.Slot(j).Created?)
            && (f < slots ==> !api.Slot(f).Created?)
    decreases slots - i
  {
    if i < slots && api.Slot(i).Created? { FirstFailureExactly(api, i + 1, slots); }
  }

  lemma SlotsByAnswers(s: Host, width: nat, height: nat, api: Answers, i: nat)
    requires |s.handles| == |s.ring| && i < |s.ring|
    ensures var t := CreateTextures(s, width, height, api);
            && |t.ring| == |t.handles| == |s.ring|
            && (t.ring[i].Some? <==> api.deviceOk && CreatedUpTo(api, i) && !api.Slot(i).NoTexture?)
            && (t.handles[i] <==> api.deviceOk && CreatedUpTo(api, i + 1))
  {
    FirstFailureExactly(api, 0, |s.ring|);
  }

  /** An attempt makes the textures in order up to the first failure: a slot has a texture when all before it are
      complete and its own did not fail, and a handle when it is complete itself; the plane comes last. */
  lemma TexturesByAnswers(s: Host, width: nat, height: nat, api: Answers)
    requires |s.handles| == |s.ring|
    ensures var t, all := CreateTextures(s, width, height, api), CreatedUpTo(api, |s.ring|);
            && (t.plane.Some? <==> api.deviceOk && all && !api.plane.NoTexture?)
            && (t.planeHandle <==> api.deviceOk && all && api.plane.Created?)
            && (CreationSucceeds(api, |s.ring|) <==> api.deviceOk && all && api.plane.Created?)
  {
    FirstFailureExactly(api, 0, |s.ring|);
  }

  /** The textures are of the recorded size and complete. */
  predicate Ready(s: Host, image: Image) {
    && s.sharedWidth == image.width && s.sharedHeight == image.height
    && forall i :: 0 <= i < |s.ring| ==> s.ring[i].Some?
  }

  predicate AllGood(api: Answers, slots: nat) {
    api.deviceOk && CreatedUpTo(api, slots) && api.plane.Created?
  }

  lemma EnsureByAnswers(s: Host, image: Image, api: Answers)
    requires |s.handles| == |s.ring|
    ensures EnsureTextures(s, image.width, image.height, api).ok <==> Ready(s, image) || AllGood(api, |s.ring|)
  {
    hide CreateTextures;
    TexturesByAnswers(s, image.width, image.height, api);
    EnsureLeaves(s, image.width, image.height, api);
  }

  // ---- Which paints publish --------------------------------------------------------------------

  lemma FramesGrow(r: Run, e: Event)
    requires Proper(r)
    ensures FramesIn(Advance(r, e).log) == FramesIn(r.log) + if Publishes(r.host, e) then 1 else 0
  {
    hide Step, Publishes;
    var t := Advance(r, e);
    LogGrowth(r, e);
    if t.log != r.log { LogStep(r.log, t.log[|t.log| - 1]); }
  }

  /** A view paint adds a frame exactly when it can be opened and the textures are ready or can all be made. */
  lemma ViewPaintPublishes(r: Run, image: Image, listed: seq<Rect>, api: Answers)
    requires Proper(r)
    ensures var t := Advance(r, ViewPaint(image, listed, api));
            && FramesIn(t.log) == FramesIn(r.log) +
                 (if api.openOk && (Ready(r.host, image) || AllGood(api, |r.host.ring|)) then 1 else 0)
            && (!api.openOk ==> t == r)
  {
    hide EnsureTextures, PublishView, Ready, AllGood;
    FramesGrow(r, ViewPaint(image, listed, api));
    EnsureByAnswers(r.host, image, api);
  }

  /** A popup paint adds a frame exactly when it can be opened, its texture fits or can be made, and there is a plane
      of some area. */
  lemma PopupPaintPublishes(r: Run, image: Image, api: Answers)
    requires Proper(r)
    ensures var t := Advance(r, PopupPaint(image, api)); var s := r.host;
            var fits := s.popupTexture.Some? && s.popupTexWidth == image.width && s.popupTexHeight == image.height;
            && FramesIn(t.log) == FramesIn(r.log) +
                 (if api.openOk && (fits || api.popupOk) && s.plane.Some? && s.sharedWidth > 0 && s.sharedHeight > 0
                  then 1 else 0)
            && (!api.openOk ==> t == r)
            && (api.openOk && !fits && !api.popupOk ==> t.host == s.(popupTexture := None))
  {
    hide StorePopup, PublishPopup;
    FramesGrow(r, PopupPaint(image, api));
  }

  /** In a run without an unnoticed failure, popup paints that can be opened and stored are published whenever the ring
      is complete. */
  lemma PopupPaintsArrive(slots: nat, maxRects: nat, hasFence: bool, events: seq<Event>, image: Image, api: Answers)
    requires 2 <= slots && 1 <= maxRects < 256 && api.openOk && api.popupOk
    requires AlwaysNoticed(Start(slots, maxRects, hasFence), events)
    ensures var r := Replay(Start(slots, maxRects, hasFence), events);
            (forall i :: 0 <= i < slots ==> i < |r.host.ring| && r.host.ring[i].Some?)
            && r.host.sharedWidth > 0 && r.host.sharedHeight > 0 ==>
              FramesIn(Advance(r, PopupPaint(image, api)).log) == FramesIn(r.log) + 1
  {
    hide Advance, Kept, Faithful;
    RunKeepsAll(slots, maxRects, hasFence, events);
    var r := Replay(Start(slots, maxRects, hasFence), events);
    PopupPaintPublishes(r, image, api);
    assert |r.host.ring| == slots by { assert SameShape(Start(slots, maxRects, hasFence).host, r.host); }
  }

  // ---- What is made anew -----------------------------------------------------------------------

  /** A paint on ready textures makes none; the frame is not RESIZED and moves on by one slot. Otherwise the frame is
      RESIZED, and its ring starts over with slot 1. */
  lemma TexturesAreReused(r: Run, image: Image, listed: seq<Rect>, api: Answers)
    requires Proper(r) && 2 <= |r.host.ring| && Publishes(r.host, ViewPaint(image, listed, api))
    ensures var t := Advance(r, ViewPaint(image, listed, api)).host;
            && t.header.slot == t.writeSlot
            && if Ready(r.host, image)
               then t.ring == r.host.ring && t.plane == r.host.plane && t.nextTexture == r.host.nextTexture
                    && !t.header.flags.resized && t.writeSlot == (r.host.writeSlot + 1) % |r.host.ring|
               else t.nextTexture == r.host.nextTexture + |r.host.ring| + 1
                    && t.header.flags.resized && t.writeSlot == 1
  {
    hide CreateTextures, EnsureTextures, PublishView, ForcedFull, Overwrite, Bumped;
    var n := EnsureTextures(r.host, image.width, image.height, api);
    EnsureLeaves(r.host, image.width, image.height, api);
    ViewLeaves(n.host, image, listed, n.recreated, api);
    if !Ready(r.host, image) { AllAreMade(r.host, image, api); }
  }

  lemma AllAreMade(s: Host, image: Image, api: Answers)
    requires WellFormed(s) && !Ready(s, image) && EnsureTextures(s, image.width, image.height, api).ok
    ensures EnsureTextures(s, image.width, image.height, api).host.nextTexture == s.nextTexture + |s.ring| + 1
  {}

  /** A popup image of unchanged size goes into the texture there is; only another size makes a new one. */
  lemma PopupTextureIsReused(s: Host, image: Image)
    ensures var t := StorePopup(s, image);
            var fits := s.popupTexture.Some? && s.popupTexWidth == image.width && s.popupTexHeight == image.height;
            && t.popupTexture == (if fits then s.popupTexture else Some(s.nextTexture))
            && t.popupTexWidth == image.width && t.popupTexHeight == image.height
            && t.gpu == s.gpu + (if fits then [] else [Create(s.nextTexture, image.width, image.height)])
                        + [CopyResource(t.popupTexture.value, image)]
  {}

  /** The header that a recreation writes: FULL and RESIZED at the new size, no fence value, no popup, no rectangles;
      the numbers, the page load and the rectangle buffer stay. */
  lemma RecreationHeader(s: Host, image: Image, api: Answers)
    requires !RingReady(s, image.width, image.height)
    requires EnsureTextures(s, image.width, image.height, api).ok
    ensures var t := EnsureTextures(s, image.width, image.height, api).host;
            && t.warmup == 3 && t.forceFull && t.writeSlot == 0
            && t.header == FrameHeader(image.width, image.height, 0, s.header.sequence, s.header.frameId,
                                       s.header.presentId, 0, FrameFlags(true, false, false, true, false),
                                       false, Rect(0, 0, 0, 0), 0, s.header.dirtyRects, s.header.loadState)
  {
    hide EnsureTextures, CreateTextures;
    EnsureLeaves(s, image.width, image.height, api);
  }

  /** What a view frame queues once the textures are ready: the slot copy, the popup copy exactly when a popup with
      area is shown and both its textures exist, and the seal. */
  lemma ViewFrameQueue(s: Host, image: Image, listed: seq<Rect>, recreated: bool, api: Answers)
    requires s.ring != [] && AllPresent(s.ring)
    ensures var t, at := PublishView(s, image, listed, recreated, api), |s.gpu|;
            var popup := s.popupVisible && s.plane.Some? && s.popupTexture.Some?
                         && s.popupRect.w > 0 && s.popupRect.h > 0;
            var sealAt := at + if popup then 2 else 1;
            && sealAt < |t.gpu| <= sealAt + 2
            && t.gpu[at] == CopyResource(s.ring[(s.writeSlot + 1) % |s.ring|].value, image)
            && (popup ==> t.gpu[at + 1] == CopyRegion(s.plane.value, s.popupRect, s.popupTexture.value))
            && t.gpu[sealAt] == (if s.hasFence && api.signalOk then Signal(s.nextFence) else Flush)
            && (sealAt + 1 < |t.gpu| ==> t.gpu[sealAt + 1] == Flush)
  {}

  /** What a popup frame queues behind the stored popup image: the popup copy to the visible part exactly when the popup
      is shown and some of it is on the surface, and the seal, nothing else. */
  lemma PopupFrameQueue(s: Host, api: Answers)
    requires s.plane.Some? && s.popupTexture.Some? && s.header.dirtyRects != []
    ensures var t, at := PublishPopup(s, api), |s.gpu|;
            var area := Clip(s.popupRect, s.sharedWidth, s.sharedHeight);
            var copies := s.popupVisible && area.w > 0 && area.h > 0;
            && |t.gpu| == at + (if copies then 2 else 1)
            && (copies ==> t.gpu[at] == CopyRegion(s.plane.value, area, s.popupTexture.value))
            && t.gpu[|t.gpu| - 1] == if s.hasFence && api.signalOk then Signal(s.nextFence) else Flush
  {
    hide Clip, PopupHeader;
  }

  /** Entries of the rectangle buffer past the count keep what they held. */
  lemma RestOfBuffer(r: Run, e: Event, i: nat)
    requires Proper(r) && Publishes(r.host, e) && i < |r.host.header.dirtyRects|
    ensures var h := Advance(r, e).host.header;
            |h.dirtyRects| == |r.host.header.dirtyRects|
            && (h.dirtyCount <= i ==> h.dirtyRects[i] == r.host.header.dirtyRects[i])
  {
    hide CreateTextures, EnsureTextures, PublishView, StorePopup, PublishPopup;
    match e
    case ViewPaint(image, listed, api) =>
      var n := EnsureTextures(r.host, image.width, image.height, api);
      EnsureLeaves(r.host, image.width, image.height, api);
      ViewLeaves(n.host, image, listed, n.recreated, api);
    case PopupPaint(image, api) =>
      PopupPaintParts(r.host, image, api);
      StoreLeaves(r.host, image);
      PopupLeaves(StorePopup(r.host, image), api);
  }

  // ---- Numbers ---------------------------------------------------------------------------------

  /** Frames a run publishes. */
  function PublishedIn(r: Run, events: seq<Event>): nat
    requires Proper(r)
    decreases |events|
  {
    if events == [] then 0
    else
      AdvanceProper(r, events[0]);
      (if Publishes(r.host, events[0]) then 1 else 0) + PublishedIn(Advance(r, events[0]), events[1..])
  }

  /** Load events of the main frame. */
  function MainLoads(events: seq<Event>): nat
    decreases |events|
  {
    if events == [] then 0 else (if events[0].Load? && events[0].isMain then 1 else 0) + MainLoads(events[1..])
  }

  /** The header numbers the newest frame, tells the slot in use, and one fence value goes with each frame. */
  predicate Numbered(s: Host) {
    && s.header.frameId == s.header.presentId && s.nextFrame == s.header.frameId + 1
    && s.header.slot == s.writeSlot
    && s.nextFence == if s.hasFence then s.nextFrame else 1
  }

  /** How numbers move with an event. */
  predicate MovesOn(s: Host, t: Host, published: bool, loads: bool) {
    && Numbered(t) && t.hasFence == s.hasFence
    && t.header.frameId == s.header.frameId + (if published then 1 else 0)
    && t.header.sequence == if published || loads then Bumped(s.header.sequence) else s.header.sequence
  }

  lemma ViewMovesOn(s: Host, image: Image, listed: seq<Rect>, api: Answers)
    requires WellFormed(s) && Numbered(s)
    ensures var e := ViewPaint(image, listed, api); var t := Step(s, e);
            && MovesOn(s, t, Publishes(s, e), false)
            && (Publishes(s, e) ==> t.header.fence == if s.hasFence && api.signalOk then t.header.frameId else 0)
  {
    hide CreateTextures, EnsureTextures, ViewCommands, Bumped;
    EnsureLeaves(s, image.width, image.height, api);
  }

  lemma PopupMovesOn(s: Host, image: Image, api: Answers)
    requires WellFormed(s) && Numbered(s)
    ensures var e := PopupPaint(image, api); var t := Step(s, e);
            && MovesOn(s, t, Publishes(s, e), false)
            && (Publishes(s, e) ==> t.header.fence == if s.hasFence && api.signalOk then t.header.frameId else 0)
  {
    hide StorePopup, PopupCommands, Bumped;
    PopupPaintParts(s, image, api);
    StoreLeaves(s, image);
  }

  lemma NumbersStep(s: Host, e: Event)
    requires WellFormed(s) && Numbered(s)
    ensures MovesOn(s, Step(s, e), Publishes(s, e), e.Load? && e.isMain)
    ensures Publishes(s, e) && e.ViewPaint? ==>
              Step(s, e).header.fence == if s.hasFence && e.api.signalOk then Step(s, e).header.frameId else 0
    ensures Publishes(s, e) && e.PopupPaint? ==>
              Step(s, e).header.fence == if s.hasFence && e.api.signalOk then Step(s, e).header.frameId else 0
  {
    hide OnViewPaint, OnPopupPaint, Bumped;
    match e
    case ViewPaint(image, listed, api) => ViewMovesOn(s, image, listed, api);
    case PopupPaint(image, api) => PopupMovesOn(s, image, api);
    case _ =>
  }

  lemma {:induction false} NumbersReplay(r: Run, events: seq<Event>, n: nat)
    requires Proper(r) && Numbered(r.host) && r.host.header.sequence == Wrapped(n)
    ensures var s, t := r.host, Replay(r, events).host;
            && Numbered(t) && t.hasFence == s.hasFence
            && t.header.frameId == s.header.frameId + PublishedIn(r, events)
            && t.header.sequence == Wrapped(n + PublishedIn(r, events) + MainLoads(events))
    decreases |events|
  {
    hide Advance, Step, Publishes, Wrapped, Bumped, Numbered;
    if events != [] {
      var e := events[0];
      AdvanceProper(r, e);
      NumbersStep(r.host, e);
      BumpedCounts(n);
      var moved := Publishes(r.host, e) || (e.Load? && e.isMain);
      PublishesNoLoad(r.host, e);
      NumbersReplay(Advance(r, e), events[1..], if moved then n + 1 else n);
    }
  }

  lemma PublishesNoLoad(s: Host, e: Event)
    ensures Publishes(s, e) ==> !e.Load?
  {}

  /** In every run the newest identifiers count the published frames, the sequence number those and the load events of
      the main frame modulo 2^32, and a frame's fence value is its identifier exactly when there is a fence and its
      signal succeeded, 0 otherwise. */
  lemma NumbersCountEvents(slots: nat, maxRects: nat, hasFence: bool, events: seq<Event>, e: Event)
    requires 2 <= slots && 1 <= maxRects < 256
    ensures var start := Start(slots, maxRects, hasFence);
            var r := Replay(start, events); var h, n := r.host.header, PublishedIn(start, events);
            && h.frameId == h.presentId == n && h.sequence == Wrapped(n + MainLoads(events))
            && (Publishes(r.host, e) ==>
                  && (e.ViewPaint? || e.PopupPaint?)
                  && Advance(r, e).host.header.fence == if hasFence && e.api.signalOk then n + 1 else 0)
  {
    hide Advance, Step, Publishes, PublishedIn, MainLoads;
    var start := Start(slots, maxRects, hasFence);
    NumbersReplay(start, events, 0);
    NumbersStep(Replay(start, events).host, e);
    PublishesPaint(Replay(start, events).host, e);
  }

  lemma PublishesPaint(s: Host, e: Event)
    ensures Publishes(s, e) ==> e.ViewPaint? || e.PopupPaint?
  {}

  // ---- Before the first frame ------------------------------------------------------------------

  /** Nothing but the page load and the sequence number has been written. */
  predicate Untold(h: FrameHeader) {
    && h.width == 0 && h.height == 0 && h.slot == 0 && h.frameId == 0 && h.presentId == 0 && h.fence == 0
    && h.flags == FrameFlags(true, false, false, false, false)
    && !h.popupVisible && h.popupRect == Rect(0, 0, 0, 0) && h.dirtyCount == 0
  }

  lemma QuietHeader(s: Host, e: Event)
    requires WellFormed(s) && !Publishes(s, e) && Untold(s.header)
    ensures Untold(Step(s, e).header)
  {
    hide CreateTextures, EnsureTextures, PublishPopup, StorePopup;
    match e
    case ViewPaint(image, listed, api) => EnsureLeaves(s, image.width, image.height, api);
    case PopupPaint(image, api) =>
      PopupPaintParts(s, image, api);
      StoreLeaves(s, image);
    case _ =>
  }

  /** Until a frame is published, the header says FULL and nothing else, whatever fails. */
  lemma {:induction false} HeaderBeforeFrames(r: Run, events: seq<Event>)
    requires Proper(r) && Untold(r.host.header) && PublishedIn(r, events) == 0
    ensures Untold(Replay(r, events).host.header)
    decreases |events|
  {
    hide Advance, Step, Publishes, Untold;
    if events != [] {
      AdvanceProper(r, events[0]);
      QuietHeader(r.host, events[0]);
      HeaderBeforeFrames(Advance(r, events[0]), events[1..]);
    }
  }

  lemma StartUntold(slots: nat, maxRects: nat, hasFence: bool)
    requires 2 <= slots && 1 <= maxRects < 256
    ensures var h := Start(slots, maxRects, hasFence).host.header;
            Untold(h) && h.sequence == 0 && h.loadState == Idle && |h.dirtyRects| == maxRects
  {}

  // ---- Resize requests -------------------------------------------------------------------------

  lemma ResizeCounts(r: Run)
    requires Proper(r)
    ensures var t := Advance(r, Resize);
            t.host.warmup == 3 && t.host.forceFull && t.views == r.views && t.log == r.log + [ResizeAsked]
  {}

  /** The warm-up of at least three less the view frames published since. */
  predicate StillWarm(r: Run, views: nat) {
    r.views >= views && (r.views - views < 3 ==> r.host.warmup >= 3 - (r.views - views))
  }

  lemma WarmStep(r: Run, e: Event, views: nat)
    requires Proper(r) && StillWarm(r, views)
    ensures StillWarm(Advance(r, e), views)
    ensures Publishes(r.host, e) && e.ViewPaint? && r.views - views < 3 ==> Advance(r, e).host.header.flags.full
  {
    hide CreateTextures, EnsureTextures, ViewCommands, StorePopup, PublishPopup;
    match e
    case ViewPaint(image, listed, api) => EnsureLeaves(r.host, image.width, image.height, api);
    case PopupPaint(image, api) =>
      PopupPaintParts(r.host, image, api);
      StoreLeaves(r.host, image);
      if Publishes(r.host, e) { PopupLeaves(StorePopup(r.host, image), api); }
    case _ =>
  }

  lemma {:induction false} WarmReplay(r: Run, events: seq<Event>, views: nat)
    requires Proper(r) && StillWarm(r, views)
    ensures StillWarm(Replay(r, events), views)
    decreases |events|
  {
    hide Advance, StillWarm;
    if events != [] {
      AdvanceProper(r, events[0]);
      WarmStep(r, events[0], views);
      WarmReplay(Advance(r, events[0]), events[1..], views);
    }
  }

  /** After a resize event the next three published view frames are FULL, from any state and through any events. */
  lemma ResizeMakesThreeFull(r: Run, events: seq<Event>, e: Event)
    requires Proper(r) && e.ViewPaint?
    ensures var q := Replay(Advance(r, Resize), events);
            Publishes(q.host, e) && q.views - r.views < 3 ==> Advance(q, e).host.header.flags.full
  {
    hide Advance, Publishes;
    AdvanceProper(r, Resize);
    ResizeCounts(r);
    WarmReplay(Advance(r, Resize), events, r.views);
    WarmStep(Replay(Advance(r, Resize), events), e, r.views);
  }

  /** `views` counts published view frames. */
  lemma ViewsCount(r: Run, e: Event)
    requires Proper(r)
    ensures Advance(r, e).views == r.views + if e.ViewPaint? && Publishes(r.host, e) then 1 else 0
  {
    hide OnViewPaint, OnPopupPaint, EnsureTextures;
  }
}
