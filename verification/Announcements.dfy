/** Recreated textures and the RESIZED flag: when a consumer that opens the shared names anew at each RESIZED frame
    has opened the textures the producer writes. */
module Announcements {
  import opened Geometry
  import opened Gpu
  import opened Publication
  import opened Protocol
  import opened FrameRing
  import opened RingAgreement
  import opened FrameReads

  // ---- Step by step ----------------------------------------------------------------------------

  /** The failure the producer does not notice: every slot got its texture, but then a handle or the popup plane
      failed. A later paint of the recorded size takes the textures for ready although no frame announced them. */
  predicate Unnoticed(s: Host, e: Event) {
    && e.ViewPaint? && e.api.openOk && e.api.deviceOk
    && !RingReady(s, e.image.width, e.image.height)
    && SlotsFilled(e.api, |s.ring|) == |s.ring|
    && (FirstFailure(e.api, 0, |s.ring|) < |s.ring| || !e.api.plane.Created?)
  }

  /** The popup plane is created last, so it never stands beside an incomplete ring. */
  predicate PlaneHasRing(s: Host) {
    s.plane.Some? ==> AllPresent(s.ring)
  }

  /** A complete ring has its popup plane, every texture has a handle, and the consumer has opened just these. */
  predicate AllOpened(r: Run)
    requires Proper(r)
  {
    AllPresent(r.host.ring) ==>
      r.host.plane.Some? && r.known == Offered(r.host) && r.known == Offer(r.host.ring, r.host.plane)
  }

  ghost predicate Announced(r: Run) {
    && Proper(r) && AllOpened(r) && PlaneHasRing(r.host)
    && (forall t: Texture :: Some(t) in r.known.ring ==> t < r.host.nextTexture)
  }

  lemma EnsureKeepsPlaneHasRing(s: Host, width: nat, height: nat, api: Answers)
    requires PlaneHasRing(s)
    ensures PlaneHasRing(EnsureTextures(s, width, height, api).host)
  {}

  /** The textures after an attempt that was necessary. */
  lemma AttemptedTextures(s: Host, width: nat, height: nat, api: Answers)
    requires WellFormed(s) && !RingReady(s, width, height)
    ensures var e := EnsureTextures(s, width, height, api);
            var f, filled := FirstFailure(api, 0, |s.ring|), SlotsFilled(api, |s.ring|);
            && (e.ok ==> api.deviceOk && filled == f == |s.ring| && api.plane.Created?)
            && (api.deviceOk && filled == |s.ring| ==> e.host.ring == FilledRing(|s.ring|, |s.ring|, s.nextTexture))
            && (!api.deviceOk || filled < |s.ring| ==> !e.ok && !AllPresent(e.host.ring))
            && s.nextTexture <= e.host.nextTexture && e.recreated == e.ok
  {
    var e := EnsureTextures(s, width, height, api);
    if !api.deviceOk || SlotsFilled(api, |s.ring|) < |s.ring| {
      assert e.host.ring[|s.ring| - 1].None?;
    }
  }

  /** Success leaves handles everywhere and fresh textures only. */
  lemma RecreatedOffer(s: Host, width: nat, height: nat, api: Answers)
    requires WellFormed(s) && !RingReady(s, width, height) && EnsureTextures(s, width, height, api).ok
    ensures var t := EnsureTextures(s, width, height, api).host;
            && t.plane.Some? && Offered(t) == Offer(t.ring, t.plane)
            && (forall x: Texture :: Some(x) in t.ring ==> s.nextTexture <= x < t.nextTexture)
  {
    var t := EnsureTextures(s, width, height, api).host;
    assert forall i :: 0 <= i < |t.ring| ==> t.handles[i];
    assert Offered(t).ring == t.ring;
  }

  lemma AnnouncedView(r: Run, image: Image, listed: seq<Rect>, api: Answers)
    requires Announced(r) && Publishes(r.host, ViewPaint(image, listed, api))
    ensures Announced(AdvanceView(r, image, listed, api))
  {
    hide CreateTextures, EnsureTextures, PublishView;
    var n := EnsureTextures(r.host, image.width, image.height, api);
    EnsureLeaves(r.host, image.width, image.height, api);
    EnsureKeepsPlaneHasRing(r.host, image.width, image.height, api);
    ViewLeaves(n.host, image, listed, n.recreated, api);
    if !RingReady(r.host, image.width, image.height) {
      AttemptedTextures(r.host, image.width, image.height, api);
      RecreatedOffer(r.host, image.width, image.height, api);
    }
  }

  lemma AnnouncedFailure(r: Run, e: Event)
    requires Announced(r)
    requires e.ViewPaint? && e.api.openOk && !EnsureTextures(r.host, e.image.width, e.image.height, e.api).ok
    ensures Announced(Advance(r, e)) <==> !Unnoticed(r.host, e)
  {
    var s, t := r.host, Advance(r, e);
    AdvanceProper(r, e);
    AttemptedTextures(s, e.image.width, e.image.height, e.api);
    EnsureKeepsPlaneHasRing(s, e.image.width, e.image.height, e.api);
    assert t.host == EnsureTextures(s, e.image.width, e.image.height, e.api).host && t.known == r.known;
    if Unnoticed(s, e) {
      assert t.host.ring[0] == Some(s.nextTexture) && AllPresent(t.host.ring);
      assert Some(s.nextTexture) in t.host.ring;
    }
  }

  lemma AnnouncedOther(r: Run, e: Event)
    requires Announced(r) && (e.ViewPaint? ==> !e.api.openOk)
    ensures Announced(Advance(r, e))
  {
    hide CreateTextures, EnsureTextures, PublishView;
    AdvanceProper(r, e);
    OtherKeepsTextures(r.host, e);
  }

  lemma OtherKeepsTextures(s: Host, e: Event)
    requires WellFormed(s) && (e.ViewPaint? ==> !e.api.openOk)
    ensures SameTextures(s, Step(s, e))
  {
    hide EnsureTextures, PublishView, PublishPopup, StorePopup;
    if e.PopupPaint? { PopupKeepsTextures(s, e.image, e.api); }
  }

  predicate SameTextures(s: Host, t: Host) {
    && t.ring == s.ring && t.plane == s.plane && t.handles == s.handles && t.planeHandle == s.planeHandle
    && s.nextTexture <= t.nextTexture
  }

  lemma PopupKeepsTextures(s: Host, image: Image, api: Answers)
    requires WellFormed(s)
    ensures SameTextures(s, OnPopupPaint(s, image, api))
  {
    hide StorePopup, PublishPopup;
    PopupPaintParts(s, image, api);
    StoreLeaves(s, image);
    if Publishes(s, PopupPaint(image, api)) { PopupLeaves(StorePopup(s, image), api); }
  }

  /** An event keeps the consumer's textures those of the producer exactly when it is not an unnoticed failure. */
  lemma AnnouncedStep(r: Run, e: Event)
    requires Announced(r)
    ensures Announced(Advance(r, e)) <==> !Unnoticed(r.host, e)
  {
    hide PublishView, StorePopup, PublishPopup, SlotsFilled;
    if e.ViewPaint? && e.api.openOk {
      if Publishes(r.host, e) { AnnouncedView(r, e.image, e.listed, e.api); } else { AnnouncedFailure(r, e); }
    } else {
      AnnouncedOther(r, e);
    }
  }

  /** A recreation that succeeds puts everything right again, whatever went unnoticed before. */
  lemma RecreationRepairs(r: Run, image: Image, listed: seq<Rect>, api: Answers)
    requires Proper(r) && Publishes(r.host, ViewPaint(image, listed, api))
    requires !RingReady(r.host, image.width, image.height)
    ensures Announced(AdvanceView(r, image, listed, api))
  {
    hide CreateTextures, EnsureTextures, PublishView;
    var n := EnsureTextures(r.host, image.width, image.height, api);
    EnsureLeaves(r.host, image.width, image.height, api);
    ViewLeaves(n.host, image, listed, n.recreated, api);
    AttemptedTextures(r.host, image.width, image.height, api);
    RecreatedOffer(r.host, image.width, image.height, api);
  }

  // ---- Published frames ------------------------------------------------------------------------

  /** The textures in use at the last frame. */
  function LastHeld(log: seq<Entry>): Option<Offer> {
    if log == [] then None
    else if log[|log| - 1].Shown? then Some(log[|log| - 1].frame.held)
    else LastHeld(log[..|log| - 1])
  }

  /** The consumer has opened all textures the frame may refer to; and the frame is RESIZED exactly when they are not
      those of the frame before. */
  predicate FrameAnnounced(before: seq<Entry>, f: Frame) {
    && f.known == f.held && f.held.plane.Some? && AllPresent(f.held.ring)
    && f.header.slot < |f.held.ring| && f.Opened() == f.texture == f.held.ring[f.header.slot]
    && (f.header.flags.resized <==> LastHeld(before) != Some(f.held))
  }

  ghost predicate LogAnnounced(log: seq<Entry>) {
    forall i :: 0 <= i < |log| && log[i].Shown? ==> FrameAnnounced(log[..i], log[i].frame)
  }

  /** Before the first frame nothing is opened; afterwards what the last frame used. */
  predicate KnownFromLog(r: Run) {
    if LastHeld(r.log).Some? then r.known == LastHeld(r.log).value
    else forall i :: 0 <= i < |r.known.ring| ==> r.known.ring[i].None?
  }

  ghost predicate AnnouncedLog(r: Run) {
    Announced(r) && KnownFromLog(r) && LogAnnounced(r.log)
  }

  lemma LastHeldStep(log: seq<Entry>, x: Entry)
    ensures LastHeld(log + [x]) == if x.Shown? then Some(x.frame.held) else LastHeld(log)
  {
    assert (log + [x])[..|log|] == log;
  }

  lemma LogAnnouncedStep(log: seq<Entry>, x: Entry)
    requires LogAnnounced(log) && (x.Shown? ==> FrameAnnounced(log, x.frame))
    ensures LogAnnounced(log + [x])
  {
    var more := log + [x];
    forall i | 0 <= i < |more| && more[i].Shown? ensures FrameAnnounced(more[..i], more[i].frame) {
      assert more[..i] == log[..i];
      if i == |log| { assert log[..i] == log; }
    }
  }

  /** The parts of a new frame that matter here. */
  lemma NewFrame(r: Run, e: Event)
    requires Proper(r) && Publishes(r.host, e)
    ensures var t := Advance(r, e);
            && Proper(t) && t.log == r.log + [t.log[|r.log|]] && t.log[|r.log|].Shown?
            && var f := t.log[|r.log|].frame;
               && f.held == Offer(t.host.ring, t.host.plane) && f.known == t.known
               && f.header == t.host.header && f.header.slot == t.host.writeSlot
               && f.texture == t.host.ring[t.host.writeSlot]
               && (f.header.flags.resized ==> e.ViewPaint? && !RingReady(r.host, e.image.width, e.image.height))
               && (e.ViewPaint? && !f.header.flags.resized ==> RingReady(r.host, e.image.width, e.image.height))
               && (!f.header.flags.resized ==> t.known == r.known && t.host.ring == r.host.ring)
  {
    AdvanceProper(r, e);
    if e.ViewPaint? { NewViewFrame(r, e.image, e.listed, e.api); } else { NewPopupFrame(r, e.image, e.api); }
  }

  lemma NewViewFrame(r: Run, image: Image, listed: seq<Rect>, api: Answers)
    requires Proper(r) && Publishes(r.host, ViewPaint(image, listed, api))
    ensures var t := AdvanceView(r, image, listed, api);
            && t.log == r.log + [t.log[|r.log|]]
            && var f := t.log[|r.log|].frame;
               && f.held == Offer(t.host.ring, t.host.plane) && f.known == t.known
               && f.header == t.host.header && f.header.slot == t.host.writeSlot
               && f.texture == t.host.ring[t.host.writeSlot]
               && (f.header.flags.resized <==> !RingReady(r.host, image.width, image.height))
               && (!f.header.flags.resized ==> t.known == r.known && t.host.ring == r.host.ring)
  {
    hide CreateTextures, EnsureTextures, PublishView, Offered;
    var n := EnsureTextures(r.host, image.width, image.height, api);
    EnsureLeaves(r.host, image.width, image.height, api);
    ViewLeaves(n.host, image, listed, n.recreated, api);
  }

  lemma NewPopupFrame(r: Run, image: Image, api: Answers)
    requires Proper(r) && Publishes(r.host, PopupPaint(image, api))
    ensures var t := AdvancePopup(r, image, api);
            && t.log == r.log + [t.log[|r.log|]] && t.known == r.known && t.host.ring == r.host.ring
            && var f := t.log[|r.log|].frame;
               && f.held == Offer(t.host.ring, t.host.plane) && f.known == t.known
               && f.header == t.host.header && f.header.slot == t.host.writeSlot
               && f.texture == t.host.ring[t.host.writeSlot] && !f.header.flags.resized
  {
    hide PopupCommands;
    PopupKeepsTextures(r.host, image, api);
  }

  lemma NewFrameAnnounced(r: Run, e: Event)
    requires AnnouncedLog(r) && Sane(r.host) && Publishes(r.host, e)
    ensures FrameAnnounced(r.log, Advance(r, e).log[|r.log|].frame)
  {
    hide Advance, Publishes, PublishView, StorePopup, PublishPopup, SlotsFilled, Sane;
    AnnouncedStep(r, e);
    PublishedIsNoticed(r.host, e);
    NewFrame(r, e);
    PublishesComplete(r, e);
    var t := Advance(r, e);
    assert t.host.ring[0].Some?;
    if t.log[|r.log|].frame.header.flags.resized {
      FreshTextures(r, e);
      assert Some(t.host.ring[0].value) in t.host.ring;
    }
  }

  lemma PublishedIsNoticed(s: Host, e: Event)
    requires WellFormed(s) && Publishes(s, e)
    ensures !Unnoticed(s, e)
  {
    if e.ViewPaint? && !RingReady(s, e.image.width, e.image.height) {
      AttemptedTextures(s, e.image.width, e.image.height, e.api);
    }
  }

  lemma PublishesComplete(r: Run, e: Event)
    requires Announced(r) && Publishes(r.host, e)
    ensures AllPresent(Advance(r, e).host.ring)
  {
    hide EnsureTextures, PublishView, PublishPopup, StorePopup;
    match e
    case ViewPaint(image, listed, api) =>
      var n := EnsureTextures(r.host, image.width, image.height, api);
      ViewLeaves(n.host, image, listed, n.recreated, api);
    case PopupPaint(image, api) => PopupKeepsTextures(r.host, image, api);
  }

  lemma FreshTextures(r: Run, e: Event)
    requires Proper(r) && e.ViewPaint? && Publishes(r.host, e) && !RingReady(r.host, e.image.width, e.image.height)
    ensures forall t: Texture :: Some(t) in Advance(r, e).host.ring ==> r.host.nextTexture <= t
  {
    hide CreateTextures, EnsureTextures, PublishView;
    var n := EnsureTextures(r.host, e.image.width, e.image.height, e.api);
    RecreatedOffer(r.host, e.image.width, e.image.height, e.api);
    ViewLeaves(n.host, e.image, e.listed, n.recreated, e.api);
  }

  lemma AnnouncedLogStep(r: Run, e: Event)
    requires AnnouncedLog(r) && Sane(r.host) && !Unnoticed(r.host, e)
    ensures AnnouncedLog(Advance(r, e))
  {
    hide Advance, Publishes, Sane;
    var t := Advance(r, e);
    AnnouncedStep(r, e);
    LogGrowth(r, e);
    if Publishes(r.host, e) {
      NewFrame(r, e);
      NewFrameAnnounced(r, e);
    } else {
      QuietKnown(r, e);
    }
    if t.log != r.log {
      LastHeldStep(r.log, t.log[|r.log|]);
      LogAnnouncedStep(r.log, t.log[|r.log|]);
    }
  }

  lemma QuietKnown(r: Run, e: Event)
    requires Proper(r) && !Publishes(r.host, e)
    ensures Advance(r, e).known == r.known
  {
    hide EnsureTextures, StorePopup, OnViewPaint, OnPopupPaint;
  }

  // ---- Whole runs ------------------------------------------------------------------------------

  /** No event of the run is an unnoticed failure. */
  predicate AlwaysNoticed(r: Run, events: seq<Event>)
    requires Proper(r)
    decreases |events|
  {
    events == [] || (!Unnoticed(r.host, events[0]) && AlwaysNoticed(Advance(r, events[0]), events[1..]))
  }

  lemma {:induction false} NoticedNeverStale(r: Run, events: seq<Event>)
    requires Proper(r) && AlwaysNoticed(r, events)
    ensures NeverStale(r, events)
    decreases |events|
  {
    if events != [] { NoticedNeverStale(Advance(r, events[0]), events[1..]); }
  }

  lemma {:induction false} AnnouncedReplay(r: Run, events: seq<Event>)
    requires AnnouncedLog(r) && Kept(r) && AlwaysNoticed(r, events)
    ensures AnnouncedLog(Replay(r, events))
    decreases |events|
  {
    if events != [] {
      KeptStep(r, events[0]);
      AnnouncedLogStep(r, events[0]);
      AnnouncedReplay(Advance(r, events[0]), events[1..]);
    }
  }

  lemma StartAnnounced(slots: nat, maxRects: nat, hasFence: bool)
    requires 2 <= slots && 1 <= maxRects < 256
    ensures AnnouncedLog(Start(slots, maxRects, hasFence))
  {
    assert Start(slots, maxRects, hasFence).host.ring[0].None?;
  }

  /** Everything kept over runs, together. */
  lemma RunKeepsAll(slots: nat, maxRects: nat, hasFence: bool, events: seq<Event>)
    requires 2 <= slots && 1 <= maxRects < 256
    requires AlwaysNoticed(Start(slots, maxRects, hasFence), events)
    ensures var r := Replay(Start(slots, maxRects, hasFence), events);
            Kept(r) && Faithful(r) && AnnouncedLog(r)
  {
    var r := Start(slots, maxRects, hasFence);
    StartKept(slots, maxRects, hasFence);
    StartAnnounced(slots, maxRects, hasFence);
    NoticedNeverStale(r, events);
    FaithfulReplay(r, events);
    AnnouncedReplay(r, events);
  }

  /** Textures failing in the ring loop are always noticed. */
  lemma {:induction false} RingFailuresAreNoticed(r: Run, events: seq<Event>)
    requires Proper(r)
    requires forall i :: 0 <= i < |events| && events[i].ViewPaint? ==> OnlyRingFailures(events[i].api)
    ensures AlwaysNoticed(r, events)
    decreases |events|
  {
    if events != [] {
      RingFailureIsNoticed(r.host, events[0]);
      AdvanceProper(r, events[0]);
      RingFailuresAreNoticed(Advance(r, events[0]), events[1..]);
    }
  }

  /** In every run without an unnoticed failure a frame is RESIZED exactly when its textures are not those of the frame
      before, and the consumer has opened all of them, the popup plane included. */
  lemma RecreationIsAnnounced(slots: nat, maxRects: nat, hasFence: bool, events: seq<Event>, i: nat)
    requires 2 <= slots && 1 <= maxRects < 256
    requires AlwaysNoticed(Start(slots, maxRects, hasFence), events)
    requires i < |Replay(Start(slots, maxRects, hasFence), events).log|
    ensures var log := Replay(Start(slots, maxRects, hasFence), events).log;
            log[i].Shown? ==> FrameAnnounced(log[..i], log[i].frame)
  {
    RunKeepsAll(slots, maxRects, hasFence, events);
  }

  /** The frame whose textures differ from the last frame's and the two view frames after it are FULL. */
  lemma ThreeFullAfterRecreation(slots: nat, maxRects: nat, hasFence: bool, events: seq<Event>, i: nat, j: nat)
    requires 2 <= slots && 1 <= maxRects < 256
    requires AlwaysNoticed(Start(slots, maxRects, hasFence), events)
    requires i <= j < |Replay(Start(slots, maxRects, hasFence), events).log|
    ensures var log := Replay(Start(slots, maxRects, hasFence), events).log;
            log[i].Shown? && LastHeld(log[..i]) != Some(log[i].frame.held)
            && log[j].Shown? && log[j].frame.isView && ViewsIn(log[i..j]) < 3 ==>
              log[j].frame.header.flags.full
  {
    var log := Replay(Start(slots, maxRects, hasFence), events).log;
    RecreationIsAnnounced(slots, maxRects, hasFence, events, i);
    EveryFrameObeysRules(slots, maxRects, hasFence, events, i);
    if log[i].Shown? && LastHeld(log[..i]) != Some(log[i].frame.held)
       && i < j && log[j].Shown? && log[j].frame.isView && ViewsIn(log[i..j]) < 3 {
      ThreeFullAfterRestart(slots, maxRects, hasFence, events, i, j);
    }
  }

  /** However far the GPU has run, a consumer that opens the shared names at RESIZED frames and waits as the header
      asks finds, in the texture it has opened for the advertised slot, exactly the last view image published at that
      frame, as long as fewer than `slots` later view frames exist. */
  lemma ReadsAreExact(slots: nat, maxRects: nat, hasFence: bool, events: seq<Event>, i: nat, progress: nat)
    requires 2 <= slots && 1 <= maxRects < 256
    requires AlwaysNoticed(Start(slots, maxRects, hasFence), events)
    requires var r := Replay(Start(slots, maxRects, hasFence), events);
             && i < |r.log| && r.log[i].Shown? && r.views - r.log[i].frame.ordinal < slots
             && progress <= |r.host.gpu| && Waited(r.host.gpu, r.log[i].frame, progress)
    ensures var r := Replay(Start(slots, maxRects, hasFence), events);
            var f, m := r.log[i].frame, MemoryAfter(r.host.gpu[..progress]);
            && f.Opened().Some? && f.front.Some? && f.Opened().value in m
            && m[f.Opened().value] == f.front.value.image
  {
    NoticedNeverStale(Start(slots, maxRects, hasFence), events);
    SlotContentsAreExact(slots, maxRects, hasFence, events, i, progress);
    RecreationIsAnnounced(slots, maxRects, hasFence, events, i);
  }

  // ---- An unnoticed failure --------------------------------------------------------------------

  /** The view is past its warm-up at the given size. */
  predicate PastWarmup(s: Host, width: nat, height: nat) {
    RingReady(s, width, height) && s.warmup == 0 && !s.forceFull
  }

  /** Two failed attempts after each other: the first drops the ring, the second fills it but not the plane. */
  predicate FailsTwice(s: Host, first: Event, second: Event) {
    && first.ViewPaint? && first.api.openOk && first.api.deviceOk
    && !RingReady(s, first.image.width, first.image.height) && SlotsFilled(first.api, |s.ring|) < |s.ring|
    && second.ViewPaint? && second.api.openOk && second.api.deviceOk
    && FirstFailure(second.api, 0, |s.ring|) == |s.ring| && second.api.plane.NoTexture?
  }

  lemma FailsFirst(s: Host, e: Event)
    requires WellFormed(s) && e.ViewPaint? && e.api.openOk && e.api.deviceOk
    requires !RingReady(s, e.image.width, e.image.height) && SlotsFilled(e.api, |s.ring|) < |s.ring|
    ensures var t := Step(s, e);
            && !Publishes(s, e) && !StaleFailure(s, e) && !AllPresent(t.ring) && |t.ring| == |s.ring|
            && LeftBehind(s, t)
  {
    AttemptedTextures(s, e.image.width, e.image.height, e.api);
  }

  predicate LeftBehind(s: Host, t: Host) {
    && t.sharedWidth == s.sharedWidth && t.sharedHeight == s.sharedHeight && t.warmup == s.warmup
    && t.forceFull == s.forceFull && t.popupVisible == s.popupVisible && t.header == s.header
    && s.nextTexture <= t.nextTexture
  }

  lemma FailsSecond(s: Host, e: Event)
    requires WellFormed(s) && e.ViewPaint? && e.api.openOk && e.api.deviceOk && !AllPresent(s.ring)
    requires FirstFailure(e.api, 0, |s.ring|) == |s.ring| && e.api.plane.NoTexture?
    requires e.image.width == s.sharedWidth && e.image.height == s.sharedHeight
    ensures var t := Step(s, e);
            && !Publishes(s, e) && !StaleFailure(s, e) && Unnoticed(s, e) && AllPresent(t.ring) && t.plane.None?
            && t.ring == FilledRing(|s.ring|, |s.ring|, s.nextTexture) && LeftBehind(s, t)
  {
    AttemptedTextures(s, e.image.width, e.image.height, e.api);
  }

  lemma PublishesSilently(s: Host, image: Image, listed: seq<Rect>, api: Answers)
    requires WellFormed(s) && PastWarmup(s, image.width, image.height)
    requires api.openOk && |listed| <= |s.header.dirtyRects|
    ensures var e := ViewPaint(image, listed, api);
            && Publishes(s, e)
            && var t := Step(s, e);
               && t.ring == s.ring && t.plane == s.plane && t.header.popupVisible == s.popupVisible
               && t.header.flags == FrameFlags(false, true, false, false, true)
               && t.header.dirtyCount == |listed|
  {}

  /** From any settled state: all textures are replaced, yet the next frame of the old size is DIRTY_ONLY and not
      RESIZED, names none of the textures the consumer has opened, and announces a popup plane that does not exist.
      Neither failure leaves a ring of another size than the recorded one. */
  lemma SilentReplacement(r: Run, first: Event, second: Event, listed: seq<Rect>, api: Answers)
    requires Announced(r) && FailsTwice(r.host, first, second)
    requires PastWarmup(r.host, second.image.width, second.image.height)
    requires api.openOk && |listed| <= |r.host.header.dirtyRects|
    ensures var next := ViewPaint(second.image, listed, api);
            var r1 := Advance(r, first);
            && Proper(r1) && !StaleFailure(r.host, first)
            && var r2 := Advance(r1, second);
               && Proper(r2) && !StaleFailure(r1.host, second) && Publishes(r2.host, next)
               && var t := Advance(r2, next);
                  && t.known == r.known && t.host.plane.None?
                  && t.host.header.popupVisible == r.host.popupVisible
                  && t.host.header.flags == FrameFlags(false, true, false, false, true)
                  && t.host.header.dirtyCount == |listed|
                  && (forall x: Texture :: Some(x) in t.host.ring ==> Some(x) !in r.known.ring)
                  && AllPresent(t.host.ring)
  {
    hide OnViewPaint, Publishes, StaleFailure, SlotsFilled, FirstFailure, RingReady;
    var r1 := Advance(r, first);
    FailsFirst(r.host, first);
    AdvanceProper(r, first);
    QuietKnown(r, first);
    var r2 := Advance(r1, second);
    assert r1.host == Step(r.host, first);
    ReadyMeans(r.host, second.image.width, second.image.height);
    FailsSecond(r1.host, second);
    AdvanceProper(r1, second);
    QuietKnown(r1, second);
    ReadyMeans(r2.host, second.image.width, second.image.height);
    PublishesSilently(r2.host, second.image, listed, api);
    NewViewFrame(r2, second.image, listed, api);
  }

  lemma ReadyMeans(s: Host, width: nat, height: nat)
    ensures RingReady(s, width, height) <==> s.sharedWidth == width && s.sharedHeight == height && AllPresent(s.ring)
  {}

  const TWO_PIXELS := Image(2, 1, (p: Point) => Bgra(0))
  const LEFT := Rect(0, 0, 1, 1)

  const PAINT := ViewPaint(TWO_PIXELS, [], GOOD)
  const REPAINT := ViewPaint(TWO_PIXELS, [LEFT], GOOD)
  const RING_FAILS := ViewPaint(Plain(1), [], GOOD.(ring := [NoTexture]))
  const PLANE_FAILS := ViewPaint(TWO_PIXELS, [], GOOD.(plane := NoTexture))

  /** A popup is shown and the warm-up painted. */
  function WarmedUp(): seq<Event> {
    [PopupShow(true), PopupSize(LEFT), PAINT, PAINT, PAINT]
  }

  lemma FirstGood(s: Host)
    requires WellFormed(s) && !RingReady(s, 2, 1)
    ensures var t := Step(s, PAINT);
            RingReady(t, 2, 1) && t.warmup == 2 && !t.forceFull && t.popupVisible == s.popupVisible
  {
    AllCreated(GOOD, 0, |s.ring|);
  }

  lemma NextGood(s: Host)
    requires WellFormed(s) && RingReady(s, 2, 1) && s.warmup > 0 && !s.forceFull
    ensures var t := Step(s, PAINT);
            RingReady(t, 2, 1) && t.warmup == s.warmup - 1 && !t.forceFull && t.popupVisible == s.popupVisible
  {}

  lemma WarmedUpState()
    ensures var r := Replay(Start(2, 1, true), WarmedUp());
            && Announced(r) && Sane(r.host) && PastWarmup(r.host, 2, 1) && r.host.popupVisible
            && |r.host.ring| == 2 && |r.host.header.dirtyRects| == 1
  {
    hide Step, InitialHost, Announced, Sane, PastWarmup, RingReady;
    RingFailuresAreNoticed(Start(2, 1, true), WarmedUp());
    RunKeepsAll(2, 1, true, WarmedUp());
    ReplayHosts(Start(2, 1, true));
    StartShape();
    WarmedUpHost(Start(2, 1, true).host);
  }

  lemma StartShape()
    ensures var s := Start(2, 1, true).host;
            WellFormed(s) && !RingReady(s, 2, 1) && |s.ring| == 2 && |s.header.dirtyRects| == 1
  {
    assert Start(2, 1, true).host.ring[0].None?;
  }

  /** The five steps of the warm-up on the producer alone. */
  function WarmSteps(s: Host): (t: Host)
    requires WellFormed(s)
    ensures SameShape(s, t)
  {
    var shown := Step(Step(s, PopupShow(true)), PopupSize(LEFT));
    Step(Step(Step(shown, PAINT), PAINT), PAINT)
  }

  lemma WarmedUpHost(s: Host)
    requires WellFormed(s) && !RingReady(s, 2, 1)
    ensures PastWarmup(WarmSteps(s), 2, 1) && WarmSteps(s).popupVisible
  {
    hide OnViewPaint, OnPopupPaint;
    var shown := Step(Step(s, PopupShow(true)), PopupSize(LEFT));
    assert shown.ring == s.ring;
    FirstGood(shown);
    NextGood(Step(shown, PAINT));
    NextGood(Step(Step(shown, PAINT), PAINT));
  }

  lemma ReplayHosts(r: Run)
    requires Proper(r)
    ensures Replay(r, WarmedUp()).host == WarmSteps(r.host)
  {
    hide Advance, Replay, Step, Proper;
    ReplayFive(r, PopupShow(true), PopupSize(LEFT), PAINT, PAINT, PAINT);
  }

  lemma ReplayFive(r: Run, a: Event, b: Event, c: Event, d: Event, e: Event)
    requires Proper(r)
    ensures var r2 := Replay(r, [a, b]);
            && Proper(Advance(r, a)) && r2 == Advance(Advance(r, a), b)
            && Proper(r2) && Proper(Advance(r2, c)) && Proper(Advance(Advance(r2, c), d))
            && Replay(r, [a, b, c, d, e]) == Advance(Advance(Advance(r2, c), d), e)
  {
    hide Advance, Replay, Proper;
    ReplayTwo(r, a, b);
    ReplayLast(r, [a, b], c);
    assert [a, b] + [c] == [a, b, c];
    ReplayLast(r, [a, b, c], d);
    assert [a, b, c] + [d] == [a, b, c, d];
    ReplayLast(r, [a, b, c, d], e);
    assert [a, b, c, d] + [e] == [a, b, c, d, e];
  }

  lemma ReplayTwo(r: Run, a: Event, b: Event)
    requires Proper(r)
    ensures Proper(Advance(r, a)) && Replay(r, [a, b]) == Advance(Advance(r, a), b)
  {
    AdvanceProper(r, a);
    ReplayLast(r, [], a);
    ReplayLast(r, [a], b);
    assert [] + [a] == [a] && [a] + [b] == [a, b];
    assert Replay(r, []) == r;
  }

  /** It does happen, with a popup on show. */
  lemma SilentReplacementRun()
    ensures var r := Replay(Start(2, 1, true), WarmedUp() + [RING_FAILS] + [PLANE_FAILS]);
            && Publishes(r.host, REPAINT)
            && var t := Advance(r, REPAINT);
               && t.host.header.popupVisible && t.host.plane.None? && AllPresent(t.host.ring)
               && t.host.header.flags == FrameFlags(false, true, false, false, true) && t.host.header.dirtyCount == 1
               && (forall x: Texture :: Some(x) in t.host.ring ==> Some(x) !in t.known.ring)
  {
    var r0 := Start(2, 1, true);
    var r := Replay(r0, WarmedUp());
    WarmedUpState();
    ReplayLast(r0, WarmedUp(), RING_FAILS);
    ReplayLast(r0, WarmedUp() + [RING_FAILS], PLANE_FAILS);
    FailuresAreReal(r.host);
    SilentReplacement(r, RING_FAILS, PLANE_FAILS, [LEFT], GOOD);
  }

  lemma FailuresAreReal(s: Host)
    requires WellFormed(s) && PastWarmup(s, 2, 1)
    ensures FailsTwice(s, RING_FAILS, PLANE_FAILS)
  {
    AllCreated(PLANE_FAILS.api, 0, |s.ring|);
    assert RING_FAILS.api.Slot(0).NoTexture?;
  }
}
