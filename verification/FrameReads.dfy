/** What a consumer reads: fence order over whole runs, and the exact contents of every advertised slot. */
module FrameReads {
  import opened Geometry
  import opened Gpu
  import opened Publication
  import opened Protocol
  import opened FrameRing
  import opened RingAgreement

  /** The seal stands in the queue behind the copy of the front it announces. */
  ghost predicate FrameKept(r: Run, f: Frame)
    requires Proper(r)
  {
    && f.ordinal <= r.views && f.header.fence < r.host.nextFence && f.sealAt < |r.host.gpu|
    && r.host.gpu[f.sealAt] == (if f.header.fence > 0 then Signal(f.header.fence) else Flush)
    && (f.isView ==> f.front.Some?)
    && (f.front.Some? ==> f.front.value.copyAt < f.sealAt && FrontHeld(r.host, r.views - f.ordinal, f.front.value))
  }

  ghost predicate FencesIncrease(log: seq<Entry>) {
    forall i, j :: 0 <= i < j < |log| && log[i].Shown? && log[j].Shown? && log[j].frame.header.fence > 0 ==>
      log[i].frame.header.fence < log[j].frame.header.fence
  }

  ghost predicate Kept(r: Run) {
    && Proper(r) && Sane(r.host)
    && (r.front.Some? ==> FrontHeld(r.host, 0, r.front.value))
    && (forall i :: 0 <= i < |r.log| && r.log[i].Shown? ==> FrameKept(r, r.log[i].frame))
    && FencesIncrease(r.log)
  }

  // ---- Every step keeps it ---------------------------------------------------------------------

  lemma StepAppends(s: Host, e: Event)
    requires WellFormed(s)
    ensures s.gpu <= Step(s, e).gpu && s.nextFence <= Step(s, e).nextFence && s.nextTexture <= Step(s, e).nextTexture
  {
    hide CreateTextures, EnsureTextures, PublishView, StorePopup, PublishPopup;
    match e
    case ViewPaint(image, listed, api) =>
      EnsureLeaves(s, image.width, image.height, api);
      var n := EnsureTextures(s, image.width, image.height, api);
      if n.ok { ViewLeaves(n.host, image, listed, n.recreated, api); }
    case PopupPaint(image, api) =>
      PopupPaintParts(s, image, api);
      StoreLeaves(s, image);
      if Publishes(s, e) { PopupLeaves(StorePopup(s, image), api); }
    case _ =>
  }

  lemma HeldViewPaint(s: Host, image: Image, listed: seq<Rect>, api: Answers, age: nat, f: Front)
    requires Sane(s) && FrontHeld(s, age, f) && api.openOk
    ensures var n, t := EnsureTextures(s, image.width, image.height, api), OnViewPaint(s, image, listed, api);
            t.writeSlot < |t.ring| && FrontHeld(t, if n.ok then age + 1 else age, f)
  {
    HeldEnsure(s, image.width, image.height, api, age, f);
    EnsureSane(s, image.width, image.height, api);
    hide EnsureTextures, PublishView, FrontHeld, Sane;
    var n := EnsureTextures(s, image.width, image.height, api);
    if n.ok { HeldPublishView(n.host, image, listed, n.recreated, api, age, f); }
  }

  lemma HeldPopupPaint(s: Host, image: Image, api: Answers, age: nat, f: Front)
    requires Sane(s) && FrontHeld(s, age, f)
    ensures var t := OnPopupPaint(s, image, api); t.writeSlot < |t.ring| && FrontHeld(t, age, f)
  {
    hide StorePopup, PublishPopup, PopupStored;
    HeldStorePopup(s, image, age, f);
    StorePopupSane(s, image);
    if PlanePublishable(s) { HeldPublishPopup(StorePopup(s, image), api, age, f); }
  }

  /** A front keeps its promise through any step; a published view frame makes it one frame older. */
  lemma HeldStep(r: Run, e: Event, age: nat, f: Front)
    requires Proper(r) && Sane(r.host) && FrontHeld(r.host, age, f)
    ensures Proper(Advance(r, e))
    ensures FrontHeld(Advance(r, e).host, age + Advance(r, e).views - r.views, f)
  {
    hide OnPopupPaint, EnsureTextures, PublishView, StorePopup, Sane;
    var s := r.host;
    AdvanceProper(r, e);
    match e
    case ViewPaint(image, listed, api) => if api.openOk { HeldViewPaint(s, image, listed, api, age, f); }
    case PopupPaint(image, api) =>
      HeldPopupPaint(s, image, api, age, f);
      assert Advance(r, e).views == r.views;
    case _ =>
  }

  lemma FrameKeptStep(r: Run, e: Event, f: Frame)
    requires Kept(r) && FrameKept(r, f)
    ensures Proper(Advance(r, e)) && FrameKept(Advance(r, e), f)
  {
    hide OnViewPaint, OnPopupPaint, EnsureTextures, StorePopup, Sane, FrontHeld, FencesIncrease;
    AdvanceProper(r, e);
    StepAppends(r.host, e);
    if f.front.Some? { HeldStep(r, e, r.views - f.ordinal, f.front.value); }
  }

  lemma NewViewKept(r: Run, image: Image, listed: seq<Rect>, api: Answers)
    requires Kept(r) && Publishes(r.host, ViewPaint(image, listed, api))
    ensures var t := AdvanceView(r, image, listed, api);
            && Proper(t) && FrameKept(t, t.log[|r.log|].frame) && FrontHeld(t.host, 0, t.front.value)
            && (t.log[|r.log|].frame.header.fence > 0 ==> t.log[|r.log|].frame.header.fence == r.host.nextFence)
  {
    hide CreateTextures, EnsureTextures, FrontHeld;
    EnsureSane(r.host, image.width, image.height, api);
    EnsureLeaves(r.host, image.width, image.height, api);
    var n := EnsureTextures(r.host, image.width, image.height, api);
    HeldNew(n.host, image, listed, n.recreated, api);
    ViewCommandAt(n.host, image, ForcedFull(n.host, listed, n.recreated), api, |PlaneCopy(n.host)| + 1);
  }

  lemma NewPopupKept(r: Run, image: Image, api: Answers)
    requires Kept(r) && Publishes(r.host, PopupPaint(image, api))
    ensures var t := AdvancePopup(r, image, api);
            && Proper(t) && FrameKept(t, t.log[|r.log|].frame)
            && (t.log[|r.log|].frame.header.fence > 0 ==> t.log[|r.log|].frame.header.fence == r.host.nextFence)
  {
    hide Sane, FrontHeld, StorePopup;
    var before := StorePopup(r.host, image);
    StorePopupSane(r.host, image);
    StoreLeaves(r.host, image);
    assert PopupCommands(before, api)[|PopupCommands(before, api)| - 1] == Seal(before, api);
    if r.front.Some? {
      HeldStorePopup(r.host, image, 0, r.front.value);
      HeldPublishPopup(before, api, 0, r.front.value);
    }
  }

  lemma NewFrameKept(r: Run, e: Event)
    requires Kept(r) && Publishes(r.host, e)
    ensures var t := Advance(r, e);
            && t.log == r.log + [t.log[|r.log|]] && t.log[|r.log|].Shown?
            && Proper(t) && FrameKept(t, t.log[|r.log|].frame)
            && (t.log[|r.log|].frame.header.fence > 0 ==> t.log[|r.log|].frame.header.fence == r.host.nextFence)
  {
    hide OnViewPaint, OnPopupPaint, EnsureTextures, StorePopup, FrameKept, FrontHeld;
    match e
    case ViewPaint(image, listed, api) => NewViewKept(r, image, listed, api);
    case PopupPaint(image, api) => NewPopupKept(r, image, api);
  }

  /** Events that publish nothing add no frame to the log. */
  lemma QuietLog(r: Run, e: Event)
    requires Proper(r) && !Publishes(r.host, e)
    ensures var t := Advance(r, e);
            && r.log <= t.log && t.views == r.views && t.front == r.front
            && (forall i :: |r.log| <= i < |t.log| ==> !t.log[i].Shown?)
  {}

  lemma KeptStep(r: Run, e: Event)
    requires Kept(r)
    ensures Kept(Advance(r, e))
  {
    hide Advance, Step, Publishes, Sane, FrontHeld;
    var t := Advance(r, e);
    AdvanceProper(r, e);
    SaneStep(r.host, e);
    if Publishes(r.host, e) { NewFrameKept(r, e); } else { QuietLog(r, e); }
    forall i | 0 <= i < |t.log| && t.log[i].Shown? ensures FrameKept(t, t.log[i].frame) {
      if i < |r.log| { FrameKeptStep(r, e, r.log[i].frame); }
    }
    FrontStep(r, e);
  }

  lemma FrontStep(r: Run, e: Event)
    requires Kept(r)
    ensures var t := Advance(r, e); Proper(t) && (t.front.Some? ==> FrontHeld(t.host, 0, t.front.value))
  {
    hide OnViewPaint, OnPopupPaint, EnsureTextures, FrameKept, FrontHeld, FencesIncrease;
    AdvanceProper(r, e);
    if e.ViewPaint? && Publishes(r.host, e) {
      NewViewKept(r, e.image, e.listed, e.api);
    } else if r.front.Some? {
      HeldStep(r, e, 0, r.front.value);
    }
  }

  lemma KeptSane(r: Run)
    requires Kept(r)
    ensures Sane(r.host) && (r.front.Some? ==> r.front.value.texture < r.host.nextTexture)
  {}

  // ---- Slot contents ---------------------------------------------------------------------------

  /** The copy of a front had its effect as soon as it was executed. */
  ghost predicate Landed(log: seq<Command>, f: Front) {
    && f.copyAt < |log|
    && f.texture in MemoryAfter(log[..f.copyAt + 1])
    && MemoryAfter(log[..f.copyAt + 1])[f.texture] == f.image
  }

  ghost predicate FrameShows(r: Run, f: Frame) {
    f.front.Some? && f.texture == Some(f.front.value.texture) && Landed(r.host.gpu, f.front.value)
  }

  /** Every published header advertises the texture that the last view image was copied to. */
  ghost predicate Faithful(r: Run) {
    && Agreeing(r)
    && (r.front.Some? ==> Landed(r.host.gpu, r.front.value))
    && (forall i :: 0 <= i < |r.log| && r.log[i].Shown? ==> FrameShows(r, r.log[i].frame))
  }

  lemma LandedKept(log: seq<Command>, more: seq<Command>, f: Front)
    requires log <= more && Landed(log, f)
    ensures Landed(more, f)
  {
    assert more[..f.copyAt + 1] == log[..f.copyAt + 1];
  }

  lemma NewViewShows(r: Run, image: Image, listed: seq<Rect>, api: Answers)
    requires Kept(r) && Faithful(r) && Publishes(r.host, ViewPaint(image, listed, api))
    ensures var t := AdvanceView(r, image, listed, api);
            FrameShows(t, t.log[|r.log|].frame) && Landed(t.host.gpu, t.front.value)
  {
    var n := EnsureTextures(r.host, image.width, image.height, api).host;
    var t := AdvanceView(r, image, listed, api);
    EnsureSane(r.host, image.width, image.height, api);
    ReadyMeansSized(r, image.width, image.height, api);
    CopyLands(n.gpu, n.ring[BackSlot(n)].value, image);
    assert t.host.gpu[..|n.gpu| + 1] == n.gpu + [CopyResource(n.ring[BackSlot(n)].value, image)];
  }

  lemma FaithfulStep(r: Run, e: Event)
    requires Kept(r) && Faithful(r) && !StaleFailure(r.host, e)
    ensures Faithful(Advance(r, e))
  {
    hide Step, FrameKept, Sane, StaleFailure, EnsureTextures;
    var t := Advance(r, e);
    KeptSane(r);
    AgreementStep(r, e);
    StepAppends(r.host, e);
    if e.ViewPaint? && Publishes(r.host, e) {
      NewViewShows(r, e.image, e.listed, e.api);
    } else if r.front.Some? {
      LandedKept(r.host.gpu, t.host.gpu, r.front.value);
    }
    forall i | 0 <= i < |t.log| && t.log[i].Shown? ensures FrameShows(t, t.log[i].frame) {
      if i < |r.log| { LandedKept(r.host.gpu, t.host.gpu, r.log[i].frame.front.value); }
    }
  }

  // ---- Whole runs ------------------------------------------------------------------------------

  /** No event of the run is a stale failure. */
  predicate NeverStale(r: Run, events: seq<Event>)
    requires Proper(r)
    decreases |events|
  {
    events == [] || (!StaleFailure(r.host, events[0]) && NeverStale(Advance(r, events[0]), events[1..]))
  }

  lemma {:induction false} KeptReplay(r: Run, events: seq<Event>)
    requires Kept(r)
    ensures Kept(Replay(r, events))
    decreases |events|
  {
    if events != [] {
      KeptStep(r, events[0]);
      KeptReplay(Advance(r, events[0]), events[1..]);
    }
  }

  lemma {:induction false} FaithfulReplay(r: Run, events: seq<Event>)
    requires Kept(r) && Faithful(r) && NeverStale(r, events)
    ensures Kept(Replay(r, events)) && Faithful(Replay(r, events))
    decreases |events|
  {
    if events != [] {
      KeptStep(r, events[0]);
      FaithfulStep(r, events[0]);
      FaithfulReplay(Advance(r, events[0]), events[1..]);
    }
  }

  lemma StartKept(slots: nat, maxRects: nat, hasFence: bool)
    requires 2 <= slots && 1 <= maxRects < 256
    ensures Kept(Start(slots, maxRects, hasFence)) && Faithful(Start(slots, maxRects, hasFence))
  {
    assert Start(slots, maxRects, hasFence).host.ring[0].None?;
  }

  /** `progress` executed commands satisfy a consumer that waits as frame `f` asks: for its fence value when
      there is one, otherwise for the flush that submitted the work. */
  predicate Waited(log: seq<Command>, f: Frame, progress: nat)
    requires progress <= |log|
  {
    if f.header.fence > 0 then FenceAfter(log[..progress]) >= f.header.fence else f.sealAt < progress
  }

  /** However far the GPU has run, once a consumer waited as the header asks the texture in the advertised slot is
      exactly the last view image published at that frame, as long as fewer than `slots` later view frames exist. */
  lemma SlotContentsAreExact(slots: nat, maxRects: nat, hasFence: bool, events: seq<Event>, i: nat, progress: nat)
    requires 2 <= slots && 1 <= maxRects < 256
    requires NeverStale(Start(slots, maxRects, hasFence), events)
    requires var r := Replay(Start(slots, maxRects, hasFence), events);
             && i < |r.log| && r.log[i].Shown? && r.views - r.log[i].frame.ordinal < slots
             && progress <= |r.host.gpu| && Waited(r.host.gpu, r.log[i].frame, progress)
    ensures var r := Replay(Start(slots, maxRects, hasFence), events);
            var f, m := r.log[i].frame, MemoryAfter(r.host.gpu[..progress]);
            && f.texture.Some? && f.front.Some? && f.texture.value in m
            && m[f.texture.value] == f.front.value.image
  {
    hide FrameKept, FrameShows;
    var r0 := Start(slots, maxRects, hasFence);
    StartKept(slots, maxRects, hasFence);
    FaithfulReplay(r0, events);
    var r := Replay(r0, events);
    assert FrameKept(r, r.log[i].frame) && FrameShows(r, r.log[i].frame);
    SlotAtProgress(r, r.log[i].frame, progress);
  }

  /** Once the wait is over, the slot of a frame still in the ring holds its front. */
  lemma SlotAtProgress(r: Run, f: Frame, progress: nat)
    requires Proper(r) && Sane(r.host) && FrameKept(r, f) && FrameShows(r, f) && r.views - f.ordinal < |r.host.ring|
    requires progress <= |r.host.gpu| && Waited(r.host.gpu, f, progress)
    ensures var m := MemoryAfter(r.host.gpu[..progress]);
            && f.texture.Some? && f.front.Some? && f.texture.value in m
            && m[f.texture.value] == f.front.value.image
  {
    var log, front := r.host.gpu, f.front.value;
    if f.header.fence > 0 {
      assert IsSignal(log, f.sealAt);
      FenceImpliesProgress(log, r.host.nextFence, f.sealAt, progress);
    }
    var done := log[..progress];
    assert Untouched(done, front.texture, front.copyAt + 1);
    assert done[..front.copyAt + 1] == log[..front.copyAt + 1];
    MemoryKept(done, front.texture, front.copyAt + 1);
  }

  /** Published nonzero fence values strictly increase over the whole run, across view and popup frames. */
  lemma FenceValuesIncrease(slots: nat, maxRects: nat, hasFence: bool, events: seq<Event>, i: nat, j: nat)
    requires 2 <= slots && 1 <= maxRects < 256
    requires var log := Replay(Start(slots, maxRects, hasFence), events).log;
             i < j < |log| && log[i].Shown? && log[j].Shown?
    ensures var log := Replay(Start(slots, maxRects, hasFence), events).log;
            log[j].frame.header.fence > 0 ==> log[i].frame.header.fence < log[j].frame.header.fence
  {
    StartKept(slots, maxRects, hasFence);
    KeptReplay(Start(slots, maxRects, hasFence), events);
  }

  /** Every published header is sealed: behind the copy into its front stands the signal of the fence value it
      advertises, or a flush when it advertises none. */
  lemma EveryFrameIsSealed(slots: nat, maxRects: nat, hasFence: bool, events: seq<Event>, i: nat)
    requires 2 <= slots && 1 <= maxRects < 256
    requires i < |Replay(Start(slots, maxRects, hasFence), events).log|
    ensures var r := Replay(Start(slots, maxRects, hasFence), events);
            r.log[i].Shown? ==>
            var f, gpu := r.log[i].frame, r.host.gpu;
            && f.sealAt < |gpu| && gpu[f.sealAt] == (if f.header.fence > 0 then Signal(f.header.fence) else Flush)
            && (f.isView ==> f.front.Some?)
            && (f.front.Some? ==>
                  && f.front.value.copyAt < f.sealAt
                  && gpu[f.front.value.copyAt] == CopyResource(f.front.value.texture, f.front.value.image))
  {
    StartKept(slots, maxRects, hasFence);
    KeptReplay(Start(slots, maxRects, hasFence), events);
    var r := Replay(Start(slots, maxRects, hasFence), events);
    if r.log[i].Shown? { assert FrameKept(r, r.log[i].frame); }
  }

  // ---- Which failures matter -------------------------------------------------------------------

  /** The only creations that fail are those of ring textures. */
  predicate OnlyRingFailures(api: Answers) {
    api.deviceOk && api.plane.Created? && forall i :: 0 <= i < |api.ring| ==> !api.ring[i].NoHandle?
  }

  lemma RingFailureIsNoticed(s: Host, e: Event)
    requires e.ViewPaint? ==> OnlyRingFailures(e.api)
    ensures !StaleFailure(s, e)
  {}

  lemma {:induction false} RingFailuresNeverStale(r: Run, events: seq<Event>)
    requires Proper(r)
    requires forall i :: 0 <= i < |events| && events[i].ViewPaint? ==> OnlyRingFailures(events[i].api)
    ensures NeverStale(r, events)
    decreases |events|
  {
    if events != [] {
      RingFailureIsNoticed(r.host, events[0]);
      AdvanceProper(r, events[0]);
      RingFailuresNeverStale(Advance(r, events[0]), events[1..]);
    }
  }

  /** Across any history of sizes and of texture creations failing in the ring loop, the textures are reported
      ready only when all of them have the size asked for. */
  lemma ReadyIsReal(slots: nat, maxRects: nat, hasFence: bool, events: seq<Event>, width: nat, height: nat,
                    api: Answers)
    requires 2 <= slots && 1 <= maxRects < 256
    requires forall i :: 0 <= i < |events| && events[i].ViewPaint? ==> OnlyRingFailures(events[i].api)
    requires EnsureTextures(Replay(Start(slots, maxRects, hasFence), events).host, width, height, api).ok
    ensures var t := EnsureTextures(Replay(Start(slots, maxRects, hasFence), events).host, width, height, api).host;
            forall i :: 0 <= i < |t.ring| ==> t.ring[i].Some? && HasSize(t.gpu, t.ring[i].value, width, height)
  {
    var r := Start(slots, maxRects, hasFence);
    StartKept(slots, maxRects, hasFence);
    RingFailuresNeverStale(r, events);
    FaithfulReplay(r, events);
    ReadyMeansSized(Replay(r, events), width, height, api);
  }

  /** What a stale failure to reach another size leads to: the next paint of the size on record is published,
      but the slot its header advertises has the other size, so it does not hold the image. */
  lemma StaleRingDropsImage(s: Host, e: Event, image: Image, listed: seq<Rect>, api: Answers)
    requires Sane(s) && StaleFailure(s, e)
    requires e.image.width != s.sharedWidth || e.image.height != s.sharedHeight
    requires image.width == s.sharedWidth && image.height == s.sharedHeight && api.openOk
    ensures var t := Step(s, e);
            && Publishes(t, ViewPaint(image, listed, api))
            && var u := OnViewPaint(t, image, listed, api);
               && u.ring[u.header.slot].Some?
               && HasSize(u.gpu, u.ring[u.header.slot].value, e.image.width, e.image.height)
               && MemoryAfter(u.gpu)[u.ring[u.header.slot].value] != image
  {
    hide CreateTextures, EnsureTextures, SlotsFilled, PublishView;
    var t := Step(s, e);
    EnsureLeaves(s, e.image.width, e.image.height, e.api);
    EnsureLeaves(t, image.width, image.height, api);
    RecreatedSizes(s, e.image.width, e.image.height, e.api);
    PublishKeepsSize(t, image, listed, api, t.ring[BackSlot(t)].value);
  }

  lemma PublishKeepsSize(s: Host, image: Image, listed: seq<Rect>, api: Answers, x: Texture)
    requires s.ring != [] && AllPresent(s.ring) && x in MemoryAfter(s.gpu)
    ensures var u := PublishView(s, image, listed, false, api);
            && x in MemoryAfter(u.gpu) && SameSize(MemoryAfter(u.gpu)[x], MemoryAfter(s.gpu)[x])
            && u.ring == s.ring && u.header.slot == BackSlot(s)
  {
    var u := PublishView(s, image, listed, false, api);
    forall i | |s.gpu| <= i < |u.gpu| ensures !Creates(u.gpu[i], x) {
      ViewCommandAt(s, image, ForcedFull(s, listed, false), api, i - |s.gpu|);
    }
    SizeKept(s.gpu, u.gpu, x);
  }

  function Plain(side: nat): Image {
    Image(side, side, (p: Point) => Bgra(0))
  }

  const GOOD := Answers(true, true, [], Created, true, true)

  lemma FirstPaint(image: Image)
    ensures var r := Advance(Start(2, 1, true), ViewPaint(image, [], GOOD));
            && Proper(r) && Sane(r.host) && |r.host.ring| == 2 && r.host.nextFrame == 2
            && RingReady(r.host, image.width, image.height)
  {
    var r := Start(2, 1, true);
    StartKept(2, 1, true);
    AdvanceProper(r, ViewPaint(image, [], GOOD));
    SaneStep(r.host, ViewPaint(image, [], GOOD));
    AllCreated(GOOD, 0, 2);
  }

  lemma PlaneFailureIsStale(s: Host, image: Image)
    requires Sane(s) && (image.width != s.sharedWidth || image.height != s.sharedHeight)
    ensures StaleFailure(s, ViewPaint(image, [], GOOD.(plane := NoTexture)))
    ensures Step(s, ViewPaint(image, [], GOOD.(plane := NoTexture))).nextFrame == s.nextFrame
  {
    AllCreated(GOOD.(plane := NoTexture), 0, |s.ring|);
  }

  /** It does happen: a popup plane that cannot be created while the surface grows from 1x1 to 2x2 makes the
      next 1x1 frame, the second one published, advertise a slot without its image. */
  lemma UnnoticedFailureRun()
    ensures var events := [ViewPaint(Plain(1), [], GOOD), ViewPaint(Plain(2), [], GOOD.(plane := NoTexture))];
            var u := Step(Replay(Start(2, 1, true), events).host, ViewPaint(Plain(1), [], GOOD));
            && u.header.frameId == 2
            && u.ring[u.header.slot].Some? && u.ring[u.header.slot].value in MemoryAfter(u.gpu)
            && MemoryAfter(u.gpu)[u.ring[u.header.slot].value] != Plain(1)
  {
    var first, failed := ViewPaint(Plain(1), [], GOOD), ViewPaint(Plain(2), [], GOOD.(plane := NoTexture));
    FirstPaint(Plain(1));
    var s := Advance(Start(2, 1, true), first).host;
    PlaneFailureIsStale(s, Plain(2));
    StaleRingDropsImage(s, failed, Plain(1), [], GOOD);
    TwoSteps(Start(2, 1, true), first, failed);
    assert Publishes(Step(s, failed), ViewPaint(Plain(1), [], GOOD));
  }

  lemma TwoSteps(r: Run, a: Event, b: Event)
    requires Proper(r)
    ensures Proper(Advance(r, a)) && Replay(r, [a, b]).host == Step(Advance(r, a).host, b)
  {
    AdvanceProper(r, a);
    AdvanceProper(Advance(r, a), b);
    var one, two := Advance(r, a), Advance(Advance(r, a), b);
    assert [a, b][1..] == [b] && [b][1..] == [];
    assert Replay(two, []) == two;
    assert Replay(one, [b]) == two;
  }

  lemma {:induction false} AllCreated(api: Answers, i: nat, slots: nat)
    requires i <= slots && api.ring == []
    ensures FirstFailure(api, i, slots) == slots
    decreases slots - i
  {
    if i < slots { AllCreated(api, i + 1, slots); }
  }
}
