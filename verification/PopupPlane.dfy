/** The dedicated popup plane: its contents under published frames, and the rectangles popup frames report. */
module PopupPlane {
  import opened Geometry
  import opened Gpu
  import opened Publication
  import opened Protocol
  import opened FrameRing
  import opened RingAgreement
  import opened FrameReads
  import opened Announcements
  import opened PatchConsumer
  import opened Headers

  /** The popup's own texture holds the last popup paint that was stored. */
  ghost predicate PopupHeld(r: Run) {
    && (r.popup.Some? <==> r.host.popupTexture.Some?)
    && (r.popup.Some? ==>
          && r.host.popupTexture.value in MemoryAfter(r.host.gpu)
          && MemoryAfter(r.host.gpu)[r.host.popupTexture.value] == r.popup.value
          && r.popup.value.width == r.host.popupTexWidth && r.popup.value.height == r.host.popupTexHeight)
  }

  lemma MemoryKeptPast(log: seq<Command>, more: seq<Command>, t: Texture)
    requires log <= more && Untouched(more, t, |log|) && t in MemoryAfter(log)
    ensures t in MemoryAfter(more) && MemoryAfter(more)[t] == MemoryAfter(log)[t]
  {
    assert more[..|log|] == log;
    MemoryKept(more, t, |log|);
  }

  lemma StorePopupHeld(s: Host, image: Image)
    requires Sane(s)
    requires s.popupTexture.Some? ==> HasSize(s.gpu, s.popupTexture.value, s.popupTexWidth, s.popupTexHeight)
    ensures var t := StorePopup(s, image);
            && t.popupTexture.value in MemoryAfter(t.gpu) && MemoryAfter(t.gpu)[t.popupTexture.value] == image
            && t.popupTexWidth == image.width && t.popupTexHeight == image.height
  {
    var t := StorePopup(s, image);
    if t.nextTexture == s.nextTexture {
      CopyLands(s.gpu, t.popupTexture.value, image);
    } else {
      MemoryStep(s.gpu, Create(s.nextTexture, image.width, image.height));
      CopyLands(s.gpu + [Create(s.nextTexture, image.width, image.height)], t.popupTexture.value, image);
    }
  }

  lemma EnsureLeavesTexture(s: Host, width: nat, height: nat, api: Answers, t: Texture)
    requires Sane(s) && t < s.nextTexture
    ensures var e := EnsureTextures(s, width, height, api);
            e.host.popupTexture == s.popupTexture && s.gpu <= e.host.gpu && Untouched(e.host.gpu, t, |s.gpu|)
  {
    var e := EnsureTextures(s, width, height, api);
    forall i | |s.gpu| <= i < |e.host.gpu| ensures !Writes(e.host.gpu[i], t) {
      var made := Creations(SlotsFilled(api, |s.ring|), s.nextTexture, width, height);
      if i < |s.gpu| + |made| { assert e.host.gpu[i] == made[i - |s.gpu|]; }
    }
  }

  lemma ViewPaintLeavesPopup(s: Host, image: Image, listed: seq<Rect>, api: Answers, t: Texture)
    requires Sane(s) && s.popupTexture == Some(t)
    ensures var h := OnViewPaint(s, image, listed, api);
            h.popupTexture == s.popupTexture && s.gpu <= h.gpu && Untouched(h.gpu, t, |s.gpu|)
  {
    hide CreateTextures, EnsureTextures, Sane;
    SaneRing(s, t);
    EnsureLeavesTexture(s, image.width, image.height, api, t);
    EnsureSane(s, image.width, image.height, api);
    SaneRing(EnsureTextures(s, image.width, image.height, api).host, t);
    var n := EnsureTextures(s, image.width, image.height, api);
    if api.openOk && n.ok {
      var h := PublishView(n.host, image, listed, n.recreated, api);
      forall i | |n.host.gpu| <= i < |h.gpu| ensures !Writes(h.gpu[i], t) {
        ViewCommandAt(n.host, image, ForcedFull(n.host, listed, n.recreated), api, i - |n.host.gpu|);
      }
    }
  }

  lemma SaneRing(s: Host, t: Texture)
    requires Sane(s)
    ensures WellFormed(s)
    ensures s.popupTexture == Some(t) ==> t < s.nextTexture && Some(t) !in s.ring && s.plane != Some(t)
  {}

  lemma PopupHeldView(r: Run, image: Image, listed: seq<Rect>, api: Answers)
    requires Kept(r) && PopupHeld(r)
    ensures PopupHeld(Advance(r, ViewPaint(image, listed, api)))
  {
    var t := Advance(r, ViewPaint(image, listed, api));
    EnsureLeaves(r.host, image.width, image.height, api);
    if r.popup.Some? {
      ViewPaintLeavesPopup(r.host, image, listed, api, r.host.popupTexture.value);
      MemoryKeptPast(r.host.gpu, t.host.gpu, r.host.popupTexture.value);
    }
  }

  lemma PublishPopupLeavesPopup(s: Host, api: Answers)
    requires Sane(s) && s.plane.Some? && s.popupTexture.Some?
    requires s.popupTexture.value in MemoryAfter(s.gpu)
    ensures var h, t := PublishPopup(s, api), s.popupTexture.value;
            && h.popupTexture == s.popupTexture
            && h.popupTexWidth == s.popupTexWidth && h.popupTexHeight == s.popupTexHeight
            && t in MemoryAfter(h.gpu) && MemoryAfter(h.gpu)[t] == MemoryAfter(s.gpu)[t]
  {
    MemoryKeptPast(s.gpu, PublishPopup(s, api).gpu, s.popupTexture.value);
  }

  lemma PopupHeldPopup(r: Run, image: Image, api: Answers)
    requires Kept(r) && PopupHeld(r) && PopupStored(r.host, image, api)
    ensures PopupHeld(Advance(r, PopupPaint(image, api)))
  {
    StorePopupHeld(r.host, image);
    StorePopupSane(r.host, image);
    if PlanePublishable(r.host) { PublishPopupLeavesPopup(StorePopup(r.host, image), api); }
  }

  lemma PopupHeldStep(r: Run, e: Event)
    requires Kept(r) && PopupHeld(r)
    ensures PopupHeld(Advance(r, e))
  {
    match e
    case ViewPaint(image, listed, api) => PopupHeldView(r, image, listed, api);
    case PopupPaint(image, api) => if PopupStored(r.host, image, api) { PopupHeldPopup(r, image, api); }
    case _ =>
  }

  lemma {:induction false} PopupHeldReplay(r: Run, events: seq<Event>)
    requires Kept(r) && PopupHeld(r)
    ensures PopupHeld(Replay(r, events))
    decreases |events|
  {
    if events != [] {
      KeptStep(r, events[0]);
      PopupHeldStep(r, events[0]);
      PopupHeldReplay(Advance(r, events[0]), events[1..]);
    }
  }

  // ---- Plane contents --------------------------------------------------------------------------

  lemma RegionEffect(m: Memory, area: Rect, target: Texture, source: Texture, p: Point)
    requires RegionFits(m, CopyRegion(target, area, source)) && Covers(area, p)
    ensures target in Apply(m, CopyRegion(target, area, source))
    ensures Apply(m, CopyRegion(target, area, source))[target].at(p) == m[source].at(Point(p.x - area.x, p.y - area.y))
  {}

  /** A region copy that fits shows the source's origin corner at the target area; later commands that leave
      the target alone keep it there. */
  lemma RegionLands(log: seq<Command>, area: Rect, target: Texture, source: Texture, more: seq<Command>)
    requires RegionFits(MemoryAfter(log), CopyRegion(target, area, source))
    requires log + [CopyRegion(target, area, source)] <= more && Untouched(more, target, |log| + 1)
    ensures target in MemoryAfter(more)
    ensures ShowsPopup(MemoryAfter(more)[target], MemoryAfter(log)[source], area, area)
  {
    var c := CopyRegion(target, area, source);
    MemoryStep(log, c);
    assert target in Apply(MemoryAfter(log), c);
    MemoryKeptPast(log + [c], more, target);
    forall p | Covers(area, p)
      ensures MemoryAfter(more)[target].at(p) == MemoryAfter(log)[source].at(Point(p.x - area.x, p.y - area.y))
    {
      RegionEffect(MemoryAfter(log), area, target, source, p);
    }
  }

  /** Where the popup image belongs on the surface. */
  ghost predicate ShowsPopup(plane: Image, image: Image, rect: Rect, area: Rect) {
    forall p :: Covers(area, p) ==> plane.at(p) == image.at(Point(p.x - rect.x, p.y - rect.y))
  }

  /** Between the slot copy and the plane copy of a view frame the popup texture and the plane are as needed. */
  lemma ViewPlaneReady(r: Run, image: Image, listed: seq<Rect>, api: Answers)
    requires Kept(r) && Agreeing(r) && PopupHeld(r) && Publishes(r.host, ViewPaint(image, listed, api))
    requires r.popup.Some? && EnsureTextures(r.host, image.width, image.height, api).host.plane.Some?
    ensures var n := EnsureTextures(r.host, image.width, image.height, api).host;
            var copy := CopyResource(n.ring[BackSlot(n)].value, image);
            && n.popupTexture == r.host.popupTexture
            && n.popupTexture.value in MemoryAfter(n.gpu + [copy])
            && MemoryAfter(n.gpu + [copy])[n.popupTexture.value] == r.popup.value
            && HasSize(n.gpu + [copy], n.plane.value, image.width, image.height)
  {
    hide CreateTextures, SlotsFilled, Sized, RingReady;
    var source := r.host.popupTexture.value;
    EnsureSane(r.host, image.width, image.height, api);
    EnsureSizes(r.host, image.width, image.height, api);
    EnsureLeavesTexture(r.host, image.width, image.height, api, source);
    var n := EnsureTextures(r.host, image.width, image.height, api).host;
    PlaneIsSized(n);
    MemoryKeptPast(r.host.gpu, n.gpu, source);
    MemoryStep(n.gpu, CopyResource(n.ring[BackSlot(n)].value, image));
  }

  lemma PlaneIsSized(s: Host)
    requires Sized(s) && s.plane.Some?
    ensures HasSize(s.gpu, s.plane.value, s.sharedWidth, s.sharedHeight)
  {}

  /** A view frame copies the popup to the plane when it lies inside the surface. */
  lemma ViewShowsPopup(s: Host, image: Image, listed: seq<Rect>, recreated: bool, api: Answers)
    requires Sane(s) && AllPresent(s.ring) && s.plane.Some? && s.popupTexture.Some?
    requires s.popupVisible && HasArea(s.popupRect)
    requires var ready := s.gpu + [CopyResource(s.ring[BackSlot(s)].value, image)];
             RegionFits(MemoryAfter(ready), CopyRegion(s.plane.value, s.popupRect, s.popupTexture.value))
    ensures var ready := s.gpu + [CopyResource(s.ring[BackSlot(s)].value, image)];
            var h := PublishView(s, image, listed, recreated, api);
            && s.plane.value in MemoryAfter(h.gpu)
            && ShowsPopup(MemoryAfter(h.gpu)[s.plane.value], MemoryAfter(ready)[s.popupTexture.value], s.popupRect,
                          s.popupRect)
  {
    hide Sane;
    SaneShape(s);
    var ready := s.gpu + [CopyResource(s.ring[BackSlot(s)].value, image)];
    var h := PublishView(s, image, listed, recreated, api);
    assert ready + PlaneCopy(s) <= h.gpu;
    forall i | |ready| + 1 <= i < |h.gpu| ensures !Writes(h.gpu[i], s.plane.value) {
      ViewCommandAt(s, image, ForcedFull(s, listed, recreated), api, i - |s.gpu|);
    }
    RegionLands(ready, s.popupRect, s.plane.value, s.popupTexture.value, h.gpu);
  }

  /** When the popup sticks out of the surface, the copy is dropped and the plane stays as it was. */
  lemma ViewLeavesPlane(s: Host, image: Image, listed: seq<Rect>, recreated: bool, api: Answers)
    requires Sane(s) && Sized(s) && AllPresent(s.ring) && s.plane.Some?
    requires !Within(s.popupRect, s.sharedWidth, s.sharedHeight)
    ensures var h := PublishView(s, image, listed, recreated, api);
            && s.plane.value in MemoryAfter(s.gpu) && s.plane.value in MemoryAfter(h.gpu)
            && MemoryAfter(h.gpu)[s.plane.value] == MemoryAfter(s.gpu)[s.plane.value]
  {
    hide Sane;
    SaneShape(s);
    SaneTextures(s);
    var t, full := s.plane.value, ForcedFull(s, listed, recreated);
    var h := PublishView(s, image, listed, recreated, api);
    var copied := s.gpu + ViewCopies(s, image);
    CopiesLeavePlane(s, image);
    assert copied <= h.gpu;
    forall i | |copied| <= i < |h.gpu| ensures !Writes(h.gpu[i], t) {
      ViewCommandAt(s, image, full, api, i - |s.gpu|);
    }
    MemoryKeptPast(copied, h.gpu, t);
  }

  lemma SaneShape(s: Host)
    requires Sane(s)
    ensures WellFormed(s)
  {}

  lemma SaneTextures(s: Host)
    requires Sane(s) && s.plane.Some?
    ensures s.plane.value in MemoryAfter(s.gpu) && s.plane !in s.ring
  {}

  lemma CopiesLeavePlane(s: Host, image: Image)
    requires Sized(s) && s.ring != [] && AllPresent(s.ring) && s.plane.Some? && s.plane !in s.ring
    requires s.plane.value in MemoryAfter(s.gpu) && !Within(s.popupRect, s.sharedWidth, s.sharedHeight)
    ensures var log := s.gpu + ViewCopies(s, image);
            s.plane.value in MemoryAfter(log) && MemoryAfter(log)[s.plane.value] == MemoryAfter(s.gpu)[s.plane.value]
  {
    var copy := CopyResource(s.ring[BackSlot(s)].value, image);
    MemoryStep(s.gpu, copy);
    assert s.ring[BackSlot(s)] != s.plane;
    if PlaneCopy(s) == [] {
      assert ViewCopies(s, image) == [copy];
    } else {
      MemoryStep(s.gpu + [copy], PlaneCopy(s)[0]);
      assert s.gpu + ViewCopies(s, image) == s.gpu + [copy] + [PlaneCopy(s)[0]];
    }
  }

  /** A fresh plane holds nothing. */
  lemma FreshPlaneIsBlank(s: Host, width: nat, height: nat, api: Answers)
    requires Sane(s) && !RingReady(s, width, height) && EnsureTextures(s, width, height, api).ok
    ensures var t := EnsureTextures(s, width, height, api).host;
            && t.plane.Some? && t.plane.value in MemoryAfter(t.gpu)
            && MemoryAfter(t.gpu)[t.plane.value] == Blank(width, height)
  {
    var ring := CreateRing(DropTextures(s), width, height, api);
    MemoryStep(ring.gpu, Create(ring.nextTexture, width, height));
  }

  lemma PublishPopupShows(s: Host, image: Image, api: Answers)
    requires Sane(s) && Sized(s) && PlanePublishable(s) && s.popupVisible && HasArea(ReportedRect(s))
    requires s.popupTexture.Some? && s.popupTexture.value in MemoryAfter(s.gpu)
    requires MemoryAfter(s.gpu)[s.popupTexture.value] == image
    requires image.width == s.popupRect.w && image.height == s.popupRect.h
    ensures var h, area := PublishPopup(s, api), ReportedRect(s);
            && h.plane == s.plane && h.plane.value in MemoryAfter(h.gpu)
            && ShowsPopup(MemoryAfter(h.gpu)[h.plane.value], image, area, area)
  {
    ClipIsIntersection(s.popupRect, s.sharedWidth, s.sharedHeight, Point(0, 0));
    RegionLands(s.gpu, ReportedRect(s), s.plane.value, s.popupTexture.value, PublishPopup(s, api).gpu);
  }

  /** The popup path copies the clipped rectangle from the popup image's origin. */
  lemma PopupPlaneOffset(r: Run, image: Image, api: Answers)
    requires Kept(r) && Agreeing(r) && PopupHeld(r) && Publishes(r.host, PopupPaint(image, api))
    requires r.host.popupVisible && HasArea(ReportedRect(r.host))
    requires image.width == r.host.popupRect.w && image.height == r.host.popupRect.h
    ensures var h, area := OnPopupPaint(r.host, image, api), ReportedRect(r.host);
            && h.plane.Some? && h.plane.value in MemoryAfter(h.gpu)
            && ShowsPopup(MemoryAfter(h.gpu)[h.plane.value], image, area, area)
  {
    hide Sane, Sized, PublishPopup, ShowsPopup;
    KeptMeans(r);
    if r.host.popupTexture.Some? { HeldTextureSize(r); }
    StorePopupHeld(r.host, image);
    StorePopupSane(r.host, image);
    PopupSizes(r.host, image, api);
    PublishPopupShows(StorePopup(r.host, image), image, api);
  }

  lemma HeldTextureSize(r: Run)
    requires PopupHeld(r) && r.host.popupTexture.Some?
    ensures HasSize(r.host.gpu, r.host.popupTexture.value, r.host.popupTexWidth, r.host.popupTexHeight)
  {}

  // ---- Published frames ------------------------------------------------------------------------

  /** Behind the seal of the newest frame there is at most a flush. */
  lemma SealIsLast(r: Run, e: Event)
    requires Proper(r) && Publishes(r.host, e)
    ensures var t := Advance(r, e);
            && t.log == r.log + [t.log[|r.log|]] && t.log[|r.log|].Shown?
            && forall i :: t.log[|r.log|].frame.sealAt < i < |t.host.gpu| ==> t.host.gpu[i] == Flush
  {
    hide EnsureTextures, StorePopup;
    match e
    case ViewPaint(image, listed, api) =>
      var n := EnsureTextures(r.host, image.width, image.height, api);
      SealEndsView(n.host, image, listed, n.recreated, api);
    case PopupPaint(image, api) =>
  }

  lemma SealEndsView(s: Host, image: Image, listed: seq<Rect>, recreated: bool, api: Answers)
    requires s.ring != [] && AllPresent(s.ring)
    ensures var t := PublishView(s, image, listed, recreated, api);
            forall i :: |s.gpu| + 1 + |PlaneCopy(s)| < i < |t.gpu| ==> t.gpu[i] == Flush
  {
    forall i | |s.gpu| + 1 + |PlaneCopy(s)| < i < |PublishView(s, image, listed, recreated, api).gpu|
      ensures PublishView(s, image, listed, recreated, api).gpu[i] == Flush
    {
      ViewCommandAt(s, image, ForcedFull(s, listed, recreated), api, i - |s.gpu|);
    }
  }

  /** Once the wait for the newest frame is over, the rest of the queue changes no texture. */
  lemma WaitedForNewest(r: Run, e: Event, progress: nat, x: Option<Texture>)
    requires Proper(r) && Publishes(r.host, e) && Kept(Advance(r, e))
    requires var t := Advance(r, e);
             progress <= |t.host.gpu| && |t.log| == |r.log| + 1 && t.log[|r.log|].Shown?
             && Waited(t.host.gpu, t.log[|r.log|].frame, progress)
    ensures SlotImage(Advance(r, e).host.gpu[..progress], x) == SlotImage(Advance(r, e).host.gpu, x)
  {
    hide Publishes, Advance, FencesIncrease;
    var t := Advance(r, e);
    var f, log := t.log[|r.log|].frame, t.host.gpu;
    SealIsLast(r, e);
    assert FrameKept(t, f);
    if f.header.fence > 0 {
      assert IsSignal(log, f.sealAt);
      FenceImpliesProgress(log, t.host.nextFence, f.sealAt, progress);
    }
    if x.Some? { MemoryKept(log, x.value, progress); }
  }

  /** The popup state of the newest header, and the surface it refers to. */
  lemma NewestPopup(r: Run, e: Event)
    requires Proper(r) && Publishes(r.host, e)
    ensures var t := Advance(r, e);
            && t.host.header.popupVisible == r.host.popupVisible && t.host.header.popupRect == r.host.popupRect
            && t.host.header.width == t.host.sharedWidth && t.host.header.height == t.host.sharedHeight
            && t.popup == (if e.PopupPaint? then Some(e.image) else r.popup)
            && (e.ViewPaint? ==> t.host.sharedWidth == e.image.width && t.host.sharedHeight == e.image.height)
            && (e.PopupPaint? ==>
                  t.host.sharedWidth == r.host.sharedWidth && t.host.sharedHeight == r.host.sharedHeight)
  {
    hide CreateTextures, EnsureTextures, PublishView, StorePopup, PublishPopup;
    PublishTells(r.host, e);
    if e.ViewPaint? { EnsureLeaves(r.host, e.image.width, e.image.height, e.api); }
  }

  /** What stands on the plane that the consumer has opened. */
  function PlaneImage(r: Run): Image {
    SlotImage(r.host.gpu, r.known.plane)
  }

  /** The part of the surface that the popup covers. */
  function VisibleArea(r: Run): Rect {
    Clip(r.host.header.popupRect, r.host.header.width, r.host.header.height)
  }

  /** The popup was painted at the size of its rectangle, and the newest header shows some of it. */
  predicate ShowsSome(r: Run) {
    var h := r.host.header;
    && h.popupVisible && HasArea(VisibleArea(r))
    && r.popup.Some? && r.popup.value.width == h.popupRect.w && r.popup.value.height == h.popupRect.h
  }

  /** The visible part of the popup stands on the plane where it belongs. */
  ghost predicate PopupShown(r: Run, plane: Image) {
    r.popup.Some? && ShowsPopup(plane, r.popup.value, r.host.header.popupRect, VisibleArea(r))
  }

  lemma ViewSteps(r: Run, e: Event)
    requires Reliable(r) && e.ViewPaint? && Publishes(r.host, e)
    ensures var n := EnsureTextures(r.host, e.image.width, e.image.height, e.api);
            && n.ok && Sane(n.host) && Sized(n.host) && AllPresent(n.host.ring) && n.host.plane.Some?
            && n.host.sharedWidth == e.image.width && n.host.sharedHeight == e.image.height
            && n.host.popupRect == r.host.popupRect && n.host.popupVisible == r.host.popupVisible
            && var t := Advance(r, e);
               && t.host == PublishView(n.host, e.image, e.listed, n.recreated, e.api)
               && t.known.plane == n.host.plane == t.host.plane && t.popup == r.popup
  {
    hide CreateTextures, SlotsFilled, Sized, PublishView, Counted, Sane;
    var n := EnsureTextures(r.host, e.image.width, e.image.height, e.api);
    KeptMeans(r);
    EnsureSane(r.host, e.image.width, e.image.height, e.api);
    EnsureSizes(r.host, e.image.width, e.image.height, e.api);
    EnsureLeaves(r.host, e.image.width, e.image.height, e.api);
    PublishedIsNoticed(r.host, e);
    AnnouncedStep(r, e);
    PublishesComplete(r, e);
    ViewLeaves(n.host, e.image, e.listed, n.recreated, e.api);
  }

  lemma ViewInside(r: Run, e: Event)
    requires Reliable(r) && PopupHeld(r) && e.ViewPaint? && Publishes(r.host, e)
    requires ShowsSome(Advance(r, e)) && Within(r.host.popupRect, e.image.width, e.image.height)
    ensures PopupShown(Advance(r, e), PlaneImage(Advance(r, e)))
  {
    hide Reliable, Advance, EnsureTextures, PublishView, Sized, Sane, ShowsPopup;
    ReliableParts(r);
    ViewSteps(r, e);
    NewestPopup(r, e);
    WithinClips(r.host.popupRect, e.image.width, e.image.height);
    ViewPlaneReady(r, e.image, e.listed, e.api);
    var n := EnsureTextures(r.host, e.image.width, e.image.height, e.api);
    ViewShowsPopup(n.host, e.image, e.listed, n.recreated, e.api);
  }

  lemma ReliableParts(r: Run)
    requires Reliable(r)
    ensures Proper(r) && Kept(r) && Agreeing(r) && Announced(r) && Sane(r.host)
  {}

  lemma WithinClips(rect: Rect, width: nat, height: nat)
    ensures HasArea(Clip(rect, width, height)) ==> HasArea(rect)
    ensures Within(rect, width, height) && HasArea(rect) ==> Clip(rect, width, height) == rect
  {}

  lemma ViewOutside(r: Run, e: Event)
    requires Reliable(r) && e.ViewPaint? && Publishes(r.host, e)
    requires !Within(r.host.popupRect, e.image.width, e.image.height)
    ensures var ready := RingReady(r.host, e.image.width, e.image.height);
            PlaneImage(Advance(r, e)) == if ready then PlaneImage(r) else Blank(e.image.width, e.image.height)
  {
    hide Reliable, Advance, CreateTextures, PublishView, Sized, Sane;
    ReliableParts(r);
    ViewSteps(r, e);
    var n := EnsureTextures(r.host, e.image.width, e.image.height, e.api);
    ViewLeavesPlane(n.host, e.image, e.listed, n.recreated, e.api);
    if !RingReady(r.host, e.image.width, e.image.height) {
      FreshPlaneIsBlank(r.host, e.image.width, e.image.height, e.api);
    }
  }

  lemma PopupFrameShows(r: Run, e: Event)
    requires Reliable(r) && PopupHeld(r) && e.PopupPaint? && Publishes(r.host, e) && ShowsSome(Advance(r, e))
    ensures ShowsPopup(PlaneImage(Advance(r, e)), e.image, VisibleArea(Advance(r, e)), VisibleArea(Advance(r, e)))
  {
    hide Reliable, Sized, Sane, ShowsPopup, OnPopupPaint;
    ReliableParts(r);
    NewestPopup(r, e);
    PopupPlaneOffset(r, e.image, e.api);
    PopupKeepsTextures(r.host, e.image, e.api);
    PublishesComplete(r, e);
  }

  // ---- The exact condition ---------------------------------------------------------------------

  /** No two points of the image look alike, and none looks like an empty texture. */
  ghost predicate Colourful(image: Image) {
    && (forall p :: OnSurface(image.width, image.height, p) ==> image.at(p) != Unwritten)
    && (forall p, q :: OnSurface(image.width, image.height, p) && OnSurface(image.width, image.height, q) && p != q ==>
          image.at(p) != image.at(q))
  }

  lemma ClipOffset(plane: Image, image: Image, rect: Rect, width: nat, height: nat)
    requires image.width == rect.w && image.height == rect.h && HasArea(Clip(rect, width, height))
    requires ShowsPopup(plane, image, Clip(rect, width, height), Clip(rect, width, height))
    ensures rect.x >= 0 && rect.y >= 0 ==> ShowsPopup(plane, image, rect, Clip(rect, width, height))
    ensures Colourful(image) && ShowsPopup(plane, image, rect, Clip(rect, width, height)) ==> rect.x >= 0 && rect.y >= 0
  {
    var area := Clip(rect, width, height);
    var corner := Point(area.x, area.y);
    assert Covers(area, corner);
    assert plane.at(corner) == image.at(Point(0, 0));
    assert OnSurface(image.width, image.height, Point(0, 0));
    assert OnSurface(image.width, image.height, Point(area.x - rect.x, area.y - rect.y));
  }

  lemma BlankShowsNothing(image: Image, rect: Rect, width: nat, height: nat)
    requires Colourful(image) && image.width == rect.w && image.height == rect.h && HasArea(Clip(rect, width, height))
    ensures !ShowsPopup(Blank(width, height), image, rect, Clip(rect, width, height))
  {
    var area := Clip(rect, width, height);
    assert Covers(area, Point(area.x, area.y));
    assert OnSurface(image.width, image.height, Point(area.x - rect.x, area.y - rect.y));
  }

  /** When a paint puts the popup in place: a popup frame when no coordinate is negative, a view frame when the popup
      lies inside the surface, or when the textures are ready and the plane already shows it. */
  ghost predicate PutsInPlace(r: Run, e: Event)
    requires Proper(r)
  {
    var rect := r.host.popupRect;
    if e.PopupPaint? then rect.x >= 0 && rect.y >= 0
    else
      e.ViewPaint? &&
      (|| Within(rect, e.image.width, e.image.height)
       || (&& RingReady(r.host, e.image.width, e.image.height) && r.popup.Some?
           && ShowsPopup(PlaneImage(r), r.popup.value, rect, Clip(rect, e.image.width, e.image.height))))
  }

  lemma PlacedExactly(r: Run, e: Event)
    requires Reliable(r) && PopupHeld(r) && Proper(r) && Publishes(r.host, e) && ShowsSome(Advance(r, e))
    ensures var t := Advance(r, e);
            && t.known.plane.Some?
            && (PutsInPlace(r, e) ==> PopupShown(t, PlaneImage(t)))
            && (Colourful(t.popup.value) ==> (PopupShown(t, PlaneImage(t)) <==> PutsInPlace(r, e)))
  {
    hide Reliable, Advance, Publishes, PopupHeld, ShowsPopup, Colourful, RingReady;
    var t := Advance(r, e);
    PublishesPaints(r.host, e);
    NewestPopup(r, e);
    PublishedPlane(r, e);
    if e.PopupPaint? {
      PopupFrameShows(r, e);
      ClipOffset(PlaneImage(t), e.image, r.host.popupRect, t.host.header.width, t.host.header.height);
    } else if Within(r.host.popupRect, e.image.width, e.image.height) {
      ViewInside(r, e);
    } else {
      ViewOutside(r, e);
      if Colourful(t.popup.value) {
        BlankShowsNothing(t.popup.value, r.host.popupRect, t.host.header.width, t.host.header.height);
      }
    }
  }

  lemma PublishesPaints(s: Host, e: Event)
    requires Publishes(s, e)
    ensures e.ViewPaint? || e.PopupPaint?
  {}

  lemma PublishedPlane(r: Run, e: Event)
    requires Reliable(r) && Publishes(r.host, e)
    ensures Advance(r, e).known.plane.Some?
  {
    hide Advance, Publishes, Kept, Faithful, Counted;
    KeptMeans(r);
    PublishedIsNoticed(r.host, e);
    AnnouncedStep(r, e);
    PublishesComplete(r, e);
  }

  lemma {:induction false} PopupHeldRun(slots: nat, maxRects: nat, hasFence: bool, events: seq<Event>)
    requires 2 <= slots && 1 <= maxRects < 256
    requires AlwaysNoticed(Start(slots, maxRects, hasFence), events)
    ensures var r := Replay(Start(slots, maxRects, hasFence), events); Reliable(r) && PopupHeld(r)
  {
    hide Reliable;
    StartReliable(slots, maxRects, hasFence);
    StartKept(slots, maxRects, hasFence);
    ReliableReplay(Start(slots, maxRects, hasFence), events);
    PopupHeldReplay(Start(slots, maxRects, hasFence), events);
  }

  /** In every run without an unnoticed failure, when a published header shows some of the popup and the consumer has
      waited for that frame, the plane it has opened shows that part of the latest stored popup image in place whenever
      the paint puts it there, and for a colourful image only then. */
  lemma PopupShownExactly(slots: nat, maxRects: nat, hasFence: bool, events: seq<Event>, e: Event, progress: nat)
    requires 2 <= slots && 1 <= maxRects < 256
    requires AlwaysNoticed(Start(slots, maxRects, hasFence), events)
    requires var r := Replay(Start(slots, maxRects, hasFence), events);
             && Publishes(r.host, e) && ShowsSome(Advance(r, e))
             && var t := Advance(r, e);
                && progress <= |t.host.gpu| && |t.log| == |r.log| + 1 && t.log[|r.log|].Shown?
                && Waited(t.host.gpu, t.log[|r.log|].frame, progress)
    ensures var r := Replay(Start(slots, maxRects, hasFence), events);
            var t := Advance(r, e);
            var plane := SlotImage(t.host.gpu[..progress], t.known.plane);
            && t.known.plane.Some?
            && (PutsInPlace(r, e) ==> PopupShown(t, plane))
            && (Colourful(t.popup.value) ==> (PopupShown(t, plane) <==> PutsInPlace(r, e)))
  {
    hide Advance, Publishes, PopupHeld, PutsInPlace, PopupShown, Colourful, ShowsSome, Waited;
    var r := Replay(Start(slots, maxRects, hasFence), events);
    PopupHeldRun(slots, maxRects, hasFence, events);
    PlacedExactly(r, e);
    KeptStep(r, e);
    WaitedForNewest(r, e, progress, Advance(r, e).known.plane);
  }

  // ---- Until something moves it ----------------------------------------------------------------

  /** The popup is shown with no negative coordinate, and its visible part stands on the plane in place. */
  ghost predicate InPlace(r: Run) {
    var rect, area := r.host.popupRect, Clip(r.host.popupRect, r.host.sharedWidth, r.host.sharedHeight);
    && r.host.popupVisible && r.host.plane.Some? && rect.x >= 0 && rect.y >= 0 && HasArea(area)
    && r.popup.Some? && r.popup.value.width == rect.w && r.popup.value.height == rect.h
    && ShowsPopup(PlaneImage(r), r.popup.value, rect, area)
  }

  /** Neither moves nor hides the popup, nor recreates the textures, nor fails to store a popup image of its size. */
  predicate LeavesPopup(r: Run, e: Event) {
    match e
    case ViewPaint(image, _, api) => api.openOk ==> RingReady(r.host, image.width, image.height)
    case PopupPaint(image, api) =>
      api.openOk ==>
        PopupStored(r.host, image, api) && image.width == r.host.popupRect.w && image.height == r.host.popupRect.h
    case PopupShow(show) => show
    case PopupSize(_) => false
    case _ => true
  }

  predicate LeavesPopupRun(r: Run, events: seq<Event>)
    requires Proper(r)
    decreases |events|
  {
    events == [] || (LeavesPopup(r, events[0]) && LeavesPopupRun(Advance(r, events[0]), events[1..]))
  }

  lemma LeavingIsNoticed(r: Run, e: Event)
    requires LeavesPopup(r, e)
    ensures !Unnoticed(r.host, e)
  {
    hide RingReady;
  }

  /** A published frame that puts a popup without negative coordinates in place. */
  lemma FramePlaces(r: Run, e: Event)
    requires Reliable(r) && PopupHeld(r) && Proper(r) && Publishes(r.host, e) && ShowsSome(Advance(r, e))
    requires PutsInPlace(r, e) && r.host.popupRect.x >= 0 && r.host.popupRect.y >= 0
    ensures InPlace(Advance(r, e)) && PopupShown(Advance(r, e), PlaneImage(Advance(r, e)))
  {
    hide Reliable, Advance, Publishes, PopupHeld, ShowsPopup, PutsInPlace;
    PlacedExactly(r, e);
    PublishesPaints(r.host, e);
    NewestPopup(r, e);
    StepFollows(r.host, e);
    PlaneAfterPublish(r, e);
  }

  lemma PlaneAfterPublish(r: Run, e: Event)
    requires Reliable(r) && Publishes(r.host, e)
    ensures Advance(r, e).host.plane.Some?
  {
    hide Advance, Publishes, Kept, Faithful, Counted;
    KeptMeans(r);
    PublishedIsNoticed(r.host, e);
    AnnouncedStep(r, e);
    PublishesComplete(r, e);
  }

  lemma PublishedLeaves(r: Run, e: Event)
    requires Reliable(r) && Proper(r) && InPlace(r) && LeavesPopup(r, e) && Publishes(r.host, e)
    ensures ShowsSome(Advance(r, e)) && PutsInPlace(r, e)
  {
    hide Reliable, Advance, Publishes, ShowsPopup, PlaneImage, PopupStored;
    ReadyToPublish(r, e);
    NewestPopup(r, e);
  }

  lemma ReadyToPublish(r: Run, e: Event)
    requires LeavesPopup(r, e) && Publishes(r.host, e)
    ensures e.ViewPaint? || e.PopupPaint?
    ensures e.ViewPaint? ==>
              && RingReady(r.host, e.image.width, e.image.height)
              && r.host.sharedWidth == e.image.width && r.host.sharedHeight == e.image.height
    ensures e.PopupPaint? ==> e.image.width == r.host.popupRect.w && e.image.height == r.host.popupRect.h
  {
    hide EnsureTextures;
  }

  /** What does not publish leaves the popup, its texture and the plane as they are. */
  lemma QuietLeaves(r: Run, e: Event)
    requires Proper(r) && InPlace(r) && LeavesPopup(r, e) && !Publishes(r.host, e)
    ensures InPlace(Advance(r, e))
  {
    hide ShowsPopup, EnsureTextures, PublishView, StorePopup, PublishPopup, PopupStored;
    QuietKnown(r, e);
    match e
    case ViewPaint(image, _, api) => if api.openOk { EnsureLeaves(r.host, image.width, image.height, api); }
    case PopupPaint(image, api) =>
    case _ =>
  }

  lemma InPlaceStep(r: Run, e: Event)
    requires Reliable(r) && PopupHeld(r) && Proper(r) && InPlace(r) && LeavesPopup(r, e)
    ensures var t := Advance(r, e);
            && Proper(t) && Reliable(t) && PopupHeld(t) && InPlace(t)
            && (Publishes(r.host, e) ==> ShowsSome(t) && PopupShown(t, PlaneImage(t)))
  {
    hide Reliable, Advance, Publishes, PopupHeld, InPlace, LeavesPopup, PopupShown, PutsInPlace, Unnoticed;
    ReliableParts(r);
    LeavingIsNoticed(r, e);
    ReliableStep(r, e);
    AdvanceProper(r, e);
    PopupHeldStep(r, e);
    if Publishes(r.host, e) {
      PublishedLeaves(r, e);
      InPlaceMeans(r);
      FramePlaces(r, e);
    } else {
      QuietLeaves(r, e);
    }
  }

  lemma InPlaceMeans(r: Run)
    requires InPlace(r)
    ensures r.host.popupRect.x >= 0 && r.host.popupRect.y >= 0
  {}

  lemma {:induction false} InPlaceReplay(r: Run, events: seq<Event>)
    requires Reliable(r) && PopupHeld(r) && Proper(r) && InPlace(r) && LeavesPopupRun(r, events)
    ensures var t := Replay(r, events); Reliable(t) && PopupHeld(t) && InPlace(t)
    decreases |events|
  {
    hide Reliable, Advance, PopupHeld, InPlace, LeavesPopup;
    if events != [] {
      InPlaceStep(r, events[0]);
      InPlaceReplay(Advance(r, events[0]), events[1..]);
    }
  }

  /** Once a popup without negative coordinates is in place, every later frame shows its visible part in place to a
      consumer that has waited, until the popup is moved or hidden, the textures are recreated, or a popup image of
      another size arrives or cannot be stored. */
  lemma PopupStaysInPlace(slots: nat, maxRects: nat, hasFence: bool, before: seq<Event>, events: seq<Event>, e: Event,
                          progress: nat)
    requires 2 <= slots && 1 <= maxRects < 256
    requires AlwaysNoticed(Start(slots, maxRects, hasFence), before)
    requires var r := Replay(Start(slots, maxRects, hasFence), before);
             && InPlace(r) && LeavesPopupRun(r, events)
             && var q := Replay(r, events);
                && LeavesPopup(q, e) && Publishes(q.host, e)
                && var t := Advance(q, e);
                   && progress <= |t.host.gpu| && |t.log| == |q.log| + 1 && t.log[|q.log|].Shown?
                   && Waited(t.host.gpu, t.log[|q.log|].frame, progress)
    ensures var t := Advance(Replay(Replay(Start(slots, maxRects, hasFence), before), events), e);
            ShowsSome(t) && PopupShown(t, SlotImage(t.host.gpu[..progress], t.known.plane))
  {
    hide Advance, Publishes, PopupHeld, InPlace, LeavesPopup, PopupShown, ShowsSome, Waited, Reliable;
    var r := Replay(Start(slots, maxRects, hasFence), before);
    PopupHeldRun(slots, maxRects, hasFence, before);
    InPlaceReplay(r, events);
    var q := Replay(r, events);
    InPlaceStep(q, e);
    ReliableParts(q);
    KeptStep(q, e);
    WaitedForNewest(q, e, progress, Advance(q, e).known.plane);
  }

  // ---- Misplaced popups ------------------------------------------------------------------------

  function Stripes(width: nat): Image {
    Image(width, 1, (p: Point) => Bgra(if p.x < 0 then 0 else p.x))
  }

  lemma StripesAreColourful(width: nat)
    ensures Colourful(Stripes(width))
  {}

  function PopupAt(x: int): seq<Event> {
    [PopupShow(true), PopupSize(Rect(x, 0, 2, 1)), PopupPaint(Stripes(2), GOOD)]
  }

  const VIEW := ViewPaint(Stripes(2), [], GOOD)

  /** Where the popup is after these events, for a producer without textures. */
  lemma PopupAtState(x: int)
    ensures AlwaysNoticed(Start(2, 1, true), PopupAt(x))
    ensures var r := Replay(Start(2, 1, true), PopupAt(x));
            && Reliable(r) && PopupHeld(r) && r.popup == Some(Stripes(2))
            && r.host.popupVisible && r.host.popupRect == Rect(x, 0, 2, 1) && !RingReady(r.host, 2, 1)
  {
    hide Reliable, PopupHeld, Start, Unnoticed;
    RingFailuresAreNoticed(Start(2, 1, true), PopupAt(x));
    PopupHeldRun(2, 1, true, PopupAt(x));
    ReplayThree(Start(2, 1, true), PopupShow(true), PopupSize(Rect(x, 0, 2, 1)), PopupPaint(Stripes(2), GOOD));
    NoTexturesYet(x);
  }

  lemma NoTexturesYet(x: int)
    ensures var r := Start(2, 1, true);
            var shown := Advance(Advance(r, PopupShow(true)), PopupSize(Rect(x, 0, 2, 1)));
            var t := Advance(shown, PopupPaint(Stripes(2), GOOD));
            && t.popup == Some(Stripes(2)) && t.host.popupVisible && t.host.popupRect == Rect(x, 0, 2, 1)
            && !RingReady(t.host, 2, 1)
  {
    hide PublishPopup;
    StoreLeaves(Advance(Advance(Start(2, 1, true), PopupShow(true)), PopupSize(Rect(x, 0, 2, 1))).host, Stripes(2));
    assert Start(2, 1, true).host.ring[0].None?;
  }

  lemma ReplayThree(r: Run, a: Event, b: Event, c: Event)
    requires Proper(r)
    ensures Proper(Advance(r, a)) && Proper(Advance(Advance(r, a), b))
    ensures Replay(r, [a, b, c]) == Advance(Advance(Advance(r, a), b), c)
  {
    hide Advance, Replay, Proper;
    ReplayTwo(r, a, b);
    ReplayLast(r, [a, b], c);
    assert [a, b] + [c] == [a, b, c];
  }

  lemma ViewPublishes(s: Host)
    requires WellFormed(s)
    ensures Publishes(s, VIEW)
  {
    AllCreated(GOOD, 0, |s.ring|);
  }

  /** A popup that sticks out on the right is announced with an empty plane when the textures were just recreated. */
  lemma ClippedPopupRun()
    ensures var r := Replay(Start(2, 1, true), PopupAt(1));
            && Publishes(r.host, VIEW)
            && var t := Advance(r, VIEW);
               && ShowsSome(t) && t.known.plane.Some? && PlaneImage(t) == Blank(2, 1) && !PopupShown(t, PlaneImage(t))
  {
    hide Reliable, Advance, Replay, Publishes, PopupHeld, PopupShown, RingReady;
    var r := Replay(Start(2, 1, true), PopupAt(1));
    PopupAtState(1);
    ViewPublishes(r.host);
    NewestPopup(r, VIEW);
    ViewOutside(r, VIEW);
    StripesAreColourful(2);
    PlacedExactly(r, VIEW);
  }

  /** A popup that starts left of the surface shows the wrong columns. */
  lemma LeftPopupRun()
    ensures var r := Replay(Start(2, 1, true), PopupAt(-1) + [VIEW]);
            && var e := PopupPaint(Stripes(2), GOOD);
               && Publishes(r.host, e)
               && var t := Advance(r, e); ShowsSome(t) && !PopupShown(t, PlaneImage(t))
  {
    hide Reliable, Advance, Replay, PopupHeld, PopupShown, RingReady, Unnoticed, EnsureTextures, Colourful;
    var before, e := Replay(Start(2, 1, true), PopupAt(-1)), PopupPaint(Stripes(2), GOOD);
    PopupAtState(-1);
    ViewPublishes(before.host);
    KeptPaintIsNoticed(before.host, VIEW);
    ReplayLast(Start(2, 1, true), PopupAt(-1), VIEW);
    NewestPopup(before, VIEW);
    ReliableStep(before, VIEW);
    ReliableParts(before);
    PopupHeldStep(before, VIEW);
    var r := Advance(before, VIEW);
    PlaneIsThere(before, VIEW);
    NewestPopup(r, e);
    StripesAreColourful(2);
    PlacedExactly(r, e);
  }

  lemma PlaneIsThere(r: Run, e: Event)
    requires Reliable(r) && PopupHeld(r) && r.host.popupVisible && e.ViewPaint? && Publishes(r.host, e)
    ensures var t := Advance(r, e).host;
            && t.plane.Some? && t.popupVisible && t.popupRect == r.host.popupRect
  {
    hide Reliable, EnsureTextures, PublishView, Sized, Sane;
    ReliableParts(r);
    ViewSteps(r, e);
    StepFollows(r.host, e);
  }

  // ---- Reported rectangles ---------------------------------------------------------------------

  /** A popup frame reports exactly the visible part of the popup, or of the rectangle it was last hidden from. */
  lemma ReportIsIntersection(r: Run, image: Image, api: Answers, p: Point)
    requires Proper(r) && Publishes(r.host, PopupPaint(image, api))
    ensures var h := AdvancePopup(r, image, api).host.header;
            var rect := if r.host.popupVisible then r.host.popupRect else r.host.clearRect;
            && h.dirtyCount <= 1 <= |h.dirtyRects|
            && (CoveredBy(h.Dirty(), p) <==> Covers(rect, p) && OnSurface(h.width, h.height, p))
            && (forall i :: 0 <= i < |h.Dirty()| ==> HasArea(h.Dirty()[i]) && Within(h.Dirty()[i], h.width, h.height))
  {
    var h := AdvancePopup(r, image, api).host.header;
    var rect := if r.host.popupVisible then r.host.popupRect else r.host.clearRect;
    ClipIsIntersection(rect, h.width, h.height, p);
    if h.dirtyCount == 1 {
      assert h.Dirty() == [ReportedRect(r.host)];
      assert h.Dirty()[0] == ReportedRect(r.host);
    }
  }

  predicate ReportsHiddenArea(x: Entry) {
    x.Shown? && !x.frame.isView && !x.frame.header.popupVisible && x.frame.header.dirtyCount > 0
  }

  predicate NeverHides(events: seq<Event>) {
    forall i :: 0 <= i < |events| && events[i].PopupShow? ==> events[i].show
  }

  lemma NoReportStep(r: Run, e: Event)
    requires Proper(r) && r.host.clearRect == EMPTY_RECT && (e.PopupShow? ==> e.show)
    ensures var t := Advance(r, e);
            && Proper(t) && t.host.clearRect == EMPTY_RECT && r.log <= t.log
            && (forall i :: |r.log| <= i < |t.log| ==> !ReportsHiddenArea(t.log[i]))
  {
    hide EnsureTextures, PublishView, StorePopup, PublishPopup;
    AdvanceProper(r, e);
    match e
    case ViewPaint(image, listed, api) =>
      var n := EnsureTextures(r.host, image.width, image.height, api);
      EnsureLeaves(r.host, image.width, image.height, api);
      if n.ok { ViewLeaves(n.host, image, listed, n.recreated, api); }
    case PopupPaint(image, api) => NoReportPopup(r, image, api);
    case _ =>
  }

  lemma NoReportPopup(r: Run, image: Image, api: Answers)
    requires Proper(r) && r.host.clearRect == EMPTY_RECT
    ensures var t := Advance(r, PopupPaint(image, api));
            && t.host.clearRect == EMPTY_RECT && r.log <= t.log
            && (forall i :: |r.log| <= i < |t.log| ==> !ReportsHiddenArea(t.log[i]))
  {
    hide StorePopup, PopupCommands;
    StoreLeaves(r.host, image);
    PopupPaintParts(r.host, image, api);
  }

  lemma {:induction false} NoReportReplay(r: Run, events: seq<Event>)
    requires Proper(r) && r.host.clearRect == EMPTY_RECT && NeverHides(events)
    ensures var t := Replay(r, events);
            && r.log <= t.log
            && (forall i :: |r.log| <= i < |t.log| ==> !ReportsHiddenArea(t.log[i]))
    decreases |events|
  {
    if events != [] {
      NoReportStep(r, events[0]);
      NoReportReplay(Advance(r, events[0]), events[1..]);
    }
  }

  /** After a hide, at most one popup frame reports the old area: once one was published while hidden, none does
      again before the next hide, whatever else happens. */
  lemma HiddenAreaReportedOnce(r: Run, image: Image, api: Answers, events: seq<Event>)
    requires Proper(r) && !r.host.popupVisible && Publishes(r.host, PopupPaint(image, api)) && NeverHides(events)
    ensures var first := AdvancePopup(r, image, api);
            Proper(first) &&
            var t := Replay(first, events);
            forall i :: |first.log| <= i < |t.log| ==> !ReportsHiddenArea(t.log[i])
  {
    AdvanceProper(r, PopupPaint(image, api));
    NoReportReplay(AdvancePopup(r, image, api), events);
  }

  /** The popup area still to be reported as repainted: the rectangle that the last hide took away, if it had a width,
      until a popup frame is published while the popup is hidden. `shown` and `place` follow the popup events. */
  function OwedArea(r: Run, shown: bool, place: Rect, owed: Rect, events: seq<Event>): Rect
    requires Proper(r)
    decreases |events|
  {
    if events == [] then owed
    else
      var e := events[0];
      AdvanceProper(r, e);
      var paid := !shown && e.PopupPaint? && Publishes(r.host, e);
      var taken := e.PopupShow? && !e.show && place.w > 0;
      OwedArea(Advance(r, e), ShowOf(shown, e), PlaceOf(place, e),
               if paid then EMPTY_RECT else if taken then place else owed, events[1..])
  }

  lemma OwedStep(s: Host, e: Event)
    requires WellFormed(s)
    ensures Step(s, e).clearRect ==
            if !s.popupVisible && e.PopupPaint? && Publishes(s, e) then EMPTY_RECT
            else if e.PopupShow? && !e.show && s.popupRect.w > 0 then s.popupRect
            else s.clearRect
  {
    hide CreateTextures, EnsureTextures, PublishView, StorePopup, PopupCommands, PopupHeader;
    match e
    case ViewPaint(image, listed, api) =>
      EnsureLeaves(s, image.width, image.height, api);
      var n := EnsureTextures(s, image.width, image.height, api);
      if n.ok { ViewLeaves(n.host, image, listed, n.recreated, api); }
    case PopupPaint(image, api) =>
      PopupPaintParts(s, image, api);
      StoreLeaves(s, image);
    case _ =>
  }

  lemma {:induction false} OwedReplay(r: Run, events: seq<Event>)
    requires Proper(r)
    ensures Replay(r, events).host.clearRect
            == OwedArea(r, r.host.popupVisible, r.host.popupRect, r.host.clearRect, events)
    decreases |events|
  {
    hide Advance, Step, Publishes;
    if events != [] {
      AdvanceProper(r, events[0]);
      OwedStep(r.host, events[0]);
      StepFollows(r.host, events[0]);
      OwedReplay(Advance(r, events[0]), events[1..]);
    }
  }

  /** In every run a popup frame reports exactly the visible part of the popup where it was last placed, or while it is
      hidden exactly the visible part of the area still owed. */
  lemma ReportsExactly(slots: nat, maxRects: nat, hasFence: bool, events: seq<Event>, e: Event, p: Point)
    requires 2 <= slots && 1 <= maxRects < 256 && e.PopupPaint?
    requires Publishes(Replay(Start(slots, maxRects, hasFence), events).host, e)
    ensures var start := Start(slots, maxRects, hasFence);
            var h := Advance(Replay(start, events), e).host.header;
            var rect := if LastShow(false, events) then LastPlace(EMPTY_RECT, events)
                        else OwedArea(start, false, EMPTY_RECT, EMPTY_RECT, events);
            && h.dirtyCount <= 1 <= |h.dirtyRects|
            && (CoveredBy(h.Dirty(), p) <==> Covers(rect, p) && OnSurface(h.width, h.height, p))
  {
    var start := Start(slots, maxRects, hasFence);
    OwedReplay(start, events);
    ReplayFollows(start, events);
    ReportIsIntersection(Replay(start, events), e.image, e.api, p);
  }

  /** Neither shows, hides nor paints the popup. */
  predicate NoPopupNews(events: seq<Event>) {
    forall i :: 0 <= i < |events| ==> !events[i].PopupShow? && !events[i].PopupPaint?
  }

  lemma {:induction false} OwedKept(r: Run, place: Rect, owed: Rect, events: seq<Event>)
    requires Proper(r) && NoPopupNews(events)
    ensures OwedArea(r, false, place, owed, events) == owed && LastShow(false, events) == false
    decreases |events|
  {
    hide Advance, Publishes;
    if events != [] {
      AdvanceProper(r, events[0]);
      OwedKept(Advance(r, events[0]), PlaceOf(place, events[0]), owed, events[1..]);
    }
  }

  lemma {:induction false} OwedAfterHide(r: Run, shown: bool, place: Rect, owed: Rect, before: seq<Event>,
                                         after: seq<Event>)
    requires Proper(r) && NoPopupNews(after) && LastPlace(place, before).w > 0
    ensures var events := before + [PopupShow(false)] + after;
            OwedArea(r, shown, place, owed, events) == LastPlace(place, before) && !LastShow(shown, events)
    decreases |before|
  {
    hide Advance, Publishes;
    var events := before + [PopupShow(false)] + after;
    AdvanceProper(r, events[0]);
    var r1 := Advance(r, events[0]);
    if before == [] {
      assert events[0] == PopupShow(false) && events[1..] == after;
      OwedKept(r1, EMPTY_RECT, place, after);
    } else {
      assert events[0] == before[0] && events[1..] == before[1..] + [PopupShow(false)] + after;
      var e := before[0];
      var paid := !shown && e.PopupPaint? && Publishes(r.host, e);
      var taken := e.PopupShow? && !e.show && place.w > 0;
      OwedAfterHide(r1, ShowOf(shown, e), PlaceOf(place, e),
                    if paid then EMPTY_RECT else if taken then place else owed, before[1..], after);
    }
  }

  /** The first popup frame after a popup was hidden reports exactly the visible part of the rectangle it was hidden
      from. */
  lemma HiddenAreaIsReported(slots: nat, maxRects: nat, hasFence: bool, before: seq<Event>, after: seq<Event>,
                             e: Event, p: Point)
    requires 2 <= slots && 1 <= maxRects < 256 && e.PopupPaint?
    requires NoPopupNews(after) && LastPlace(EMPTY_RECT, before).w > 0
    requires Publishes(Replay(Start(slots, maxRects, hasFence), before + [PopupShow(false)] + after).host, e)
    ensures var events := before + [PopupShow(false)] + after;
            var h := Advance(Replay(Start(slots, maxRects, hasFence), events), e).host.header;
            && h.dirtyCount <= 1 <= |h.dirtyRects|
            && (CoveredBy(h.Dirty(), p) <==>
                  Covers(LastPlace(EMPTY_RECT, before), p) && OnSurface(h.width, h.height, p))
  {
    hide Advance, Replay, Publishes;
    var events := before + [PopupShow(false)] + after;
    ReportsExactly(slots, maxRects, hasFence, events, e, p);
    OwedAfterHide(Start(slots, maxRects, hasFence), false, EMPTY_RECT, EMPTY_RECT, before, after);
  }
}
