/** When the recorded surface size, the textures really in the ring and the published front agree. */
module RingAgreement {
  import opened Geometry
  import opened Gpu
  import opened Publication
  import opened Protocol
  import opened FrameRing

  predicate HasSize(log: seq<Command>, t: Texture, width: nat, height: nat) {
    && t in MemoryAfter(log)
    && MemoryAfter(log)[t].width == width && MemoryAfter(log)[t].height == height
  }

  /** A complete ring, and the popup plane, have the recorded size. */
  ghost predicate Sized(s: Host) {
    && (AllPresent(s.ring) ==>
          forall i :: 0 <= i < |s.ring| ==> HasSize(s.gpu, s.ring[i].value, s.sharedWidth, s.sharedHeight))
    && (s.plane.Some? ==> HasSize(s.gpu, s.plane.value, s.sharedWidth, s.sharedHeight))
  }

  /** Whenever popup frames can be published, the slot they advertise holds the last published view. */
  predicate FrontShown(r: Run)
    requires Proper(r)
  {
    r.host.plane.Some? ==>
      r.front.Some? && r.host.ring[r.host.writeSlot] == Some(r.front.value.texture)
  }

  ghost predicate Agreeing(r: Run) {
    Proper(r) && Sized(r.host) && FrontShown(r)
  }

  /** The failure that is not noticed later: every slot got a texture, but a handle or the popup plane then failed,
      so the size on record is not the size of the ring, or a popup plane exists without a published front. */
  predicate StaleFailure(s: Host, e: Event) {
    && e.ViewPaint? && e.api.openOk && e.api.deviceOk
    && !RingReady(s, e.image.width, e.image.height)
    && SlotsFilled(e.api, |s.ring|) == |s.ring|
    && (FirstFailure(e.api, 0, |s.ring|) < |s.ring| || !e.api.plane.Created?)
    && (e.image.width != s.sharedWidth || e.image.height != s.sharedHeight
        || (FirstFailure(e.api, 0, |s.ring|) == |s.ring| && e.api.plane.NoHandle?))
  }

  lemma CreateRingSizes(s: Host, width: nat, height: nat, api: Answers)
    requires Sane(s)
    ensures var t := CreateRing(s, width, height, api);
            forall i :: 0 <= i < SlotsFilled(api, |s.ring|) ==>
              t.ring[i].Some? && HasSize(t.gpu, t.ring[i].value, width, height)
  {
    var filled, t := SlotsFilled(api, |s.ring|), CreateRing(s, width, height, api);
    CreationsEffect(s.gpu, filled, s.nextTexture, width, height, s.nextFence);
    forall i | 0 <= i < filled ensures t.ring[i].Some? && HasSize(t.gpu, t.ring[i].value, width, height) {
      var x: Texture := s.nextTexture + i;
      assert t.ring[i] == Some(x);
      assert x in MemoryAfter(t.gpu);
    }
  }

  lemma CreatePlaneSizes(s: Host, width: nat, height: nat, api: Answers)
    requires Sane(s) && s.plane.None?
    ensures var t := CreatePlane(s, width, height, api);
            && (t.plane.Some? ==> HasSize(t.gpu, t.plane.value, width, height))
            && (forall x: Texture, w: nat, h: nat :: x < s.nextTexture && HasSize(s.gpu, x, w, h) ==>
                  HasSize(t.gpu, x, w, h))
  {
    MemoryStep(s.gpu, Create(s.nextTexture, width, height));
  }

  /** The fresh ring, and the fresh plane when there is one, have the size that was asked for. */
  lemma RecreatedSizes(s: Host, width: nat, height: nat, api: Answers)
    requires Sane(s) && !RingReady(s, width, height) && api.deviceOk && SlotsFilled(api, |s.ring|) == |s.ring|
    ensures var t := EnsureTextures(s, width, height, api).host;
            && AllPresent(t.ring)
            && (forall i :: 0 <= i < |t.ring| ==> HasSize(t.gpu, t.ring[i].value, width, height))
            && (t.plane.Some? ==> HasSize(t.gpu, t.plane.value, width, height))
  {
    var bare := DropTextures(s);
    assert Sane(bare);
    var r := CreateRing(bare, width, height, api);
    CreateRingSane(bare, width, height, api);
    CreateRingSizes(bare, width, height, api);
    CreatePlaneSizes(r, width, height, api);
  }

  lemma PartialRing(s: Host, width: nat, height: nat, api: Answers)
    requires s.ring != [] && !RingReady(s, width, height)
    requires !api.deviceOk || SlotsFilled(api, |s.ring|) < |s.ring|
    ensures var e := EnsureTextures(s, width, height, api);
            !e.ok && e.host.plane.None? && !AllPresent(e.host.ring)
  {
    var e := EnsureTextures(s, width, height, api);
    assert e.host.ring[|s.ring| - 1].None?;
  }

  /** The ring can be trusted after an attempt exactly when the attempt was not one that filled every slot
      with textures of another size and then failed. */
  lemma EnsureSizes(s: Host, width: nat, height: nat, api: Answers)
    requires Sane(s) && Sized(s)
    ensures var e := EnsureTextures(s, width, height, api);
            && (e.ok ==> Sized(e.host) && e.host.sharedWidth == width && e.host.sharedHeight == height)
            && (!e.ok ==> (Sized(e.host) <==>
                 !(api.deviceOk && SlotsFilled(api, |s.ring|) == |s.ring|
                   && !(s.sharedWidth == width && s.sharedHeight == height))))
  {
    var e := EnsureTextures(s, width, height, api);
    if RingReady(s, width, height) {
    } else if api.deviceOk && SlotsFilled(api, |s.ring|) == |s.ring| {
      RecreatedSizes(s, width, height, api);
      assert HasSize(e.host.gpu, e.host.ring[0].value, width, height);
    } else {
      PartialRing(s, width, height, api);
    }
  }

  lemma ViewSizes(s: Host, image: Image, listed: seq<Rect>, recreated: bool, api: Answers)
    requires Sane(s) && Sized(s) && AllPresent(s.ring)
    ensures Sized(PublishView(s, image, listed, recreated, api))
  {
    var t := PublishView(s, image, listed, recreated, api);
    var full := ForcedFull(s, listed, recreated);
    forall x: Texture, i | |s.gpu| <= i < |t.gpu| ensures !Creates(t.gpu[i], x) {
      ViewCommandAt(s, image, full, api, i - |s.gpu|);
    }
    forall i | 0 <= i < |s.ring| ensures HasSize(t.gpu, t.ring[i].value, t.sharedWidth, t.sharedHeight) {
      SizeKept(s.gpu, t.gpu, s.ring[i].value);
    }
    if s.plane.Some? { SizeKept(s.gpu, t.gpu, s.plane.value); }
  }

  lemma PopupSizes(s: Host, image: Image, api: Answers)
    requires Sane(s) && Sized(s)
    ensures Sized(StorePopup(s, image))
    ensures PlanePublishable(s) ==> Sized(PublishPopup(StorePopup(s, image), api))
  {
    hide Sized, PublishPopup;
    StorePopupSane(s, image);
    var t := StorePopup(s, image);
    assert forall i, x: Texture :: |s.gpu| <= i < |t.gpu| && x < s.nextTexture ==> !Creates(t.gpu[i], x);
    SizedKept(s, t);
    if PlanePublishable(s) { PopupFrameSizes(t, api); }
  }

  lemma PopupFrameSizes(s: Host, api: Answers)
    requires Sane(s) && Sized(s) && PlanePublishable(s) && s.popupTexture.Some?
    ensures Sized(PublishPopup(s, api))
  {
    hide Sized;
    SizedKept(s, PublishPopup(s, api));
  }

  /** Commands that create none of the textures in use keep the sizes. */
  lemma SizedKept(s: Host, t: Host)
    requires Identities(s) && Sized(s) && s.gpu <= t.gpu
    requires t.ring == s.ring && t.plane == s.plane
    requires t.sharedWidth == s.sharedWidth && t.sharedHeight == s.sharedHeight
    requires forall i, x: Texture :: |s.gpu| <= i < |t.gpu| && x < s.nextTexture ==> !Creates(t.gpu[i], x)
    ensures Sized(t)
  {
    forall i | 0 <= i < |s.ring| && AllPresent(s.ring)
      ensures HasSize(t.gpu, t.ring[i].value, t.sharedWidth, t.sharedHeight)
    {
      SizeKept(s.gpu, t.gpu, s.ring[i].value);
    }
    if s.plane.Some? { SizeKept(s.gpu, t.gpu, s.plane.value); }
  }

  lemma SizedStep(s: Host, e: Event)
    requires Sane(s) && Sized(s)
    requires e.ViewPaint? ==> !e.api.openOk || EnsureTextures(s, e.image.width, e.image.height, e.api).ok
    ensures Sized(Step(s, e))
  {
    hide EnsureTextures, PublishView, StorePopup, PublishPopup, PopupStored;
    match e
    case ViewPaint(image, listed, api) =>
      if api.openOk {
        EnsureSizes(s, image.width, image.height, api);
        EnsureSane(s, image.width, image.height, api);
        var n := EnsureTextures(s, image.width, image.height, api);
        ViewSizes(n.host, image, listed, n.recreated, api);
      }
    case PopupPaint(image, api) => PopupSizes(s, image, api);
    case _ =>
  }

  /** A failed attempt leaves a plane behind, next to textures no view was copied to, only in one way. */
  lemma FailedAttemptFront(s: Host, width: nat, height: nat, api: Answers, texture: Texture)
    requires Sane(s) && !EnsureTextures(s, width, height, api).ok
    ensures var t := EnsureTextures(s, width, height, api).host;
            && (t.plane.Some? <==> api.deviceOk && FirstFailure(api, 0, |s.ring|) == |s.ring| && api.plane.NoHandle?)
            && t.writeSlot == s.writeSlot && (texture < s.nextTexture ==> t.ring[t.writeSlot] != Some(texture))
  {}

  lemma FrontShownStep(r: Run, e: Event)
    requires Proper(r) && FrontShown(r)
    requires e.ViewPaint? ==> !e.api.openOk || EnsureTextures(r.host, e.image.width, e.image.height, e.api).ok
    ensures Proper(Advance(r, e)) && FrontShown(Advance(r, e))
  {
    hide CreateTextures, PublishView, StorePopup, PublishPopup;
    AdvanceProper(r, e);
    match e
    case ViewPaint(image, listed, api) =>
      if api.openOk {
        var n := EnsureTextures(r.host, image.width, image.height, api);
        ViewLeaves(n.host, image, listed, n.recreated, api);
      }
    case PopupPaint(image, api) =>
      PopupPaintParts(r.host, image, api);
      StoreLeaves(r.host, image);
      if Publishes(r.host, e) { PopupLeaves(StorePopup(r.host, image), api); }
    case _ =>
  }

  lemma AgreementAfterFailure(r: Run, e: Event)
    requires Agreeing(r) && Sane(r.host)
    requires r.front.Some? ==> r.front.value.texture < r.host.nextTexture
    requires e.ViewPaint? && e.api.openOk && !EnsureTextures(r.host, e.image.width, e.image.height, e.api).ok
    ensures Agreeing(Advance(r, e)) <==> !StaleFailure(r.host, e)
  {
    var width, height := e.image.width, e.image.height;
    var t := EnsureTextures(r.host, width, height, e.api).host;
    assert Advance(r, e) == r.(host := t);
    EnsureSizes(r.host, width, height, e.api);
    FailedAttemptFront(r.host, width, height, e.api, if r.front.Some? then r.front.value.texture else 0);
  }

  /** One step keeps the agreement exactly when it is not a stale failure. */
  lemma AgreementStep(r: Run, e: Event)
    requires Agreeing(r) && Sane(r.host)
    requires r.front.Some? ==> r.front.value.texture < r.host.nextTexture
    ensures Agreeing(Advance(r, e)) <==> !StaleFailure(r.host, e)
  {
    if e.ViewPaint? && e.api.openOk && !EnsureTextures(r.host, e.image.width, e.image.height, e.api).ok {
      AgreementAfterFailure(r, e);
    } else {
      SizedStep(r.host, e);
      FrontShownStep(r, e);
    }
  }

  /** What a successful check means for a paint: all slots hold textures of exactly the requested size. */
  lemma ReadyMeansSized(r: Run, width: nat, height: nat, api: Answers)
    requires Agreeing(r) && Sane(r.host) && EnsureTextures(r.host, width, height, api).ok
    ensures var t := EnsureTextures(r.host, width, height, api).host;
            forall i :: 0 <= i < |t.ring| ==> t.ring[i].Some? && HasSize(t.gpu, t.ring[i].value, width, height)
  {
    EnsureSizes(r.host, width, height, api);
  }
}
