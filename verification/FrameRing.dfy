/** The slot ring, the fence values and the GPU contents over whole runs: what a consumer that honours the
    advertised fence value reads from the advertised slot. */
module FrameRing {
  import opened Geometry
  import opened Gpu
  import opened Publication
  import opened Protocol

  // ---- Texture identities ----------------------------------------------------------------------

  predicate InRing(s: Host, t: Texture) {
    Some(t) in s.ring
  }

  /** Every texture in use was created, and no two roles share one. */
  ghost predicate Identities(s: Host) {
    && (forall i :: 0 <= i < |s.ring| && s.ring[i].Some? ==> s.ring[i].value < s.nextTexture)
    && (forall i, j :: 0 <= i < j < |s.ring| && s.ring[i].Some? ==> s.ring[i] != s.ring[j])
    && (s.plane.Some? ==> s.plane.value < s.nextTexture && s.plane !in s.ring)
    && (s.popupTexture.Some? ==>
          s.popupTexture.value < s.nextTexture && s.popupTexture !in s.ring && s.popupTexture != s.plane)
    && (forall t: Texture :: t < s.nextTexture ==> t in MemoryAfter(s.gpu))
  }

  ghost predicate Sane(s: Host) {
    && WellFormed(s) && 2 <= |s.ring| && s.writeSlot < |s.ring|
    && Identities(s)
    && 1 <= s.nextFence && SignalsIncrease(s.gpu, s.nextFence)
  }

  lemma CreationStep(filled: nat, first: nat, width: nat, height: nat)
    requires filled > 0
    ensures Creations(filled, first, width, height)
            == Creations(filled - 1, first, width, height) + [Create(first + filled - 1, width, height)]
  {}

  /** Creating textures `first .. first + filled` adds blank ones and disturbs nothing older. */
  lemma {:induction false} CreationsEffect(log: seq<Command>, filled: nat, first: nat, width: nat, height: nat,
                                           below: nat)
    requires below > 0 && SignalsIncrease(log, below)
    ensures var m := MemoryAfter(log + Creations(filled, first, width, height));
            && (forall t: Texture :: first <= t < first + filled ==> t in m && m[t] == Blank(width, height))
            && (forall t: Texture :: t < first && t in MemoryAfter(log) ==> t in m && m[t] == MemoryAfter(log)[t])
    ensures SignalsIncrease(log + Creations(filled, first, width, height), below)
  {
    if filled == 0 {
      assert log + Creations(filled, first, width, height) == log;
    } else {
      var fewer, last := log + Creations(filled - 1, first, width, height), Create(first + filled - 1, width, height);
      CreationsEffect(log, filled - 1, first, width, height, below);
      CreationStep(filled, first, width, height);
      assert log + Creations(filled, first, width, height) == fewer + [last];
      MemoryStep(fewer, last);
      SignalStep(fewer, last, below);
    }
  }

  lemma CreateRingSane(s: Host, width: nat, height: nat, api: Answers)
    requires Sane(s) && s.plane.None? && (forall i :: 0 <= i < |s.ring| ==> s.ring[i].None?)
    ensures Sane(CreateRing(s, width, height, api))
  {
    var filled := SlotsFilled(api, |s.ring|);
    CreationsEffect(s.gpu, filled, s.nextTexture, width, height, s.nextFence);
  }

  lemma CreatePlaneSane(s: Host, width: nat, height: nat, api: Answers)
    requires Sane(s) && s.plane.None?
    ensures Sane(CreatePlane(s, width, height, api))
  {
    var c := Create(s.nextTexture, width, height);
    MemoryStep(s.gpu, c);
    SignalStep(s.gpu, c, s.nextFence);
  }

  lemma EnsureSane(s: Host, width: nat, height: nat, api: Answers)
    requires Sane(s)
    ensures Sane(EnsureTextures(s, width, height, api).host)
  {
    if !RingReady(s, width, height) {
      var bare := DropTextures(s);
      assert Sane(bare);
      CreateRingSane(bare, width, height, api);
      var r := CreateRing(bare, width, height, api);
      CreatePlaneSane(r, width, height, api);
    }
  }

  /** The queue invariant alone, so that it can be carried over one command at a time. */
  ghost predicate QueueSane(log: seq<Command>, below: nat, created: nat) {
    && 1 <= below && SignalsIncrease(log, below)
    && (forall t: Texture :: t < created ==> t in MemoryAfter(log))
  }

  lemma QueueStep(log: seq<Command>, c: Command, below: nat, created: nat)
    requires QueueSane(log, below, created) && (c.Signal? ==> c.value == below)
    ensures QueueSane(log + [c], if c.Signal? then below + 1 else below, created)
  {
    SignalStep(log, c, below);
    MemoryStep(log, c);
  }

  /** At most one command: the popup-plane copy of a view frame, or nothing. */
  lemma QueueOptional(log: seq<Command>, cs: seq<Command>, below: nat, created: nat)
    requires QueueSane(log, below, created) && |cs| <= 1 && (forall i :: 0 <= i < |cs| ==> !cs[i].Signal?)
    ensures QueueSane(log + cs, below, created)
  {
    if cs == [] {
      assert log + cs == log;
    } else {
      assert cs == [cs[0]];
      QueueStep(log, cs[0], below, created);
    }
  }

  /** One frame's commands: something first, at most one plane copy, the seal, and at most one flush. */
  lemma QueueFrame(s: Host, lead: seq<Command>, plane: seq<Command>, tail: seq<Command>, api: Answers)
    requires QueueSane(s.gpu, s.nextFence, s.nextTexture)
    requires |lead| <= 1 && |plane| <= 1 && |tail| <= 1
    requires forall i :: 0 <= i < |lead| ==> !lead[i].Signal?
    requires forall i :: 0 <= i < |plane| ==> !plane[i].Signal?
    requires forall i :: 0 <= i < |tail| ==> !tail[i].Signal?
    ensures QueueSane(s.gpu + (lead + plane + [Seal(s, api)] + tail),
                      if s.hasFence then s.nextFence + 1 else s.nextFence, s.nextTexture)
  {
    var g1 := s.gpu + lead;
    var g2 := g1 + plane;
    var g3 := g2 + [Seal(s, api)];
    QueueOptional(s.gpu, lead, s.nextFence, s.nextTexture);
    QueueOptional(g1, plane, s.nextFence, s.nextTexture);
    QueueStep(g2, Seal(s, api), s.nextFence, s.nextTexture);
    var below := if s.hasFence then s.nextFence + 1 else s.nextFence;
    assert QueueSane(g3, below, s.nextTexture);
    QueueOptional(g3, tail, below, s.nextTexture);
    assert g3 + tail == s.gpu + (lead + plane + [Seal(s, api)] + tail);
  }

  lemma PublishViewSane(s: Host, image: Image, listed: seq<Rect>, recreated: bool, api: Answers)
    requires Sane(s) && AllPresent(s.ring)
    ensures Sane(PublishView(s, image, listed, recreated, api))
  {
    var full := ForcedFull(s, listed, recreated);
    var tail := if FlushesAfterSignal(s, full, api) then [Flush] else [];
    QueueFrame(s, [CopyResource(s.ring[BackSlot(s)].value, image)], PlaneCopy(s), tail, api);
    assert ViewCommands(s, image, full, api)
        == [CopyResource(s.ring[BackSlot(s)].value, image)] + PlaneCopy(s) + [Seal(s, api)] + tail;
  }

  lemma StorePopupSane(s: Host, image: Image)
    requires Sane(s)
    ensures Sane(StorePopup(s, image))
  {
    var create := Create(s.nextTexture, image.width, image.height);
    MemoryStep(s.gpu, create);
    SignalStep(s.gpu, create, s.nextFence);
    var t := StorePopup(s, image);
    var copy := CopyResource(t.popupTexture.value, image);
    if t.nextTexture == s.nextTexture {
      QueueStep(s.gpu, copy, s.nextFence, t.nextTexture);
    } else {
      QueueStep(s.gpu + [create], copy, s.nextFence, t.nextTexture);
    }
  }

  lemma PublishPopupSane(s: Host, api: Answers)
    requires Sane(s) && s.plane.Some? && s.popupTexture.Some?
    ensures Sane(PublishPopup(s, api))
  {
    var plane := if s.popupVisible && HasArea(ReportedRect(s))
                 then [CopyRegion(s.plane.value, ReportedRect(s), s.popupTexture.value)] else [];
    QueueFrame(s, [], plane, [], api);
    assert PopupCommands(s, api) == [] + plane + [Seal(s, api)] + [];
  }

  lemma SaneStep(s: Host, e: Event)
    requires Sane(s)
    ensures Sane(Step(s, e))
  {
    hide EnsureTextures, PublishView, StorePopup, PublishPopup;
    match e
    case ViewPaint(image, listed, api) =>
      EnsureSane(s, image.width, image.height, api);
      var n := EnsureTextures(s, image.width, image.height, api);
      if n.ok { PublishViewSane(n.host, image, listed, n.recreated, api); }
    case PopupPaint(image, api) =>
      StorePopupSane(s, image);
      if Publishes(s, e) { PublishPopupSane(StorePopup(s, image), api); }
    case _ =>
  }

  // ---- The slot ring ---------------------------------------------------------------------------

  /** The slot written `age` view frames ago. */
  function SlotBehind(slot: nat, age: nat, slots: nat): (r: nat)
    requires slot < slots && age < slots
    ensures r < slots
  {
    if age <= slot then slot - age else slot + slots - age
  }

  /** A front published `age` view frames ago: its texture keeps one role, and until the ring comes round to it
      nothing has written it since its copy. */
  ghost predicate FrontHeld(s: Host, age: nat, f: Front)
    requires s.writeSlot < |s.ring|
  {
    && f.copyAt < |s.gpu| && s.gpu[f.copyAt] == CopyResource(f.texture, f.image)
    && f.texture < s.nextTexture && s.plane != Some(f.texture) && s.popupTexture != Some(f.texture)
    && (age < |s.ring| ==>
          && Untouched(s.gpu, f.texture, f.copyAt + 1)
          && (InRing(s, f.texture) ==> s.ring[SlotBehind(s.writeSlot, age, |s.ring|)] == Some(f.texture)))
  }

  lemma HeldDrop(s: Host, age: nat, f: Front)
    requires Sane(s) && FrontHeld(s, age, f)
    ensures FrontHeld(DropTextures(s), age, f) && !InRing(DropTextures(s), f.texture)
  {}

  lemma HeldCreateRing(s: Host, width: nat, height: nat, api: Answers, age: nat, f: Front)
    requires Sane(s) && FrontHeld(s, age, f) && !InRing(s, f.texture)
    ensures FrontHeld(CreateRing(s, width, height, api), age, f)
    ensures !InRing(CreateRing(s, width, height, api), f.texture)
  {
    var t := CreateRing(s, width, height, api);
    forall i | f.copyAt + 1 <= i < |t.gpu| && age < |s.ring| ensures !Writes(t.gpu[i], f.texture) {
      if i >= |s.gpu| {
        assert t.gpu[i] == Creations(SlotsFilled(api, |s.ring|), s.nextTexture, width, height)[i - |s.gpu|];
      }
    }
  }

  lemma HeldCreatePlane(s: Host, width: nat, height: nat, api: Answers, age: nat, f: Front)
    requires s.writeSlot < |s.ring| && FrontHeld(s, age, f) && !InRing(s, f.texture)
    ensures FrontHeld(CreatePlane(s, width, height, api), age, f)
    ensures !InRing(CreatePlane(s, width, height, api), f.texture)
  {}

  lemma HeldEnsure(s: Host, width: nat, height: nat, api: Answers, age: nat, f: Front)
    requires Sane(s) && FrontHeld(s, age, f)
    ensures var e := EnsureTextures(s, width, height, api);
            e.host.writeSlot < |e.host.ring| && FrontHeld(e.host, age, f)
  {
    if !RingReady(s, width, height) {
      var bare := DropTextures(s);
      HeldDrop(s, age, f);
      HeldCreateRing(bare, width, height, api, age, f);
      var r := CreateRing(bare, width, height, api);
      HeldCreatePlane(r, width, height, api, age, f);
    }
  }

  /** The next view frame writes the slot that is |ring| - 1 frames old, so younger fronts are left alone. */
  lemma BackSlotIsOldest(slot: nat, age: nat, slots: nat)
    requires slot < slots && age < slots && 2 <= slots
    ensures SlotBehind(slot, age, slots) == (slot + 1) % slots <==> age == slots - 1
    ensures age + 1 < slots ==> SlotBehind((slot + 1) % slots, age + 1, slots) == SlotBehind(slot, age, slots)
  {
    if slot + 1 < slots {
      assert (slot + 1) % slots == slot + 1;
    } else {
      assert (slot + 1) % slots == 0;
    }
  }

  lemma ViewCommandAt(s: Host, image: Image, full: bool, api: Answers, i: nat)
    requires s.ring != [] && AllPresent(s.ring) && i < |ViewCommands(s, image, full, api)|
    ensures var c, k := ViewCommands(s, image, full, api)[i], |PlaneCopy(s)|;
            if i == 0 then c == CopyResource(s.ring[BackSlot(s)].value, image)
            else if i <= k then c == PlaneCopy(s)[i - 1]
            else if i == k + 1 then c == Seal(s, api)
            else c == Flush
  {}

  lemma HeldPublishView(s: Host, image: Image, listed: seq<Rect>, recreated: bool, api: Answers, age: nat, f: Front)
    requires Sane(s) && AllPresent(s.ring) && FrontHeld(s, age, f)
    ensures FrontHeld(PublishView(s, image, listed, recreated, api), age + 1, f)
  {
    var t := PublishView(s, image, listed, recreated, api);
    var full := ForcedFull(s, listed, recreated);
    if age + 1 < |s.ring| {
      BackSlotIsOldest(s.writeSlot, age, |s.ring|);
      forall i | f.copyAt + 1 <= i < |t.gpu| ensures !Writes(t.gpu[i], f.texture) {
        if i >= |s.gpu| { ViewCommandAt(s, image, full, api, i - |s.gpu|); }
      }
    }
  }

  /** Without recreation, the next view frame overwrites a front that is still in the ring exactly when that
      front is |ring| - 1 frames old. */
  lemma SlotReuse(s: Host, image: Image, listed: seq<Rect>, api: Answers, age: nat, f: Front)
    requires Sane(s) && AllPresent(s.ring) && FrontHeld(s, age, f)
    requires age < |s.ring| && InRing(s, f.texture)
    ensures var t := PublishView(s, image, listed, false, api);
            Untouched(t.gpu, f.texture, |s.gpu|) <==> age < |s.ring| - 1
  {
    var t := PublishView(s, image, listed, false, api);
    BackSlotIsOldest(s.writeSlot, age, |s.ring|);
    HeldPublishView(s, image, listed, false, api, age, f);
    ViewCommandAt(s, image, ForcedFull(s, listed, false), api, 0);
    assert Writes(t.gpu[|s.gpu|], s.ring[BackSlot(s)].value);
  }

  lemma HeldNew(s: Host, image: Image, listed: seq<Rect>, recreated: bool, api: Answers)
    requires Sane(s) && AllPresent(s.ring)
    ensures var f := Front(image, s.ring[BackSlot(s)].value, |s.gpu|);
            FrontHeld(PublishView(s, image, listed, recreated, api), 0, f)
  {
    var t := PublishView(s, image, listed, recreated, api);
    var full := ForcedFull(s, listed, recreated);
    ViewCommandAt(s, image, full, api, 0);
    forall i | |s.gpu| < i < |t.gpu| ensures !Writes(t.gpu[i], s.ring[BackSlot(s)].value) {
      ViewCommandAt(s, image, full, api, i - |s.gpu|);
    }
  }

  lemma HeldStorePopup(s: Host, image: Image, age: nat, f: Front)
    requires Sane(s) && FrontHeld(s, age, f)
    ensures FrontHeld(StorePopup(s, image), age, f)
  {}

  lemma HeldPublishPopup(s: Host, api: Answers, age: nat, f: Front)
    requires Sane(s) && s.plane.Some? && s.popupTexture.Some? && FrontHeld(s, age, f)
    ensures FrontHeld(PublishPopup(s, api), age, f)
  {}
}
