/** A consumer that looks at the shared header now and then: it patches when it sees the frame right after the one it
    saw last, and refreshes in full when frame identifiers are missing between the two. */
module GapConsumer {
  import opened Geometry
  import opened Gpu
  import opened Publication
  import opened Protocol
  import opened FrameRing
  import opened RingAgreement
  import opened FrameReads
  import opened Announcements
  import opened PatchConsumer

  /** `seen` is the identifier of the last frame handled, `offer` the textures opened so far. */
  datatype Viewer = Viewer(habit: Habit, run: Run, seen: nat, offer: Offer, picture: Option<Image>)

  function Arriving(slots: nat, maxRects: nat, hasFence: bool, habit: Habit): Viewer
    requires 2 <= slots && 1 <= maxRects < 256
  {
    Viewer(habit, Start(slots, maxRects, hasFence), 0, Offer([], None), None)
  }

  function LastFrame(log: seq<Entry>): Option<Frame> {
    if log == [] then None
    else if log[|log| - 1].Shown? then Some(log[|log| - 1].frame)
    else LastFrame(log[..|log| - 1])
  }

  /** What the consumer reads under the advertised slot, out of the textures it has opened. */
  function ReadSlot(habit: Habit, r: Run, offer: Offer): Image {
    var slot, last := r.host.header.slot, LastFrame(r.log);
    var log := if last.Some? then Executed(habit, r.host.gpu, last.value) else r.host.gpu;
    SlotImage(log, if slot < |offer.ring| then offer.ring[slot] else None)
  }

  function Look(v: Viewer): Viewer
    requires Proper(v.run)
  {
    var s, h := v.run.host, v.run.host.header;
    if h.frameId == v.seen then v
    else if h.frameId != v.seen + 1 then
      v.(seen := h.frameId, offer := Offered(s), picture := Some(ReadSlot(v.habit, v.run, Offered(s))))
    else
      var offer := if h.flags.resized then Offered(s) else v.offer;
      var image := ReadSlot(v.habit, v.run, offer);
      v.(seen := h.frameId, offer := offer,
         picture := if TakesWhole(v.habit, h) then Some(image)
                    else if v.picture.None? then None
                    else Some(Patch(v.picture.value, image, Shipped(h))))
  }

  function Follow(v: Viewer, e: Event, looks: bool): (w: Viewer)
    requires Proper(v.run)
    ensures w.run == Advance(v.run, e) && Proper(w.run)
  {
    AdvanceProper(v.run, e);
    var w := v.(run := Advance(v.run, e));
    if looks then Look(w) else w
  }

  function FollowAll(v: Viewer, events: seq<Event>, looks: nat -> bool): (w: Viewer)
    requires Proper(v.run)
    ensures Proper(w.run)
    decreases |events|
  {
    if events == [] then v else FollowAll(Follow(v, events[0], looks(|events|)), events[1..], looks)
  }

  /** View paints are published, and their dirty lists are truthful. */
  ghost predicate Undisturbed(r: Run, events: seq<Event>)
    requires Proper(r)
    decreases |events|
  {
    AdvanceProper(r, if events == [] then Resize else events[0]);
    events == []
    || (&& (events[0].ViewPaint? ==>
              && Publishes(r.host, events[0])
              && HonestPaint(FrontImage(r), events[0].image, events[0].listed))
        && Undisturbed(Advance(r, events[0]), events[1..]))
  }

  // ---- The producer as long as nothing is dropped ------------------------------------------------

  /** The newest frame shows the front. */
  ghost predicate FrontIsLast(r: Run)
    requires Proper(r)
  {
    var last := LastFrame(r.log);
    last.Some? && last.value.front == r.front && last.value.ordinal == r.views
    && FrameKept(r, last.value) && FrameShows(r, last.value)
  }

  ghost predicate Uninterrupted(r: Run) {
    && Reliable(r) && Proper(r)
    && r.host.header.frameId + 1 == r.host.nextFrame
    && (if r.front.None? then r.host.header.frameId == 0
        else AllPresent(r.host.ring) && r.host.header.slot == r.host.writeSlot && FrontIsLast(r))
  }

  /** The opened slot holds the front at any later time, too, as soon as the wait is over. */
  lemma FrontIsReadable(habit: Habit, r: Run)
    requires Uninterrupted(r) && r.front.Some?
    ensures Offered(r.host) == r.known && ReadSlot(habit, r, r.known) == r.front.value.image
  {
    hide Counted, SameForm, LogAnnounced;
    var f := LastFrame(r.log).value;
    assert r.known == Offer(r.host.ring, r.host.plane);
    assert r.host.ring[r.host.writeSlot] == Some(r.front.value.texture) by { assert FrontShown(r); }
    NewestFrameShows(habit, r, f);
  }

  lemma LastFrameStep(log: seq<Entry>, x: Entry)
    ensures LastFrame(log + [x]) == if x.Shown? then Some(x.frame) else LastFrame(log)
  {
    assert (log + [x])[..|log|] == log;
  }

  /** The newest frame after an event. */
  lemma LastFrameAfter(r: Run, e: Event)
    requires Proper(r)
    ensures var t := Advance(r, e);
            if Publishes(r.host, e)
            then |t.log| == |r.log| + 1 && t.log[|r.log|].Shown? && LastFrame(t.log) == Some(t.log[|r.log|].frame)
            else LastFrame(t.log) == LastFrame(r.log)
  {
    hide Step, Publishes;
    LogGrowth(r, e);
    if Advance(r, e).log != r.log { LastFrameStep(r.log, Advance(r, e).log[|r.log|]); }
  }

  lemma FrontStaysLast(r: Run, e: Event)
    requires Uninterrupted(r) && (e.ViewPaint? ==> Publishes(r.host, e)) && Proper(Advance(r, e))
    ensures Advance(r, e).front.Some? ==> FrontIsLast(Advance(r, e))
  {
    hide Step, Publishes, Unnoticed, Counted, AnnouncedLog, FrontFits, Agreeing;
    var t := Advance(r, e);
    KeptPaintIsNoticed(r.host, e);
    ReliableStep(r, e);
    LastFrameAfter(r, e);
    if Publishes(r.host, e) {
      NewestFront(r, e);
      assert FrameKept(t, t.log[|r.log|].frame) && FrameShows(t, t.log[|r.log|].frame);
    } else {
      QuietLog(r, e);
      if r.front.Some? {
        var last := LastFrame(r.log).value;
        FrameKeptStep(r, e, last);
        StepAppends(r.host, e);
        LandedKept(r.host.gpu, t.host.gpu, last.front.value);
      }
    }
  }

  /** The header of a new frame numbers it, and its slot is the one in use. */
  lemma NextIdentifier(r: Run, e: Event)
    requires Proper(r) && Publishes(r.host, e)
    ensures var t := Advance(r, e).host; t.header.frameId == r.host.nextFrame && t.nextFrame == r.host.nextFrame + 1
  {
    hide CreateTextures, EnsureTextures, PublishView, StorePopup, PublishPopup;
    match e
    case ViewPaint(image, listed, api) =>
      var n := EnsureTextures(r.host, image.width, image.height, api);
      EnsureLeaves(r.host, image.width, image.height, api);
      ViewLeaves(n.host, image, listed, n.recreated, api);
    case PopupPaint(image, api) =>
      StoreLeaves(r.host, image);
      PopupLeaves(StorePopup(r.host, image), api);
  }

  /** What an event that publishes nothing and is no view paint leaves alone. */
  predicate SameFrame(s: Host, t: Host) {
    && t.ring == s.ring && t.writeSlot == s.writeSlot && t.nextFrame == s.nextFrame
    && t.header == s.header.(loadState := t.header.loadState, sequence := t.header.sequence)
  }

  lemma QuietFrame(s: Host, e: Event)
    requires WellFormed(s) && !e.ViewPaint? && !Publishes(s, e)
    ensures SameFrame(s, Step(s, e))
  {
    hide EnsureTextures, PublishView, StorePopup, PublishPopup;
    if e.PopupPaint? { StoreLeaves(s, e.image); }
  }

  lemma UninterruptedStep(r: Run, e: Event)
    requires Uninterrupted(r) && (e.ViewPaint? ==> Publishes(r.host, e))
    ensures Uninterrupted(Advance(r, e))
  {
    hide Reliable, Advance, Publishes, Unnoticed;
    if Publishes(r.host, e) {
      ConsumerReads(Habit(false, (id: nat) => 0), r, e);
      NewFrame(r, e);
      NextIdentifier(r, e);
      ReliableMeans(r);
      PublishesComplete(r, e);
      FrontStaysLast(r, e);
    } else {
      KeptPaintIsNoticed(r.host, e);
      ReliableStep(r, e);
      AdvanceProper(r, e);
      QuietLog(r, e);
      QuietFrame(r.host, e);
      FrontStaysLast(r, e);
    }
  }

  lemma ReliableMeans(r: Run)
    requires Reliable(r)
    ensures Announced(r)
  {}

  lemma RingNeedsFront(r: Run)
    requires Reliable(r) && r.front.None?
    ensures !AllPresent(r.host.ring)
  {}

  // ---- The viewer ------------------------------------------------------------------------------

  /** Nothing missed: the picture is the front. One frame missed: the picture differs from the front at most where that
      frame ships. More missed: nothing is known, and the next look refreshes. */
  ghost predicate Tracking(v: Viewer) {
    && Uninterrupted(v.run)
    && var h := v.run.host.header;
       && v.seen <= h.frameId
       && (h.frameId == v.seen && v.run.front.Some? ==>
             v.offer == v.run.known && SamePicture(v.picture, FrontImage(v.run)))
       && (h.frameId == v.seen + 1 ==>
             && (h.flags.resized || v.offer == v.run.known)
             && (h.flags.full || NearlySame(v.picture, FrontImage(v.run), Shipped(h))))
  }

  ghost predicate NearlySame(a: Option<Image>, b: Option<Image>, rects: seq<Rect>) {
    && a.Some? && b.Some? && SameSize(a.value, b.value)
    && forall p :: OnSurface(b.value.width, b.value.height, p) && !CoveredBy(rects, p) ==>
         a.value.at(p) == b.value.at(p)
  }

  lemma LookSees(v: Viewer)
    requires Tracking(v)
    ensures Proper(v.run) && Tracking(Look(v)) && Look(v).seen == v.run.host.header.frameId
  {
    hide Reliable;
    if v.run.front.Some? { FrontIsReadable(v.habit, v.run); }
  }

  lemma AfterPublish(v: Viewer, e: Event)
    requires Tracking(v) && Proper(v.run) && Publishes(v.run.host, e)
    requires e.ViewPaint? ==> HonestPaint(FrontImage(v.run), e.image, e.listed)
    ensures Tracking(v.(run := Advance(v.run, e)))
  {
    hide Reliable, Advance, Publishes;
    UninterruptedStep(v.run, e);
    ConsumerReads(v.habit, v.run, e);
    NewFrame(v.run, e);
    NextIdentifier(v.run, e);
    if v.run.front.None? { RingNeedsFront(v.run); }
  }

  lemma AfterQuiet(v: Viewer, e: Event)
    requires Tracking(v) && Proper(v.run) && !Publishes(v.run.host, e) && !e.ViewPaint?
    ensures Tracking(v.(run := Advance(v.run, e)))
  {
    hide Reliable, Advance, Publishes;
    UninterruptedStep(v.run, e);
    QuietLog(v.run, e);
    QuietKnown(v.run, e);
    QuietFrame(v.run.host, e);
  }

  lemma TrackingStep(v: Viewer, e: Event, looks: bool)
    requires Tracking(v) && Proper(v.run)
    requires e.ViewPaint? ==> Publishes(v.run.host, e) && HonestPaint(FrontImage(v.run), e.image, e.listed)
    ensures Tracking(Follow(v, e, looks))
  {
    hide Tracking, Advance, Publishes, Look, HonestPaint;
    AdvanceProper(v.run, e);
    if Publishes(v.run.host, e) { AfterPublish(v, e); } else { AfterQuiet(v, e); }
    LookSees(v.(run := Advance(v.run, e)));
  }

  lemma {:induction false} TrackingRun(v: Viewer, events: seq<Event>, looks: nat -> bool)
    requires Tracking(v) && Proper(v.run) && Undisturbed(v.run, events)
    ensures Tracking(FollowAll(v, events, looks))
    decreases |events|
  {
    hide Tracking, Advance, Publishes, Follow, HonestPaint;
    if events != [] {
      TrackingStep(v, events[0], looks(|events|));
      TrackingRun(Follow(v, events[0], looks(|events|)), events[1..], looks);
    }
  }

  lemma ArrivingTracks(slots: nat, maxRects: nat, hasFence: bool, habit: Habit)
    requires 2 <= slots && 1 <= maxRects < 256
    ensures Tracking(Arriving(slots, maxRects, hasFence, habit))
  {
    hide Reliable;
    StartReliable(slots, maxRects, hasFence);
  }

  /** Whatever its habits and whatever frames it skips, whenever it looks the consumer holds the newest published
      view image. */
  lemma SkippingConsumerIsExact(slots: nat, maxRects: nat, hasFence: bool, habit: Habit, events: seq<Event>,
                                looks: nat -> bool)
    requires 2 <= slots && 1 <= maxRects < 256
    requires Undisturbed(Start(slots, maxRects, hasFence), events)
    ensures var v := FollowAll(Arriving(slots, maxRects, hasFence, habit), events, looks);
            v.run.front.Some? ==> SamePicture(Look(v).picture, FrontImage(v.run))
  {
    hide Reliable, Undisturbed, Advance, Follow;
    ArrivingTracks(slots, maxRects, hasFence, habit);
    TrackingRun(Arriving(slots, maxRects, hasFence, habit), events, looks);
    LookSees(FollowAll(Arriving(slots, maxRects, hasFence, habit), events, looks));
  }
}
