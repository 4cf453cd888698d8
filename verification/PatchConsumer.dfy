/** A consumer that replaces its picture on FULL frames and otherwise patches only the published rectangles,
    compared with the newest browser image. */
module PatchConsumer {
  import opened Geometry
  import opened Gpu
  import opened Publication
  import opened Protocol
  import opened FrameRing
  import opened RingAgreement
  import opened FrameReads
  import opened Announcements

  /** Where two pictures of one size may differ. */
  type Damage = Point -> bool

  const NO_DAMAGE: Damage := (p: Point) => false

  function Plus(a: Damage, b: Damage): Damage {
    (p: Point) => a(p) || b(p)
  }

  /** `a` at the points that `rects` covers, `b` elsewhere. */
  function Replaced(a: Damage, b: Damage, rects: seq<Rect>): Damage {
    (p: Point) => if CoveredBy(rects, p) then a(p) else b(p)
  }

  /** What a consumer is free to choose: whether it takes a dirty count of 0 for a full frame, as the layout of the
      header describes it, or goes by the flags alone, and how many GPU commands have been executed when it reads the
      frame of a given identifier. */
  datatype Habit = Habit(zeroIsFull: bool, readAt: nat -> nat)

  /** `picture` is what the consumer holds, `latest` the newest browser image, whether or not it was published.
      `stale` bounds where those two differ, `behind` where the last published image and `latest` differ. */
  datatype Session = Session(
    habit: Habit, run: Run, latest: Option<Image>, picture: Option<Image>, stale: Damage, behind: Damage)

  function InitialSession(slots: nat, maxRects: nat, hasFence: bool, habit: Habit): Session
    requires 2 <= slots && 1 <= maxRects < 256
  {
    Session(habit, Start(slots, maxRects, hasFence), None, None, NO_DAMAGE, NO_DAMAGE)
  }

  predicate SizeKeeps(latest: Option<Image>, image: Image) {
    latest.Some? && SameSize(latest.value, image)
  }

  /** What the browser announced as repainted; a change of size repaints everything. */
  function PaintDamage(latest: Option<Image>, image: Image, listed: seq<Rect>): Damage {
    (p: Point) => !SizeKeeps(latest, image) || CoveredBy(listed, p)
  }

  /** The contents of a texture, once the queue has been executed. */
  function SlotImage(log: seq<Command>, texture: Option<Texture>): Image {
    if texture.Some? && texture.value in MemoryAfter(log) then MemoryAfter(log)[texture.value] else Blank(0, 0)
  }

  function Shipped(h: FrameHeader): seq<Rect> {
    if h.dirtyCount <= |h.dirtyRects| then h.Dirty() else []
  }

  predicate TakesWhole(habit: Habit, h: FrameHeader) {
    h.flags.full || (habit.zeroIsFull && h.dirtyCount == 0)
  }

  /** The commands executed when the consumer reads: as chosen when that satisfies the wait, else all of them. */
  function Executed(habit: Habit, log: seq<Command>, f: Frame): seq<Command> {
    var at := habit.readAt(f.header.frameId);
    if at <= |log| && Waited(log, f, at) then log[..at] else log
  }

  /** The consumer reads the texture that it has opened under the advertised slot. */
  function Consume(habit: Habit, picture: Option<Image>, log: seq<Command>, f: Frame): Option<Image> {
    var seen := SlotImage(Executed(habit, log, f), f.Opened());
    if TakesWhole(habit, f.header) then Some(seen)
    else if picture.None? then picture
    else Some(Patch(picture.value, seen, Shipped(f.header)))
  }

  function LatestAfter(z: Session, e: Event): Option<Image> {
    if e.ViewPaint? then Some(e.image) else z.latest
  }

  function DamageOf(z: Session, e: Event): Damage {
    if e.ViewPaint? then PaintDamage(z.latest, e.image, e.listed) else NO_DAMAGE
  }

  function Observe(z: Session, e: Event): (y: Session)
    requires Proper(z.run)
    ensures y.run == Advance(z.run, e) && Proper(y.run)
  {
    AdvanceProper(z.run, e);
    var r, latest, damage := Advance(z.run, e), LatestAfter(z, e), DamageOf(z, e);
    if !Publishes(z.run.host, e) then
      z.(run := r, latest := latest, stale := Plus(z.stale, damage), behind := Plus(z.behind, damage))
    else
      NewFrame(z.run, e);
      var f, behind := r.log[|z.run.log|].frame, if e.ViewPaint? then NO_DAMAGE else z.behind;
      Session(z.habit, r, latest, Consume(z.habit, z.picture, r.host.gpu, f),
              if TakesWhole(z.habit, f.header) then behind
              else Replaced(behind, Plus(z.stale, damage), Shipped(f.header)),
              behind)
  }

  function Watch(z: Session, events: seq<Event>): (y: Session)
    requires Proper(z.run)
    ensures Proper(y.run)
    decreases |events|
  {
    if events == [] then z else Watch(Observe(z, events[0]), events[1..])
  }

  /** The browser's dirty lists are truthful: an image of unchanged size differs only where it says so. */
  ghost predicate HonestPaint(latest: Option<Image>, image: Image, listed: seq<Rect>) {
    SizeKeeps(latest, image) ==>
      forall p :: OnSurface(image.width, image.height, p) && !CoveredBy(listed, p) ==>
        image.at(p) == latest.value.at(p)
  }

  /** Every repainted point gets a colour that `held` does not have there. */
  ghost predicate VividPaint(held: Option<Image>, latest: Option<Image>, image: Image, listed: seq<Rect>) {
    SizeKeeps(held, image) ==>
      forall p :: OnSurface(image.width, image.height, p) && PaintDamage(latest, image, listed)(p) ==>
        image.at(p) != held.value.at(p)
  }

  ghost predicate Honest(z: Session, e: Event) {
    e.ViewPaint? ==> HonestPaint(z.latest, e.image, e.listed)
  }

  ghost predicate Vivid(z: Session, e: Event) {
    e.ViewPaint? ==>
      && VividPaint(z.picture, z.latest, e.image, e.listed)
      && VividPaint(FrontImage(z.run), z.latest, e.image, e.listed)
  }

  ghost predicate HonestRun(z: Session, events: seq<Event>)
    requires Proper(z.run)
    decreases |events|
  {
    events == [] || (Honest(z, events[0]) && HonestRun(Observe(z, events[0]), events[1..]))
  }

  ghost predicate VividRun(z: Session, events: seq<Event>)
    requires Proper(z.run)
    decreases |events|
  {
    events == [] || (Vivid(z, events[0]) && VividRun(Observe(z, events[0]), events[1..]))
  }

  // ---- Pictures --------------------------------------------------------------------------------

  predicate SameForm(a: Option<Image>, b: Option<Image>) {
    (a.Some? <==> b.Some?) && (a.Some? ==> SameSize(a.value, b.value))
  }

  /** Where both are pictures of one size they agree outside the damage. */
  ghost predicate AgreeOutside(picture: Option<Image>, image: Option<Image>, d: Damage) {
    picture.Some? && image.Some? && SameSize(picture.value, image.value) ==>
      forall p :: OnSurface(image.value.width, image.value.height, p) && !d(p) ==>
        picture.value.at(p) == image.value.at(p)
  }

  /** And inside the damage they do not. */
  ghost predicate DifferInside(picture: Option<Image>, image: Option<Image>, d: Damage) {
    picture.Some? && image.Some? && SameSize(picture.value, image.value) ==>
      forall p :: OnSurface(image.value.width, image.value.height, p) && d(p) ==>
        picture.value.at(p) != image.value.at(p)
  }

  lemma DroppedAgree(picture: Option<Image>, latest: Option<Image>, image: Image, listed: seq<Rect>, d: Damage)
    requires AgreeOutside(picture, latest, d) && HonestPaint(latest, image, listed)
    ensures AgreeOutside(picture, Some(image), Plus(d, PaintDamage(latest, image, listed)))
  {}

  lemma DroppedDiffer(picture: Option<Image>, latest: Option<Image>, image: Image, listed: seq<Rect>, d: Damage)
    requires DifferInside(picture, latest, d) && HonestPaint(latest, image, listed)
    requires VividPaint(picture, latest, image, listed)
    ensures DifferInside(picture, Some(image), Plus(d, PaintDamage(latest, image, listed)))
  {}

  lemma PatchedAgree(picture: Image, front: Image, latest: Option<Image>, stale: Damage, behind: Damage,
                     rects: seq<Rect>)
    requires SameSize(picture, front)
    requires AgreeOutside(Some(picture), latest, stale) && AgreeOutside(Some(front), latest, behind)
    ensures AgreeOutside(Some(Patch(picture, front, rects)), latest, Replaced(behind, stale, rects))
  {}

  lemma PatchedDiffer(picture: Image, front: Image, latest: Option<Image>, stale: Damage, behind: Damage,
                      rects: seq<Rect>)
    requires SameSize(picture, front)
    requires DifferInside(Some(picture), latest, stale) && DifferInside(Some(front), latest, behind)
    ensures DifferInside(Some(Patch(picture, front, rects)), latest, Replaced(behind, stale, rects))
  {}

  // ---- What the consumer reads -----------------------------------------------------------------

  function FrontImage(r: Run): Option<Image> {
    if r.front.Some? then Some(r.front.value.image) else None
  }

  /** The front has the recorded size; until there is one the whole warm-up is still to come. */
  predicate FrontFits(r: Run) {
    if r.front.None? then r.host.warmup == 3
    else r.front.value.image.width == r.host.sharedWidth && r.front.value.image.height == r.host.sharedHeight
  }

  /** What the producer keeps over runs, as far as a consumer relies on it. */
  ghost predicate Reliable(r: Run) {
    Kept(r) && Faithful(r) && Counted(r) && AnnouncedLog(r) && FrontFits(r)
  }

  lemma StaleIsUnnoticed(s: Host, e: Event)
    requires StaleFailure(s, e)
    ensures Unnoticed(s, e)
  {}

  lemma ReliableStep(r: Run, e: Event)
    requires Reliable(r) && !Unnoticed(r.host, e)
    ensures Reliable(Advance(r, e))
  {
    hide Kept, Faithful, Counted, AnnouncedLog, Unnoticed, Step, Advance;
    assert !StaleFailure(r.host, e) by { if StaleFailure(r.host, e) { StaleIsUnnoticed(r.host, e); } }
    KeptMeans(r);
    KeptStep(r, e);
    FaithfulStep(r, e);
    CountedStep(r, e);
    AnnouncedLogStep(r, e);
    FrontFitsStep(r, e);
  }

  lemma KeptMeans(r: Run)
    requires Kept(r)
    ensures Proper(r) && Sane(r.host)
  {}

  lemma FrontFitsStep(r: Run, e: Event)
    requires Proper(r) && FrontFits(r)
    ensures FrontFits(Advance(r, e))
  {
    hide CreateTextures, EnsureTextures, PublishView, StorePopup, PublishPopup;
    match e
    case ViewPaint(image, listed, api) =>
      var n := EnsureTextures(r.host, image.width, image.height, api);
      EnsureLeaves(r.host, image.width, image.height, api);
      CreationLeaves(r.host, image.width, image.height, api);
      if n.ok { ViewLeaves(n.host, image, listed, n.recreated, api); }
    case PopupPaint(image, api) =>
      PopupPaintParts(r.host, image, api);
      StoreLeaves(r.host, image);
      if Publishes(r.host, e) { PopupLeaves(StorePopup(r.host, image), api); }
    case _ =>
  }

  lemma {:induction false} ReliableReplay(r: Run, events: seq<Event>)
    requires Reliable(r) && AlwaysNoticed(r, events)
    ensures Reliable(Replay(r, events))
    decreases |events|
  {
    hide Kept, Faithful, Counted, AnnouncedLog, FrontFits, Unnoticed;
    if events != [] {
      KeptMeans(r);
      AdvanceProper(r, events[0]);
      ReliableStep(r, events[0]);
      ReliableReplay(Advance(r, events[0]), events[1..]);
    }
  }

  lemma StartReliable(slots: nat, maxRects: nat, hasFence: bool)
    requires 2 <= slots && 1 <= maxRects < 256
    ensures Reliable(Start(slots, maxRects, hasFence))
  {
    StartKept(slots, maxRects, hasFence);
    StartCounted(slots, maxRects, hasFence);
    StartAnnounced(slots, maxRects, hasFence);
  }

  /** At each publish the consumer reads the new image after a view paint and the unchanged front after a popup paint;
      a view frame that is not FULL ships the whole browser list, and a popup frame never is FULL. */
  lemma ConsumerReads(habit: Habit, r: Run, e: Event)
    requires Reliable(r) && Publishes(r.host, e)
    ensures Proper(r) && Proper(Advance(r, e)) && !Unnoticed(r.host, e) && Reliable(Advance(r, e))
    ensures var t := Advance(r, e);
            && t.log == r.log + [t.log[|r.log|]] && t.log[|r.log|].Shown?
            && var f := t.log[|r.log|].frame;
               && f.header == t.host.header
               && t.front.Some? && SlotImage(Executed(habit, t.host.gpu, f), f.Opened()) == t.front.value.image
               && (if e.ViewPaint? then t.front.value.image == e.image else t.front == r.front && !f.header.flags.full)
               && (e.ViewPaint? && !f.header.flags.full ==>
                     Shipped(f.header) == e.listed && SameForm(FrontImage(r), FrontImage(t)))
  {
    hide Kept, Faithful, Counted, AnnouncedLog, Unnoticed, Step, Advance, Publishes;
    KeptMeans(r);
    AdvanceProper(r, e);
    PublishedIsNoticed(r.host, e);
    ReliableStep(r, e);
    NewFrame(r, e);
    NewestIsAnnounced(r, e);
    NewestShows(habit, r, e);
    FrameShips(r, e);
    if e.ViewPaint? && !Advance(r, e).log[|r.log|].frame.header.flags.full { DirtyKeepsSize(r, e); }
  }

  lemma NewestIsAnnounced(r: Run, e: Event)
    requires AnnouncedLog(r) && Sane(r.host) && Publishes(r.host, e)
    ensures var f := Advance(r, e).log[|r.log|].frame; f.Opened() == f.texture
  {
    hide Advance, Publishes, Sane;
    NewFrameAnnounced(r, e);
  }

  /** The advertised slot holds the front image. */
  lemma NewestShows(habit: Habit, r: Run, e: Event)
    requires Kept(r) && Publishes(r.host, e) && Kept(Advance(r, e)) && Faithful(Advance(r, e))
    ensures var t := Advance(r, e); var f := t.log[|r.log|].frame;
            && t.front.Some? && SlotImage(Executed(habit, t.host.gpu, f), f.texture) == t.front.value.image
            && (if e.ViewPaint? then t.front.value.image == e.image else t.front == r.front)
  {
    hide Step, Publishes, Agreeing;
    var t := Advance(r, e);
    NewFrame(r, e);
    NewestFront(r, e);
    var f := t.log[|r.log|].frame;
    assert FrameKept(t, f) && FrameShows(t, f);
    KeptMeans(t);
    NewestFrameShows(habit, t, f);
  }

  lemma NewestFront(r: Run, e: Event)
    requires Proper(r) && Publishes(r.host, e)
    ensures var t := Advance(r, e); var f := t.log[|r.log|].frame;
            && f.front == t.front && f.ordinal == t.views
            && (if e.ViewPaint? then t.front.Some? && t.front.value.image == e.image else t.front == r.front)
  {
    hide OnViewPaint, OnPopupPaint, EnsureTextures, StorePopup;
  }

  lemma NewestFrameShows(habit: Habit, r: Run, f: Frame)
    requires Proper(r) && Sane(r.host) && FrameKept(r, f) && FrameShows(r, f) && f.ordinal == r.views
    ensures SlotImage(Executed(habit, r.host.gpu, f), f.texture) == f.front.value.image
  {
    var log, at := r.host.gpu, habit.readAt(f.header.frameId);
    if at <= |log| && Waited(log, f, at) {
      SlotAtProgress(r, f, at);
    } else {
      MemoryKept(log, f.front.value.texture, f.front.value.copyAt + 1);
    }
  }

  /** What a published frame ships: the whole browser list when a view frame is not FULL. */
  lemma FrameShips(r: Run, e: Event)
    requires Proper(r) && Publishes(r.host, e) && Counted(Advance(r, e))
    ensures var t := Advance(r, e); var f := t.log[|r.log|].frame;
            && (e.ViewPaint? && !f.header.flags.full ==> Shipped(f.header) == e.listed)
            && (!e.ViewPaint? ==> !f.header.flags.full)
  {
    hide Step, Publishes;
    var t := Advance(r, e);
    NewFrame(r, e);
    NewestListed(r, e);
    assert FrameRules(t.log[..|r.log|], t.log[|r.log|].frame, |t.host.header.dirtyRects|);
  }

  lemma NewestListed(r: Run, e: Event)
    requires Proper(r) && Publishes(r.host, e)
    ensures var f := Advance(r, e).log[|r.log|].frame;
            && (e.ViewPaint? ==> f.isView && f.listed == e.listed)
            && (!e.ViewPaint? ==> !f.isView)
  {
    hide OnViewPaint, OnPopupPaint, EnsureTextures, StorePopup;
  }

  /** A view frame that is not FULL found its textures ready, so its size is the one of the front before it. */
  lemma DirtyKeepsSize(r: Run, e: Event)
    requires Reliable(r) && Publishes(r.host, e) && e.ViewPaint?
    requires !Advance(r, e).log[|r.log|].frame.header.flags.full
    ensures RingReady(r.host, e.image.width, e.image.height) && r.host.warmup == 0
    ensures SameForm(FrontImage(r), Some(e.image))
  {
    hide Kept, Faithful;
    DirtyMeansReady(r, e.image, e.listed, e.api);
  }

  lemma DirtyMeansReady(r: Run, image: Image, listed: seq<Rect>, api: Answers)
    requires Proper(r) && Publishes(r.host, ViewPaint(image, listed, api))
    requires !AdvanceView(r, image, listed, api).host.header.flags.full
    ensures RingReady(r.host, image.width, image.height) && r.host.warmup == 0
  {}

  // ---- Every run -------------------------------------------------------------------------------

  ghost predicate Pictured(z: Session) {
    && SameForm(z.picture, FrontImage(z.run))
    && AgreeOutside(z.picture, z.latest, z.stale)
    && AgreeOutside(FrontImage(z.run), z.latest, z.behind)
  }

  ghost predicate Synced(z: Session) {
    Reliable(z.run) && Pictured(z)
  }

  ghost predicate Exact(z: Session) {
    && DifferInside(z.picture, z.latest, z.stale)
    && DifferInside(FrontImage(z.run), z.latest, z.behind)
  }

  lemma SyncedMeans(z: Session)
    requires Synced(z)
    ensures Proper(z.run) && Sane(z.run.host) && Reliable(z.run) && Pictured(z)
  {
    KeptMeans(z.run);
  }

  /** Both gaps grow by what was repainted. */
  lemma GapsGrow(z: Session, e: Event)
    requires Pictured(z) && Honest(z, e)
    ensures AgreeOutside(z.picture, LatestAfter(z, e), Plus(z.stale, DamageOf(z, e)))
    ensures AgreeOutside(FrontImage(z.run), LatestAfter(z, e), Plus(z.behind, DamageOf(z, e)))
    ensures Exact(z) && Vivid(z, e) ==> DifferInside(z.picture, LatestAfter(z, e), Plus(z.stale, DamageOf(z, e)))
    ensures Exact(z) && Vivid(z, e) ==>
              DifferInside(FrontImage(z.run), LatestAfter(z, e), Plus(z.behind, DamageOf(z, e)))
  {
    if e.ViewPaint? {
      DroppedAgree(z.picture, z.latest, e.image, e.listed, z.stale);
      DroppedAgree(FrontImage(z.run), z.latest, e.image, e.listed, z.behind);
      if Exact(z) && Vivid(z, e) {
        DroppedDiffer(z.picture, z.latest, e.image, e.listed, z.stale);
        DroppedDiffer(FrontImage(z.run), z.latest, e.image, e.listed, z.behind);
      }
    }
  }

  lemma QuietObserved(z: Session, e: Event)
    requires Proper(z.run) && Pictured(z) && Honest(z, e) && !Publishes(z.run.host, e)
    ensures Pictured(Observe(z, e))
    ensures Exact(z) && Vivid(z, e) ==> Exact(Observe(z, e))
  {
    hide Advance, Publishes, AgreeOutside, DifferInside;
    QuietLog(z.run, e);
    GapsGrow(z, e);
  }

  lemma ItselfAgrees(image: Image)
    ensures AgreeOutside(Some(image), Some(image), NO_DAMAGE) && DifferInside(Some(image), Some(image), NO_DAMAGE)
  {}

  /** The front after a publish: the new image itself, or the old front behind what it was behind before. */
  lemma FrontObserved(z: Session, e: Event)
    requires Reliable(z.run) && Proper(z.run) && Pictured(z) && Publishes(z.run.host, e)
    ensures var y := Observe(z, e);
            && AgreeOutside(FrontImage(y.run), y.latest, y.behind)
            && (Exact(z) ==> DifferInside(FrontImage(y.run), y.latest, y.behind))
  {
    hide Reliable, Advance, Publishes, AgreeOutside, DifferInside;
    ConsumerReads(z.habit, z.run, e);
    if e.ViewPaint? { ItselfAgrees(e.image); }
  }

  /** A publish closes the picture's gap to the front, everywhere or where it ships. */
  lemma PublishObserved(z: Session, e: Event)
    requires Reliable(z.run) && Proper(z.run) && Pictured(z) && Publishes(z.run.host, e) && Honest(z, e)
    ensures Pictured(Observe(z, e))
    ensures Exact(z) && Vivid(z, e) ==> Exact(Observe(z, e))
  {
    hide Reliable, Advance, Publishes, AgreeOutside, DifferInside, Honest, Vivid;
    ConsumerReads(z.habit, z.run, e);
    FrontObserved(z, e);
    GapsGrow(z, e);
    var y := Observe(z, e);
    if !TakesWhole(z.habit, y.run.host.header) {
      var front, rects := y.run.front.value.image, Shipped(y.run.host.header);
      PatchedAgree(z.picture.value, front, y.latest, Plus(z.stale, DamageOf(z, e)), y.behind, rects);
      if Exact(z) && Vivid(z, e) {
        PatchedDiffer(z.picture.value, front, y.latest, Plus(z.stale, DamageOf(z, e)), y.behind, rects);
      }
    }
  }

  lemma SyncedStep(z: Session, e: Event)
    requires Synced(z) && Honest(z, e) && !Unnoticed(z.run.host, e)
    ensures Proper(z.run) && Synced(Observe(z, e))
    ensures Exact(z) && Vivid(z, e) ==> Exact(Observe(z, e))
  {
    hide Reliable, Advance, Publishes, Pictured, Exact, Honest, Vivid, Unnoticed;
    SyncedMeans(z);
    ReliableStep(z.run, e);
    if Publishes(z.run.host, e) { PublishObserved(z, e); } else { QuietObserved(z, e); }
  }

  /** In every run, with dropped paints, popups and resizes in any order, the picture is the newest browser
      image outside the tracked damage, unless it has another size. */
  lemma {:induction false} PictureAgreesOutsideDamage(z: Session, events: seq<Event>)
    requires Synced(z) && Proper(z.run) && HonestRun(z, events) && AlwaysNoticed(z.run, events)
    ensures Synced(Watch(z, events))
    decreases |events|
  {
    hide Synced, Observe, Advance, Honest, Unnoticed;
    if events != [] {
      SyncedStep(z, events[0]);
      PictureAgreesOutsideDamage(Observe(z, events[0]), events[1..]);
    }
  }

  /** The tracked damage is no over-estimate: when every repaint shows new colours, a picture of the newest image's
      size is wrong at a point exactly when the damage hits it. */
  lemma {:induction false} PictureWrongExactlyOnDamage(z: Session, events: seq<Event>)
    requires Synced(z) && Exact(z) && Proper(z.run) && AlwaysNoticed(z.run, events)
    requires HonestRun(z, events) && VividRun(z, events)
    ensures var y := Watch(z, events);
            y.picture.Some? && y.latest.Some? && SameSize(y.picture.value, y.latest.value) ==>
              forall p :: OnSurface(y.latest.value.width, y.latest.value.height, p) ==>
                (y.picture.value.at(p) != y.latest.value.at(p) <==> y.stale(p))
    decreases |events|
  {
    hide Reliable, Observe, Advance, Honest, Vivid, Unnoticed;
    if events != [] {
      SyncedStep(z, events[0]);
      PictureWrongExactlyOnDamage(Observe(z, events[0]), events[1..]);
    }
  }

  // ---- No paint dropped ------------------------------------------------------------------------

  /** Every view paint of the run is published. */
  predicate NothingDropped(r: Run, events: seq<Event>)
    requires Proper(r)
    decreases |events|
  {
    AdvanceProper(r, if events == [] then Resize else events[0]);
    events == []
    || ((events[0].ViewPaint? ==> Publishes(r.host, events[0])) && NothingDropped(Advance(r, events[0]), events[1..]))
  }

  ghost predicate NoHits(d: Damage) {
    forall p :: !d(p)
  }

  /** The front is the newest image, and the picture has no gap to it. */
  ghost predicate Current(z: Session) {
    Synced(z) && z.latest == FrontImage(z.run) && NoHits(z.stale) && NoHits(z.behind)
  }

  /** Once published, a repaint leaves no gap behind. */
  lemma CurrentView(z: Session, e: Event)
    requires Current(z) && Proper(z.run) && e.ViewPaint? && Publishes(z.run.host, e)
    ensures Observe(z, e).latest == FrontImage(Observe(z, e).run)
    ensures NoHits(Observe(z, e).stale) && NoHits(Observe(z, e).behind)
  {
    hide Reliable, Advance, Publishes, Pictured;
    ConsumerReads(z.habit, z.run, e);
  }

  lemma CurrentOther(z: Session, e: Event)
    requires Current(z) && Proper(z.run) && !e.ViewPaint?
    ensures Observe(z, e).latest == FrontImage(Observe(z, e).run)
    ensures NoHits(Observe(z, e).stale) && NoHits(Observe(z, e).behind)
  {
    hide Reliable, Advance, Publishes, Pictured;
    if Publishes(z.run.host, e) { ConsumerReads(z.habit, z.run, e); } else { QuietLog(z.run, e); }
  }

  lemma KeptPaintIsNoticed(s: Host, e: Event)
    requires WellFormed(s) && (e.ViewPaint? ==> Publishes(s, e))
    ensures !Unnoticed(s, e)
  {
    hide Publishes;
    if e.ViewPaint? { PublishedIsNoticed(s, e); }
  }

  lemma CurrentStep(z: Session, e: Event)
    requires Current(z) && Proper(z.run) && Honest(z, e) && (e.ViewPaint? ==> Publishes(z.run.host, e))
    ensures Current(Observe(z, e)) && !Unnoticed(z.run.host, e)
  {
    hide Synced, Observe, Publishes, Honest, Unnoticed, NoHits;
    KeptPaintIsNoticed(z.run.host, e);
    SyncedStep(z, e);
    if e.ViewPaint? { CurrentView(z, e); } else { CurrentOther(z, e); }
  }

  /** Nowhere on the surface do the two pictures differ. */
  ghost predicate SamePicture(a: Option<Image>, b: Option<Image>) {
    && a.Some? && b.Some? && SameSize(a.value, b.value)
    && forall p :: OnSurface(b.value.width, b.value.height, p) ==> a.value.at(p) == b.value.at(p)
  }

  lemma CurrentPicture(z: Session)
    requires Current(z)
    ensures z.run.front.Some? ==> SamePicture(z.picture, z.latest)
  {
    hide Reliable;
  }

  /** The refinement: as long as no view paint is dropped, the patching consumer holds exactly what a consumer
      copying every image in full would hold. */
  lemma {:induction false} PatchingRefinesCopying(z: Session, events: seq<Event>)
    requires Current(z) && Proper(z.run) && HonestRun(z, events) && NothingDropped(z.run, events)
    ensures var y := Watch(z, events);
            Current(y) && (y.run.front.Some? ==> SamePicture(y.picture, y.latest))
    decreases |events|
  {
    hide Current, Observe, Advance, Honest, Publishes, SamePicture, Unnoticed;
    if events == [] {
      CurrentPicture(z);
    } else {
      CurrentStep(z, events[0]);
      PatchingRefinesCopying(Observe(z, events[0]), events[1..]);
    }
  }

  lemma InitialSessionCurrent(slots: nat, maxRects: nat, hasFence: bool, habit: Habit)
    requires 2 <= slots && 1 <= maxRects < 256
    ensures var z := InitialSession(slots, maxRects, hasFence, habit); Current(z) && Exact(z)
  {
    hide Reliable;
    StartReliable(slots, maxRects, hasFence);
  }

  /** In particular from the start: once a view frame was published, what the consumer shows after any such run is
      the newest browser image, whatever its habits. */
  lemma PatchingConsumerIsExact(slots: nat, maxRects: nat, hasFence: bool, habit: Habit, events: seq<Event>)
    requires 2 <= slots && 1 <= maxRects < 256
    requires HonestRun(InitialSession(slots, maxRects, hasFence, habit), events)
    requires NothingDropped(Start(slots, maxRects, hasFence), events)
    ensures var y := Watch(InitialSession(slots, maxRects, hasFence, habit), events);
            y.run.front.Some? ==> SamePicture(y.picture, y.latest)
  {
    InitialSessionCurrent(slots, maxRects, hasFence, habit);
    PatchingRefinesCopying(InitialSession(slots, maxRects, hasFence, habit), events);
  }

  // ---- A dropped paint -------------------------------------------------------------------------

  /** Nothing forces a FULL frame after a dropped paint: once the next paint is published and not taken whole, the
      picture stays wrong exactly at the points that only the dropped paint announced. */
  lemma DroppedPaintLingers(z: Session, lost: Event, next: Event)
    requires Current(z) && Exact(z) && Proper(z.run) && lost.ViewPaint? && next.ViewPaint?
    requires !Publishes(z.run.host, lost) && !Unnoticed(z.run.host, lost)
    requires Honest(z, lost) && Vivid(z, lost) && Honest(Observe(z, lost), next) && Vivid(Observe(z, lost), next)
    requires Publishes(Observe(z, lost).run.host, next)
    requires !TakesWhole(z.habit, Observe(Observe(z, lost), next).run.host.header)
    ensures var y := Observe(Observe(z, lost), next);
            && y.latest == Some(next.image) && y.picture.Some? && SameSize(y.picture.value, next.image)
            && forall p :: OnSurface(next.image.width, next.image.height, p) ==>
                 (y.picture.value.at(p) != next.image.at(p) <==>
                  (!SizeKeeps(Some(lost.image), next.image) || CoveredBy(lost.listed, p)) && !CoveredBy(next.listed, p))
  {
    hide Reliable, Advance, Publishes, Unnoticed, Honest, Vivid;
    var one := Observe(z, lost);
    SyncedStep(z, lost);
    QuietLog(z.run, lost);
    KeptPaintIsNoticed(one.run.host, next);
    ConsumerReads(z.habit, one.run, next);
    SyncedStep(one, next);
  }

  lemma {:induction false} WatchLast(z: Session, events: seq<Event>, e: Event)
    requires Proper(z.run)
    ensures Watch(z, events + [e]) == Observe(Watch(z, events), e)
    ensures Watch(z, events).run == Replay(z.run, events)
    decreases |events|
  {
    hide Observe, Advance;
    if events == [] {
      assert [] + [e] == [e] && [e][1..] == [];
      assert Watch(Observe(z, e), []) == Observe(z, e);
    } else {
      AdvanceProper(z.run, events[0]);
      WatchLast(Observe(z, events[0]), events[1..], e);
      assert (events + [e])[1..] == events[1..] + [e];
    }
  }

  const RIGHT := Rect(1, 0, 1, 1)
  const HALF := Image(2, 1, (p: Point) => if p.x == 0 then Bgra(1) else Bgra(0))
  const ALL := Image(2, 1, (p: Point) => Bgra(1))
  const LOST := ViewPaint(HALF, [LEFT], GOOD.(openOk := false))
  const AFTERWARDS := ViewPaint(ALL, [RIGHT], GOOD)

  lemma PaintStep(z: Session)
    requires Current(z) && Exact(z) && Proper(z.run) && Publishes(z.run.host, PAINT)
    requires z.latest == None || z.latest == Some(TWO_PIXELS)
    ensures var y := Observe(z, PAINT); Current(y) && Exact(y) && y.latest == Some(TWO_PIXELS) && y.habit == z.habit
  {
    hide Reliable, Advance, Publishes, Pictured, Exact, NoHits, Unnoticed;
    PaintIsVivid(z);
    CurrentStep(z, PAINT);
    SyncedStep(z, PAINT);
  }

  lemma PaintIsVivid(z: Session)
    requires Current(z) && (z.latest == None || z.latest == Some(TWO_PIXELS))
    ensures Vivid(z, PAINT)
  {
    hide Reliable;
  }

  lemma WarmedSession(habit: Habit)
    ensures var z := Watch(InitialSession(2, 1, true, habit), [PAINT, PAINT, PAINT]);
            && Current(z) && Exact(z) && Proper(z.run) && PastWarmup(z.run.host, 2, 1)
            && z.latest == Some(TWO_PIXELS) && |z.run.host.header.dirtyRects| == 1 && z.habit == habit
  {
    hide Current, Exact, Advance, Publishes, Observe, InitialHost, Step, RingReady;
    var z0 := InitialSession(2, 1, true, habit);
    InitialSessionCurrent(2, 1, true, habit);
    StartShape();
    var z1 := Observe(z0, PAINT);
    var z2 := Observe(z1, PAINT);
    PaintPublishes(z0.run.host);
    FirstGood(z0.run.host);
    PaintStep(z0);
    PaintPublishes(z1.run.host);
    NextGood(z1.run.host);
    PaintStep(z1);
    PaintPublishes(z2.run.host);
    NextGood(z2.run.host);
    PaintStep(z2);
    WatchThree(z0, PAINT, PAINT, PAINT);
  }

  lemma WatchThree(z: Session, a: Event, b: Event, c: Event)
    requires Proper(z.run)
    ensures Watch(z, [a, b, c]) == Observe(Observe(Observe(z, a), b), c)
  {
    hide Observe, Proper;
    var z1, z2 := Observe(z, a), Observe(Observe(z, a), b);
    assert [a, b, c][1..] == [b, c] && [b, c][1..] == [c] && [c][1..] == [];
    assert Watch(z2, [c]) == Observe(z2, c);
    assert Watch(z1, [b, c]) == Watch(z2, [c]);
  }

  lemma PaintPublishes(s: Host)
    requires WellFormed(s)
    ensures Publishes(s, PAINT)
  {
    AllCreated(GOOD, 0, |s.ring|);
  }

  /** It does happen, whatever the consumer's habits: three good paints, one that cannot be opened and lists the left
      pixel, and one that lists the right pixel; the last frame ships one rectangle and the left pixel is wrong. */
  lemma DroppedPaintRun(habit: Habit)
    ensures var y := Watch(InitialSession(2, 1, true, habit), [PAINT, PAINT, PAINT] + [LOST] + [AFTERWARDS]);
            && y.run.host.header.flags == FrameFlags(false, true, false, false, true)
            && y.run.host.header.dirtyCount == 1
            && y.latest == Some(ALL) && y.picture.Some? && SameSize(y.picture.value, ALL)
            && y.picture.value.at(Point(0, 0)) != ALL.at(Point(0, 0))
  {
    hide Current, Exact, Advance, Publishes, Unnoticed, Observe;
    var z0 := InitialSession(2, 1, true, habit);
    var z := Watch(z0, [PAINT, PAINT, PAINT]);
    WarmedSession(habit);
    WatchLast(z0, [PAINT, PAINT, PAINT], LOST);
    WatchLast(z0, [PAINT, PAINT, PAINT] + [LOST], AFTERWARDS);
    LostAndAfter(z);
  }

  lemma LostAndAfter(z: Session)
    requires Current(z) && Exact(z) && Proper(z.run) && PastWarmup(z.run.host, 2, 1)
    requires z.latest == Some(TWO_PIXELS) && |z.run.host.header.dirtyRects| == 1
    ensures var y := Observe(Observe(z, LOST), AFTERWARDS);
            && y.run.host.header.flags == FrameFlags(false, true, false, false, true)
            && y.run.host.header.dirtyCount == 1
            && y.latest == Some(ALL) && y.picture.Some? && SameSize(y.picture.value, ALL)
            && y.picture.value.at(Point(0, 0)) != ALL.at(Point(0, 0))
  {
    hide Reliable, Advance, RingReady;
    var s := z.run.host;
    assert !Publishes(s, LOST) && !Unnoticed(s, LOST) && Step(s, LOST) == s;
    LostIsHonest(z);
    PublishesSilently(s, ALL, [RIGHT], GOOD);
    AfterIsHonest(z);
    DroppedPaintLingers(z, LOST, AFTERWARDS);
    LeftIsMissed();
  }

  lemma LeftIsMissed()
    ensures var p := Point(0, 0); OnSurface(2, 1, p) && CoveredBy([LEFT], p) && !CoveredBy([RIGHT], p)
  {
    assert Covers([LEFT][0], Point(0, 0));
  }

  lemma LostIsHonest(z: Session)
    requires Current(z) && Proper(z.run) && z.latest == Some(TWO_PIXELS)
    ensures Honest(z, LOST) && Vivid(z, LOST)
    ensures z.picture.Some? ==> forall p :: OnSurface(2, 1, p) ==> z.picture.value.at(p) == Bgra(0)
  {
    hide Reliable;
    forall p | OnSurface(2, 1, p) ensures CoveredBy([LEFT], p) <==> p.x == 0 {
      if p.x == 0 { assert Covers([LEFT][0], p); }
    }
    SyncedMeans(z);
    CurrentPicture(z);
  }

  lemma AfterIsHonest(z: Session)
    requires Current(z) && Proper(z.run) && z.latest == Some(TWO_PIXELS) && !Publishes(z.run.host, LOST)
    ensures var one := Observe(z, LOST); Honest(one, AFTERWARDS) && Vivid(one, AFTERWARDS)
  {
    hide Advance, Publishes, Reliable;
    forall p | OnSurface(2, 1, p) ensures CoveredBy([RIGHT], p) <==> p.x == 1 {
      if p.x == 1 { assert Covers([RIGHT][0], p); }
    }
    LostIsHonest(z);
    QuietLog(z.run, LOST);
  }
}
