/** What a published header says about the popup, the page load and the size of the advertised slot. */
module Headers {
  import opened Geometry
  import opened Gpu
  import opened Publication
  import opened Protocol
  import opened FrameReads
  import opened Announcements
  import opened PatchConsumer

  // ---- Last events -----------------------------------------------------------------------------

  function ShowOf(before: bool, e: Event): bool {
    if e.PopupShow? then e.show else before
  }

  function PlaceOf(before: Rect, e: Event): Rect {
    if e.PopupSize? then e.rect else if e.PopupShow? && !e.show then EMPTY_RECT else before
  }

  function LoadOf(before: LoadState, e: Event): LoadState {
    if e.Load? && e.isMain then e.state else before
  }

  /** Whether the last popup event about visibility showed it. */
  function LastShow(before: bool, events: seq<Event>): bool
    decreases |events|
  {
    if events == [] then before
    else LastShow(ShowOf(before, events[0]), events[1..])
  }

  /** The last announced popup rectangle; hiding the popup forgets it. */
  function LastPlace(before: Rect, events: seq<Event>): Rect
    decreases |events|
  {
    if events == [] then before
    else LastPlace(PlaceOf(before, events[0]), events[1..])
  }

  /** The state that the last load event of the main frame reported. */
  function LastLoad(before: LoadState, events: seq<Event>): LoadState
    decreases |events|
  {
    if events == [] then before
    else LastLoad(LoadOf(before, events[0]), events[1..])
  }

  lemma ViewFollows(s: Host, image: Image, listed: seq<Rect>, api: Answers)
    requires WellFormed(s)
    ensures var t := OnViewPaint(s, image, listed, api);
            t.popupVisible == s.popupVisible && t.popupRect == s.popupRect && t.header.loadState == s.header.loadState
  {
    hide CreateTextures, EnsureTextures, PublishView;
    var n := EnsureTextures(s, image.width, image.height, api);
    EnsureLeaves(s, image.width, image.height, api);
    if n.ok { ViewLeaves(n.host, image, listed, n.recreated, api); }
  }

  lemma StepFollows(s: Host, e: Event)
    requires WellFormed(s)
    ensures var t := Step(s, e);
            && t.popupVisible == ShowOf(s.popupVisible, e)
            && t.popupRect == PlaceOf(s.popupRect, e)
            && t.header.loadState == LoadOf(s.header.loadState, e)
  {
    hide OnViewPaint, StorePopup, PublishPopup;
    match e
    case ViewPaint(image, listed, api) =>
      ViewFollows(s, image, listed, api);
    case PopupPaint(image, api) =>
      PopupPaintParts(s, image, api);
      StoreLeaves(s, image);
      if Publishes(s, e) { PopupLeaves(StorePopup(s, image), api); }
    case _ =>
  }

  /** A published header tells the state of its moment. */
  lemma PublishTells(s: Host, e: Event)
    requires WellFormed(s) && Publishes(s, e)
    ensures var t := Step(s, e);
            && t.header.popupVisible == s.popupVisible && t.header.popupRect == s.popupRect
            && t.header.loadState == s.header.loadState
            && t.header.width == t.sharedWidth && t.header.height == t.sharedHeight
            && (e.ViewPaint? ==> t.sharedWidth == e.image.width && t.sharedHeight == e.image.height)
            && (e.PopupPaint? ==> t.sharedWidth == s.sharedWidth && t.sharedHeight == s.sharedHeight)
  {
    hide CreateTextures, EnsureTextures, PublishView, StorePopup, PublishPopup;
    match e
    case ViewPaint(image, listed, api) =>
      var n := EnsureTextures(s, image.width, image.height, api);
      EnsureLeaves(s, image.width, image.height, api);
      ViewLeaves(n.host, image, listed, n.recreated, api);
    case PopupPaint(image, api) =>
      PopupPaintParts(s, image, api);
      StoreLeaves(s, image);
      PopupLeaves(StorePopup(s, image), api);
  }

  lemma {:induction false} ReplayFollows(r: Run, events: seq<Event>)
    requires Proper(r)
    ensures var s, t := r.host, Replay(r, events).host;
            && t.popupVisible == LastShow(s.popupVisible, events)
            && t.popupRect == LastPlace(s.popupRect, events)
            && t.header.loadState == LastLoad(s.header.loadState, events)
    decreases |events|
  {
    if events != [] {
      StepFollows(r.host, events[0]);
      AdvanceProper(r, events[0]);
      ReplayFollows(Advance(r, events[0]), events[1..]);
    }
  }

  /** In every run a published header shows the popup where the browser last put it, if it is shown, and the last
      load state of the main frame. */
  lemma HeaderFollowsEvents(slots: nat, maxRects: nat, hasFence: bool, events: seq<Event>, e: Event)
    requires 2 <= slots && 1 <= maxRects < 256
    requires Publishes(Replay(Start(slots, maxRects, hasFence), events).host, e)
    ensures var h := Advance(Replay(Start(slots, maxRects, hasFence), events), e).host.header;
            && h.popupVisible == LastShow(false, events)
            && h.popupRect == LastPlace(EMPTY_RECT, events)
            && h.loadState == LastLoad(Idle, events)
  {
    var r := Replay(Start(slots, maxRects, hasFence), events);
    ReplayFollows(Start(slots, maxRects, hasFence), events);
    PublishTells(r.host, e);
  }

  // ---- Sizes -----------------------------------------------------------------------------------

  /** In every run without an unnoticed failure a published header gives the slot under which the consumer reads the
      newest published view image, and exactly that image's size. */
  lemma HeaderDescribesSlot(slots: nat, maxRects: nat, hasFence: bool, events: seq<Event>, e: Event)
    requires 2 <= slots && 1 <= maxRects < 256
    requires AlwaysNoticed(Start(slots, maxRects, hasFence), events)
    requires Publishes(Replay(Start(slots, maxRects, hasFence), events).host, e)
    ensures var t := Advance(Replay(Start(slots, maxRects, hasFence), events), e);
            var h := t.host.header;
            && t.front.Some? && h.slot < |t.known.ring|
            && SlotImage(t.host.gpu, t.known.ring[h.slot]) == t.front.value.image
            && h.width == t.front.value.image.width && h.height == t.front.value.image.height
  {
    hide Kept, Faithful, Counted, Step, Advance;
    var r := Replay(Start(slots, maxRects, hasFence), events);
    StartReliable(slots, maxRects, hasFence);
    ReliableReplay(Start(slots, maxRects, hasFence), events);
    ConsumerReads(Habit(false, (id: nat) => 0), r, e);
    NewFrame(r, e);
    PublishTells(r.host, e);
    var t := Advance(r, e);
    assert FrameAnnounced(t.log[..|r.log|], t.log[|r.log|].frame);
  }
}
