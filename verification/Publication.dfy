/** What each callback of the off-screen handler does to the frame ring, the popup plane, the shared
    header and the GPU queue, as functions from state to state. The class OsrHandler implements them. */
module Publication {
  import opened Geometry
  import opened Gpu
  import opened MachineWords

  datatype FrameFlags = FrameFlags(full: bool, dirtyOnly: bool, overflow: bool, resized: bool, popupPlane: bool)

  datatype LoadState = Idle | Loading | Ready | Error

  /** The shared header. `dirtyRects` is the fixed array; only the first `dirtyCount` entries are meant. */
  datatype FrameHeader = FrameHeader(
    width: nat, height: nat, slot: nat,
    sequence: nat, frameId: nat, presentId: nat, fence: nat,
    flags: FrameFlags, popupVisible: bool, popupRect: Rect,
    dirtyCount: nat, dirtyRects: seq<Rect>, loadState: LoadState)
  {
    function Dirty(): seq<Rect>
      requires dirtyCount <= |dirtyRects|
    {
      dirtyRects[..dirtyCount]
    }
  }

  /** The textures behind the shared names: one per slot, and the popup plane. */
  datatype Offer = Offer(ring: seq<Option<Texture>>, plane: Option<Texture>)

  /** `handles` and `planeHandle` say which textures have a shared handle, so that a consumer can open them. */
  datatype Host = Host(
    hasFence: bool,
    ring: seq<Option<Texture>>, plane: Option<Texture>,
    handles: seq<bool>, planeHandle: bool,
    sharedWidth: nat, sharedHeight: nat, writeSlot: nat,
    popupTexture: Option<Texture>, popupTexWidth: nat, popupTexHeight: nat,
    forceFull: bool, warmup: nat, sinceFlush: nat, flushEvery: nat,
    nextFrame: nat, nextFence: nat,
    popupRect: Rect, clearRect: Rect, popupVisible: bool,
    header: FrameHeader,
    gpu: seq<Command>, nextTexture: nat)

  /** The sequence number is a 32-bit word. */
  function Bumped(sequence: nat): nat {
    (sequence + 1) % TWO_32
  }

  /** How one attempt to create a shared texture ends: without a texture, with a texture but no handle, or well. */
  datatype Creation = NoTexture | NoHandle | Created

  /** What the graphics API answers during one paint. */
  datatype Answers = Answers(
    openOk: bool, deviceOk: bool, ring: seq<Creation>, plane: Creation, popupOk: bool, signalOk: bool)
  {
    function Slot(i: nat): Creation {
      if i < |ring| then ring[i] else Created
    }
  }

  datatype Event =
    | ViewPaint(image: Image, listed: seq<Rect>, api: Answers)
    | PopupPaint(image: Image, api: Answers)
    | Resize
    | PopupShow(show: bool)
    | PopupSize(rect: Rect)
    | Load(isMain: bool, state: LoadState)
    | SetFlushInterval(frames: nat)

  function InitialHeader(maxRects: nat): FrameHeader {
    FrameHeader(0, 0, 0, 0, 0, 0, 0, FrameFlags(true, false, false, false, false), false, EMPTY_RECT,
                0, seq(maxRects, i => EMPTY_RECT), Idle)
  }

  function InitialHost(slots: nat, maxRects: nat, hasFence: bool): Host {
    Host(hasFence, seq(slots, i => None), None, seq(slots, i => false), false, 0, 0, 0, None, 0, 0, true, 3, 0, 1, 1, 1,
         EMPTY_RECT, EMPTY_RECT, false, InitialHeader(maxRects), [], 0)
  }

  /** The number of slots and the length of the dirty array never change, and the slot stays in the ring. */
  predicate SameShape(s: Host, t: Host) {
    && |t.ring| == |s.ring| && |t.handles| == |s.handles| && |t.header.dirtyRects| == |s.header.dirtyRects|
    && (s.writeSlot < |s.ring| ==> t.writeSlot < |t.ring|)
  }

  predicate WellFormed(s: Host) {
    s.ring != [] && |s.handles| == |s.ring| && 0 < |s.header.dirtyRects| < 256
  }

  // ---- Shared textures -------------------------------------------------------------------------

  predicate AllPresent(ring: seq<Option<Texture>>) {
    forall i :: 0 <= i < |ring| ==> ring[i].Some?
  }

  predicate RingReady(s: Host, width: nat, height: nat) {
    s.sharedWidth == width && s.sharedHeight == height && AllPresent(s.ring)
  }

  /** The first slot, from `i` on, whose creation does not succeed; `slots` when all succeed. */
  function FirstFailure(api: Answers, i: nat, slots: nat): (f: nat)
    requires i <= slots
    ensures i <= f <= slots
    decreases slots - i
  {
    if i == slots || !api.Slot(i).Created? then i else FirstFailure(api, i + 1, slots)
  }

  /** How many slots hold a texture after an attempt to create the ring. */
  function SlotsFilled(api: Answers, slots: nat): (f: nat)
    ensures f <= slots
  {
    var f := FirstFailure(api, 0, slots);
    if f < slots && api.Slot(f).NoHandle? then f + 1 else f
  }

  function FilledRing(slots: nat, filled: nat, first: nat): seq<Option<Texture>> {
    seq(slots, i => if 0 <= i < filled then Some(first + i) else None)
  }

  function Creations(filled: nat, first: nat, width: nat, height: nat): seq<Command> {
    seq(filled, i => Create(if i < 0 then 0 else first + i, width, height))
  }

  /** Handles for the first `named` slots. */
  function FilledHandles(slots: nat, named: nat): seq<bool> {
    seq(slots, i => i < named)
  }

  function DropTextures(s: Host): Host {
    s.(ring := FilledRing(|s.ring|, 0, 0), plane := None,
       handles := FilledHandles(|s.handles|, 0), planeHandle := false)
  }

  function CreateRing(s: Host, width: nat, height: nat, api: Answers): Host {
    var filled := SlotsFilled(api, |s.ring|);
    s.(ring := FilledRing(|s.ring|, filled, s.nextTexture),
       handles := FilledHandles(|s.handles|, FirstFailure(api, 0, |s.ring|)),
       gpu := s.gpu + Creations(filled, s.nextTexture, width, height),
       nextTexture := s.nextTexture + filled)
  }

  function CreatePlane(s: Host, width: nat, height: nat, api: Answers): Host {
    if api.plane.NoTexture? then s
    else s.(plane := Some(s.nextTexture), planeHandle := api.plane.Created?,
            gpu := s.gpu + [Create(s.nextTexture, width, height)],
            nextTexture := s.nextTexture + 1)
  }

  /** Header contents announced when the textures were recreated. */
  function ResizedHeader(h: FrameHeader, width: nat, height: nat): FrameHeader {
    h.(width := width, height := height, slot := 0, fence := 0,
       flags := FrameFlags(true, false, false, true, false),
       popupVisible := false, popupRect := EMPTY_RECT, dirtyCount := 0)
  }

  /** A fresh ring and popup plane, as far as the creations succeed. */
  function CreateTextures(s: Host, width: nat, height: nat, api: Answers): (t: Host)
    ensures SameShape(s, t)
  {
    var ring := CreateRing(DropTextures(s), width, height, api);
    if !api.deviceOk then DropTextures(s)
    else if FirstFailure(api, 0, |s.ring|) < |s.ring| then ring
    else CreatePlane(ring, width, height, api)
  }

  predicate CreationSucceeds(api: Answers, slots: nat) {
    api.deviceOk && FirstFailure(api, 0, slots) == slots && api.plane.Created?
  }

  function AnnounceTextures(s: Host, width: nat, height: nat): Host {
    s.(sharedWidth := width, sharedHeight := height, writeSlot := 0, forceFull := true, warmup := 3,
       header := ResizedHeader(s.header, width, height))
  }

  function Named(ring: seq<Option<Texture>>, handles: seq<bool>): seq<Option<Texture>>
    requires |handles| == |ring|
  {
    seq(|ring|, i requires 0 <= i < |ring| => if handles[i] then ring[i] else None)
  }

  /** What a consumer finds when it opens the shared names. */
  function Offered(s: Host): Offer
    requires |s.handles| == |s.ring|
  {
    Offer(Named(s.ring, s.handles), if s.planeHandle then s.plane else None)
  }

  datatype Ensured = Ensured(host: Host, ok: bool, recreated: bool)

  function EnsureTextures(s: Host, width: nat, height: nat, api: Answers): (e: Ensured)
    ensures SameShape(s, e.host)
    ensures e.ok ==> AllPresent(e.host.ring)
  {
    if RingReady(s, width, height) then Ensured(s, true, false)
    else
      var created := CreateTextures(s, width, height, api);
      if CreationSucceeds(api, |s.ring|) then Ensured(AnnounceTextures(created, width, height), true, true)
      else Ensured(created, false, false)
  }

  // ---- Publishing ------------------------------------------------------------------------------

  function Overwrite(buffer: seq<Rect>, rects: seq<Rect>): seq<Rect>
    requires |rects| <= |buffer|
  {
    rects + buffer[|rects|..]
  }

  /** The dedicated popup plane receives the popup at its own rectangle, unclipped, with each view frame. */
  function PlaneCopy(s: Host): seq<Command> {
    if s.popupVisible && s.plane.Some? && s.popupTexture.Some? && HasArea(s.popupRect)
    then [CopyRegion(s.plane.value, s.popupRect, s.popupTexture.value)] else []
  }

  predicate Signals(s: Host, api: Answers) {
    s.hasFence && api.signalOk
  }

  /** The command that lets the consumer know the copies are done: the fence signal, or else a flush. */
  function Seal(s: Host, api: Answers): Command {
    if Signals(s, api) then Signal(s.nextFence) else Flush
  }

  function Advertised(s: Host, api: Answers): nat {
    if Signals(s, api) then s.nextFence else 0
  }

  function BackSlot(s: Host): nat
    requires s.ring != []
  {
    (s.writeSlot + 1) % |s.ring|
  }

  predicate ForcedFull(s: Host, listed: seq<Rect>, recreated: bool) {
    s.forceFull || recreated || s.warmup > 0 || |listed| > |s.header.dirtyRects|
  }

  /** One flush suffices when the seal already is one; otherwise the flush cadence decides. */
  predicate FlushesAfterSignal(s: Host, full: bool, api: Answers) {
    Signals(s, api) && (full || (s.flushEvery > 0 && s.sinceFlush + 1 >= s.flushEvery))
  }

  function ViewCopies(s: Host, image: Image): seq<Command>
    requires s.ring != [] && AllPresent(s.ring)
  {
    [CopyResource(s.ring[BackSlot(s)].value, image)] + PlaneCopy(s)
  }

  function ViewSeal(s: Host, full: bool, api: Answers): seq<Command> {
    [Seal(s, api)] + if FlushesAfterSignal(s, full, api) then [Flush] else []
  }

  function ViewCommands(s: Host, image: Image, full: bool, api: Answers): seq<Command>
    requires s.ring != [] && AllPresent(s.ring)
  {
    ViewCopies(s, image) + ViewSeal(s, full, api)
  }

  function ViewHeader(s: Host, image: Image, listed: seq<Rect>, recreated: bool, api: Answers): FrameHeader
    requires s.ring != []
  {
    var overflow := |listed| > |s.header.dirtyRects|;
    var full := ForcedFull(s, listed, recreated);
    s.header.(width := image.width, height := image.height, slot := BackSlot(s),
              flags := FrameFlags(full, !full, overflow, recreated, true),
              popupVisible := s.popupVisible, popupRect := s.popupRect,
              dirtyCount := if full then 0 else |listed| % 256,
              dirtyRects := if full then s.header.dirtyRects else Overwrite(s.header.dirtyRects, listed),
              frameId := s.nextFrame, presentId := s.nextFrame,
              fence := Advertised(s, api), sequence := Bumped(s.header.sequence))
  }

  function PublishView(s: Host, image: Image, listed: seq<Rect>, recreated: bool, api: Answers): (t: Host)
    requires s.ring != [] && AllPresent(s.ring)
    ensures SameShape(s, t)
  {
    var full := ForcedFull(s, listed, recreated);
    s.(gpu := s.gpu + ViewCommands(s, image, full, api),
       forceFull := false, warmup := if s.warmup > 0 then s.warmup - 1 else 0,
       nextFence := if s.hasFence then s.nextFence + 1 else s.nextFence,
       sinceFlush := if !Signals(s, api) || FlushesAfterSignal(s, full, api) then 0 else s.sinceFlush + 1,
       writeSlot := BackSlot(s), nextFrame := s.nextFrame + 1,
       header := ViewHeader(s, image, listed, recreated, api))
  }

  /** The rectangle a popup frame reports: the popup's, or the one it was last hidden from. */
  function ReportedRect(s: Host): Rect {
    Clip(if s.popupVisible then s.popupRect else s.clearRect, s.sharedWidth, s.sharedHeight)
  }

  function PopupCommands(s: Host, api: Answers): seq<Command>
    requires s.plane.Some? && s.popupTexture.Some?
  {
    (if s.popupVisible && HasArea(ReportedRect(s))
     then [CopyRegion(s.plane.value, ReportedRect(s), s.popupTexture.value)] else [])
    + [Seal(s, api)]
  }

  function PopupHeader(s: Host, api: Answers): FrameHeader
    requires s.header.dirtyRects != []
  {
    var area := HasArea(ReportedRect(s));
    s.header.(width := s.sharedWidth, height := s.sharedHeight, slot := s.writeSlot,
              flags := FrameFlags(false, true, false, false, true),
              popupVisible := s.popupVisible, popupRect := s.popupRect,
              dirtyCount := if area then 1 else 0,
              dirtyRects := if area then Overwrite(s.header.dirtyRects, [ReportedRect(s)]) else s.header.dirtyRects,
              frameId := s.nextFrame, presentId := s.nextFrame,
              fence := Advertised(s, api), sequence := Bumped(s.header.sequence))
  }

  function PublishPopup(s: Host, api: Answers): (t: Host)
    requires s.plane.Some? && s.popupTexture.Some? && s.header.dirtyRects != []
    ensures SameShape(s, t)
  {
    s.(gpu := s.gpu + PopupCommands(s, api),
       nextFence := if s.hasFence then s.nextFence + 1 else s.nextFence,
       nextFrame := s.nextFrame + 1,
       clearRect := if s.popupVisible then s.clearRect else EMPTY_RECT,
       header := PopupHeader(s, api))
  }

  // ---- Callbacks -------------------------------------------------------------------------------

  /** The popup's own texture, recreated when the size changed. */
  function FitPopup(s: Host, image: Image): (t: Host)
    ensures t.popupTexture.Some? && SameShape(s, t)
    ensures t.plane == s.plane
  {
    if s.popupTexture.Some? && s.popupTexWidth == image.width && s.popupTexHeight == image.height then s
    else s.(popupTexture := Some(s.nextTexture), popupTexWidth := image.width, popupTexHeight := image.height,
            gpu := s.gpu + [Create(s.nextTexture, image.width, image.height)],
            nextTexture := s.nextTexture + 1)
  }

  /** That texture with the new popup image copied in. */
  function StorePopup(s: Host, image: Image): (t: Host)
    ensures t.popupTexture.Some? && SameShape(s, t)
    ensures t.plane == s.plane
  {
    var t := FitPopup(s, image);
    t.(gpu := t.gpu + [CopyResource(t.popupTexture.value, image)])
  }

  predicate PopupStored(s: Host, image: Image, api: Answers) {
    && api.openOk
    && (api.popupOk || (s.popupTexture.Some? && s.popupTexWidth == image.width && s.popupTexHeight == image.height))
  }

  predicate PlanePublishable(s: Host) {
    s.plane.Some? && s.sharedWidth > 0 && s.sharedHeight > 0
  }

  /** The paints that end in a publish; every other event leaves the frame counters alone. */
  predicate Publishes(s: Host, e: Event) {
    match e
    case ViewPaint(image, _, api) => api.openOk && EnsureTextures(s, image.width, image.height, api).ok
    case PopupPaint(image, api) => PopupStored(s, image, api) && PlanePublishable(s)
    case _ => false
  }

  function OnViewPaint(s: Host, image: Image, listed: seq<Rect>, api: Answers): (t: Host)
    requires WellFormed(s)
    ensures SameShape(s, t)
  {
    if !api.openOk then s
    else
      var e := EnsureTextures(s, image.width, image.height, api);
      if e.ok then PublishView(e.host, image, listed, e.recreated, api) else e.host
  }

  function OnPopupPaint(s: Host, image: Image, api: Answers): (t: Host)
    requires WellFormed(s)
    ensures SameShape(s, t)
  {
    if !api.openOk then s
    else if !PopupStored(s, image, api) then s.(popupTexture := None)
    else if PlanePublishable(s) then PublishPopup(StorePopup(s, image), api)
    else StorePopup(s, image)
  }

  function OnPopupShow(s: Host, show: bool): Host {
    if show then s.(popupVisible := true)
    else s.(popupVisible := false, popupRect := EMPTY_RECT,
            clearRect := if s.popupRect.w > 0 then s.popupRect else s.clearRect)
  }

  function Step(s: Host, e: Event): (t: Host)
    requires WellFormed(s)
    ensures SameShape(s, t)
  {
    match e
    case ViewPaint(image, listed, api) => OnViewPaint(s, image, listed, api)
    case PopupPaint(image, api) => OnPopupPaint(s, image, api)
    case Resize => s.(forceFull := true, warmup := 3)
    case PopupShow(show) => OnPopupShow(s, show)
    case PopupSize(rect) => s.(popupRect := rect)
    case Load(isMain, state) =>
      if isMain then s.(header := s.header.(loadState := state, sequence := Bumped(s.header.sequence))) else s
    case SetFlushInterval(frames) => s.(flushEvery := frames)
  }

  // ---- What the parts of a step leave alone ------------------------------------------------------

  lemma CreationLeaves(s: Host, width: nat, height: nat, api: Answers)
    ensures var t := CreateTextures(s, width, height, api);
            && t == s.(ring := t.ring, plane := t.plane, handles := t.handles, planeHandle := t.planeHandle,
                       gpu := t.gpu, nextTexture := t.nextTexture)
            && s.gpu <= t.gpu && s.nextTexture <= t.nextTexture
  {}

  /** A necessary attempt touches the textures only, unless it succeeds. */
  lemma EnsureLeaves(s: Host, width: nat, height: nat, api: Answers)
    ensures var e := EnsureTextures(s, width, height, api);
            var created := CreateTextures(s, width, height, api);
            && (RingReady(s, width, height) ==> e == Ensured(s, true, false))
            && (!RingReady(s, width, height) ==>
                  && e.ok == e.recreated == CreationSucceeds(api, |s.ring|)
                  && e.host == if e.ok then AnnounceTextures(created, width, height) else created)
            && (e.ok ==> e.host.sharedWidth == width && e.host.sharedHeight == height)
            && (e.recreated ==> e.host.writeSlot == 0 && e.host.forceFull && e.host.warmup == 3
                                && e.host.header == ResizedHeader(s.header, width, height))
            && (!e.recreated ==> e.host.sharedWidth == s.sharedWidth && e.host.sharedHeight == s.sharedHeight
                                 && e.host.writeSlot == s.writeSlot && e.host.forceFull == s.forceFull
                                 && e.host.warmup == s.warmup && e.host.header == s.header)
            && s.gpu <= e.host.gpu && s.nextTexture <= e.host.nextTexture
            && e.host == s.(ring := e.host.ring, plane := e.host.plane, handles := e.host.handles,
                            planeHandle := e.host.planeHandle, gpu := e.host.gpu, nextTexture := e.host.nextTexture,
                            sharedWidth := e.host.sharedWidth, sharedHeight := e.host.sharedHeight,
                            writeSlot := e.host.writeSlot, forceFull := e.host.forceFull, warmup := e.host.warmup,
                            header := e.host.header)
  {
    hide CreateTextures;
    CreationLeaves(s, width, height, api);
  }

  lemma ViewLeaves(s: Host, image: Image, listed: seq<Rect>, recreated: bool, api: Answers)
    requires s.ring != [] && AllPresent(s.ring)
    ensures var t := PublishView(s, image, listed, recreated, api);
            && t == s.(gpu := t.gpu, forceFull := false, warmup := if s.warmup > 0 then s.warmup - 1 else 0,
                       nextFence := t.nextFence, sinceFlush := t.sinceFlush, writeSlot := BackSlot(s),
                       nextFrame := s.nextFrame + 1, header := ViewHeader(s, image, listed, recreated, api))
            && s.gpu <= t.gpu && s.nextFence <= t.nextFence
  {
    hide ViewHeader, ViewCommands;
  }

  lemma PopupLeaves(s: Host, api: Answers)
    requires s.plane.Some? && s.popupTexture.Some? && s.header.dirtyRects != []
    ensures var t := PublishPopup(s, api);
            && t == s.(gpu := t.gpu, nextFence := t.nextFence, nextFrame := s.nextFrame + 1, clearRect := t.clearRect,
                       header := PopupHeader(s, api))
            && s.gpu <= t.gpu && s.nextFence <= t.nextFence
  {
    hide PopupHeader, PopupCommands;
  }

  lemma FitLeaves(s: Host, image: Image)
    ensures var t := FitPopup(s, image);
            && t == s.(popupTexture := t.popupTexture, popupTexWidth := t.popupTexWidth,
                       popupTexHeight := t.popupTexHeight, gpu := t.gpu, nextTexture := t.nextTexture)
            && s.gpu <= t.gpu && s.nextTexture <= t.nextTexture
  {}

  lemma StoreLeaves(s: Host, image: Image)
    ensures var t := StorePopup(s, image);
            && t == s.(popupTexture := t.popupTexture, popupTexWidth := t.popupTexWidth,
                       popupTexHeight := t.popupTexHeight, gpu := t.gpu, nextTexture := t.nextTexture)
            && s.gpu <= t.gpu && s.nextTexture <= t.nextTexture
  {
    hide FitPopup;
    FitLeaves(s, image);
  }

  /** A popup paint in terms of its parts. */
  lemma PopupPaintParts(s: Host, image: Image, api: Answers)
    requires WellFormed(s)
    ensures var t, stored := OnPopupPaint(s, image, api), StorePopup(s, image);
            if Publishes(s, PopupPaint(image, api)) then t == PublishPopup(stored, api)
            else if PopupStored(s, image, api) then t == stored
            else t == s || t == s.(popupTexture := None)
  {
    hide StorePopup, PublishPopup;
    StoreLeaves(s, image);
  }
}
