/** The off-screen handler as the object it is: callbacks and control handlers that update its fields in place,
    each shown to perform the corresponding step of Publication, FlowControl, Telemetry or InputPump. */
module OsrHandler {
  import opened Geometry
  import opened Gpu
  import opened Publication
  import opened Telemetry
  import opened InputPump
  import opened MachineWords
  import FlowControl

  lemma AreaStep(rects: seq<Rect>, i: nat)
    requires i < |rects|
    ensures AreaOfAll(rects[..i + 1]) == AreaOfAll(rects[..i]) + AreaOf(rects[i])
  {
    assert rects[..i + 1][..i] == rects[..i];
  }

  lemma OverwriteStep(rects: seq<Rect>, buffer: seq<Rect>, i: nat)
    requires i < |rects| <= |buffer|
    ensures (rects[..i] + buffer[i..])[i := rects[i]] == rects[..i + 1] + buffer[i + 1..]
  {}

  class Handler {
    const hasFence: bool
    const sharedTexture: array<Option<Texture>>
    const sharedNTHandle: array<bool>
    var sharedPopupTexture: Option<Texture>
    var sharedPopupHandle: bool
    var sharedWidth: nat
    var sharedHeight: nat
    var writeSlot: nat
    var popupTexture: Option<Texture>
    var popupTexWidth: nat
    var popupTexHeight: nat
    var forceFullFrame: bool
    var warmupFullFrames: nat
    var framesSinceFlush: nat
    var flushIntervalFrames: nat
    var nextFrameId: nat
    var nextGpuFenceValue: nat
    var popupRect: Rect
    var popupClearRect: Rect
    var popupVisible: bool
    var header: FrameHeader

    /** The device's command queue and the name of the next texture it creates. */
    var commands: seq<Command>
    var nextTexture: nat

    var beginFramesSent: nat
    var paintsCompleted: nat
    var maxInFlightBeginFrames: nat
    var lastBeginFrameUs: nat
    var beginFrameIntervalNs: nat
    var smoothedConsumerCadenceUs: nat
    var paused: bool
    var hasBrowser: bool

    var stats: Stats
    var lastTelemetryLogUs: nat
    var loggedWindows: seq<Stats>

    var mouseModifiers: Modifiers
    var inputQueue: seq<InputEvent>

    /** The ring as a value. */
    function Ring(): seq<Option<Texture>>
      reads sharedTexture
    {
      sharedTexture[..]
    }

    function HostState(): Host
      reads sharedTexture, sharedNTHandle, this`sharedPopupTexture, this`sharedPopupHandle,
            this`sharedWidth, this`sharedHeight, this`writeSlot,
            this`popupTexture, this`popupTexWidth, this`popupTexHeight, this`forceFullFrame, this`warmupFullFrames,
            this`framesSinceFlush, this`flushIntervalFrames, this`nextFrameId, this`nextGpuFenceValue,
            this`popupRect, this`popupClearRect, this`popupVisible, this`header, this`commands, this`nextTexture
    {
      Host(hasFence, Ring(), sharedPopupTexture, sharedNTHandle[..], sharedPopupHandle,
           sharedWidth, sharedHeight, writeSlot,
           popupTexture, popupTexWidth, popupTexHeight, forceFullFrame, warmupFullFrames,
           framesSinceFlush, flushIntervalFrames, nextFrameId, nextGpuFenceValue,
           popupRect, popupClearRect, popupVisible, header, commands, nextTexture)
    }

    function FlowState(): FlowControl.Flow
      reads this`beginFramesSent, this`paintsCompleted, this`maxInFlightBeginFrames, this`lastBeginFrameUs,
            this`beginFrameIntervalNs, this`smoothedConsumerCadenceUs, this`paused, this`hasBrowser
    {
      FlowControl.Flow(beginFramesSent, paintsCompleted, maxInFlightBeginFrames, lastBeginFrameUs,
                       beginFrameIntervalNs, smoothedConsumerCadenceUs, paused, hasBrowser)
    }

    function MeterState(): Meter
      reads this`stats, this`lastTelemetryLogUs, this`loggedWindows
    {
      Meter(stats, lastTelemetryLogUs, loggedWindows)
    }

    predicate Valid()
      reads this, sharedTexture, sharedNTHandle
    {
      WellFormed(HostState()) && HostState().writeSlot < |HostState().ring|
    }

    constructor (slots: nat, maxRects: nat, fenceCreated: bool, targetFps: nat)
      requires 2 <= slots && 1 <= maxRects < 256
      ensures HostState() == InitialHost(slots, maxRects, fenceCreated)
      ensures FlowState() == FlowControl.Initial(targetFps)
      ensures MeterState() == Meter(ZERO, 0, []) && inputQueue == [] && mouseModifiers == {}
    {
      hide FlowControl.FromFps;
      hasFence := fenceCreated;
      sharedTexture := new Option<Texture>[slots](i => None);
      sharedNTHandle := new bool[slots](i => false);
      sharedPopupTexture, sharedPopupHandle := None, false;
      sharedWidth, sharedHeight, writeSlot := 0, 0, 0;
      popupTexture, popupTexWidth, popupTexHeight := None, 0, 0;
      forceFullFrame, warmupFullFrames, framesSinceFlush, flushIntervalFrames := true, 3, 0, 1;
      nextFrameId, nextGpuFenceValue := 1, 1;
      popupRect, popupClearRect, popupVisible := EMPTY_RECT, EMPTY_RECT, false;
      header := InitialHeader(maxRects);
      commands, nextTexture := [], 0;
      beginFramesSent, paintsCompleted, maxInFlightBeginFrames, lastBeginFrameUs := 0, 0, 2, 0;
      beginFrameIntervalNs, smoothedConsumerCadenceUs, paused, hasBrowser := 16666667, 0, false, false;
      stats, lastTelemetryLogUs, loggedWindows := ZERO, 0, [];
      mouseModifiers, inputQueue := {}, [];
      new;
      UpdateBeginFrameIntervalFromFps(targetFps);
    }

    // ---- Shared textures -----------------------------------------------------------------------

    method ResetSharedTextureRing()
      requires sharedNTHandle.Length == sharedTexture.Length
      modifies sharedTexture, sharedNTHandle
      ensures sharedTexture[..] == FilledRing(sharedTexture.Length, 0, 0)
      ensures sharedNTHandle[..] == FilledHandles(sharedTexture.Length, 0)
    {
      for i := 0 to sharedTexture.Length
        invariant forall j :: 0 <= j < i ==> sharedTexture[j].None? && !sharedNTHandle[j]
      {
        sharedNTHandle[i] := false;
        sharedTexture[i] := None;
      }
    }

    method CreateSharedTextureRing(width: nat, height: nat, api: Answers) returns (ok: bool)
      requires sharedNTHandle.Length == sharedTexture.Length
      requires sharedTexture[..] == FilledRing(sharedTexture.Length, 0, 0)
      requires sharedNTHandle[..] == FilledHandles(sharedTexture.Length, 0)
      modifies sharedTexture, sharedNTHandle, this`commands, this`nextTexture
      ensures ok <==> FirstFailure(api, 0, sharedTexture.Length) == sharedTexture.Length
      ensures var filled := SlotsFilled(api, sharedTexture.Length);
              && sharedTexture[..] == FilledRing(sharedTexture.Length, filled, old(nextTexture))
              && commands == old(commands) + Creations(filled, old(nextTexture), width, height)
              && nextTexture == old(nextTexture) + filled
      ensures sharedNTHandle[..] == FilledHandles(sharedTexture.Length, FirstFailure(api, 0, sharedTexture.Length))
    {
      ghost var first, before := nextTexture, commands;
      var i := 0;
      while i < sharedTexture.Length
        invariant i <= sharedTexture.Length
        invariant FirstFailure(api, i, sharedTexture.Length) == FirstFailure(api, 0, sharedTexture.Length)
        invariant nextTexture == first + i && commands == before + Creations(i, first, width, height)
        invariant sharedTexture[..] == FilledRing(sharedTexture.Length, i, first)
        invariant sharedNTHandle[..] == FilledHandles(sharedTexture.Length, i)
      {
        if api.Slot(i).NoTexture? {
          return false;
        }
        sharedTexture[i] := Some(nextTexture);
        commands := commands + [Create(nextTexture, width, height)];
        nextTexture := nextTexture + 1;
        assert sharedTexture[..] == FilledRing(sharedTexture.Length, i + 1, first);
        assert commands == before + Creations(i + 1, first, width, height);
        if api.Slot(i).NoHandle? {
          return false;
        }
        sharedNTHandle[i] := true;
        assert sharedNTHandle[..] == FilledHandles(sharedTexture.Length, i + 1);
        i := i + 1;
      }
      return true;
    }

    method CreateSharedPopupPlane(width: nat, height: nat, api: Answers) returns (ok: bool)
      requires !sharedPopupHandle
      modifies this`sharedPopupTexture, this`sharedPopupHandle, this`commands, this`nextTexture
      ensures ok == sharedPopupHandle == api.plane.Created?
      ensures if api.plane.NoTexture? then
                && sharedPopupTexture == old(sharedPopupTexture) && commands == old(commands)
                && nextTexture == old(nextTexture)
              else
                && sharedPopupTexture == Some(old(nextTexture)) && nextTexture == old(nextTexture) + 1
                && commands == old(commands) + [Create(old(nextTexture), width, height)]
    {
      if api.plane.NoTexture? {
        return false;
      }
      sharedPopupTexture := Some(nextTexture);
      commands := commands + [Create(nextTexture, width, height)];
      nextTexture := nextTexture + 1;
      sharedPopupHandle := api.plane.Created?;
      return sharedPopupHandle;
    }

    method ResetSharedPopupPlane()
      modifies this`sharedPopupTexture, this`sharedPopupHandle
      ensures sharedPopupTexture.None? && !sharedPopupHandle
    {
      sharedPopupHandle := false;
      sharedPopupTexture := None;
    }

    method UpdateSharedResizeHeader(width: nat, height: nat)
      requires writeSlot == 0
      modifies this`header
      ensures header == ResizedHeader(old(header), width, height)
    {
      header := header.(width := width, height := height);
      header := header.(slot := writeSlot, fence := 0);
      header := header.(flags := FrameFlags(true, false, false, true, false));
      header := header.(popupVisible := false, popupRect := EMPTY_RECT, dirtyCount := 0);
    }

    method RingIsReady(width: nat, height: nat) returns (ready: bool)
      ensures ready <==> RingReady(HostState(), width, height)
    {
      ready := sharedWidth == width && sharedHeight == height;
      if ready {
        var i := 0;
        while i < sharedTexture.Length
          invariant i <= sharedTexture.Length && ready
          invariant forall j :: 0 <= j < i ==> sharedTexture[j].Some?
        {
          if sharedTexture[i].None? {
            ready := false;
            break;
          }
          i := i + 1;
        }
      }
    }

    /** Fresh ring and popup plane; false as soon as one creation fails. */
    method CreateSharedTextures(width: nat, height: nat, api: Answers) returns (ok: bool)
      requires sharedNTHandle.Length == sharedTexture.Length
      modifies sharedTexture, sharedNTHandle, this`sharedPopupTexture, this`sharedPopupHandle, this`commands,
               this`nextTexture
      ensures ok <==> CreationSucceeds(api, sharedTexture.Length)
      ensures var t := CreateTextures(old(HostState()), width, height, api);
              && sharedTexture[..] == t.ring && sharedNTHandle[..] == t.handles && commands == t.gpu
              && sharedPopupTexture == t.plane && sharedPopupHandle == t.planeHandle && nextTexture == t.nextTexture
    {
      hide FilledRing, FilledHandles, Creations, FirstFailure, SlotsFilled;
      ResetSharedTextureRing();
      ResetSharedPopupPlane();
      if !api.deviceOk {
        return false;
      }
      ok := CreateSharedTextureRing(width, height, api);
      if ok {
        ok := CreateSharedPopupPlane(width, height, api);
      }
    }

    method AnnounceSharedTextures(width: nat, height: nat)
      modifies this`sharedWidth, this`sharedHeight, this`writeSlot, this`forceFullFrame, this`warmupFullFrames,
               this`header
      ensures sharedWidth == width && sharedHeight == height && writeSlot == 0
      ensures forceFullFrame && warmupFullFrames == 3
      ensures header == ResizedHeader(old(header), width, height)
    {
      sharedWidth, sharedHeight := width, height;
      writeSlot := 0;
      forceFullFrame := true;
      warmupFullFrames := 3;
      UpdateSharedResizeHeader(width, height);
    }

    method RecreateSharedTextures(width: nat, height: nat, api: Answers) returns (ok: bool)
      requires sharedNTHandle.Length == sharedTexture.Length
      modifies sharedTexture, sharedNTHandle, this`sharedPopupTexture, this`sharedPopupHandle, this`commands,
               this`nextTexture, this`sharedWidth, this`sharedHeight, this`writeSlot, this`forceFullFrame,
               this`warmupFullFrames, this`header
      ensures ok <==> CreationSucceeds(api, sharedTexture.Length)
      ensures var created := CreateTextures(old(HostState()), width, height, api);
              HostState() == if ok then AnnounceTextures(created, width, height) else created
    {
      hide CreateTextures, CreationSucceeds, ResizedHeader;
      CreationLeaves(HostState(), width, height, api);
      ghost var s := HostState();
      ok := CreateSharedTextures(width, height, api);
      assert HostState() == s.(ring := Ring(), handles := sharedNTHandle[..], plane := sharedPopupTexture,
                               planeHandle := sharedPopupHandle, gpu := commands, nextTexture := nextTexture);
      if ok {
        AnnounceSharedTextures(width, height);
      }
    }

    method EnsureSharedTextures(width: nat, height: nat, api: Answers) returns (ok: bool, recreated: bool)
      requires sharedNTHandle.Length == sharedTexture.Length
      modifies sharedTexture, sharedNTHandle, this`sharedPopupTexture, this`sharedPopupHandle, this`commands,
               this`nextTexture, this`sharedWidth, this`sharedHeight, this`writeSlot, this`forceFullFrame,
               this`warmupFullFrames, this`header
      ensures Ensured(HostState(), ok, recreated) == EnsureTextures(old(HostState()), width, height, api)
    {
      hide CreateTextures, CreationSucceeds, RingReady, AnnounceTextures;
      recreated := false;
      ok := RingIsReady(width, height);
      if !ok {
        ok := RecreateSharedTextures(width, height, api);
        recreated := ok;
      }
    }

    // ---- Begin-frame flow control --------------------------------------------------------------

    method UpdateBeginFrameIntervalFromFps(fps: nat)
      modifies this`beginFrameIntervalNs, this`smoothedConsumerCadenceUs
      ensures FlowState() == FlowControl.FromFps(old(FlowState()), fps)
    {
      var clamped := if fps < 1 then 1 else if fps > 240 then 240 else fps;
      beginFrameIntervalNs := 1000000000 / clamped;
      smoothedConsumerCadenceUs := 0;
    }

    // ---- Paint callbacks -----------------------------------------------------------------------

    /** addDirty over the browser's list: the first `maxRects` are kept, more are an overflow. */
    method CollectDirty(listed: seq<Rect>, maxRects: nat) returns (collected: seq<Rect>, overflow: bool)
      ensures overflow <==> |listed| > maxRects
      ensures collected == if overflow then listed[..maxRects] else listed
    {
      collected, overflow := [], false;
      for i := 0 to |listed|
        invariant overflow <==> i > maxRects
        invariant collected == if i > maxRects then listed[..maxRects] else listed[..i]
      {
        if |collected| < maxRects {
          collected := collected + [listed[i]];
        } else {
          overflow := true;
        }
      }
    }

    /** Tries to signal the next fence value, which is used up either way. */
    method SignalFence(api: Answers) returns (value: nat, signaled: bool)
      modifies this`commands, this`nextGpuFenceValue
      ensures signaled <==> Signals(old(HostState()), api)
      ensures value == Advertised(old(HostState()), api)
      ensures nextGpuFenceValue == old(nextGpuFenceValue) + if hasFence then 1 else 0
      ensures commands == old(commands) + if signaled then [Signal(old(nextGpuFenceValue))] else []
    {
      value, signaled := 0, false;
      if hasFence {
        value := nextGpuFenceValue;
        nextGpuFenceValue := nextGpuFenceValue + 1;
        signaled := api.signalOk;
        if signaled {
          commands := commands + [Signal(value)];
        } else {
          value := 0;
        }
      }
    }

    /** Writes the collected rectangles to the header, one by one, and adds up their area. */
    method ShipDirty(collected: seq<Rect>)
      requires |collected| <= |header.dirtyRects|
      modifies this`header, this`stats
      ensures header == old(header).(dirtyCount := |collected| % 256,
                                     dirtyRects := Overwrite(old(header.dirtyRects), collected))
      ensures stats == old(stats).(dirtyCount := old(stats.dirtyCount) + |collected|,
                                   dirtyArea := old(stats.dirtyArea) + AreaOfAll(collected))
    {
      ghost var rects, counters := header.dirtyRects, stats;
      header := header.(dirtyCount := |collected| % 256);
      ghost var counted := header;
      for i := 0 to |collected|
        invariant header == counted.(dirtyRects := header.dirtyRects)
        invariant header.dirtyRects == collected[..i] + rects[i..]
        invariant stats == counters.(dirtyArea := stats.dirtyArea)
        invariant stats.dirtyArea == counters.dirtyArea + AreaOfAll(collected[..i])
      {
        AreaStep(collected, i);
        OverwriteStep(collected, rects, i);
        header := header.(dirtyRects := header.dirtyRects[i := collected[i]]);
        stats := stats.(dirtyArea := stats.dirtyArea + AreaOf(collected[i]));
      }
      assert collected[..|collected|] == collected;
      stats := stats.(dirtyCount := stats.dirtyCount + |collected|);
    }

    /** Takes the log line's counters and resets them, once the log period is over. */
    method LogTelemetry(endUs: nat)
      modifies this`stats, this`lastTelemetryLogUs, this`loggedWindows
      ensures MeterState() == MaybeLog(old(MeterState()), endUs)
    {
      if lastTelemetryLogUs == 0 {
        lastTelemetryLogUs := endUs;
      } else if (endUs - lastTelemetryLogUs) % TWO_64 >= LOG_PERIOD_US {
        lastTelemetryLogUs := endUs;
        loggedWindows := loggedWindows + [stats];
        stats := ZERO;
      }
    }

    /** Copies the view image, and the popup to its plane, behind the current front. */
    method CopyToBackSlot(image: Image) returns (backSlot: nat)
      requires Valid() && AllPresent(Ring())
      modifies this`commands
      ensures backSlot == BackSlot(HostState())
      ensures commands == old(commands) + ViewCopies(old(HostState()), image)
    {
      backSlot := (writeSlot + 1) % sharedTexture.Length;
      assert sharedTexture[..][backSlot].Some?;
      commands := commands + [CopyResource(sharedTexture[backSlot].value, image)];
      if popupVisible {
        if sharedPopupTexture.Some? && popupTexture.Some? && popupRect.w > 0 && popupRect.h > 0 {
          commands := commands + [CopyRegion(sharedPopupTexture.value, popupRect, popupTexture.value)];
        }
      }
    }

    /** Whether the frame must be FULL; uses up the manual request and one warm-up frame. */
    method TakeForceFull(recreated: bool, overflow: bool) returns (forceFull: bool, manual: bool)
      modifies this`forceFullFrame, this`warmupFullFrames
      ensures forceFull <==> old(forceFullFrame) || recreated || old(warmupFullFrames) > 0 || overflow
      ensures manual == old(forceFullFrame) && !forceFullFrame
      ensures warmupFullFrames == if old(warmupFullFrames) > 0 then old(warmupFullFrames) - 1 else 0
    {
      manual := forceFullFrame;
      forceFullFrame := false;
      forceFull := manual;
      if recreated {
        forceFull := true;
      }
      if warmupFullFrames > 0 {
        forceFull := true;
        warmupFullFrames := warmupFullFrames - 1;
      }
      if overflow {
        forceFull := true;
      }
    }

    /** Dirty part of the header and the matching counters. */
    method ShipDamage(forceFull: bool, manual: bool, recreated: bool, overflow: bool, listed: seq<Rect>,
                      collected: seq<Rect>)
      requires manual || recreated || overflow ==> forceFull
      requires !forceFull ==> collected == listed && |listed| <= |header.dirtyRects|
      modifies this`header, this`stats
      ensures header == old(header).(
                dirtyCount := if forceFull then 0 else |listed| % 256,
                dirtyRects := if forceFull then old(header.dirtyRects) else Overwrite(old(header.dirtyRects), listed))
      ensures stats == ForcedCounted(old(stats), forceFull, manual, recreated, overflow, listed)
    {
      if forceFull {
        header := header.(dirtyCount := 0);
        stats := stats.(forced := stats.forced + 1);
        if manual { stats := stats.(manual := stats.manual + 1); }
        if recreated { stats := stats.(recreated := stats.recreated + 1); }
        if overflow { stats := stats.(overflowed := stats.overflowed + 1); }
      } else {
        ShipDirty(collected);
      }
    }

    /** Collects the browser's list, decides on FULL, and writes the dirty part of the header. */
    method PrepareDamage(listed: seq<Rect>, recreated: bool) returns (forceFull: bool, overflow: bool)
      modifies this`header, this`stats, this`forceFullFrame, this`warmupFullFrames
      ensures overflow <==> |listed| > |old(header.dirtyRects)|
      ensures forceFull <==> old(forceFullFrame) || recreated || old(warmupFullFrames) > 0 || overflow
      ensures !forceFullFrame && warmupFullFrames == if old(warmupFullFrames) > 0 then old(warmupFullFrames) - 1 else 0
      ensures header == old(header).(
                dirtyCount := if forceFull then 0 else |listed| % 256,
                dirtyRects := if forceFull then old(header.dirtyRects) else Overwrite(old(header.dirtyRects), listed))
      ensures stats == ForcedCounted(old(stats), forceFull, old(forceFullFrame), recreated, overflow, listed)
    {
      var collected: seq<Rect>;
      collected, overflow := CollectDirty(listed, |header.dirtyRects|);
      var manual: bool;
      forceFull, manual := TakeForceFull(recreated, overflow);
      ShipDamage(forceFull, manual, recreated, overflow, listed, collected);
    }

    /** Fence signal and flush cadence of a view frame. */
    method SealViewFrame(recreated: bool, forceFull: bool, api: Answers) returns (value: nat)
      requires recreated ==> forceFull
      modifies this`commands, this`nextGpuFenceValue, this`framesSinceFlush
      ensures value == Advertised(old(HostState()), api)
      ensures nextGpuFenceValue == old(nextGpuFenceValue) + if hasFence then 1 else 0
      ensures var s := old(HostState());
              && commands == old(commands) + ViewSeal(s, forceFull, api)
              && framesSinceFlush ==
                 (if !Signals(s, api) || FlushesAfterSignal(s, forceFull, api) then 0 else s.sinceFlush + 1)
    {
      var signaled: bool;
      value, signaled := SignalFence(api);
      framesSinceFlush := framesSinceFlush + 1;
      if !signaled || recreated || forceFull || (flushIntervalFrames > 0 && framesSinceFlush >= flushIntervalFrames) {
        commands := commands + [Flush];
        framesSinceFlush := 0;
      }
    }

    /** Everything of the header but the dirty list, the frame numbers and the completion. */
    method StampFrame(width: nat, height: nat, slot: nat, flags: FrameFlags, fence: nat)
      modifies this`writeSlot, this`header, this`nextFrameId, this`paintsCompleted
      ensures header == old(header).(width := width, height := height, slot := slot, flags := flags,
                popupVisible := popupVisible, popupRect := popupRect, presentId := old(nextFrameId), fence := fence,
                frameId := old(nextFrameId), sequence := Bumped(old(header.sequence)))
      ensures writeSlot == slot
      ensures nextFrameId == old(nextFrameId) + 1 && paintsCompleted == old(paintsCompleted) + 1
    {
      writeSlot := slot;
      header := header.(width := width, height := height);
      header := header.(slot := writeSlot, flags := flags);
      header := header.(popupVisible := popupVisible, popupRect := popupRect);
      header := header.(presentId := nextFrameId, fence := fence, frameId := nextFrameId);
      nextFrameId := nextFrameId + 1;
      header := header.(sequence := Bumped(header.sequence));
      paintsCompleted := paintsCompleted + 1;
    }

    method CountCopy(copyUs: nat)
      modifies this`stats
      ensures stats == CopyCounted(old(stats), copyUs)
    {
      stats := stats.(produced := stats.produced + 1);
      stats := stats.(copyUsSum := stats.copyUsSum + copyUs);
      if copyUs > stats.copyUsMax {
        stats := stats.(copyUsMax := copyUs);
      }
    }

    /** Copies, damage and seal of a view frame: everything before its header is stamped. */
    method BuildViewFrame(image: Image, listed: seq<Rect>, recreated: bool, api: Answers)
        returns (backSlot: nat, forceFull: bool, overflow: bool, fence: nat)
      requires Valid() && AllPresent(Ring())
      modifies this`commands, this`nextGpuFenceValue, this`forceFullFrame, this`warmupFullFrames, this`framesSinceFlush,
               this`header, this`stats
      ensures backSlot == BackSlot(old(HostState())) && fence == Advertised(old(HostState()), api)
      ensures overflow <==> |listed| > |old(header.dirtyRects)|
      ensures forceFull <==> ForcedFull(old(HostState()), listed, recreated)
      ensures commands == old(commands) + ViewCommands(old(HostState()), image, forceFull, api)
      ensures header == old(header).(
                dirtyCount := if forceFull then 0 else |listed| % 256,
                dirtyRects := if forceFull then old(header.dirtyRects) else Overwrite(old(header.dirtyRects), listed))
      ensures !forceFullFrame && warmupFullFrames == if old(warmupFullFrames) > 0 then old(warmupFullFrames) - 1 else 0
      ensures nextGpuFenceValue == old(nextGpuFenceValue) + if hasFence then 1 else 0
      ensures var s := old(HostState());
              framesSinceFlush ==
              if !Signals(s, api) || FlushesAfterSignal(s, forceFull, api) then 0 else s.sinceFlush + 1
      ensures stats == ForcedCounted(old(stats), forceFull, old(forceFullFrame), recreated, overflow, listed)
    {
      backSlot := CopyToBackSlot(image);
      forceFull, overflow := PrepareDamage(listed, recreated);
      fence := SealViewFrame(recreated, forceFull, api);
      Regroup(old(commands), ViewCopies(old(HostState()), image), ViewSeal(old(HostState()), forceFull, api));
    }

    /** Queue, header and counters of a view frame. */
    method FillViewFrame(image: Image, listed: seq<Rect>, recreated: bool, api: Answers)
      requires Valid() && AllPresent(Ring())
      modifies this`commands, this`nextGpuFenceValue, this`forceFullFrame, this`warmupFullFrames, this`framesSinceFlush,
               this`writeSlot, this`header, this`nextFrameId, this`paintsCompleted, this`stats
      ensures var s := old(HostState()); var full := ForcedFull(s, listed, recreated);
              && commands == old(commands) + ViewCommands(s, image, full, api)
              && header == ViewHeader(s, image, listed, recreated, api)
              && writeSlot == BackSlot(s)
              && framesSinceFlush ==
                 (if !Signals(s, api) || FlushesAfterSignal(s, full, api) then 0 else s.sinceFlush + 1)
              && stats == ForcedCounted(old(stats), full, old(forceFullFrame), recreated,
                                        |listed| > |old(header.dirtyRects)|, listed)
      ensures !forceFullFrame && warmupFullFrames == if old(warmupFullFrames) > 0 then old(warmupFullFrames) - 1 else 0
      ensures nextGpuFenceValue == old(nextGpuFenceValue) + if hasFence then 1 else 0
      ensures nextFrameId == old(nextFrameId) + 1 && paintsCompleted == old(paintsCompleted) + 1
    {
      hide ViewCommands, Signals, FlushesAfterSignal, Advertised, BackSlot, Overwrite;
      hide ForcedCounted, ForcedFull, Bumped;
      var backSlot, forceFull, overflow, fence := BuildViewFrame(image, listed, recreated, api);
      var flags := FrameFlags(forceFull, !forceFull, overflow, recreated, true);
      StampFrame(image.width, image.height, backSlot, flags, fence);
    }

    /** The publishing half of a view paint, once the textures are ready. */
    method PublishViewFrame(image: Image, listed: seq<Rect>, recreated: bool, api: Answers)
      requires Valid() && AllPresent(Ring())
      modifies this`commands, this`nextGpuFenceValue, this`forceFullFrame, this`warmupFullFrames, this`framesSinceFlush,
               this`writeSlot, this`header, this`nextFrameId, this`paintsCompleted, this`stats
      ensures HostState() == PublishView(old(HostState()), image, listed, recreated, api)
      ensures paintsCompleted == old(paintsCompleted) + 1
      ensures stats == ForcedCounted(old(stats), ForcedFull(old(HostState()), listed, recreated), old(forceFullFrame),
                                     recreated, |listed| > |old(header.dirtyRects)|, listed)
    {
      hide ViewCommands, ViewHeader, Signals, FlushesAfterSignal, BackSlot, ForcedCounted, ForcedFull;
      ghost var s := HostState();
      FillViewFrame(image, listed, recreated, api);
      assert HostState() == s.(gpu := commands, nextFence := nextGpuFenceValue, forceFull := forceFullFrame,
                               warmup := warmupFullFrames, sinceFlush := framesSinceFlush, writeSlot := writeSlot,
                               nextFrame := nextFrameId, header := header);
    }

    /** Textures, copies and header of a view paint; false when the textures are not ready. */
    method DrawView(image: Image, listed: seq<Rect>, api: Answers) returns (ok: bool)
      requires Valid() && api.openOk
      modifies sharedTexture, sharedNTHandle, this`sharedPopupTexture, this`sharedPopupHandle, this`commands,
               this`nextTexture, this`sharedWidth,
               this`sharedHeight, this`writeSlot, this`forceFullFrame, this`warmupFullFrames, this`header,
               this`nextGpuFenceValue, this`framesSinceFlush, this`nextFrameId, this`paintsCompleted, this`stats
      ensures ok == Publishes(old(HostState()), ViewPaint(image, listed, api))
      ensures HostState() == Publication.OnViewPaint(old(HostState()), image, listed, api)
      ensures paintsCompleted == old(paintsCompleted) + One(ok)
      ensures stats == if ok then ForcedBy(old(stats), old(HostState()), image, listed, api) else old(stats)
    {
      hide EnsureTextures, PublishView, ForcedCounted;
      var recreated: bool;
      ok, recreated := EnsureSharedTextures(image.width, image.height, api);
      if ok {
        PublishViewFrame(image, listed, recreated, api);
      }
    }

    method CountCopyAndLog(copyUs: nat, endUs: nat)
      modifies this`stats, this`lastTelemetryLogUs, this`loggedWindows
      ensures MeterState() == MaybeLog(old(MeterState()).(live := CopyCounted(old(stats), copyUs)), endUs)
      ensures HostState() == old(HostState())
    {
      CountCopy(copyUs);
      LogTelemetry(endUs);
    }

    /** A paint of the view: frame, completion and telemetry. */
    method OnViewPaint(image: Image, listed: seq<Rect>, api: Answers, startUs: nat, endUs: nat)
      requires Valid()
      modifies sharedTexture, sharedNTHandle, this`sharedPopupTexture, this`sharedPopupHandle, this`commands,
               this`nextTexture, this`sharedWidth,
               this`sharedHeight, this`writeSlot, this`forceFullFrame, this`warmupFullFrames, this`header,
               this`nextGpuFenceValue, this`framesSinceFlush, this`nextFrameId, this`paintsCompleted, this`stats,
               this`lastTelemetryLogUs, this`loggedWindows
      ensures HostState() == Publication.OnViewPaint(old(HostState()), image, listed, api)
      ensures paintsCompleted == old(paintsCompleted) + One(Publishes(old(HostState()), ViewPaint(image, listed, api)))
      ensures MeterState() ==
              AfterEvent(old(MeterState()), old(HostState()), ViewPaint(image, listed, api), startUs, endUs)
    {
      hide EnsureTextures, PublishView, ForcedBy, CopyCounted, MaybeLog;
      if api.openOk {
        var published := DrawView(image, listed, api);
        if published {
          CountCopyAndLog(if endUs > startUs then endUs - startUs else 0, endUs);
        }
      }
    }

    method RecreatePopupTexture(image: Image)
      modifies this`popupTexture, this`popupTexWidth, this`popupTexHeight, this`commands, this`nextTexture
      ensures popupTexture == Some(old(nextTexture)) && nextTexture == old(nextTexture) + 1
      ensures popupTexWidth == image.width && popupTexHeight == image.height
      ensures commands == old(commands) + [Create(old(nextTexture), image.width, image.height)]
    {
      popupTexture := Some(nextTexture);
      commands := commands + [Create(nextTexture, image.width, image.height)];
      nextTexture := nextTexture + 1;
      popupTexWidth, popupTexHeight := image.width, image.height;
    }

    /** Makes the popup's own texture fit the image. */
    method FitPopupTexture(image: Image, api: Answers) returns (ok: bool)
      requires api.openOk
      modifies this`popupTexture, this`popupTexWidth, this`popupTexHeight, this`commands, this`nextTexture
      ensures ok <==> PopupStored(old(HostState()), image, api)
      ensures !ok ==> popupTexture == None && popupTexWidth == old(popupTexWidth)
                      && popupTexHeight == old(popupTexHeight) && commands == old(commands)
                      && nextTexture == old(nextTexture)
      ensures var t := FitPopup(old(HostState()), image);
              ok ==> popupTexture.Some? && popupTexture == t.popupTexture && popupTexWidth == t.popupTexWidth
                     && popupTexHeight == t.popupTexHeight && commands == t.gpu && nextTexture == t.nextTexture
    {
      ok := true;
      if popupTexture.None? || popupTexWidth != image.width || popupTexHeight != image.height {
        popupTexture := None;
        ok := api.popupOk;
        if ok {
          RecreatePopupTexture(image);
        }
      }
    }

    /** Keeps the newest popup image in the popup's own texture; false when that texture cannot be created. */
    method StorePopupImage(image: Image, api: Answers) returns (ok: bool)
      requires api.openOk
      modifies this`popupTexture, this`popupTexWidth, this`popupTexHeight, this`commands, this`nextTexture
      ensures ok <==> PopupStored(old(HostState()), image, api)
      ensures HostState() == if ok then StorePopup(old(HostState()), image) else old(HostState()).(popupTexture := None)
    {
      hide FitPopup, PopupStored;
      FitLeaves(HostState(), image);
      ghost var s := HostState();
      ok := FitPopupTexture(image, api);
      assert HostState() == s.(popupTexture := popupTexture, popupTexWidth := popupTexWidth,
                               popupTexHeight := popupTexHeight, gpu := commands, nextTexture := nextTexture);
      if ok {
        commands := commands + [CopyResource(popupTexture.value, image)];
      }
    }

    /** The clamped popup rectangle, computed corner by corner. */
    method ClampPopupRect() returns (area: Rect, validRect: bool)
      ensures area == ReportedRect(HostState())
      ensures validRect <==> HasArea(area)
    {
      var pr := if popupVisible then popupRect else popupClearRect;
      var x0 := if pr.x < 0 then 0 else if pr.x > sharedWidth then sharedWidth else pr.x;
      var y0 := if pr.y < 0 then 0 else if pr.y > sharedHeight then sharedHeight else pr.y;
      var x1 := if pr.x + pr.w < 0 then 0 else if pr.x + pr.w > sharedWidth then sharedWidth else pr.x + pr.w;
      var y1 := if pr.y + pr.h < 0 then 0 else if pr.y + pr.h > sharedHeight then sharedHeight else pr.y + pr.h;
      area := Rect(x0, y0, x1 - x0, y1 - y0);
      validRect := x1 > x0 && y1 > y0;
    }

    /** Plane copy and seal of a popup frame. */
    method BuildPopupFrame(area: Rect, validRect: bool, api: Answers) returns (fence: nat)
      requires sharedPopupTexture.Some? && popupTexture.Some?
      requires area == ReportedRect(HostState()) && (validRect <==> HasArea(area))
      modifies this`commands, this`nextGpuFenceValue
      ensures fence == Advertised(old(HostState()), api)
      ensures commands == old(commands) + PopupCommands(old(HostState()), api)
      ensures nextGpuFenceValue == old(nextGpuFenceValue) + if hasFence then 1 else 0
    {
      if popupVisible && validRect {
        commands := commands + [CopyRegion(sharedPopupTexture.value, area, popupTexture.value)];
      }
      var signaled: bool;
      fence, signaled := SignalFence(api);
      if !signaled {
        commands := commands + [Flush];
      }
    }

    method ShipPopupArea(area: Rect, validRect: bool)
      requires header.dirtyRects != []
      modifies this`header
      ensures header == old(header).(dirtyCount := if validRect then 1 else 0,
                dirtyRects := if validRect then Overwrite(old(header.dirtyRects), [area]) else old(header.dirtyRects))
    {
      if validRect {
        header := header.(dirtyCount := 1, dirtyRects := header.dirtyRects[0 := area]);
        assert header.dirtyRects == Overwrite(old(header.dirtyRects), [area]);
      } else {
        header := header.(dirtyCount := 0);
      }
    }

    /** Publishes a frame that carries popup news only. */
    method PublishPopupFrame(api: Answers)
      requires Valid() && sharedPopupTexture.Some? && popupTexture.Some?
      modifies this`commands, this`nextGpuFenceValue, this`writeSlot, this`header, this`nextFrameId,
               this`paintsCompleted, this`popupClearRect
      ensures commands == old(commands) + PopupCommands(old(HostState()), api)
      ensures header == PopupHeader(old(HostState()), api)
      ensures nextGpuFenceValue == old(nextGpuFenceValue) + if hasFence then 1 else 0
      ensures writeSlot == old(writeSlot) && nextFrameId == old(nextFrameId) + 1
      ensures popupClearRect == if popupVisible then old(popupClearRect) else EMPTY_RECT
      ensures paintsCompleted == old(paintsCompleted) + 1
    {
      var area, validRect := ClampPopupRect();
      var fence := BuildPopupFrame(area, validRect, api);
      ShipPopupArea(area, validRect);
      StampFrame(sharedWidth, sharedHeight, writeSlot, FrameFlags(false, true, false, false, true), fence);
      if !popupVisible {
        popupClearRect := EMPTY_RECT;
      }
    }

    method PublishPopup(api: Answers)
      requires Valid() && sharedPopupTexture.Some? && popupTexture.Some?
      modifies this`commands, this`nextGpuFenceValue, this`writeSlot, this`header, this`nextFrameId,
               this`paintsCompleted, this`popupClearRect
      ensures HostState() == Publication.PublishPopup(old(HostState()), api)
      ensures paintsCompleted == old(paintsCompleted) + 1
    {
      hide PopupCommands, PopupHeader;
      ghost var s := HostState();
      PublishPopupFrame(api);
      assert HostState() == s.(gpu := commands, nextFence := nextGpuFenceValue, nextFrame := nextFrameId,
                               clearRect := popupClearRect, header := header);
    }

    /** Popup texture, plane copy and header of a popup paint; true when a frame was published. */
    method DrawPopup(image: Image, api: Answers) returns (published: bool)
      requires Valid() && api.openOk
      modifies this`popupTexture, this`popupTexWidth, this`popupTexHeight, this`commands, this`nextTexture,
               this`nextGpuFenceValue, this`writeSlot, this`header, this`nextFrameId, this`paintsCompleted,
               this`popupClearRect
      ensures published == Publishes(old(HostState()), PopupPaint(image, api))
      ensures HostState() == Publication.OnPopupPaint(old(HostState()), image, api)
      ensures paintsCompleted == old(paintsCompleted) + One(published)
    {
      published := StorePopupImage(image, api);
      if !published {
        return;
      }
      published := sharedPopupTexture.Some? && sharedWidth > 0 && sharedHeight > 0;
      if published {
        PublishPopup(api);
      }
    }

    /** A paint of the popup. */
    method OnPopupPaint(image: Image, api: Answers)
      requires Valid()
      modifies this`popupTexture, this`popupTexWidth, this`popupTexHeight, this`commands, this`nextTexture,
               this`nextGpuFenceValue, this`writeSlot, this`header, this`nextFrameId, this`paintsCompleted,
               this`popupClearRect, this`stats
      ensures HostState() == Publication.OnPopupPaint(old(HostState()), image, api)
      ensures paintsCompleted == old(paintsCompleted) + One(Publishes(old(HostState()), PopupPaint(image, api)))
      ensures var published := Publishes(old(HostState()), PopupPaint(image, api));
              stats == old(stats).(produced := old(stats.produced) + One(published))
    {
      if api.openOk {
        var published := DrawPopup(image, api);
        if published {
          stats := stats.(produced := stats.produced + 1);
        }
      }
    }

    /** OnAcceleratedPaint: the step of the event on all three parts of the state. */
    method OnAcceleratedPaint(e: Event, startUs: nat, endUs: nat)
      requires Valid() && (e.ViewPaint? || e.PopupPaint?)
      modifies sharedTexture, sharedNTHandle, this`sharedPopupTexture, this`sharedPopupHandle, this`commands,
               this`nextTexture, this`sharedWidth,
               this`sharedHeight, this`writeSlot, this`forceFullFrame, this`warmupFullFrames, this`header,
               this`nextGpuFenceValue, this`framesSinceFlush, this`nextFrameId, this`paintsCompleted, this`stats,
               this`lastTelemetryLogUs, this`loggedWindows, this`popupTexture, this`popupTexWidth, this`popupTexHeight,
               this`popupClearRect
      ensures Valid()
      ensures HostState() == Publication.Step(old(HostState()), e)
      ensures paintsCompleted == old(paintsCompleted) + One(Publishes(old(HostState()), e))
      ensures MeterState() == AfterEvent(old(MeterState()), old(HostState()), e, startUs, endUs)
    {
      hide Publication.OnViewPaint, Publication.OnPopupPaint, Publishes, MaybeLog, ForcedBy;
      match e {
        case PopupPaint(image, api) =>
          OnPopupPaint(image, api);
        case ViewPaint(image, listed, api) =>
          OnViewPaint(image, listed, api, startUs, endUs);
      }
    }

    // ---- Other callbacks -----------------------------------------------------------------------

    method Resize()
      requires Valid()
      modifies this`forceFullFrame, this`warmupFullFrames
      ensures Valid() && HostState() == Publication.Step(old(HostState()), Publication.Resize)
    {
      forceFullFrame := true;
      warmupFullFrames := 3;
    }

    method OnPopupShow(show: bool)
      requires Valid()
      modifies this`popupClearRect, this`popupVisible, this`popupRect
      ensures Valid() && HostState() == Publication.Step(old(HostState()), PopupShow(show))
    {
      if !show && popupRect.w > 0 {
        popupClearRect := popupRect;
      }
      popupVisible := show;
      if !show {
        popupRect := EMPTY_RECT;
      }
    }

    method OnPopupSize(rect: Rect)
      requires Valid()
      modifies this`popupRect
      ensures Valid() && HostState() == Publication.Step(old(HostState()), PopupSize(rect))
    {
      popupRect := rect;
    }

    /** OnLoadStart, OnLoadEnd and OnLoadError differ only in the state they report. */
    method OnLoad(isMain: bool, state: LoadState)
      requires Valid()
      modifies this`header
      ensures Valid() && HostState() == Publication.Step(old(HostState()), Load(isMain, state))
    {
      if !isMain {
        return;
      }
      header := header.(loadState := state);
      header := header.(sequence := Bumped(header.sequence));
    }

    method OnLoadEnd(isMain: bool, httpStatusCode: int)
      requires Valid()
      modifies this`header
      ensures var state := if httpStatusCode >= 400 then Error else Ready;
              Valid() && HostState() == Publication.Step(old(HostState()), Load(isMain, state))
    {
      OnLoad(isMain, if httpStatusCode >= 400 then Error else Ready);
    }

    method SetFlushIntervalFrames(frames: nat)
      requires Valid()
      modifies this`flushIntervalFrames
      ensures Valid() && HostState() == Publication.Step(old(HostState()), SetFlushInterval(frames))
    {
      flushIntervalFrames := frames;
    }

    // ---- Flow control callbacks ----------------------------------------------------------------

    /** One wake of the render thread. */
    method OnRenderTick(now: nat)
      modifies this`lastBeginFrameUs, this`beginFramesSent, this`stats
      ensures FlowState() == FlowControl.Step(old(FlowState()), FlowControl.Tick(now))
      ensures MeterState() == if FlowControl.Claims(old(FlowState()), FlowControl.Tick(now))
                              then AfterBegin(old(MeterState())) else old(MeterState())
    {
      if !paused {
        TrySendBeginFrame(now);
      }
    }

    method TrySendBeginFrame(now: nat)
      modifies this`lastBeginFrameUs, this`beginFramesSent, this`stats
      ensures FlowState() == FlowControl.TrySend(old(FlowState()), now)
      ensures stats == if !FlowControl.CapReached(old(FlowState())) && hasBrowser
                       then old(stats).(begins := old(stats.begins) + 1) else old(stats)
    {
      var inFlight := if beginFramesSent > paintsCompleted then beginFramesSent - paintsCompleted else 0;
      if maxInFlightBeginFrames > 0 && inFlight >= maxInFlightBeginFrames {
        return;
      }
      if hasBrowser {
        lastBeginFrameUs := now;
        beginFramesSent := beginFramesSent + 1;
        stats := stats.(begins := stats.begins + 1);
      }
    }

    /** The nudge as one atomic step; true when it claimed the begin frame. */
    method TryInputNudgeFrame(now: nat) returns (claimed: bool)
      modifies this`lastBeginFrameUs
      ensures claimed <==> FlowControl.NudgeAccepted(old(FlowState()), now)
      ensures FlowState() == FlowControl.Step(old(FlowState()), FlowControl.Nudge(now))
    {
      if paused {
        return false;
      }
      var cadenceUs := if beginFrameIntervalNs / 1000 > 0 then beginFrameIntervalNs / 1000 else 1;
      var nudgeUs := if cadenceUs < 2000 then cadenceUs else 2000;
      if (now - lastBeginFrameUs) % TWO_64 < nudgeUs {
        return false;
      }
      lastBeginFrameUs := now;
      return true;
    }

    method HandleControlSetFrameRate(requestedFps: nat)
      modifies this`beginFrameIntervalNs, this`smoothedConsumerCadenceUs
      ensures FlowState() == FlowControl.Step(old(FlowState()), FlowControl.SetFrameRate(requestedFps))
    {
      var applied := if requestedFps == 0 then 60 else if requestedFps > 240 then 240 else requestedFps;
      UpdateBeginFrameIntervalFromFps(applied);
    }

    method HandleControlSetMaxInFlightBeginFrames(requestedMaxInFlight: nat)
      modifies this`maxInFlightBeginFrames, this`paintsCompleted
      ensures FlowState() == FlowControl.Step(old(FlowState()), FlowControl.SetCap(requestedMaxInFlight))
    {
      maxInFlightBeginFrames := if requestedMaxInFlight == 0 then 2 else requestedMaxInFlight;
      paintsCompleted := beginFramesSent;
    }

    method UpdateBeginFrameIntervalFromConsumerCadenceUs(cadenceUs: nat)
      requires cadenceUs < TWO_32 && smoothedConsumerCadenceUs < TWO_32
      modifies this`beginFrameIntervalNs, this`smoothedConsumerCadenceUs
      ensures FlowState() == FlowControl.FromCadence(old(FlowState()), cadenceUs)
    {
      if cadenceUs == 0 {
        return;
      }
      var clamped := cadenceUs;
      if clamped < 1000000 / 240 {
        clamped := 1000000 / 240;
      }
      if clamped > 1000000 / 15 {
        clamped := 1000000 / 15;
      }
      var smooth := if smoothedConsumerCadenceUs == 0 then clamped
        else ((smoothedConsumerCadenceUs * 7) % TWO_32 + (clamped * 3) % TWO_32) % TWO_32 / 10;
      smoothedConsumerCadenceUs := smooth;
      beginFrameIntervalNs := (smooth + smooth / 100) * 1000;
    }

    method OnAfterCreated()
      modifies this`hasBrowser, this`beginFrameIntervalNs, this`smoothedConsumerCadenceUs
      ensures FlowState() == FlowControl.Step(old(FlowState()), FlowControl.BrowserCreated)
    {
      hasBrowser := true;
      UpdateBeginFrameIntervalFromFps(60);
    }

    method OnBeforeClose()
      modifies this`hasBrowser
      ensures FlowState() == FlowControl.Step(old(FlowState()), FlowControl.BrowserClosed)
    {
      hasBrowser := false;
    }

    method HandleControlSetPaused(pause: bool)
      modifies this`paused
      ensures FlowState() == FlowControl.Step(old(FlowState()), FlowControl.SetPaused(pause))
    {
      paused := pause;
    }

    // ---- Input ---------------------------------------------------------------------------------

    /** Dispatches one event to the browser; true when it asks for a repaint. */
    method DispatchInputEvent(evt: InputEvent) returns (repaint: bool, calls: seq<Call>)
      modifies this`mouseModifiers
      ensures repaint <==> !evt.Unknown?
      ensures calls == CallsFor(old(mouseModifiers), evt)
      ensures mouseModifiers == ModifiersAfter(old(mouseModifiers), evt)
    {
      match evt {
        case MouseMove(x, y) =>
          return true, [Moved(x, y, mouseModifiers)];
        case MouseDown(button, x, y) =>
          mouseModifiers := mouseModifiers + {FlagOf(button)};
          return true, [Clicked(x, y, button, false, mouseModifiers)];
        case MouseUp(button, x, y) =>
          mouseModifiers := mouseModifiers - {FlagOf(button)};
          return true, [Clicked(x, y, button, true, mouseModifiers)];
        case MouseScroll(x, y, deltaX, deltaY) =>
          return true, [Scrolled(x, y, deltaX, deltaY)];
        case KeyDown(code, keyModifiers) =>
          return true, [Keyed(RawDown, code, keyModifiers)];
        case KeyUp(code, keyModifiers) =>
          return true, [Keyed(Released, code, keyModifiers)];
        case KeyChar(character) =>
          return true, [Keyed(Character, character, {})];
        case Unknown =>
          return false, [];
      }
    }

    /** Drains at most 64 queued events; the switch and the clock are read once per event. */
    method PumpInput(switch: nat -> bool, clock: nat -> nat) returns (calls: seq<Call>)
      modifies this`inputQueue, this`mouseModifiers, this`lastBeginFrameUs
      ensures !hasBrowser ==> calls == [] && inputQueue == old(inputQueue) && mouseModifiers == old(mouseModifiers)
      ensures hasBrowser ==>
                var p := PumpAll(old(mouseModifiers), old(inputQueue), switch, clock);
                && calls == p.calls && mouseModifiers == p.modifiers
                && p.processed <= |old(inputQueue)| && inputQueue == old(inputQueue)[p.processed..]
      ensures FlowState() == NudgeAll(old(FlowState()), calls)
    {
      calls := [];
      if !hasBrowser {
        return;
      }
      var shouldNudge, processed := false, 0;
      ghost var start, queue := Pump(mouseModifiers, [], false, 0), inputQueue;
      while processed < MAX_EVENTS_PER_PUMP && inputQueue != []
        invariant processed <= MAX_EVENTS_PER_PUMP && processed <= |queue| && inputQueue == queue[processed..]
        invariant PumpMany(Pump(mouseModifiers, calls, shouldNudge, processed), Batch(queue)[processed..], switch,
                           clock)
                  == PumpMany(start, Batch(queue), switch, clock)
        invariant FlowState() == NudgeAll(old(FlowState()), calls)
        decreases |inputQueue|
      {
        var evt := inputQueue[0];
        inputQueue := inputQueue[1..];
        ghost var before := Pump(mouseModifiers, calls, shouldNudge, processed);
        BatchStep(queue, processed);
        processed := processed + 1;
        if switch(processed - 1) {
          var repaint, dispatched := DispatchInputEvent(evt);
          NudgeDispatch(old(FlowState()), calls, before.modifiers, evt);
          calls := calls + dispatched;
          shouldNudge := repaint || shouldNudge;
          if shouldNudge && processed % NUDGE_EVERY_EVENTS == 0 {
            NudgeAttempt(old(FlowState()), calls, clock(processed));
            var _ := TryInputNudgeFrame(clock(processed));
            calls := calls + [Attempt(clock(processed))];
            shouldNudge := false;
          }
        }
        assert Pump(mouseModifiers, calls, shouldNudge, processed) == PumpOne(before, evt, switch, clock);
      }
      assert Batch(queue)[processed..] == [];
      if shouldNudge {
        NudgeAttempt(old(FlowState()), calls, clock(processed + 1));
        var _ := TryInputNudgeFrame(clock(processed + 1));
        calls := calls + [Attempt(clock(processed + 1))];
      }
    }
  }
}
