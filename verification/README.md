# Off-screen frame producer: model and proofs

CEFHost renders a web page off screen and hands the frames to another process. This project models the producer side
in Dafny and proves what a consumer may rely on, for every run, every image and every answer of the graphics API.

* `Gpu` is an in-order command queue over textures; texture contents are pixel maps obtained by executing the queue.
* `Publication` says what each callback does to the slot ring, the shared handles, the popup plane, the shared header
  and the queue, as functions on values. `Protocol` turns them into runs with a log of what was published, and with the
  textures that a consumer has opened that opens the shared names anew at each RESIZED frame.
* `FrameRing`, `RingAgreement`, `FrameReads` and `FlushCadence` carry the invariants of the ring, the fence values, the
  texture sizes, the slot contents and the flushes over whole runs; `Announcements` carries those of the textures the
  consumer has opened.
* `PatchConsumer` is a consumer that replaces its picture on FULL frames and otherwise copies only the published
  rectangles; it is compared with the newest browser image. `GapConsumer` is one that skips frames. Both read at any
  moment that satisfies the wait. Both may go by the flags, or take a dirty count of 0 for a full frame as
  `include/shm/SharedMemoryLayout.h:211` has it: the code also publishes a count of 0 on DIRTY_ONLY frames, where the
  two readings differ, and the theorems hold for either. `PopupPlane` does the same for the popup, and `Headers` for
  what the header says about popup, page load and size.
* `PaintOutcomes` says what each paint comes to, from the answers of the graphics API: which paints publish, what they
  create, and how frames, fence values and sequence numbers count.
* `FlowControl`, `InputPump` and `Pacing` are begin-frame back-pressure, input nudges, the cadence filter and the render
  loop's deadlines, `BeginRate` all begin frames together, and `ControlEvents` what the control events ask for. `Telemetry` and `Producer` put frames, flow control and
  statistics into one interleaving.
* `FileUrl`, `Affinity` and `RuntimeConfig` are the self-contained algorithms.
* `OsrHandler` is the handler as the object it is, with the fields of the source and methods that update them. Every
  method is proved to perform exactly the step of the specification functions that the theorems are about.

A step of the model is one handler body, run atomically under a monotone clock. The number of slots (at least 2; 3 in
`include/shm/SharedMemoryLayout.h:13`) and the length of the dirty array (1 to 255; 16 in line 171 there) are
parameters. What the graphics API answers is a parameter of each paint.

## What turned out to need a condition

* A failure to create textures is normally noticed on the next paint. It is not when every slot got its texture and
  then a shared handle or the popup plane failed. `Announcements.Unnoticed` is that failure. It can be read off the
  answers of the paint, and `AnnouncedStep` shows that it alone makes the consumer's textures differ from the
  producer's. `SilentReplacement` shows what may follow for every state past its warm-up: all textures replaced, the
  next frame DIRTY_ONLY and not RESIZED, and a popup announced on a plane that does not exist. `SilentReplacementRun`
  is a run that ends there.
* Some of these failures also leave a ring of another size than the recorded one: `RingAgreement.StaleFailure`, exact by
  `AgreementStep`, with its consequence in `StaleRingDropsImage` and a run of three paints in `UnnoticedFailureRun`.
* The popup copy of a popup frame reads from the origin of the popup image, so a popup with a negative coordinate is
  shown in the wrong place. The popup copy of a view frame is not clipped, so it is dropped for every popup that
  sticks out of the surface: the plane then keeps what it had, which is nothing when the textures were just recreated.
  `PopupShownExactly` gives the exact condition for both kinds of frame, `LeftPopupRun` and `ClippedPopupRun` a run
  for each failure.
* PROJECT_LOG.md:55 reports ghosting after dropped frames as fixed. A paint that is dropped because its texture cannot be
  opened forces nothing: `DroppedPaintLingers` gives the exact set of points that stay wrong, `DroppedPaintRun` a run
  that ends on a frame with one rectangle and a wrong pixel for a consumer of any habit.
* PROJECT_LOG.md:50 mentions periodic keyframes and PROJECT_LOG.md:256 a gate on the cadence event; the code has no
  keyframes and never passes the cadence event on (`src/osr_handler.cpp:1526-1529`). PROJECT_LOG.md:251 limits nudges to
  one per min(cadence, 2 ms); the interval never gets short enough for the first, so the limit is always 2 ms
  (`NudgeAcceptedExactly`).

## Model

| member | source | states |
|---|---|---|
| PatchConsumer.PatchingConsumerIsExact | src/osr_handler.cpp:698-862 | from the start of any run in which no view paint is dropped and the browser's dirty lists are truthful, a consumer patching only the published rectangles, out of the textures it has opened and at any moment that satisfies its wait, holds the newest browser image, point by point, whatever popups, resizes, recreations, overflows and load events happen and whichever way it reads a dirty count of 0 |
| GapConsumer.SkippingConsumerIsExact | src/osr_handler.cpp:845-861 | in such runs a consumer that looks only now and then, patches when it sees the next frame identifier and reopens and copies the whole slot on a gap holds the newest published view image whenever it looks, whatever frames it skipped and at any moment that satisfies its wait |
| GapConsumer.TrackingStep | src/osr_handler.cpp:543-938 | every event, looked at or not, keeps the skipping consumer at most one known frame behind or due for a refresh |
| PatchConsumer.PatchingRefinesCopying | src/osr_handler.cpp:698-862 | the same from any session whose picture is current: patching refines copying every image in full |
| PatchConsumer.PictureAgreesOutsideDamage | src/osr_handler.cpp:573-588 | with paints dropped as well, a picture of the newest image's size is that image outside the damage tracked from dropped paints and published rectangles |
| PatchConsumer.PictureWrongExactlyOnDamage | src/osr_handler.cpp:771-823 | that damage is no over-estimate, also after dropped paints of another size: when every repaint shows new colours, a picture of the newest image's size is wrong at a point if and only if the damage hits it |
| PatchConsumer.DroppedPaintLingers | src/osr_handler.cpp:573-588 | after a dropped paint followed by a published frame that is not taken whole, exactly the points that only the dropped paint announced stay wrong; a dropped paint of another size announces all points |
| PatchConsumer.DroppedPaintRun | src/osr_handler.cpp:573-588 | such a run exists: three good paints, one that cannot be opened and lists the left pixel, one that lists the right pixel; the last frame is DIRTY_ONLY with one rectangle and the left pixel is wrong, for a consumer of any habit |
| PatchConsumer.ConsumerReads | src/osr_handler.cpp:704-710 | at each publish the consumer reads, in the texture it has opened for the advertised slot, the new image after a view paint and the unchanged front after a popup paint; a view frame that is not FULL ships the whole browser list |
| PatchConsumer.SyncedStep | src/osr_handler.cpp:543-938 | every event keeps picture, front and newest image in agreement outside the tracked damage |
| PatchConsumer.InitialSessionCurrent | src/osr_handler.cpp:308-326 | before the first frame there is nothing to be wrong about: the initial state meets the invariants |
| Announcements.ReadsAreExact | src/osr_handler.cpp:825-862 | however far the GPU has run, a consumer that opens the shared names at RESIZED frames and waited for the advertised fence value, or for the flush when it is zero, finds in the texture it has opened for the advertised slot exactly the view image of that frame, while fewer than N newer view frames exist, in every run without an unnoticed failure |
| Announcements.AnnouncedStep | src/osr_handler.cpp:486-541 | an event keeps the consumer's textures those of the producer, all with handles and with the popup plane beside a complete ring, if and only if it is not an unnoticed failure |
| Announcements.RecreationRepairs | src/osr_handler.cpp:529-537 | a recreation that succeeds makes the consumer's textures the producer's again, whatever went unnoticed before |
| Announcements.RecreationIsAnnounced | src/osr_handler.cpp:776-781 | in every run without an unnoticed failure a frame is RESIZED if and only if its textures are not those of the frame before, and the consumer has opened all of them, the plane included |
| Announcements.ThreeFullAfterRecreation | src/osr_handler.cpp:529-537 | the frame whose textures differ from the last frame's and the two view frames after it are FULL |
| Announcements.RingFailuresAreNoticed | src/osr_handler.cpp:378-409 | failures of CreateTexture2D in the ring loop are always noticed, over any history |
| Announcements.SilentReplacement | src/osr_handler.cpp:491-530 | from any state past its warm-up, one attempt failing in the ring loop and one failing at the popup plane replace all textures while the next frame is DIRTY_ONLY, not RESIZED, on textures the consumer has not opened, and announces a plane that does not exist |
| Announcements.SilentReplacementRun | src/osr_handler.cpp:506-527 | such a run exists, with a popup on show |
| FrameReads.SlotContentsAreExact | src/osr_handler.cpp:825-862 | the same for the producer's own texture in the slot, in every run that leaves no ring of the wrong size |
| FrameReads.FenceValuesIncrease | src/osr_handler.cpp:643-654 | nonzero published fence values strictly increase over the whole run, across view and popup frames and failed signals |
| FrameReads.EveryFrameIsSealed | src/osr_handler.cpp:825-862 | behind the copy into the front of each published header stands the Signal of its fence value when nonzero and a Flush when zero |
| FrameReads.KeptStep | src/osr_handler.cpp:543-938 | each event keeps: texture roles apart, fence values below the next one, all published frames sealed, slots younger than N view frames unwritten |
| FrameReads.HeldStep | src/osr_handler.cpp:704-710 | through any event a published slot stays unwritten until it is N view frames old, recreation included |
| FrameReads.FaithfulStep | src/osr_handler.cpp:704-710 | each event but a stale failure keeps every published header pointing at a texture into which its image really landed |
| FrameReads.FaithfulReplay | src/osr_handler.cpp:543-938 | the same over whole runs |
| FrameReads.StartKept | include/osr_handler.h:178-253 | the initial field values meet both invariants |
| FrameReads.RingFailuresNeverStale | src/osr_handler.cpp:378-409 | failures of CreateTexture2D in the ring loop alone never cause a stale failure, over any history |
| FrameReads.ReadyIsReal | src/osr_handler.cpp:486-541 | across any history of sizes and ring-loop failures, textures reported ready all exist with exactly the size asked for |
| FrameReads.StaleRingDropsImage | src/osr_handler.cpp:491-527 | after a stale failure the next paint of the recorded size is published although its advertised slot has the other size and cannot hold the image |
| FrameReads.UnnoticedFailureRun | src/osr_handler.cpp:524-530 | such a run exists: 1x1, then 2x2 with a failing popup plane, then 1x1 again |
| RingAgreement.AgreementStep | src/osr_handler.cpp:486-541 | an event keeps recorded size, texture sizes and published front in agreement if and only if it is not a stale failure |
| RingAgreement.EnsureSizes | src/osr_handler.cpp:486-541 | success means the recorded size is the size of every texture; failure breaks that exactly when all slots were filled at another size |
| RingAgreement.ReadyMeansSized | src/osr_handler.cpp:491-504 | in a state of agreement a true result means N textures of exactly the requested size |
| FrameRing.SaneStep | src/osr_handler.cpp:543-938 | each event keeps textures created before use, no texture in two roles, and signalled values strictly increasing in the queue |
| FrameRing.SlotReuse | src/osr_handler.cpp:704-710 | a view frame overwrites a slot still in the ring if and only if that slot is N-1 view frames old |
| FrameRing.BackSlotIsOldest | src/osr_handler.cpp:704 | the back slot is the oldest slot of the ring and no younger one |
| FrameRing.HeldPublishView | src/osr_handler.cpp:704-710 | publishing makes every front one frame older and touches none younger than N |
| FlushCadence.FlushWithinInterval | src/osr_handler.cpp:836-843 | once a view frame is published at flush interval k > 0, all view frames but the newest k-1 have a flush behind their seal; a FULL frame or a failed signal flushes them all |
| FlushCadence.FlushesExactly | src/osr_handler.cpp:836-843 | in every run a view frame ends in a flush if and only if it advertises no fence value, or is FULL, or is at least the k-th view frame since the last one that flushed, where k > 0 is the interval last set and 1 at first; read off the queue, the log and the events |
| FlushCadence.PopupFlushesExactly | src/osr_handler.cpp:643-654 | a popup frame flushes if and only if it advertises no fence value, and its seal is its last command |
| FlushCadence.PublishFlushes | src/osr_handler.cpp:836-843 | the flush counter is zero after a view frame if and only if a flush follows its copies |
| Gpu.FenceImpliesProgress | src/osr_handler.cpp:829-833 | on an in-order queue with increasing signals, a completed fence value means everything before its Signal is done |
| Gpu.MemoryKept | src/osr_handler.cpp:704-710 | commands that do not write a texture leave its contents alone |
| Protocol.EveryFrameObeysRules | src/osr_handler.cpp:771-862 | in every run each header is numbered from the frames and load events before it, the sequence number modulo 2^32; a view frame is FULL if and only if its list overflows or it is among the first three since the last restart, else DIRTY_ONLY with the browser's whole list; a popup frame is DIRTY_ONLY with at most one rectangle |
| Protocol.CountedStep | src/osr_handler.cpp:308-326 | each event keeps the conservation of counters: next frame id = frames + 1, sequence = frames + main-frame load events modulo 2^32, warm-up = what is left of three |
| Protocol.ThreeFullAfterRestart | src/osr_handler.cpp:1322-1330 | after a resize request, and from a RESIZED frame on, three view frames are FULL whatever is interleaved |
| Headers.HeaderDescribesSlot | src/osr_handler.cpp:845-860 | in every run without an unnoticed failure a published header names the slot under which the consumer reads the newest published view image, and gives exactly that image's size, for view and popup frames |
| Headers.HeaderFollowsEvents | src/osr_handler.cpp:1266-1280 | in every run the popup state and load state in a published header are those of the last popup and main-frame load events |
| PaintOutcomes.ViewPaintPublishes | src/osr_handler.cpp:566-702 | a view paint adds a frame if and only if it can be opened and the textures are complete at its size or can all be made; one that cannot be opened changes nothing |
| PaintOutcomes.PopupPaintPublishes | src/osr_handler.cpp:593-693 | a popup paint adds a frame if and only if it can be opened, its texture fits or can be made, and there is a plane of some area; when its texture cannot be made the old popup image is lost |
| PaintOutcomes.PopupPaintsArrive | src/osr_handler.cpp:620-624 | in runs without an unnoticed failure every popup paint that can be opened and stored is published while the ring is complete |
| PaintOutcomes.SlotsByAnswers | src/osr_handler.cpp:378-409 | a slot has a texture if and only if all slots before it are complete and its texture was made, and a handle if and only if it is complete too |
| PaintOutcomes.TexturesByAnswers | src/osr_handler.cpp:421-447 | the plane and its handle exist if and only if the whole ring is complete and their own creation went that far; success means everything is there |
| PaintOutcomes.TexturesAreReused | src/osr_handler.cpp:491-504 | a paint on complete textures of its size makes none, is not RESIZED and uses the next slot; otherwise it makes N + 1, is RESIZED and uses slot 1 |
| PaintOutcomes.PopupTextureIsReused | src/osr_handler.cpp:598-620 | only a popup image of another size gets a new texture; every one is copied |
| PaintOutcomes.RecreationHeader | src/osr_handler.cpp:449-466 | what a recreation writes to the header, field by field |
| PaintOutcomes.ViewFrameQueue | src/osr_handler.cpp:704-834 | the commands of a view frame in the queue: slot copy, popup copy exactly when a popup with area is shown and its textures exist, signal or flush, and at most one more flush |
| PaintOutcomes.PopupFrameQueue | src/osr_handler.cpp:634-654 | the commands of a popup frame behind the stored image: the copy to the visible part exactly when the popup is shown and some of it is on the surface, then the signal or flush, nothing else |
| PaintOutcomes.RestOfBuffer | src/osr_handler.cpp:672-680 | entries of the rectangle buffer past the published count keep what they held |
| PaintOutcomes.NumbersCountEvents | src/osr_handler.cpp:825-860 | in every run the identifiers count the published frames, the sequence number those and the main-frame load events modulo 2^32, and a fence value is the frame's identifier if and only if there is a fence and its signal succeeded, else 0 |
| PaintOutcomes.HeaderBeforeFrames | src/osr_handler.cpp:308-326 | until a frame is published the header says FULL and nothing else, whatever fails |
| PaintOutcomes.ResizeMakesThreeFull | src/osr_handler.cpp:1322-1330 | after a resize event the next three published view frames are FULL, from any state and through any events |
| PopupPlane.PopupShownExactly | src/osr_handler.cpp:593-766 | in every run without an unnoticed failure, when a header shows some of a popup painted at the size of its rectangle, the opened plane shows that part of the latest stored popup image in place after the wait for that frame, if the popup has no negative coordinate (popup frame) or lies inside the surface or was already shown on unchanged textures (view frame), and for a colourful image only then |
| PopupPlane.PopupStaysInPlace | src/osr_handler.cpp:593-766 | once a popup without negative coordinates stands on the plane in place, every later frame of the run shows its visible part in place, until the popup is moved or hidden, the textures are recreated, or a popup image of another size arrives or cannot be stored |
| PopupPlane.FramePlaces | src/osr_handler.cpp:593-766 | a popup frame of a popup without negative coordinates, and a view frame of one inside the surface, put it there |
| PopupPlane.PlacedExactly | src/osr_handler.cpp:593-766 | the exact condition from the invariants, on the executed queue |
| PopupPlane.ViewOutside | src/osr_handler.cpp:753-766 | a view frame leaves the plane of a popup that sticks out as it was when the textures were ready, and entirely empty when it recreated them |
| PopupPlane.PopupHeldReplay | src/osr_handler.cpp:598-620 | in every run the popup's own texture holds the latest stored popup paint |
| PopupPlane.PopupPlaneOffset | src/osr_handler.cpp:627-641 | a popup frame puts the popup image's origin at the corner of the clipped rectangle |
| PopupPlane.ClippedPopupRun | src/osr_handler.cpp:753-766 | a run that announces a popup sticking out on the right on an empty plane |
| PopupPlane.LeftPopupRun | src/osr_handler.cpp:634-641 | a run that shows a popup at x = -1 in the wrong place |
| PopupPlane.ReportIsIntersection | src/osr_handler.cpp:626-680 | the rectangle a popup frame reports covers exactly the points of the popup, or last hidden, rectangle that are on the surface, and lies inside it |
| PopupPlane.HiddenAreaReportedOnce | src/osr_handler.cpp:1266-1275 | after a hide at most one popup frame reports the old area, until the next hide |
| PopupPlane.ReportsExactly | src/osr_handler.cpp:626-680 | in every run a popup frame reports exactly the visible part of the popup where it was last placed, or while it is hidden exactly that of the rectangle which the last hide with a width took away, unless a popup frame was published while hidden since |
| PopupPlane.HiddenAreaIsReported | src/osr_handler.cpp:1266-1275 | the first popup frame after a hide reports exactly the visible part of the rectangle the popup was hidden from |
| Geometry.ClipIsIntersection | src/osr_handler.cpp:628-632 | clamping corner by corner is intersection with the surface |
| FlowControl.InFlightNeverExceedsCap | src/osr_handler.cpp:940-963 | in every run sent - done stays within the cap in force, also when it is lowered, and sends since the last cap change stay within completions + cap |
| FlowControl.TickSendsExactlyBelowCap | src/osr_handler.cpp:948-962 | the cap holds back no more than it must: a tick sends if and only if the sends are below completions + cap; nudges are not counted |
| FlowControl.NudgesAreSpaced | src/osr_handler.cpp:1332-1358 | in every run any two begin frames are at least 2000 us apart for each nudge after the first of them |
| FlowControl.NudgeAcceptedExactly | src/osr_handler.cpp:1341-1349 | a nudge goes through if and only if the host is not paused and 2000 us have passed since the last begin frame |
| FlowControl.SlowEnoughStep | src/osr_handler.cpp:971-999 | no control event makes the interval shorter than 4166666 ns or the smoothed cadence leave 4166..66666 |
| FlowControl.SmoothedBounds | src/osr_handler.cpp:984-994 | 32-bit arithmetic of the filter never wraps on its range and stays in it |
| FlowControl.SmoothingApproaches | src/osr_handler.cpp:992-994 | a sample moves the filter strictly towards its rest value and never past it |
| FlowControl.SmoothingSettles | src/osr_handler.cpp:992-994 | under a constant cadence the filter reaches its rest value, exactly the cadence from above and within three below, in no more samples than the distance, and stays |
| FlowControl.SettledInterval | src/osr_handler.cpp:996-998 | once settled on a constant cadence the begin-frame interval is never more than one percent slower than the consumer, and never faster unless the cadence was approached from below, then by at most 3 us |
| ControlEvents.FrameRateIsSet | src/osr_handler.cpp:1456-1461 | a frame-rate event sets the interval to one second divided by the rate, rounded down, with 60 for 0 and 240 for more, and forgets the cadence |
| ControlEvents.BrowserStartsAtSixty | src/osr_handler.cpp:1305-1314 | a created browser starts at 60 frames per second |
| ControlEvents.InitialRate | src/osr_handler.cpp:239-249 | the host starts at its target rate kept within 1 and 240, with a cap of 2, unpaused and without a browser |
| ControlEvents.IntervalFollowsEvents | src/osr_handler.cpp:971-977 | in every run the interval is that of the rate last asked for, until a cadence arrives |
| ControlEvents.CadenceIsTaken | src/osr_handler.cpp:979-999 | a cadence of 0 is ignored; any other is kept within 4166 and 66666 us and weighed 3 to 7, and the interval is up to one percent longer |
| ControlEvents.SettingsFollowEvents | src/osr_handler.cpp:1463-1513 | in every run cap, pause and browser are what the last events about them said |
| ControlEvents.CapDropsDebt | src/osr_handler.cpp:1463-1470 | a change of the cap drops the debt and touches nothing else |
| Pacing.RenderLoop | src/osr_handler.cpp:1072-1114 | the loop with its mutable deadline yields the wakes of the schedule the bounds are about |
| Pacing.WaitUntil | src/osr_handler.cpp:1026-1070 | returns at the first reading at or past the target; asks for a coarse sleep exactly when more than the spin window remains, and then for the rest up to the window in whole units of 100 ns, at least one |
| Pacing.TicksAreCeiling | src/osr_handler.cpp:1076-1080 | the period in ticks is the exact ceiling of the interval, which is 16666666 ns when it is 0 |
| Pacing.NextTurnExactly | src/osr_handler.cpp:1082-1113 | each deadline is one period after the one before, or after the end of a turn that ended more than four periods past its deadline, and the turn wakes at its deadline or the end of the turn before, later by its own lateness only |
| Pacing.FirstTurnExactly | src/osr_handler.cpp:1072-1087 | the first deadline is one period after the start |
| Pacing.NeverFreezes | src/osr_handler.cpp:1072-1114 | no stall makes the loop wait: a turn wakes at most one period, and its own lateness, after the end of the turn before |
| Pacing.CatchUpIsBounded | src/osr_handler.cpp:1072-1114 | from the end of one turn to any later wake the periods between them pass, less at most four, whatever stalls happen |
| Pacing.WakesPerWindow | src/osr_handler.cpp:1072-1114 | a stretch of time T in which the period is p holds at most T/p + 5 wakes, wherever in a run it lies and whatever the rate is before and after |
| Pacing.BurstOfFive | src/osr_handler.cpp:1108-1113 | the bound is met: a stall of four periods makes five wakes coincide |
| Pacing.DeadlinesOnGrid | src/osr_handler.cpp:1082-1113 | deadlines do not drift before the first resynchronisation |
| BeginRate.BeginsPerWindow | src/osr_handler.cpp:1072-1114 | in any interleaving of ticks on the schedule, nudges and control events, in a stretch of T us during which one interval is in force, whatever rates were set before and after, there are at most five begin frames of the render thread more than the T + 1 us hold periods of that interval, and at most one nudge for every started 2000 us |
| InputPump.PumpDispatchesInOrder | src/osr_handler.cpp:1425-1454 | for every queue and every pattern of the input switch the pump dispatches exactly the enabled ones of the first 64 events in order, ends with a nudge attempt if it dispatched anything, and attempts at most ceil(processed/8) times |
| InputPump.PumpCarriesEvents | src/osr_handler.cpp:1360-1423 | the browser calls of a pump are as many as the known, enabled ones among its first 64 events, and each carries its event field by field: kind, position, deltas, button, direction, key code, and the modifiers: the button state after the event for clicks and before it for moves, the event's own for keys, none for characters |
| InputPump.NudgesTriedExactly | src/osr_handler.cpp:1434-1453 | a pump tries a nudge exactly at each eighth event that is enabled while a dispatched event waits, and once more at the end if one still waits |
| InputPump.ModifiersFollowButtons | src/osr_handler.cpp:1373-1390 | bits 16, 32 and 64 of the modifier word say whether the last dispatched event of button 0, 1 or any other was a press |
| Producer.SendsBoundedByFrames | src/osr_handler.cpp:940-963 | in any interleaving of paints, ticks, nudges and control events the begin frames counted since the cap was set never exceed the frames, view or popup, published since then plus the cap |
| Producer.TicksUseTheBound | src/osr_handler.cpp:940-963 | in any interleaving a tick of an unpaused host with a browser sends exactly when the begin frames counted since the cap was set are fewer than the frames published since then plus the cap |
| Producer.TelemetryReportsTheLog | src/osr_handler.cpp:863-906 | in any interleaving logged windows plus live counters equal what the published headers and sent begin frames add up to; each window has manual, recreate, overflow <= forced <= produced, its rectangles fit, and its copy sum and maximum are those of its own frames |
| Producer.SampleMatchesHeader | src/osr_handler.cpp:796-822 | the counters of a view frame and the flags in its header tell the same story |
| Producer.LogKeepsTotal | src/osr_handler.cpp:876-898 | taking the counters over into a log line loses nothing |
| Telemetry.LogsEveryTwoSeconds | src/osr_handler.cpp:876-898 | a view frame ends a window exactly when the last line, or the first frame, is at least two seconds old; the line takes all counters and leaves zeros |
| Producer.AreaIsPixels | src/osr_handler.cpp:817 | the area counted for a rectangle is the number of points it covers, counted column by column |
| FileUrl.EncodeFileUrlPath | src/osr_handler.cpp:107-140 | the loop computes the encoding that the next two rows are about |
| FileUrl.DecodeUndoesEncode | src/osr_handler.cpp:107-140 | percent-decoding (section 2.1 of RFC 3986) undoes the encoding of every string |
| FileUrl.EncodeIsSafe | src/osr_handler.cpp:107-140 | encoded text has no space, '#', '?' or control unit and every '%' starts a two-digit escape |
| FileUrl.EncodesUnitwise | src/osr_handler.cpp:97-140 | only controls, space, '#', '%' and '?' are escaped, with two upper-case digits; every other unit stays, drive colon and separators among them |
| FileUrl.MakeFileUrlFromPath | src/osr_handler.cpp:142-177 | the in-place slash replacement and the four cases compute the URL that the next rows are about |
| FileUrl.UrlCases | src/osr_handler.cpp:142-177 | backslashes become slashes, and the prefix is none for a file URL, `file:` before two slashes, `file://` before one and `file:///` before anything else |
| FileUrl.UrlRecoversPath | src/osr_handler.cpp:157-176 | what decodes behind `file://` (section 2 of RFC 8089) is the path up to slash direction, for drive, UNC, absolute and relative paths |
| FileUrl.SameUrlExactly | src/osr_handler.cpp:142-177 | two paths get the same URL if and only if their canonical forms agree |
| FileUrl.FileUrlIdempotent | src/osr_handler.cpp:151-155 | making a URL of a URL changes nothing, on every input |
| RuntimeConfig.FromArgs | src/host_runtime_config.cpp:34-131 | the loop whose index the options advance parses as the recursive reading that the next rows are about |
| RuntimeConfig.TakeNext | src/host_runtime_config.cpp:62-72 | the attached value if there is one, else the next non-null argument, which is consumed; nothing is consumed on failure |
| RuntimeConfig.NumeralsOnly | src/host_runtime_config.cpp:9-31 | a string is read as a number if and only if it is white space, at most one sign and digits |
| RuntimeConfig.NumeralValue | src/host_runtime_config.cpp:9-31 | the value read is the decimal value, saturated at 2^32 - 1 and negated modulo 2^32 for the unsigned, saturated at both ends for the signed parser |
| RuntimeConfig.ParseKeepsValid | src/host_runtime_config.cpp:34-131 | every argument list gives width and height of at least 1, fps in 1..240 and a start page |
| RuntimeConfig.DefaultsAre | include/host_runtime_config.h:12-26 | the values without arguments |
| RuntimeConfig.TextOptions | src/host_runtime_config.cpp:74-87 | `--url` and `--session-id` set their own field and nothing else; an empty start page is ignored |
| RuntimeConfig.NumberOptions | src/host_runtime_config.cpp:88-111 | `--width`, `--height` and `--fps` set their own field and nothing else, within their bounds; what is not a number is ignored |
| RuntimeConfig.SizeOption | src/host_runtime_config.cpp:112-127 | `--size` is split at its first x or X; both sides are set exactly when both halves are numbers |
| RuntimeConfig.Flags | src/host_runtime_config.cpp:42-56 | each flag sets its own field; help has three spellings |
| RuntimeConfig.OthersAreSkipped | src/host_runtime_config.cpp:39-60 | any other argument, and a null one, is skipped alone |
| RuntimeConfig.MissingValue | src/host_runtime_config.cpp:62-72 | an option whose value is missing or null is skipped |
| RuntimeConfig.AttachedOrSeparate | src/host_runtime_config.cpp:38-72 | `--key=v` and `--key v` mean the same for each non-empty v, from any state and before any rest |
| RuntimeConfig.DecimalParses | src/host_runtime_config.cpp:9-31 | decimal text of a number in range reads back as that number |
| RuntimeConfig.ParseUndoesRender | src/host_runtime_config.cpp:34-131 | rendering any valid configuration as arguments and parsing it returns it |
| Affinity.SelectAffinityMask | src/osr_handler.cpp:43-67 | in the result exactly one bit is set, the set bit whose rank is the logical index modulo the number of set bits; the final return is not reached |
| Affinity.RankIsInjective | src/osr_handler.cpp:55-65 | indices below the number of set bits get different processors |
| Affinity.EverySetBitIsSelected | src/osr_handler.cpp:55-65 | each set bit is selected by its own rank |
| OsrHandler.Handler.constructor | src/osr_handler.cpp:239-249 | the fields start as the initial state of the three specifications |
| OsrHandler.Handler.CreateSharedTextureRing | src/osr_handler.cpp:378-409 | textures up to the first failure exist, one more if only its handle failed, and the result says whether all succeeded |
| OsrHandler.Handler.CreateSharedPopupPlane | src/osr_handler.cpp:421-447 | a plane exists unless its texture failed; true only with a handle |
| OsrHandler.Handler.EnsureSharedTextures | src/osr_handler.cpp:486-541 | textures, recorded size, warm-up and header are those of a recreation exactly when the ring was not ready, with every failure path |
| OsrHandler.Handler.CollectDirty | src/osr_handler.cpp:712-724 | the first M rectangles are kept and the overflow is reported if and only if there are more |
| OsrHandler.Handler.SignalFence | src/osr_handler.cpp:825-834 | a fence value is used up by each attempt and advertised only if it was signalled |
| OsrHandler.Handler.SealViewFrame | src/osr_handler.cpp:825-843 | signal and flush enter the queue as the protocol says |
| OsrHandler.Handler.OnViewPaint | src/osr_handler.cpp:698-937 | a view paint changes frame state, completions and telemetry as their specifications say, published or not |
| OsrHandler.Handler.OnPopupPaint | src/osr_handler.cpp:593-693 | the same for a popup paint |
| OsrHandler.Handler.ClampPopupRect | src/osr_handler.cpp:626-632 | computes the reported rectangle and whether it has area |
| OsrHandler.Handler.OnAcceleratedPaint | src/osr_handler.cpp:543-938 | a paint is exactly one step of frames and telemetry, and one completion if it publishes |
| OsrHandler.Handler.Resize | src/osr_handler.cpp:1322-1330 | a resize request is its protocol step |
| OsrHandler.Handler.OnPopupShow | src/osr_handler.cpp:1266-1275 | showing and hiding are their protocol step |
| OsrHandler.Handler.OnPopupSize | src/osr_handler.cpp:1277-1280 | so is moving the popup |
| OsrHandler.Handler.OnLoad | src/osr_handler.cpp:1211-1222 | a main-frame load event sets the state and counts; others change nothing |
| OsrHandler.Handler.OnLoadEnd | src/osr_handler.cpp:1224-1235 | a status of 400 or more reports an error |
| OsrHandler.Handler.SetFlushIntervalFrames | src/osr_handler.cpp:1533-1535 | so is a new flush interval |
| OsrHandler.Handler.OnRenderTick | src/osr_handler.cpp:1102-1106 | one wake is one tick of flow control and its begin frame counts in telemetry |
| OsrHandler.Handler.TrySendBeginFrame | src/osr_handler.cpp:940-963 | begins a frame exactly when the cap allows and there is a browser |
| OsrHandler.Handler.TryInputNudgeFrame | src/osr_handler.cpp:1332-1358 | claims the begin frame exactly when a nudge is due |
| OsrHandler.Handler.UpdateBeginFrameIntervalFromFps | src/osr_handler.cpp:971-977 | sets the interval of the clamped rate and forgets the cadence |
| OsrHandler.Handler.UpdateBeginFrameIntervalFromConsumerCadenceUs | src/osr_handler.cpp:979-999 | one filter step in 32-bit arithmetic, and the interval from it |
| OsrHandler.Handler.OnAfterCreated | src/osr_handler.cpp:1305-1314 | a created browser starts at 60 Hz |
| OsrHandler.Handler.OnBeforeClose | src/osr_handler.cpp:1316-1320 | a closed browser is no longer there |
| OsrHandler.Handler.HandleControlSetPaused | src/osr_handler.cpp:1511-1513 | the flow-control step of pausing |
| OsrHandler.Handler.HandleControlSetFrameRate | src/osr_handler.cpp:1456-1461 | the flow-control step of that control event |
| OsrHandler.Handler.HandleControlSetMaxInFlightBeginFrames | src/osr_handler.cpp:1463-1470 | sets the cap and drops old debt |
| OsrHandler.Handler.DispatchInputEvent | src/osr_handler.cpp:1360-1423 | the host call and modifier word of one event, and whether it wants a repaint |
| OsrHandler.Handler.PumpInput | src/osr_handler.cpp:1425-1454 | the draining loop makes exactly the calls of the pump's specification, leaves the rest of the queue, and nudges flow control once per attempt |

## Left out

- Interleaving inside a handler body, and weak memory: each handler is one atomic step. The load/store pair of the cap change, the compare-exchange retries of nudge and log line, and the mutexes are not modelled below that.
- Direct3D, DXGI and COM: only "create may fail", "open may fail", "copy", "signal may fail" and "flush" remain. A copy whose ends do not fit, whose effect Direct3D leaves undefined, is taken to have no effect, and a copy reads its source as it was when the command was given. Of a shared handle only its existence is modelled.
- The cache of opened textures (`src/osr_handler.cpp:570-588`): opening returns the current image of the paint or fails.
- The legacy mode that composites the popup into the view (`src/osr_handler.cpp:726-751`): the flag that selects the dedicated plane is always true.
- Shared memory and its ring buffers: the header is a record, always mapped and zeroed at the start (`include/shm/SharedFrameBuffer.h:38`); the input ring (`include/shm/SharedInputBuffer.h:48-61`) is a FIFO queue that its writer does not overrun. Magic, version, slot count, cursor and console entries are not modelled.
- Integer limits: 64-bit counters do not wrap, sums of rectangle coordinates and of areas stay in range, and surface sides fit an `int`. The 8-bit dirty count, the 32-bit sequence number, the 32-bit filter arithmetic and the unsigned time differences are modelled.
- Telemetry of begin-to-paint times and scheduler lateness, and the formatting of the log line.
- Timers, thread priorities and wake-up events: the clock is monotone and every lateness is possible. `Sleep` as a fallback of the waitable timer is not modelled.
- Liveness of begin frames: a begin frame that yields no paint keeps its credit, so only the bounds are claimed.
- Idle repair and the keyframe interval: the code stores values for them and never acts on them.
- Dispatch of control events, and the browser commands that are only forwarded to CEF (navigation, scripts, zoom, cookies, developer tools); shutdown and re-initialisation.
- Affinity.SelectAffinityMask: the mask is a sequence of bits of any width, not a machine word.
- OsrHandler.Handler.DispatchInputEvent: the modifier word is the set of its flag bits, and scroll deltas are integers already (the code truncates floats).
- RuntimeConfig.NumeralsOnly: arguments contain no NUL character.
- RuntimeConfig.NumeralValue: `unsigned long` and `long` are 32 bits wide, as on Windows.
- Popup paints that cannot be opened leave the previous popup image on the plane; PopupPlane speaks of the latest stored one.
- FileUrl.EncodeIsSafe: units of 0x7F and above are passed through, as in the code, so the output need not be an RFC 3986 URI.
