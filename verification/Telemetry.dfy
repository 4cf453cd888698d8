/** The producer's statistics: live counters that a log line takes over and resets. */
module Telemetry {
  import opened Geometry
  import opened MachineWords
  import opened Publication

  datatype Stats = Stats(
    produced: nat, forced: nat, manual: nat, recreated: nat, overflowed: nat,
    dirtyCount: nat, dirtyArea: nat, copyUsSum: nat, copyUsMax: nat, begins: nat)

  const ZERO := Stats(0, 0, 0, 0, 0, 0, 0, 0, 0, 0)

  /** `windows` holds the counters as logged, oldest first. */
  datatype Meter = Meter(live: Stats, lastLogUs: nat, windows: seq<Stats>)

  const LOG_PERIOD_US := 2000000

  function AreaOf(r: Rect): nat {
    (if r.w > 0 then r.w else 0) * (if r.h > 0 then r.h else 0)
  }

  function AreaOfAll(rects: seq<Rect>): nat {
    if rects == [] then 0 else AreaOfAll(rects[..|rects| - 1]) + AreaOf(rects[|rects| - 1])
  }

  /** What one view frame contributes. */
  datatype Sample = Sample(full: bool, manual: bool, recreated: bool, overflow: bool, listed: seq<Rect>, copyUs: nat)

  function One(b: bool): nat {
    if b then 1 else 0
  }

  function ForcedCounted(
    s: Stats, full: bool, manual: bool, recreated: bool, overflow: bool, listed: seq<Rect>): Stats
  {
    s.(forced := s.forced + One(full), manual := s.manual + One(manual),
       recreated := s.recreated + One(recreated), overflowed := s.overflowed + One(overflow),
       dirtyCount := s.dirtyCount + (if full then 0 else |listed|),
       dirtyArea := s.dirtyArea + (if full then 0 else AreaOfAll(listed)))
  }

  function CopyCounted(s: Stats, copyUs: nat): Stats {
    s.(produced := s.produced + 1, copyUsSum := s.copyUsSum + copyUs,
       copyUsMax := if copyUs > s.copyUsMax then copyUs else s.copyUsMax)
  }

  function AddSample(s: Stats, v: Sample): Stats {
    CopyCounted(ForcedCounted(s, v.full, v.manual, v.recreated, v.overflow, v.listed), v.copyUs)
  }

  /** The first frame only starts the log period; later a frame ends it once two seconds are over. */
  function MaybeLog(m: Meter, endUs: nat): Meter {
    if m.lastLogUs == 0 then m.(lastLogUs := endUs)
    else if (endUs - m.lastLogUs) % TWO_64 >= LOG_PERIOD_US then Meter(ZERO, endUs, m.windows + [m.live])
    else m
  }

  /** On a clock that does not go back, a view frame ends a window exactly when the last line, or the first frame, is at
      least two seconds old; the line takes all counters and leaves zeros. */
  lemma LogsEveryTwoSeconds(m: Meter, endUs: nat)
    requires m.lastLogUs <= endUs < TWO_64
    ensures var n := MaybeLog(m, endUs);
            if m.lastLogUs == 0 then n == m.(lastLogUs := endUs)
            else if endUs - m.lastLogUs >= 2000000
            then n.windows == m.windows + [m.live] && n.lastLogUs == endUs
                 && n.live == Stats(0, 0, 0, 0, 0, 0, 0, 0, 0, 0)
            else n == m
  {}

  function CopyTime(startUs: nat, endUs: nat): nat {
    if endUs > startUs then endUs - startUs else 0
  }

  function SampleOf(s: Host, image: Image, listed: seq<Rect>, api: Answers, copyUs: nat): Sample {
    var e := EnsureTextures(s, image.width, image.height, api);
    Sample(ForcedFull(e.host, listed, e.recreated), e.host.forceFull, e.recreated,
           |listed| > |e.host.header.dirtyRects|, listed, copyUs)
  }

  /** The forced-frame and dirty-list counters after a view frame. */
  function ForcedBy(live: Stats, s: Host, image: Image, listed: seq<Rect>, api: Answers): Stats {
    var v := SampleOf(s, image, listed, api, 0);
    ForcedCounted(live, v.full, v.manual, v.recreated, v.overflow, v.listed)
  }

  function AfterEvent(m: Meter, s: Host, e: Event, startUs: nat, endUs: nat): Meter {
    if !Publishes(s, e) then m
    else
      match e
      case ViewPaint(image, listed, api) =>
        MaybeLog(m.(live := CopyCounted(ForcedBy(m.live, s, image, listed, api), CopyTime(startUs, endUs))), endUs)
      case _ => m.(live := m.live.(produced := m.live.produced + 1))
  }

  function AfterBegin(m: Meter): Meter {
    m.(live := m.live.(begins := m.live.begins + 1))
  }
}
