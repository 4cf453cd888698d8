/** The GPU as the producer uses it: an in-order queue of commands over shared textures. */
module Gpu {
  import opened Geometry

  type Texture = nat

  datatype Command =
    | Create(texture: Texture, width: nat, height: nat)
    | CopyResource(target: Texture, image: Image)
    | CopyRegion(target: Texture, area: Rect, source: Texture)
    | Signal(value: nat)
    | Flush

  type Memory = map<Texture, Image>

  predicate Writes(c: Command, t: Texture) {
    match c
    case Create(texture, _, _) => texture == t
    case CopyResource(target, _) => target == t
    case CopyRegion(target, _, _) => target == t
    case Signal(_) => false
    case Flush => false
  }

  /** A region copy fills `area` of the target from the box of the same size at the source's origin;
      it is dropped when either end does not fit. */
  predicate RegionFits(m: Memory, c: Command)
    requires c.CopyRegion?
  {
    && c.target in m && c.source in m
    && 0 <= c.area.w <= m[c.source].width && 0 <= c.area.h <= m[c.source].height
    && Within(c.area, m[c.target].width, m[c.target].height)
  }

  function Apply(m: Memory, c: Command): Memory {
    match c
    case Create(t, width, height) => m[t := Blank(width, height)]
    case CopyResource(t, image) => if t in m && SameSize(m[t], image) then m[t := image] else m
    case CopyRegion(t, area, source) =>
      if RegionFits(m, c) then
        var from, over := m[source], m[t];
        m[t := Image(over.width, over.height, (p: Point) =>
          if Covers(area, p) then from.at(Point(p.x - area.x, p.y - area.y)) else over.at(p))]
      else m
    case Signal(_) => m
    case Flush => m
  }

  /** Texture contents once the whole of `log` has been executed. */
  function MemoryAfter(log: seq<Command>): Memory {
    if log == [] then map[] else Apply(MemoryAfter(log[..|log| - 1]), log[|log| - 1])
  }

  /** Completed fence value once the whole of `log` has been executed. */
  function FenceAfter(log: seq<Command>): nat {
    if log == [] then 0
    else if log[|log| - 1].Signal? then log[|log| - 1].value
    else FenceAfter(log[..|log| - 1])
  }

  lemma MemoryStep(log: seq<Command>, c: Command)
    ensures MemoryAfter(log + [c]) == Apply(MemoryAfter(log), c)
  {
    assert (log + [c])[..|log|] == log;
  }

  predicate Untouched(log: seq<Command>, t: Texture, from: nat) {
    forall i :: from <= i < |log| ==> !Writes(log[i], t)
  }

  /** Commands that do not write a texture leave its contents alone. */
  lemma {:induction false} MemoryKept(log: seq<Command>, t: Texture, from: nat)
    requires from <= |log| && Untouched(log, t, from)
    ensures t in MemoryAfter(log) <==> t in MemoryAfter(log[..from])
    ensures t in MemoryAfter(log) ==> MemoryAfter(log)[t] == MemoryAfter(log[..from])[t]
  {
    if from == |log| {
      assert log[..from] == log;
    } else {
      var shorter := log[..|log| - 1];
      assert !Writes(log[|log| - 1], t);
      MemoryKept(shorter, t, from);
      assert shorter[..from] == log[..from];
    }
  }

  predicate IsSignal(log: seq<Command>, i: int) {
    0 <= i < |log| && log[i].Signal?
  }

  ghost predicate SignalsIncrease(log: seq<Command>, below: nat) {
    && (forall i :: IsSignal(log, i) ==> 0 < log[i].value < below)
    && (forall i, j :: IsSignal(log, i) && IsSignal(log, j) && i < j ==> log[i].value < log[j].value)
  }

  /** A nonzero completed value comes from some executed Signal. */
  lemma {:induction false} FenceOrigin(log: seq<Command>) returns (i: int)
    ensures FenceAfter(log) > 0 ==> IsSignal(log, i) && log[i].value == FenceAfter(log)
  {
    i := |log| - 1;
    if log != [] && !log[|log| - 1].Signal? {
      i := FenceOrigin(log[..|log| - 1]);
    }
  }

  /** Waiting for a fence value waits for its Signal: if `progress` commands have completed the
      fence to the value signalled at `at`, then the command at `at` is among them. */
  lemma FenceImpliesProgress(log: seq<Command>, below: nat, at: nat, progress: nat)
    requires SignalsIncrease(log, below) && IsSignal(log, at) && progress <= |log|
    requires FenceAfter(log[..progress]) >= log[at].value
    ensures at < progress
  {
    var i := FenceOrigin(log[..progress]);
    assert IsSignal(log, i);
  }

  /** A full copy into a texture of the image's size leaves exactly that image there. */
  lemma CopyLands(log: seq<Command>, t: Texture, image: Image)
    requires t in MemoryAfter(log) && SameSize(MemoryAfter(log)[t], image)
    ensures t in MemoryAfter(log + [CopyResource(t, image)])
    ensures MemoryAfter(log + [CopyResource(t, image)])[t] == image
  {
    MemoryStep(log, CopyResource(t, image));
  }

  predicate Creates(c: Command, t: Texture) {
    c.Create? && c.texture == t
  }

  /** Sizes survive every command but a creation of the texture itself. */
  lemma {:induction false} SizeKept(log: seq<Command>, more: seq<Command>, t: Texture)
    requires log <= more && t in MemoryAfter(log)
    requires forall i :: |log| <= i < |more| ==> !Creates(more[i], t)
    ensures t in MemoryAfter(more) && SameSize(MemoryAfter(more)[t], MemoryAfter(log)[t])
  {
    if |more| == |log| {
      assert more == log;
    } else {
      var most := more[..|more| - 1];
      assert !Creates(more[|more| - 1], t);
      SizeKept(log, most, t);
    }
  }

  lemma SignalStep(log: seq<Command>, c: Command, below: nat)
    requires SignalsIncrease(log, below) && below > 0
    requires c.Signal? ==> c.value == below
    ensures SignalsIncrease(log + [c], if c.Signal? then below + 1 else below)
  {
    var more := log + [c];
    forall i | IsSignal(more, i)
      ensures more[i].value <= below && more[i].value > 0 && (i < |log| ==> more[i].value < below)
    {
      if i < |log| { assert IsSignal(log, i); }
    }
    forall i, j | IsSignal(more, i) && IsSignal(more, j) && i < j ensures more[i].value < more[j].value {
      assert IsSignal(log, i);
      if j < |log| { assert IsSignal(log, j); }
    }
  }
}
