/** The input pump: bounded draining of the input queue, dispatch with mouse-button state, and nudge attempts. */
module InputPump {
  import opened Geometry
  import FlowControl

  datatype InputEvent =
    | MouseMove(x: int, y: int)
    | MouseDown(button: int, x: int, y: int)
    | MouseUp(button: int, x: int, y: int)
    | MouseScroll(x: int, y: int, deltaX: int, deltaY: int)
    | KeyDown(code: int, keyModifiers: Modifiers)
    | KeyUp(code: int, keyModifiers: Modifiers)
    | KeyChar(character: int)
    | Unknown

  datatype KeyKind = RawDown | Released | Character

  /** What the pump does to the browser host, in order; `Attempt` is a try to nudge a frame at a clock reading. */
  datatype Call =
    | Moved(x: int, y: int, modifiers: Modifiers)
    | Clicked(x: int, y: int, button: int, isUp: bool, modifiers: Modifiers)
    | Scrolled(x: int, y: int, deltaX: int, deltaY: int)
    | Keyed(kind: KeyKind, code: int, modifiers: Modifiers)
    | Attempt(now: nat)

  const MAX_EVENTS_PER_PUMP := 64
  const NUDGE_EVERY_EVENTS := 8

  /** A modifier word is the set of its flag bits. */
  type Modifiers = set<nat>

  const LEFT_FLAG := 16
  const MIDDLE_FLAG := 32
  const RIGHT_FLAG := 64

  function FlagOf(button: int): nat {
    if button == 0 then LEFT_FLAG else if button == 1 then MIDDLE_FLAG else RIGHT_FLAG
  }

  function ModifiersAfter(m: Modifiers, evt: InputEvent): Modifiers {
    match evt
    case MouseDown(button, _, _) => m + {FlagOf(button)}
    case MouseUp(button, _, _) => m - {FlagOf(button)}
    case _ => m
  }

  /** The host call for one event; an unknown event makes none. */
  function CallsFor(m: Modifiers, evt: InputEvent): seq<Call> {
    match evt
    case MouseMove(x, y) => [Moved(x, y, m)]
    case MouseDown(button, x, y) => [Clicked(x, y, button, false, ModifiersAfter(m, evt))]
    case MouseUp(button, x, y) => [Clicked(x, y, button, true, ModifiersAfter(m, evt))]
    case MouseScroll(x, y, deltaX, deltaY) => [Scrolled(x, y, deltaX, deltaY)]
    case KeyDown(code, keyModifiers) => [Keyed(RawDown, code, keyModifiers)]
    case KeyUp(code, keyModifiers) => [Keyed(Released, code, keyModifiers)]
    case KeyChar(character) => [Keyed(Character, character, {})]
    case Unknown => []
  }

  /** The pump between two events. `switch` tells whether input is enabled when the n-th event is handled, and
      `clock` what the clock reads then. */
  datatype Pump = Pump(modifiers: Modifiers, calls: seq<Call>, pending: bool, processed: nat)

  function PumpOne(p: Pump, evt: InputEvent, switch: nat -> bool, clock: nat -> nat): Pump {
    if !switch(p.processed) then p.(processed := p.processed + 1)
    else
      var q := Pump(ModifiersAfter(p.modifiers, evt), p.calls + CallsFor(p.modifiers, evt),
                    p.pending || !evt.Unknown?, p.processed + 1);
      if q.pending && q.processed % NUDGE_EVERY_EVENTS == 0
      then q.(calls := q.calls + [Attempt(clock(q.processed))], pending := false) else q
  }

  function PumpMany(p: Pump, events: seq<InputEvent>, switch: nat -> bool, clock: nat -> nat): Pump
    decreases |events|
  {
    if events == [] then p else PumpMany(PumpOne(p, events[0], switch, clock), events[1..], switch, clock)
  }

  function Batch(queue: seq<InputEvent>): seq<InputEvent> {
    if |queue| > MAX_EVENTS_PER_PUMP then queue[..MAX_EVENTS_PER_PUMP] else queue
  }

  function Finished(p: Pump, clock: nat -> nat): Pump {
    if p.pending then p.(calls := p.calls + [Attempt(clock(p.processed + 1))], pending := false) else p
  }

  function PumpAll(modifiers: Modifiers, queue: seq<InputEvent>, switch: nat -> bool, clock: nat -> nat): Pump {
    Finished(PumpMany(Pump(modifiers, [], false, 0), Batch(queue), switch, clock), clock)
  }

  // ---- Dispatch --------------------------------------------------------------------------------

  /** The events that were handled while input was enabled, in order. */
  function EnabledEvents(events: seq<InputEvent>, first: nat, switch: nat -> bool): seq<InputEvent>
    decreases |events|
  {
    if events == [] then []
    else (if switch(first) then [events[0]] else []) + EnabledEvents(events[1..], first + 1, switch)
  }

  function FoldModifiers(m: Modifiers, events: seq<InputEvent>): Modifiers
    decreases |events|
  {
    if events == [] then m else FoldModifiers(ModifiersAfter(m, events[0]), events[1..])
  }

  function DispatchAll(m: Modifiers, events: seq<InputEvent>): seq<Call>
    decreases |events|
  {
    if events == [] then [] else CallsFor(m, events[0]) + DispatchAll(ModifiersAfter(m, events[0]), events[1..])
  }

  function WithoutAttempts(calls: seq<Call>): seq<Call> {
    if calls == [] then []
    else
      var earlier := WithoutAttempts(calls[..|calls| - 1]);
      if calls[|calls| - 1].Attempt? then earlier else earlier + [calls[|calls| - 1]]
  }

  function AttemptsIn(calls: seq<Call>): nat {
    if calls == [] then 0
    else AttemptsIn(calls[..|calls| - 1]) + if calls[|calls| - 1].Attempt? then 1 else 0
  }

  lemma CallStep(calls: seq<Call>, c: Call)
    ensures WithoutAttempts(calls + [c]) == if c.Attempt? then WithoutAttempts(calls) else WithoutAttempts(calls) + [c]
    ensures AttemptsIn(calls + [c]) == AttemptsIn(calls) + if c.Attempt? then 1 else 0
  {
    assert (calls + [c])[..|calls|] == calls;
  }

  lemma CallsForStep(calls: seq<Call>, m: Modifiers, evt: InputEvent)
    ensures WithoutAttempts(calls + CallsFor(m, evt)) == WithoutAttempts(calls) + CallsFor(m, evt)
    ensures AttemptsIn(calls + CallsFor(m, evt)) == AttemptsIn(calls)
  {
    if evt.Unknown? {
      assert calls + [] == calls;
    } else {
      CallStep(calls, CallsFor(m, evt)[0]);
      assert CallsFor(m, evt) == [CallsFor(m, evt)[0]];
    }
  }

  /** An attempt is pending exactly when the last call is a dispatch. */
  predicate Answered(p: Pump) {
    p.pending <==> p.calls != [] && !p.calls[|p.calls| - 1].Attempt?
  }

  /** At most one attempt for every eight events, and one fewer when an attempt is still pending at such a point. */
  predicate Rationed(attempts: nat, processed: nat, pending: bool) {
    && attempts <= processed / NUDGE_EVERY_EVENTS
    && (pending && processed % NUDGE_EVERY_EVENTS == 0 ==> attempts < processed / NUDGE_EVERY_EVENTS)
  }

  lemma RationStep(attempts: nat, processed: nat, pending: bool, nowPending: bool)
    requires Rationed(attempts, processed, pending)
    ensures var n := processed + 1;
            && (n % NUDGE_EVERY_EVENTS == 0 ==> Rationed(attempts + 1, n, false) && Rationed(attempts, n, pending))
            && (n % NUDGE_EVERY_EVENTS != 0 ==> Rationed(attempts, n, nowPending))
  {}

  lemma EnabledOne(evt: InputEvent, n: nat, switch: nat -> bool)
    ensures EnabledEvents([evt], n, switch) == if switch(n) then [evt] else []
  {
    assert [evt][1..] == [];
    assert EnabledEvents([evt][1..], n + 1, switch) == [];
  }

  lemma PumpOneCalls(p: Pump, evt: InputEvent, switch: nat -> bool, clock: nat -> nat)
    ensures Dispatched(p, PumpOne(p, evt, switch, clock), [evt], switch)
  {
    EnabledOne(evt, p.processed, switch);
    if switch(p.processed) {
      var dispatched := p.calls + CallsFor(p.modifiers, evt);
      CallsForStep(p.calls, p.modifiers, evt);
      CallStep(dispatched, Attempt(clock(p.processed + 1)));
      DispatchCons(p.modifiers, evt, []);
      assert [evt] + [] == [evt];
      assert CallsFor(p.modifiers, evt) + [] == CallsFor(p.modifiers, evt);
    } else {
      assert WithoutAttempts(p.calls) + [] == WithoutAttempts(p.calls);
    }
  }

  lemma CallsForLast(calls: seq<Call>, m: Modifiers, evt: InputEvent)
    ensures var after := calls + CallsFor(m, evt);
            if evt.Unknown? then after == calls else after != [] && !after[|after| - 1].Attempt?
    ensures AttemptsIn(calls + CallsFor(m, evt)) == AttemptsIn(calls)
  {
    CallsForStep(calls, m, evt);
    if evt.Unknown? {
      assert calls + [] == calls;
    } else {
      assert |CallsFor(m, evt)| == 1 && !CallsFor(m, evt)[0].Attempt?;
    }
  }

  lemma PumpOneAttempts(p: Pump, evt: InputEvent, switch: nat -> bool, clock: nat -> nat)
    requires Answered(p) && Rationed(AttemptsIn(p.calls), p.processed, p.pending)
    ensures var q := PumpOne(p, evt, switch, clock);
            Answered(q) && Rationed(AttemptsIn(q.calls), q.processed, q.pending)
  {
    var q := PumpOne(p, evt, switch, clock);
    RationStep(AttemptsIn(p.calls), p.processed, p.pending, q.pending);
    if switch(p.processed) {
      var dispatched := p.calls + CallsFor(p.modifiers, evt);
      CallsForLast(p.calls, p.modifiers, evt);
      if q.calls != dispatched {
        CallStep(dispatched, Attempt(clock(q.processed)));
      }
    }
  }

  lemma DispatchCons(m: Modifiers, evt: InputEvent, rest: seq<InputEvent>)
    ensures DispatchAll(m, [evt] + rest) == CallsFor(m, evt) + DispatchAll(ModifiersAfter(m, evt), rest)
    ensures FoldModifiers(m, [evt] + rest) == FoldModifiers(ModifiersAfter(m, evt), rest)
  {
    assert ([evt] + rest)[1..] == rest;
  }

  lemma {:induction false} DispatchConcat(m: Modifiers, a: seq<InputEvent>, b: seq<InputEvent>)
    ensures DispatchAll(m, a + b) == DispatchAll(m, a) + DispatchAll(FoldModifiers(m, a), b)
    ensures FoldModifiers(m, a + b) == FoldModifiers(FoldModifiers(m, a), b)
    decreases |a|
  {
    if a == [] {
      assert a + b == b;
    } else {
      DispatchConcat(ModifiersAfter(m, a[0]), a[1..], b);
      assert a + b == [a[0]] + (a[1..] + b);
      DispatchCons(m, a[0], a[1..] + b);
    }
  }

  /** `q` follows `p` by exactly the dispatch of the enabled events. */
  predicate Dispatched(p: Pump, q: Pump, events: seq<InputEvent>, switch: nat -> bool) {
    var on := EnabledEvents(events, p.processed, switch);
    && q.processed == p.processed + |events|
    && q.modifiers == FoldModifiers(p.modifiers, on)
    && WithoutAttempts(q.calls) == WithoutAttempts(p.calls) + DispatchAll(p.modifiers, on)
  }

  lemma DispatchedCompose(p: Pump, next: Pump, q: Pump, events: seq<InputEvent>, switch: nat -> bool)
    requires events != [] && Dispatched(p, next, [events[0]], switch) && Dispatched(next, q, events[1..], switch)
    ensures Dispatched(p, q, events, switch)
  {
    EnabledOne(events[0], p.processed, switch);
    var first := EnabledEvents([events[0]], p.processed, switch);
    var rest := EnabledEvents(events[1..], next.processed, switch);
    DispatchConcat(p.modifiers, first, rest);
    assert EnabledEvents(events, p.processed, switch) == first + rest;
    Regroup(WithoutAttempts(p.calls), DispatchAll(p.modifiers, first), DispatchAll(next.modifiers, rest));
  }

  lemma {:induction false} PumpManyCalls(p: Pump, events: seq<InputEvent>, switch: nat -> bool, clock: nat -> nat)
    ensures Dispatched(p, PumpMany(p, events, switch, clock), events, switch)
    decreases |events|
  {
    if events == [] {
      assert WithoutAttempts(p.calls) + [] == WithoutAttempts(p.calls);
    } else {
      var next := PumpOne(p, events[0], switch, clock);
      PumpOneCalls(p, events[0], switch, clock);
      PumpManyCalls(next, events[1..], switch, clock);
      DispatchedCompose(p, next, PumpMany(p, events, switch, clock), events, switch);
    }
  }

  lemma {:induction false} PumpManyAttempts(p: Pump, events: seq<InputEvent>, switch: nat -> bool, clock: nat -> nat)
    requires Answered(p) && Rationed(AttemptsIn(p.calls), p.processed, p.pending)
    ensures var q := PumpMany(p, events, switch, clock);
            Answered(q) && Rationed(AttemptsIn(q.calls), q.processed, q.pending)
    decreases |events|
  {
    if events != [] {
      PumpOneAttempts(p, events[0], switch, clock);
      PumpManyAttempts(PumpOne(p, events[0], switch, clock), events[1..], switch, clock);
    }
  }

  /** One pump dispatches exactly the enabled ones among the first 64 queued events, in order and with the button
      state folded over them; if it dispatched anything, its last act is a nudge attempt; and it attempts at most
      once per started group of eight events. */
  lemma PumpDispatchesInOrder(modifiers: Modifiers, queue: seq<InputEvent>, switch: nat -> bool, clock: nat -> nat)
    ensures var p, on := PumpAll(modifiers, queue, switch, clock), EnabledEvents(Batch(queue), 0, switch);
            && p.processed == |Batch(queue)| <= MAX_EVENTS_PER_PUMP
            && WithoutAttempts(p.calls) == DispatchAll(modifiers, on)
            && p.modifiers == FoldModifiers(modifiers, on)
            && (p.calls != [] ==> p.calls[|p.calls| - 1].Attempt?)
            && AttemptsIn(p.calls) <= (p.processed + NUDGE_EVERY_EVENTS - 1) / NUDGE_EVERY_EVENTS
  {
    var start := Pump(modifiers, [], false, 0);
    PumpManyCalls(start, Batch(queue), switch, clock);
    PumpManyAttempts(start, Batch(queue), switch, clock);
    var p := PumpMany(start, Batch(queue), switch, clock);
    CallStep(p.calls, Attempt(clock(p.processed + 1)));
  }

  // ---- Button state ----------------------------------------------------------------------------

  /** The button event for the given bit: 16 for button 0, 32 for button 1, 64 for any other. */
  predicate PressesButton(evt: InputEvent, flag: nat) {
    && (evt.MouseDown? || evt.MouseUp?)
    && flag == if evt.button == 0 then 16 else if evt.button == 1 then 32 else 64
  }

  /** Whether the button was last pressed; `before` when the events do not mention it. */
  function HeldAfter(before: bool, events: seq<InputEvent>, flag: nat): bool
    decreases |events|
  {
    if events == [] then before
    else HeldAfter(if PressesButton(events[0], flag) then events[0].MouseDown? else before, events[1..], flag)
  }

  lemma FlagStep(m: Modifiers, evt: InputEvent, flag: nat)
    ensures flag in ModifiersAfter(m, evt)
            <==> (if PressesButton(evt, flag) then evt.MouseDown? else flag in m)
  {}

  /** Each button bit of the folded word says whether the last event of that button was a press. */
  lemma {:induction false} ModifiersFollowButtons(m: Modifiers, events: seq<InputEvent>, flag: nat)
    ensures flag in FoldModifiers(m, events) <==> HeldAfter(flag in m, events, flag)
    decreases |events|
  {
    if events != [] {
      FlagStep(m, events[0], flag);
      ModifiersFollowButtons(ModifiersAfter(m, events[0]), events[1..], flag);
    }
  }

  // ---- What each call carries ------------------------------------------------------------------

  /** Bit `flag` is set in a word exactly when `held` says so. */
  ghost predicate SameButtons(word: Modifiers, m: Modifiers, events: seq<InputEvent>) {
    forall flag: nat :: flag in word <==> HeldAfter(flag in m, events, flag)
  }

  /** The call passes the event on, field by field: clicks with the button state after the event, moves with the one
      before it, keys with their own modifiers, characters with none. */
  ghost predicate Carries(c: Call, m: Modifiers, earlier: seq<InputEvent>, evt: InputEvent) {
    match evt
    case MouseMove(x, y) => c.Moved? && c.x == x && c.y == y && SameButtons(c.modifiers, m, earlier)
    case MouseDown(button, x, y) =>
      && c.Clicked? && c.x == x && c.y == y && c.button == button && !c.isUp
      && SameButtons(c.modifiers, m, earlier + [evt])
    case MouseUp(button, x, y) =>
      && c.Clicked? && c.x == x && c.y == y && c.button == button && c.isUp
      && SameButtons(c.modifiers, m, earlier + [evt])
    case MouseScroll(x, y, deltaX, deltaY) =>
      c.Scrolled? && c.x == x && c.y == y && c.deltaX == deltaX && c.deltaY == deltaY
    case KeyDown(code, keyModifiers) => c.Keyed? && c.kind.RawDown? && c.code == code && c.modifiers == keyModifiers
    case KeyUp(code, keyModifiers) => c.Keyed? && c.kind.Released? && c.code == code && c.modifiers == keyModifiers
    case KeyChar(character) => c.Keyed? && c.kind.Character? && c.code == character && c.modifiers == {}
    case Unknown => false
  }

  function Known(events: seq<InputEvent>): seq<InputEvent>
    decreases |events|
  {
    if events == [] then [] else (if events[0].Unknown? then [] else [events[0]]) + Known(events[1..])
  }

  lemma ButtonsAre(m: Modifiers, events: seq<InputEvent>)
    ensures SameButtons(FoldModifiers(m, events), m, events)
  {
    forall flag: nat ensures flag in FoldModifiers(m, events) <==> HeldAfter(flag in m, events, flag) {
      ModifiersFollowButtons(m, events, flag);
    }
  }

  lemma FoldLast(m: Modifiers, earlier: seq<InputEvent>, evt: InputEvent)
    ensures FoldModifiers(m, earlier + [evt]) == ModifiersAfter(FoldModifiers(m, earlier), evt)
  {
    DispatchConcat(m, earlier, [evt]);
    assert [evt][1..] == [];
    var after := ModifiersAfter(FoldModifiers(m, earlier), evt);
    assert FoldModifiers(after, []) == after;
  }

  lemma CallCarries(m: Modifiers, earlier: seq<InputEvent>, evt: InputEvent)
    requires !evt.Unknown?
    ensures var calls := CallsFor(FoldModifiers(m, earlier), evt); |calls| == 1 && Carries(calls[0], m, earlier, evt)
  {
    ButtonsAre(m, earlier);
    ButtonsAre(m, earlier + [evt]);
    FoldLast(m, earlier, evt);
  }

  /** Event by event, from the state after `earlier`. */
  lemma {:induction false} DispatchCarries(m: Modifiers, earlier: seq<InputEvent>, events: seq<InputEvent>, i: nat)
    ensures var calls, known := DispatchAll(FoldModifiers(m, earlier), events), Known(events);
            && |calls| == |known|
            && (i < |known| ==> Carries(calls[i], m, earlier + known[..i], known[i]))
    decreases |events|
  {
    hide Carries;
    if events != [] {
      var evt, rest := events[0], Known(events[1..]);
      if evt.Unknown? {
        DispatchCarries(m, earlier, events[1..], i);
        assert Known(events) == rest;
        assert DispatchAll(FoldModifiers(m, earlier), events) == DispatchAll(FoldModifiers(m, earlier), events[1..]);
      } else {
        CallCarries(m, earlier, evt);
        FoldLast(m, earlier, evt);
        assert Known(events) == [evt] + rest;
        if i == 0 {
          DispatchCarries(m, earlier + [evt], events[1..], 0);
          assert earlier + ([evt] + rest)[..0] == earlier;
        } else {
          DispatchCarries(m, earlier + [evt], events[1..], i - 1);
          if i - 1 < |rest| { assert earlier + ([evt] + rest)[..i] == earlier + [evt] + rest[..i - 1]; }
        }
      }
    }
  }

  /** One pump over at most 64 events calls the browser once for every event that is known and enabled, in order, and
      each call carries its event. */
  lemma PumpCarriesEvents(modifiers: Modifiers, queue: seq<InputEvent>, switch: nat -> bool, clock: nat -> nat, i: nat)
    ensures var p := PumpAll(modifiers, queue, switch, clock);
            var batch := queue[..if |queue| > 64 then 64 else |queue|];
            var known := Known(EnabledEvents(batch, 0, switch));
            && p.processed == |batch| && |WithoutAttempts(p.calls)| == |known|
            && (i < |known| ==> Carries(WithoutAttempts(p.calls)[i], modifiers, known[..i], known[i]))
  {
    var batch := Batch(queue);
    assert batch == queue[..if |queue| > 64 then 64 else |queue|];
    PumpDispatchesInOrder(modifiers, queue, switch, clock);
    DispatchCarries(modifiers, [], EnabledEvents(batch, 0, switch), i);
    assert forall known: seq<InputEvent> :: [] + known == known;
  }

  // ---- When nudges are tried -------------------------------------------------------------------

  /** After the n-th event a nudge may be tried: every eighth time, if input is enabled then. */
  predicate NudgePoint(switch: nat -> bool, n: nat) {
    n > 0 && n % 8 == 0 && switch(n - 1)
  }

  /** Event m was dispatched and no nudge point came after it up to event n. */
  predicate Waits(events: seq<InputEvent>, switch: nat -> bool, m: nat, n: nat) {
    m < n <= |events| && switch(m) && !events[m].Unknown? && forall b :: m < b <= n ==> !NudgePoint(switch, b)
  }

  /** A nudge is due after n events when some dispatched event waits for it. */
  ghost predicate Due(events: seq<InputEvent>, switch: nat -> bool, n: nat) {
    exists m: nat :: Waits(events, switch, m, n)
  }

  /** The nudge tried after the n-th event: at a nudge point, when an event of this group or an earlier one waits. */
  ghost predicate TriedAt(events: seq<InputEvent>, switch: nat -> bool, n: nat) {
    && 0 < n <= |events| && NudgePoint(switch, n)
    && (!events[n - 1].Unknown? || Due(events, switch, n - 1))
  }

  ghost function TriesUpTo(events: seq<InputEvent>, switch: nat -> bool, n: nat): nat {
    if n == 0 then 0 else TriesUpTo(events, switch, n - 1) + if TriedAt(events, switch, n) then 1 else 0
  }

  lemma DueStep(events: seq<InputEvent>, switch: nat -> bool, n: nat)
    requires n < |events|
    ensures Due(events, switch, n + 1) <==>
            !NudgePoint(switch, n + 1) && ((switch(n) && !events[n].Unknown?) || Due(events, switch, n))
  {
    if Due(events, switch, n + 1) {
      var m: nat :| Waits(events, switch, m, n + 1);
      if m < n { assert Waits(events, switch, m, n); }
    }
    if !NudgePoint(switch, n + 1) {
      if switch(n) && !events[n].Unknown? { assert Waits(events, switch, n, n + 1); }
      if Due(events, switch, n) {
        var m: nat :| Waits(events, switch, m, n);
        assert Waits(events, switch, m, n + 1);
      }
    }
  }

  ghost predicate OnTime(p: Pump, events: seq<InputEvent>, switch: nat -> bool) {
    && p.processed <= |events| && (p.pending <==> Due(events, switch, p.processed))
    && AttemptsIn(p.calls) == TriesUpTo(events, switch, p.processed)
  }

  lemma OnTimeStep(p: Pump, events: seq<InputEvent>, switch: nat -> bool, clock: nat -> nat)
    requires OnTime(p, events, switch) && p.processed < |events|
    ensures OnTime(PumpOne(p, events[p.processed], switch, clock), events, switch)
  {
    hide Due, CallsFor, NudgePoint;
    var evt, n := events[p.processed], p.processed + 1;
    DueStep(events, switch, p.processed);
    PointOf(switch, n);
    var q := PumpOne(p, evt, switch, clock);
    var dispatched := p.calls + CallsFor(p.modifiers, evt);
    CallsForStep(p.calls, p.modifiers, evt);
    CallStep(dispatched, Attempt(clock(n)));
    assert AttemptsIn(q.calls) == AttemptsIn(p.calls) + if TriedAt(events, switch, n) then 1 else 0;
  }

  lemma PointOf(switch: nat -> bool, n: nat)
    requires n > 0
    ensures NudgePoint(switch, n) <==> n % NUDGE_EVERY_EVENTS == 0 && switch(n - 1)
  {}

  lemma {:induction false} OnTimeMany(p: Pump, events: seq<InputEvent>, switch: nat -> bool, clock: nat -> nat)
    requires OnTime(p, events, switch)
    ensures var q := PumpMany(p, events[p.processed..], switch, clock);
            OnTime(q, events, switch) && q.processed == |events|
    decreases |events| - p.processed
  {
    hide OnTime;
    OnTimeMeans(p, events, switch);
    if p.processed < |events| {
      var next := PumpOne(p, events[p.processed], switch, clock);
      OnTimeStep(p, events, switch, clock);
      assert events[p.processed..][1..] == events[next.processed..];
      OnTimeMany(next, events, switch, clock);
    }
  }

  lemma OnTimeMeans(p: Pump, events: seq<InputEvent>, switch: nat -> bool)
    requires OnTime(p, events, switch)
    ensures p.processed <= |events|
  {}

  /** A pump tries a nudge exactly at each eighth event that is enabled and has a dispatched event waiting, and once
      more at the end exactly when a dispatched event still waits. */
  lemma NudgesTriedExactly(modifiers: Modifiers, queue: seq<InputEvent>, switch: nat -> bool, clock: nat -> nat)
    ensures var batch := queue[..if |queue| > 64 then 64 else |queue|];
            AttemptsIn(PumpAll(modifiers, queue, switch, clock).calls)
            == TriesUpTo(batch, switch, |batch|) + if Due(batch, switch, |batch|) then 1 else 0
  {
    hide Due;
    var batch := Batch(queue);
    assert batch == queue[..if |queue| > 64 then 64 else |queue|] && batch[0..] == batch;
    var start := Pump(modifiers, [], false, 0);
    NothingDue(batch, switch);
    OnTimeMany(start, batch, switch, clock);
    var p := PumpMany(start, batch, switch, clock);
    CallStep(p.calls, Attempt(clock(p.processed + 1)));
  }

  lemma NothingDue(events: seq<InputEvent>, switch: nat -> bool)
    ensures !Due(events, switch, 0)
  {}

  // ---- Effect on flow control ------------------------------------------------------------------

  /** The nudge attempts among the calls, as flow-control steps. */
  function NudgeAll(f: FlowControl.Flow, calls: seq<Call>): FlowControl.Flow {
    if calls == [] then f
    else
      var g := NudgeAll(f, calls[..|calls| - 1]);
      if calls[|calls| - 1].Attempt? then FlowControl.Step(g, FlowControl.Nudge(calls[|calls| - 1].now)) else g
  }

  lemma BatchStep(queue: seq<InputEvent>, i: nat)
    requires i < |queue| && i < MAX_EVENTS_PER_PUMP
    ensures var rest := Batch(queue)[i..];
            rest != [] && rest[0] == queue[i] && rest[1..] == Batch(queue)[i + 1..]
    ensures queue[i..][0] == queue[i] && queue[i..][1..] == queue[i + 1..]
  {}

  lemma NudgeAttempt(f: FlowControl.Flow, calls: seq<Call>, now: nat)
    ensures NudgeAll(f, calls + [Attempt(now)]) == FlowControl.Step(NudgeAll(f, calls), FlowControl.Nudge(now))
  {
    assert (calls + [Attempt(now)])[..|calls|] == calls;
  }

  lemma NudgeDispatch(f: FlowControl.Flow, calls: seq<Call>, m: Modifiers, evt: InputEvent)
    ensures NudgeAll(f, calls + CallsFor(m, evt)) == NudgeAll(f, calls)
  {
    if evt.Unknown? {
      assert calls + [] == calls;
    } else {
      assert CallsFor(m, evt) == [CallsFor(m, evt)[0]];
      assert (calls + CallsFor(m, evt))[..|calls|] == calls;
    }
  }
}
