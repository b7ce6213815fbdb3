/** The runtime event bus of packages/core/src/runtime/eventBus.ts: the bounded record buffer, and the
    cascade of failure records between observers and sinks. */
module EventBus {
  import opened Prelude

  // ---------------------------------------------------------------- retention

  datatype Record<E> = Record(sequence: nat, event: E)

  datatype LimitError = NotANonNegativeInteger(received: int)

  class Bus<E> {
    const bufferSize: nat
    var sequence: nat
    var events: seq<Record<E>>
    ghost var log: seq<E>  // everything ever remembered

    ghost predicate Valid()
      reads this
    {
      sequence == |log| && events == Last(Records(log), bufferSize)
    }

    constructor (bufferSize: nat)
      ensures Valid() && log == [] && this.bufferSize == bufferSize
    {
      this.bufferSize := bufferSize;
      sequence, events, log := 0, [], [];
    }

    /** `remember`: with no buffer the record is never retained, not even for a moment. */
    method Remember(event: E) returns (record: Record<E>)
      requires Valid()
      modifies this
      ensures Valid() && log == old(log) + [event] && record == Record(|log|, event)
      ensures bufferSize == 0 ==> events == old(events)
    {
      RecordsAppend(log, event);
      sequence := sequence + 1;
      record := Record(sequence, event);
      log := log + [event];
      if bufferSize > 0 {
        events := events + [record];
        if |events| > bufferSize {
          events := events[|events| - bufferSize..];
        }
      }
    }

    /** `events`: the last `limit` retained records. */
    method Events(limit: Option<int>) returns (r: Result<seq<Record<E>>, LimitError>)
      requires Valid()
      ensures r.Err? <==> limit.Some? && limit.value < 0
      ensures r.Ok? ==> r.value == Last(Records(log),
        if limit.Some? && limit.value < bufferSize then limit.value else bufferSize)
    {
      match limit
      case None => r := Ok(events);
      case Some(n) =>
        if n < 0 {
          r := Err(NotANonNegativeInteger(n));
        } else if n == 0 {
          r := Ok([]);
        } else {
          r := Ok(if n < |events| then events[|events| - n..] else events);
        }
    }
  }

  /** The records of a log, numbered from one. */
  function Records<E>(log: seq<E>): (r: seq<Record<E>>)
    ensures |r| == |log|
    ensures forall i :: 0 <= i < |r| ==> r[i] == Record(i + 1, log[i])
  {
    seq(|log|, i requires 0 <= i < |log| => Record(i + 1, log[i]))
  }

  lemma RecordsAppend<E>(log: seq<E>, event: E)
    ensures Records(log + [event]) == Records(log) + [Record(|log| + 1, event)]
  {
  }

  // ---------------------------------------------------------------- the failure cascade

  /** How many observers and sinks there are during one emit. */
  datatype Handlers = Handlers(observers: nat, sinks: nat)

  /** `notifyObservers` under way: observers are called in order, and the sink fibers forked for a failed
      one (`recordObserverFailure`) must finish before the next is called. */
  datatype Loop = Loop(next: nat, depth: nat, waiting: seq<Fiber>)

  /** One sink's fiber in `notifySinks`; a failed one goes on to notify the observers of its failure. */
  datatype Fiber = Handling(depth: nat) | Reacting(loop: Loop) | Done

  datatype Emit = ToObservers(loop: Loop) | ToSinks(fibers: seq<Fiber>)

  function SinkFibers(hs: Handlers, depth: nat): (fibers: seq<Fiber>)
    ensures |fibers| == hs.sinks && forall i :: 0 <= i < |fibers| ==> fibers[i] == Handling(depth)
  {
    seq(hs.sinks, i => Handling(depth))
  }

  /** `emit`, after it remembered its own record. */
  function Begin(): Emit { ToObservers(Loop(0, 0, [])) }

  predicate FiberOver(hs: Handlers, f: Fiber)
  {
    match f
    case Handling(_) => false
    case Reacting(l) => LoopOver(hs, l)
    case Done => true
  }

  predicate LoopOver(hs: Handlers, l: Loop)
  {
    l.next >= hs.observers && forall f :: f in l.waiting ==> FiberOver(hs, f)
  }

  /** One handler runs: it succeeds, or it fails and its failure is recorded. */
  ghost predicate LoopStep(hs: Handlers, l: Loop, m: Loop, recorded: bool)
    decreases l, 2
  {
    || (exists k: nat, f :: FiberMoves(hs, l, k, f, recorded) && m == l.(waiting := l.waiting[k := f]))
    || (
      && l.next < hs.observers && (forall f :: f in l.waiting ==> FiberOver(hs, f))
      && m == Loop(l.next + 1, l.depth,
                   if recorded && l.depth == 0 then SinkFibers(hs, l.depth + 1) else []))
  }

  ghost predicate FiberMoves(hs: Handlers, l: Loop, k: nat, f: Fiber, recorded: bool)
    decreases l, 1
  {
    k < |l.waiting| && FiberStep(hs, l.waiting[k], f, recorded)
  }

  ghost predicate FiberStep(hs: Handlers, f: Fiber, g: Fiber, recorded: bool)
    decreases f, 0
  {
    match f
    case Handling(depth) => g == if recorded then Reacting(Loop(0, depth, [])) else Done
    case Reacting(l) => g.Reacting? && LoopStep(hs, l, g.loop, recorded)
    case Done => false
  }

  ghost predicate EmitStep(hs: Handlers, e: Emit, d: Emit, recorded: bool)
  {
    match e
    case ToObservers(l) =>
      if LoopOver(hs, l) then SinksStep(hs, SinkFibers(hs, 0), d, recorded)
      else d.ToObservers? && LoopStep(hs, l, d.loop, recorded)
    case ToSinks(fibers) => SinksStep(hs, fibers, d, recorded)
  }

  ghost predicate SinksStep(hs: Handlers, fibers: seq<Fiber>, d: Emit, recorded: bool)
  {
    d.ToSinks? && exists k, f ::
      0 <= k < |fibers| && FiberStep(hs, fibers[k], f, recorded) && d.fibers == fibers[k := f]
  }

  // ---- how many handlers can still be called

  function PerObserver(hs: Handlers, depth: nat): nat
  {
    if depth == 0 then 1 + hs.sinks * (1 + hs.observers) else 1
  }

  function PerSink(hs: Handlers, depth: nat): nat
  {
    1 + hs.observers * PerObserver(hs, depth)
  }

  function LoopCap(hs: Handlers, l: Loop): nat
    decreases l, 1
  {
    (if l.next < hs.observers then (hs.observers - l.next) * PerObserver(hs, l.depth) else 0) + FibersCap(hs, l.waiting)
  }

  function FiberCap(hs: Handlers, f: Fiber): nat
    decreases f, 1
  {
    match f
    case Handling(depth) => PerSink(hs, depth)
    case Reacting(l) => LoopCap(hs, l)
    case Done => 0
  }

  function FibersCap(hs: Handlers, fibers: seq<Fiber>): nat
    decreases fibers, 0
  {
    if fibers == [] then 0 else FiberCap(hs, fibers[0]) + FibersCap(hs, fibers[1..])
  }

  function EmitCap(hs: Handlers, e: Emit): nat
  {
    match e
    case ToObservers(l) => LoopCap(hs, l) + hs.sinks * PerSink(hs, 0)
    case ToSinks(fibers) => FibersCap(hs, fibers)
  }

  /** What one emit can record at most. */
  function Bound(hs: Handlers): nat
  {
    var o, s := hs.observers, hs.sinks;
    1 + o * (1 + s * (1 + o)) + s * (1 + o * (1 + s * (1 + o)))
  }

  lemma BeginCap(hs: Handlers)
    ensures 1 + EmitCap(hs, Begin()) == Bound(hs)
  {
    assert FibersCap(hs, []) == 0;
    if hs.observers == 0 {
      assert hs.observers * PerObserver(hs, 0) == 0;
    }
  }

  lemma {:induction false} FibersCapUpdate(hs: Handlers, fibers: seq<Fiber>, k: nat, f: Fiber)
    requires k < |fibers|
    ensures FibersCap(hs, fibers[k := f]) == FibersCap(hs, fibers) - FiberCap(hs, fibers[k]) + FiberCap(hs, f)
  {
    if k == 0 {
      assert fibers[0 := f][1..] == fibers[1..];
    } else {
      assert fibers[k := f][1..] == fibers[1..][k - 1 := f];
      FibersCapUpdate(hs, fibers[1..], k - 1, f);
    }
  }

  lemma {:induction false} SameFibersCap(hs: Handlers, fibers: seq<Fiber>, depth: nat)
    requires forall i :: 0 <= i < |fibers| ==> fibers[i] == Handling(depth)
    ensures FibersCap(hs, fibers) == |fibers| * PerSink(hs, depth)
  {
    if fibers != [] {
      SameFibersCap(hs, fibers[1..], depth);
      OneMore(|fibers| - 1, PerSink(hs, depth));
    }
  }

  lemma OneMore(a: int, b: int)
    ensures (a + 1) * b == a * b + b
  {
  }

  /** Work that is over has no call left. */
  lemma {:induction false} OverHasNothingLeft(hs: Handlers, fibers: seq<Fiber>)
    requires forall f :: f in fibers ==> FiberOver(hs, f)
    ensures FibersCap(hs, fibers) == 0
    decreases fibers, 0
  {
    if fibers != [] {
      assert fibers[0] in fibers;
      OverFiberHasNothingLeft(hs, fibers[0]);
      OverHasNothingLeft(hs, fibers[1..]);
    }
  }

  lemma {:induction false} OverFiberHasNothingLeft(hs: Handlers, f: Fiber)
    requires FiberOver(hs, f)
    ensures FiberCap(hs, f) == 0
    decreases f, 1
  {
    match f
    case Reacting(l) => OverHasNothingLeft(hs, l.waiting);
    case Done =>
    case Handling(_) => assert false;
  }

  lemma {:induction false} LoopStepCosts(hs: Handlers, l: Loop, m: Loop, recorded: bool)
    requires LoopStep(hs, l, m, recorded)
    ensures LoopCap(hs, m) + 1 <= LoopCap(hs, l)
    ensures recorded ==> LoopCap(hs, m) + 1 == LoopCap(hs, l)
    decreases l, 0
  {
    if exists k: nat, f :: FiberMoves(hs, l, k, f, recorded) && m == l.(waiting := l.waiting[k := f]) {
      var k: nat, f :| FiberMoves(hs, l, k, f, recorded) && m == l.(waiting := l.waiting[k := f]);
      FiberStepCosts(hs, l.waiting[k], f, recorded);
      FibersCapUpdate(hs, l.waiting, k, f);
    } else {
      OverHasNothingLeft(hs, l.waiting);
      OneMore(hs.observers - l.next - 1, PerObserver(hs, l.depth));
      if recorded && l.depth == 0 {
        SameFibersCap(hs, m.waiting, 1);
      }
    }
  }

  lemma {:induction false} FiberStepCosts(hs: Handlers, f: Fiber, g: Fiber, recorded: bool)
    requires FiberStep(hs, f, g, recorded)
    ensures FiberCap(hs, g) + 1 <= FiberCap(hs, f)
    ensures recorded ==> FiberCap(hs, g) + 1 == FiberCap(hs, f)
    decreases f, 0
  {
    match f
    case Handling(depth) => assert FibersCap(hs, []) == 0;
    case Reacting(l) => LoopStepCosts(hs, l, g.loop, recorded);
  }

  lemma SinksStepCosts(hs: Handlers, fibers: seq<Fiber>, d: Emit, recorded: bool)
    requires SinksStep(hs, fibers, d, recorded)
    ensures EmitCap(hs, d) + 1 <= FibersCap(hs, fibers)
    ensures recorded ==> EmitCap(hs, d) + 1 == FibersCap(hs, fibers)
  {
    var k, f :| 0 <= k < |fibers| && FiberStep(hs, fibers[k], f, recorded) && d.fibers == fibers[k := f];
    FiberStepCosts(hs, fibers[k], f, recorded);
    FibersCapUpdate(hs, fibers, k, f);
  }

  lemma EmitStepCosts(hs: Handlers, e: Emit, d: Emit, recorded: bool)
    requires EmitStep(hs, e, d, recorded)
    ensures EmitCap(hs, d) + 1 <= EmitCap(hs, e)
    ensures recorded ==> EmitCap(hs, d) + 1 == EmitCap(hs, e)
  {
    match e
    case ToObservers(l) =>
      if LoopOver(hs, l) {
        OverHasNothingLeft(hs, l.waiting);
        SameFibersCap(hs, SinkFibers(hs, 0), 0);
        SinksStepCosts(hs, SinkFibers(hs, 0), d, recorded);
      } else {
        LoopStepCosts(hs, l, d.loop, recorded);
      }
    case ToSinks(fibers) => SinksStepCosts(hs, fibers, d, recorded);
  }

  // ---- runs of one emit

  datatype Event = Event(after: Emit, recorded: bool)

  ghost predicate Runs(hs: Handlers, e: Emit, events: seq<Event>)
    decreases |events|
  {
    events == [] || (EmitStep(hs, e, events[0].after, events[0].recorded) && Runs(hs, events[0].after, events[1..]))
  }

  function End(e: Emit, events: seq<Event>): Emit
  {
    if events == [] then e else events[|events| - 1].after
  }

  function Recorded(events: seq<Event>): nat
  {
    if events == [] then 0 else (if events[0].recorded then 1 else 0) + Recorded(events[1..])
  }

  lemma {:induction false} RunCosts(hs: Handlers, e: Emit, events: seq<Event>)
    requires Runs(hs, e, events)
    ensures |events| + EmitCap(hs, End(e, events)) <= EmitCap(hs, e)
    ensures Recorded(events) <= |events|
    ensures (forall i :: 0 <= i < |events| ==> events[i].recorded) ==>
      Recorded(events) == |events| && |events| + EmitCap(hs, End(e, events)) == EmitCap(hs, e)
    decreases |events|
  {
    if events != [] {
      EmitStepCosts(hs, e, events[0].after, events[0].recorded);
      RunCosts(hs, events[0].after, events[1..]);
    }
  }

  /** However handlers fail and however the sink fibers interleave, one emit ends after finitely many handler
      calls and records no more than the bound. */
  lemma CascadeIsBounded(hs: Handlers, events: seq<Event>)
    requires Runs(hs, Begin(), events)
    ensures 1 + |events| <= Bound(hs)
    ensures 1 + Recorded(events) <= Bound(hs)
  {
    BeginCap(hs);
    RunCosts(hs, Begin(), events);
  }

  predicate EmitOver(hs: Handlers, e: Emit)
  {
    match e
    case ToObservers(l) => hs.sinks == 0 && LoopOver(hs, l)
    case ToSinks(fibers) => forall f :: f in fibers ==> FiberOver(hs, f)
  }

  /** The bound is met whenever every handler fails, whatever the interleaving. */
  lemma AllFailingMeetsTheBound(hs: Handlers, events: seq<Event>)
    requires Runs(hs, Begin(), events) && EmitOver(hs, End(Begin(), events))
    requires forall i :: 0 <= i < |events| ==> events[i].recorded
    ensures 1 + Recorded(events) == Bound(hs)
  {
    BeginCap(hs);
    RunCosts(hs, Begin(), events);
    match End(Begin(), events)
    case ToObservers(l) =>
      OverHasNothingLeft(hs, l.waiting);
      assert hs.sinks * PerSink(hs, 0) == 0;
    case ToSinks(fibers) => OverHasNothingLeft(hs, fibers);
  }

  /** Until the emit is over, either outcome of some handler can come next. */
  lemma NeverStuck(hs: Handlers, e: Emit, recorded: bool) returns (d: Emit)
    requires !EmitOver(hs, e)
    ensures EmitStep(hs, e, d, recorded)
  {
    match e
    case ToObservers(l) =>
      if LoopOver(hs, l) {
        d := SinksMove(hs, SinkFibers(hs, 0), 0, recorded);
      } else {
        var m := LoopMoves(hs, l, recorded);
        d := ToObservers(m);
      }
    case ToSinks(fibers) =>
      var f :| f in fibers && !FiberOver(hs, f);
      var k :| 0 <= k < |fibers| && fibers[k] == f;
      d := SinksMove(hs, fibers, k, recorded);
  }

  lemma SinksMove(hs: Handlers, fibers: seq<Fiber>, k: nat, recorded: bool) returns (d: Emit)
    requires k < |fibers| && !FiberOver(hs, fibers[k])
    ensures SinksStep(hs, fibers, d, recorded)
  {
    var g := FiberCanMove(hs, fibers[k], recorded);
    d := ToSinks(fibers[k := g]);
  }

  lemma {:induction false} LoopMoves(hs: Handlers, l: Loop, recorded: bool) returns (m: Loop)
    requires !LoopOver(hs, l)
    ensures LoopStep(hs, l, m, recorded)
    decreases l, 0
  {
    if f :| f in l.waiting && !FiberOver(hs, f) {
      var k :| 0 <= k < |l.waiting| && l.waiting[k] == f;
      var g := FiberCanMove(hs, l.waiting[k], recorded);
      assert FiberMoves(hs, l, k, g, recorded);
      m := l.(waiting := l.waiting[k := g]);
    } else {
      m := Loop(l.next + 1, l.depth, if recorded && l.depth == 0 then SinkFibers(hs, l.depth + 1) else []);
    }
  }

  lemma {:induction false} FiberCanMove(hs: Handlers, f: Fiber, recorded: bool) returns (g: Fiber)
    requires !FiberOver(hs, f)
    ensures FiberStep(hs, f, g, recorded)
    decreases f, 0
  {
    match f
    case Handling(depth) => g := if recorded then Reacting(Loop(0, depth, [])) else Done;
    case Reacting(l) =>
      var m := LoopMoves(hs, l, recorded);
      g := Reacting(m);
  }

  // ---------------------------------------------------------------- one emit on the bus

  /** The failures that a run records, in order. */
  function FailuresRecorded<E>(events: seq<Event>, failures: seq<E>): (recorded: seq<E>)
    requires |failures| == |events|
    ensures |recorded| == Recorded(events)
  {
    if events == [] then []
    else (if events[0].recorded then [failures[0]] else []) + FailuresRecorded(events[1..], failures[1..])
  }

  /** `emit`: the event itself is remembered, and then one failure for every handler that fails, in whatever
      interleaving `events` says.  The log grows by no more than the bound, and the bus keeps the last of it. */
  method EmitOn<E>(bus: Bus<E>, hs: Handlers, first: E, events: seq<Event>, failures: seq<E>)
    requires bus.Valid() && Runs(hs, Begin(), events) && |failures| == |events|
    modifies bus
    ensures bus.Valid() && bus.log == old(bus.log) + [first] + FailuresRecorded(events, failures)
    ensures |bus.log| <= |old(bus.log)| + Bound(hs)
  {
    var record := bus.Remember(first);
    ghost var start := bus.log;
    for i := 0 to |events|
      invariant bus.Valid()
      invariant start + FailuresRecorded(events, failures)
             == bus.log + FailuresRecorded(events[i..], failures[i..])
    {
      FailuresStep(events, failures, i, bus.log);
      if events[i].recorded {
        record := bus.Remember(failures[i]);
      }
    }
    assert FailuresRecorded(events[|events|..], failures[|events|..]) == [];
    assert bus.log + [] == bus.log;
    CascadeIsBounded(hs, events);
  }

  lemma FailuresStep<E>(events: seq<Event>, failures: seq<E>, i: nat, log: seq<E>)
    requires |failures| == |events| && i < |events|
    ensures log + FailuresRecorded(events[i..], failures[i..])
         == (if events[i].recorded then log + [failures[i]] else log)
            + FailuresRecorded(events[i + 1..], failures[i + 1..])
  {
    assert events[i..][1..] == events[i + 1..] && failures[i..][1..] == failures[i + 1..];
  }
}
