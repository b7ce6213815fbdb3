/** Live starts whose caller can be interrupted while driver work goes on: the routed start of
    packages/core/src/driver/effectDefinition.ts, as its steps on two fibers. */
module RoutedLiveStart {
  import opened Prelude

  type Resource = nat

  datatype Outcome = Success(resource: Resource) | Failure | Interruption

  /** The detached fiber: the driver's start, the tap fused to its completion, its exit. */
  datatype Routing = Unforked | Running | Tapped(resource: Resource) | Exited(outcome: Outcome)

  datatype Caller = Entering | Joining | Returned(resource: Resource) | Failed | Abandoned

  datatype State = State(
    routing: Routing,
    caller: Caller,
    produced: Option<Resource>,
    abandoned: bool,
    signalled: bool,         // the routing fiber has been sent an interrupt
    reported: seq<Resource>  // calls of onAbandonedResource
  )

  datatype Step =
    | Fork
    | Tap(resource: Resource)   // the start completes; the tap records the resource and checks `abandoned`
    | Fail                      // the start fails
    | StopEarly                 // the interrupt lands inside the start, which has produced nothing
    | Exit(outcome: Outcome)    // after the tap; a pending interrupt may discard the value
    | Join                      // the caller gets the fiber's outcome
    | Interrupt                 // the caller is interrupted: onInterrupt
    | Signal                    // the detached interrupt reaches the routing fiber

  const INITIAL := State(Unforked, Entering, None, false, false, [])

  predicate Enabled(s: State, step: Step)
  {
    match step
    case Fork => s.caller.Entering?
    case Tap(_) => s.routing.Running?
    case Fail => s.routing.Running?
    case StopEarly => s.routing.Running? && s.signalled
    case Exit(outcome) =>
      s.routing.Tapped? && (outcome == Success(s.routing.resource) || (s.signalled && outcome.Interruption?))
    case Join => s.caller.Joining? && s.routing.Exited?
    case Interrupt => s.caller.Joining?
    case Signal => s.abandoned && !s.signalled
  }

  function Next(s: State, step: Step): State
    requires Enabled(s, step)
  {
    match step
    case Fork => s.(caller := Joining, routing := Running)
    case Tap(resource) =>
      s.(routing := Tapped(resource), produced := Some(resource),
         reported := if s.abandoned then s.reported + [resource] else s.reported)
    case Fail => s.(routing := Exited(Failure))
    case StopEarly => s.(routing := Exited(Interruption))
    case Exit(outcome) => s.(routing := Exited(outcome))
    case Join =>
      s.(caller := match s.routing.outcome
                   case Success(resource) => Returned(resource)
                   case _ => Failed)
    case Interrupt =>
      s.(caller := Abandoned, abandoned := true,
         reported := if s.produced.Some? then s.reported + [s.produced.value] else s.reported)
    case Signal => s.(signalled := true)
  }

  predicate Possible(s: State, steps: seq<Step>)
    decreases |steps|
  {
    steps == [] || (Enabled(s, steps[0]) && Possible(Next(s, steps[0]), steps[1..]))
  }

  function After(s: State, steps: seq<Step>): State
    requires Possible(s, steps)
    decreases |steps|
  {
    if steps == [] then s else After(Next(s, steps[0]), steps[1..])
  }

  /** Everything that reached somebody. */
  function Delivered(s: State): seq<Resource>
  {
    (if s.caller.Returned? then [s.caller.resource] else []) + s.reported
  }

  predicate CallerEnded(s: State) { s.caller.Returned? || s.caller.Failed? || s.caller.Abandoned? }

  function ProducedList(s: State): seq<Resource> { if s.produced.Some? then [s.produced.value] else [] }

  predicate Inv(s: State)
  {
    && (s.caller.Entering? <==> s.routing.Unforked?)
    && (s.abandoned <==> s.caller.Abandoned?) && (s.signalled ==> s.abandoned)
    && (s.routing.Unforked? || s.routing.Running? ==> s.produced.None?)
    && (s.routing.Tapped? ==> s.produced == Some(s.routing.resource))
    && (s.routing.Exited? ==>
          match s.routing.outcome
          case Success(resource) => s.produced == Some(resource)
          case Failure => s.produced.None?
          case Interruption => s.signalled)
    && s.reported == (if s.abandoned then ProducedList(s) else [])
    && (s.caller.Returned? ==> s.produced == Some(s.caller.resource))
    && (s.caller.Failed? ==> s.produced.None? && s.routing == Exited(Failure))
  }

  lemma InvStep(s: State, step: Step)
    requires Inv(s) && Enabled(s, step)
    ensures Inv(Next(s, step))
  {
    assert [] + ProducedList(Next(s, step)) == ProducedList(Next(s, step));
  }

  lemma {:induction false} InvHoldsOnRuns(s: State, steps: seq<Step>)
    requires Inv(s) && Possible(s, steps)
    ensures Inv(After(s, steps))
    decreases |steps|
  {
    if steps != [] {
      InvStep(s, steps[0]);
      InvHoldsOnRuns(Next(s, steps[0]), steps[1..]);
    }
  }

  /** In every interleaving: nothing is delivered while the caller waits, and from the moment the caller has
      ended the produced resource has been delivered once, to the caller or to onAbandonedResource. */
  lemma DeliveredExactlyOnce(steps: seq<Step>)
    requires Possible(INITIAL, steps)
    ensures var s := After(INITIAL, steps);
      && Delivered(s) == (if CallerEnded(s) then ProducedList(s) else [])
      && (s.caller.Returned? ==> s.reported == []) && (s.reported != [] ==> s.caller.Abandoned?)
  {
    InvHoldsOnRuns(INITIAL, steps);
  }

  /** Abandoning is immediate, and no interrupt sent to the routing fiber can lose what it has produced. */
  lemma AbandonmentIsPrompt(steps: seq<Step>)
    requires Possible(INITIAL, steps)
    ensures var s := After(INITIAL, steps);
      && (s.caller.Joining? ==> Enabled(s, Interrupt) && CallerEnded(Next(s, Interrupt)))
      && (s.abandoned ==> forall r: Resource :: Enabled(s, Tap(r)) ==> Delivered(Next(s, Tap(r))) == [r])
      && (s.routing == Exited(Interruption) ==> s.reported == ProducedList(s))
  {
    InvHoldsOnRuns(INITIAL, steps);
  }

  /** A caller that was not abandoned sees just what the driver's start did. */
  lemma JoinIsFaithful(steps: seq<Step>)
    requires Possible(INITIAL, steps)
    ensures var s := After(INITIAL, steps);
      && (s.caller.Failed? ==> s.routing == Exited(Failure))
      && (s.caller.Returned? ==> s.routing == Exited(Success(s.caller.resource)))
  {
    JoinedInv(INITIAL, steps);
  }

  predicate Joined(s: State)
  {
    s.caller.Returned? ==> s.routing == Exited(Success(s.caller.resource))
  }

  lemma {:induction false} JoinedInv(s: State, steps: seq<Step>)
    requires Inv(s) && Joined(s) && Possible(s, steps)
    ensures Inv(After(s, steps)) && Joined(After(s, steps))
    decreases |steps|
  {
    if steps != [] {
      InvStep(s, steps[0]);
      JoinedInv(Next(s, steps[0]), steps[1..]);
    }
  }

  lemma {:induction false} ToldFrom(s: State, steps: seq<Step>, resource: Resource)
    requires Inv(s) && Possible(s, steps)
    ensures var t := After(s, steps);
      && (t.produced == Some(resource) <==> s.produced == Some(resource) || Tap(resource) in steps)
      && (t.abandoned <==> s.abandoned || Interrupt in steps) && (t.signalled <==> s.signalled || Signal in steps)
      && (t.caller.Entering? <==> s.caller.Entering? && Fork !in steps)
    decreases |steps|
  {
    if steps != [] {
      assert steps == [steps[0]] + steps[1..];
      InvStep(s, steps[0]);
      ToldFrom(Next(s, steps[0]), steps[1..], resource);
    }
  }

  /** The run alone tells what was produced and whether the caller abandoned it. */
  lemma RunTells(steps: seq<Step>, resource: Resource)
    requires Possible(INITIAL, steps)
    ensures var s := After(INITIAL, steps);
      && (s.produced == Some(resource) <==> Tap(resource) in steps) && (s.abandoned <==> Interrupt in steps)
      && (s.signalled <==> Signal in steps) && (s.caller.Entering? <==> Fork !in steps)
  {
    ToldFrom(INITIAL, steps, resource);
  }

  /** No move is shut out: a start that runs can complete with any resource or fail, an interrupt that reached it can
      land before or after it has produced, and a caller that waits can be interrupted until it has joined. */
  lemma EveryMoveIsOpen(steps: seq<Step>, resource: Resource)
    requires Possible(INITIAL, steps)
    ensures var s := After(INITIAL, steps);
      && (s.routing.Running? ==>
            && Enabled(s, Tap(resource)) && Enabled(s, Fail)
            && (s.signalled ==> Enabled(s, StopEarly) && Enabled(Next(s, Tap(resource)), Exit(Interruption))))
      && (s.routing.Tapped? ==>
            Enabled(s, Exit(Success(s.routing.resource))) && (s.signalled ==> Enabled(s, Exit(Interruption))))
      && (s.caller.Joining? ==> Enabled(s, Interrupt) && (s.routing.Exited? ==> Enabled(s, Join)))
      && (s.caller.Entering? ==> Enabled(s, Fork) && Next(s, Fork).routing.Running?)
      && (Interrupt in steps && Signal !in steps ==> Enabled(s, Signal))
  {
    ToldFrom(INITIAL, steps, resource);
  }

  /** What is at most left to happen. */
  function StepsLeft(s: State): nat
  {
    (match s.caller case Entering => 6 case Joining => 2 case _ => 0)
    + (match s.routing case Running => 2 case Tapped(_) => 1 case _ => 0)
    + if s.abandoned && !s.signalled then 1 else 0
  }

  lemma {:induction false} StepsRunOut(s: State, steps: seq<Step>)
    requires Inv(s) && Possible(s, steps)
    ensures |steps| + StepsLeft(After(s, steps)) <= StepsLeft(s)
    decreases |steps|
  {
    if steps != [] {
      InvStep(s, steps[0]);
      StepsRunOut(Next(s, steps[0]), steps[1..]);
    }
  }

  /** Every run ends after boundedly many steps, and a run that cannot go on has brought the resource to exactly
      one of the two. */
  lemma EverythingIsDelivered(steps: seq<Step>)
    requires Possible(INITIAL, steps)
    ensures |steps| <= StepsLeft(INITIAL)
    ensures var s := After(INITIAL, steps);
      (forall step :: !Enabled(s, step)) ==> CallerEnded(s) && s.routing.Exited? && Delivered(s) == ProducedList(s)
  {
    StepsRunOut(INITIAL, steps);
    InvHoldsOnRuns(INITIAL, steps);
    var s := After(INITIAL, steps);
    if !CallerEnded(s) {
      assert Enabled(s, if s.caller.Entering? then Fork else Interrupt);
    } else if !s.routing.Exited? {
      assert Enabled(s, if s.routing.Running? then Fail else Exit(Success(s.routing.resource)));
    }
  }
}

/** The live start of packages/core/src/driver/asyncDefinition.ts: the promise is retained, so what it resolves
    to after an interruption is still routed. */
module AsyncLiveStart {
  type Resource = nat

  datatype Pending = NotMade | Unsettled | Resolved(resource: Resource) | Rejected

  datatype Caller = Idle | Waiting | Returned(resource: Resource) | Failed | Interrupted

  datatype State = State(
    callback: bool,  // onAbandonedResource was given
    caller: Caller,
    pending: Pending,
    watching: bool,  // the `then` registered on interruption has not run yet
    reported: seq<Resource>
  )

  datatype Step =
    | Run                         // the driver's function returns a promise, or a value as a resolved one
    | Throw
    | Resolve(resource: Resource)
    | Reject
    | Resume                      // the fiber's own reaction to the settled promise
    | Interrupt
    | React                       // the reaction registered on interruption

  function Initial(callback: bool): State { State(callback, Idle, NotMade, false, []) }

  predicate Settled(s: State) { s.pending.Resolved? || s.pending.Rejected? }

  predicate Enabled(s: State, step: Step)
  {
    match step
    case Run => s.caller.Idle?
    case Throw => s.caller.Idle?
    case Resolve(_) => s.pending.Unsettled?
    case Reject => s.pending.Unsettled?
    case Resume => s.caller.Waiting? && Settled(s)
    case Interrupt => s.caller.Idle? || s.caller.Waiting?
    case React => s.watching && Settled(s)
  }

  function Next(s: State, step: Step): State
    requires Enabled(s, step)
  {
    match step
    case Run => s.(caller := Waiting, pending := Unsettled)
    case Throw => s.(caller := Failed)
    case Resolve(resource) => s.(pending := Resolved(resource))
    case Reject => s.(pending := Rejected)
    case Resume => s.(caller := if s.pending.Resolved? then Returned(s.pending.resource) else Failed)
    case Interrupt => s.(caller := Interrupted, watching := s.callback && !s.pending.NotMade?)
    case React =>
      s.(watching := false, reported := if s.pending.Resolved? then s.reported + [s.pending.resource] else s.reported)
  }

  predicate Possible(s: State, steps: seq<Step>)
    decreases |steps|
  {
    steps == [] || (Enabled(s, steps[0]) && Possible(Next(s, steps[0]), steps[1..]))
  }

  function After(s: State, steps: seq<Step>): State
    requires Possible(s, steps)
    decreases |steps|
  {
    if steps == [] then s else After(Next(s, steps[0]), steps[1..])
  }

  function Delivered(s: State): seq<Resource>
  {
    (if s.caller.Returned? then [s.caller.resource] else []) + s.reported
  }

  /** Nothing is left to happen. */
  predicate Quiet(s: State)
  {
    !s.caller.Idle? && !s.caller.Waiting? && !s.pending.Unsettled? && !s.watching
  }

  function Produced(s: State): seq<Resource> { if s.pending.Resolved? then [s.pending.resource] else [] }

  predicate Inv(s: State)
  {
    && (s.caller.Idle? ==> s.pending.NotMade?) && (s.caller.Waiting? ==> !s.pending.NotMade?)
    && (s.watching ==> s.callback && s.caller.Interrupted? && !s.pending.NotMade?)
    && (s.caller.Returned? ==> s.pending == Resolved(s.caller.resource))
    && (s.caller.Failed? ==> s.pending.Rejected? || s.pending.NotMade?)
    && s.reported == (if s.callback && s.caller.Interrupted? && !s.watching then Produced(s) else [])
    && (s.callback && s.caller.Interrupted? && !s.watching ==> !s.pending.Unsettled?)
  }

  lemma InvStep(s: State, step: Step)
    requires Inv(s) && Enabled(s, step)
    ensures Inv(Next(s, step))
  {
  }

  lemma {:induction false} InvHoldsOnRuns(s: State, steps: seq<Step>)
    requires Inv(s) && Possible(s, steps)
    ensures Inv(After(s, steps)) && After(s, steps).callback == s.callback
    decreases |steps|
  {
    if steps != [] {
      InvStep(s, steps[0]);
      InvHoldsOnRuns(Next(s, steps[0]), steps[1..]);
    }
  }

  /** In every interleaving a resource is delivered at most once and only if the promise resolved to it; once
      nothing is left to happen it has been delivered exactly when the caller got it or a callback was given. */
  lemma DeliveredExactlyOnce(callback: bool, steps: seq<Step>)
    requires Possible(Initial(callback), steps)
    ensures var s := After(Initial(callback), steps);
      && (Delivered(s) == [] || Delivered(s) == Produced(s))
      && (Quiet(s) && Produced(s) != [] ==> (Delivered(s) == Produced(s) <==> s.caller.Returned? || callback))
  {
    InvHoldsOnRuns(Initial(callback), steps);
  }

  lemma {:induction false} ToldFrom(s: State, steps: seq<Step>, resource: Resource)
    requires Inv(s) && Possible(s, steps)
    ensures var t := After(s, steps);
      && (t.pending == Resolved(resource) <==> s.pending == Resolved(resource) || Resolve(resource) in steps)
      && (t.pending.Rejected? <==> s.pending.Rejected? || Reject in steps)
      && (t.caller.Interrupted? <==> s.caller.Interrupted? || Interrupt in steps)
      && (t.pending.NotMade? <==> s.pending.NotMade? && Run !in steps)
    decreases |steps|
  {
    if steps != [] {
      assert steps == [steps[0]] + steps[1..];
      InvStep(s, steps[0]);
      ToldFrom(Next(s, steps[0]), steps[1..], resource);
    }
  }

  /** The run alone tells what the promise became and whether the caller was interrupted. */
  lemma RunTells(callback: bool, steps: seq<Step>, resource: Resource)
    requires Possible(Initial(callback), steps)
    ensures var s := After(Initial(callback), steps);
      && (s.pending == Resolved(resource) <==> Resolve(resource) in steps) && (s.pending.Rejected? <==> Reject in steps)
      && (s.caller.Interrupted? <==> Interrupt in steps) && (s.pending.NotMade? <==> Run !in steps)
  {
    ToldFrom(Initial(callback), steps, resource);
  }

  /** No move is shut out: a promise that was made and not settled can settle either way, also after the caller was
      interrupted, and a caller can be interrupted until it has resumed. */
  lemma EveryMoveIsOpen(callback: bool, steps: seq<Step>, resource: Resource)
    requires Possible(Initial(callback), steps)
    ensures var s := After(Initial(callback), steps);
      && (s.caller.Idle? ==> Enabled(s, Run) && Enabled(s, Throw) && Next(s, Run).pending.Unsettled?)
      && (Run in steps && Reject !in steps && (forall r: Resource :: Resolve(r) !in steps) ==>
            Enabled(s, Resolve(resource)) && Enabled(s, Reject))
      && (s.caller.Idle? || s.caller.Waiting? ==> Enabled(s, Interrupt))
      && (s.caller.Waiting? && (Reject in steps || Resolve(resource) in steps) ==>
            Enabled(s, Resume) && !Next(s, Resume).caller.Waiting?)
  {
    var s := After(Initial(callback), steps);
    RunTells(callback, steps, resource);
    if s.pending.Resolved? {
      RunTells(callback, steps, s.pending.resource);
    }
  }

  /** Until then something can happen. */
  lemma QuietOrEnabled(callback: bool, steps: seq<Step>)
    requires Possible(Initial(callback), steps)
    ensures var s := After(Initial(callback), steps);
      Quiet(s) || exists step :: Enabled(s, step)
  {
    InvHoldsOnRuns(Initial(callback), steps);
    var s := After(Initial(callback), steps);
    if !Quiet(s) {
      if s.caller.Idle? || s.caller.Waiting? {
        assert Enabled(s, Interrupt);
      } else if s.pending.Unsettled? {
        assert Enabled(s, Reject);
      } else {
        assert Enabled(s, React);
      }
    }
  }

  /** Without a callback an interrupted start drops what its promise resolves to. */
  lemma DroppedWithoutCallback(resource: Resource)
    returns (steps: seq<Step>)
    ensures Possible(Initial(false), steps)
    ensures var s := After(Initial(false), steps);
      Quiet(s) && Produced(s) == [resource] && Delivered(s) == []
  {
    steps := [Run, Interrupt, Resolve(resource)];
    var s1 := Next(Initial(false), Run);
    var s2 := Next(s1, Interrupt);
    var s3 := Next(s2, Resolve(resource));
    assert Possible(s3, []) && After(s3, []) == s3;
    assert [Resolve(resource)][1..] == [];
    assert Possible(s2, [Resolve(resource)]) && After(s2, [Resolve(resource)]) == s3;
    assert steps[1..][1..] == [Resolve(resource)];
    assert Possible(s1, steps[1..]) && After(s1, steps[1..]) == s3;
  }

  function StepsLeft(s: State): nat
  {
    (match s.caller case Idle => 4 case Waiting => 2 case _ => 0)
    + (if s.pending.Unsettled? then 1 else 0) + if s.watching then 1 else 0
  }

  lemma {:induction false} StepsRunOut(s: State, steps: seq<Step>)
    requires Inv(s) && Possible(s, steps)
    ensures |steps| + StepsLeft(After(s, steps)) <= StepsLeft(s)
    decreases |steps|
  {
    if steps != [] {
      InvStep(s, steps[0]);
      StepsRunOut(Next(s, steps[0]), steps[1..]);
    }
  }

  /** Every run ends after boundedly many steps, and one that cannot go on has delivered the resource, unless the
      caller was interrupted and there is no callback. */
  lemma EverythingIsDelivered(callback: bool, steps: seq<Step>)
    requires Possible(Initial(callback), steps)
    ensures |steps| <= StepsLeft(Initial(callback))
    ensures var s := After(Initial(callback), steps);
      (forall step :: !Enabled(s, step)) ==>
        Quiet(s) && (Delivered(s) == Produced(s) <==> Produced(s) == [] || s.caller.Returned? || callback)
  {
    StepsRunOut(Initial(callback), steps);
    QuietOrEnabled(callback, steps);
    DeliveredExactlyOnce(callback, steps);
  }
}
