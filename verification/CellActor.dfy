/** The graph cell actor of packages/core/src/graph/cell/cellActor.ts, as a transition system.

    A step is what runs between two suspension points.  Submitted operations wait for one permit;
    completion, `close`, awaiter interruption, a closed cell and the worker's own finalizer race
    for the reply latch `settled`.  Any enabled step may come next, so the lemmas over runs hold
    for every interleaving. */
module CellActor {
  import opened Prelude

  /** Who took the latch of a submission. */
  datatype Claimant =
    | Completion  // the operation's own result
    | Refusal     // the worker found the cell closed
    | Finalizer   // the worker left with the latch still free
    | Closer      // a caller of close
    | Awaiter     // the interrupted awaiter of a single-owner task

  /** An `interruptOnce` past its latch: the operation's interrupt handler completes the reply,
      then `onComplete` runs. */
  datatype Claim = Claim(who: Claimant, replied: bool)

  datatype Worker =
    | Queued      // waiting for the permit
    | Body        // holds the permit, operation running
    | Refusing    // holds the permit, refusing because the cell is closed
    | Leaving     // permit given back, finalizer still to run
    | Finalizing  // finalizer settling the reply
    | Exited

  datatype Submission = Submission(
    worker: Worker,
    settled: bool,             // the latch
    fiberKnown: bool,          // submission.fiber has been assigned
    signalled: bool,           // Fiber.interrupt was sent to the worker
    interruptible: bool,
    listed: bool,              // still in the actor's submission set
    claims: seq<Claim>,        // interruptOnce calls in progress
    writes: seq<Claimant>,     // history: who completed the reply
    notices: seq<Claimant>,    // history: who ran onComplete
    cut: Option<Claim>,        // history: a claim whose claimant was itself interrupted midway
    starts: nat)               // history: how often the body started

  datatype Permit = Free | HeldBy(worker: nat) | Exclusive | Cleanup

  datatype State = State(
    closed: bool,
    scopeClosed: bool,
    permit: Permit,
    subs: seq<Submission>,
    visits: multiset<nat>)     // submissions some close call still has to visit

  const INITIAL := State(false, false, Free, [], multiset{})

  datatype Step =
    | Submit(interruptible: bool)
    | AssignFiber(i: nat)
    | TakePermit(i: nat)
    | BodyEnds(i: nat)
    | Reply(i: nat, claim: nat)
    | Notify(i: nat, claim: nat)
    | LandInterrupt(i: nat)
    | Finalize(i: nat)
    | Close
    | VisitClosed(i: nat)
    | InterruptAwaiter(i: nat)
    | CutClaim(i: nat, claim: nat)
    | BeginExclusive
    | EndExclusive
    | BeginCleanup
    | EndCleanup
    | CloseScope

  // ---------------------------------------------------------------- steps

  /** The submission a step works on. */
  function Target(step: Step): Option<nat>
  {
    match step
    case Submit(_) => None
    case Close => None
    case BeginExclusive => None
    case EndExclusive => None
    case BeginCleanup => None
    case EndCleanup => None
    case CloseScope => None
    case _ => Some(step.i)
  }

  /** `claimReply` at the head of `interruptOnce`: only the first caller goes on. */
  function InterruptOnce(sub: Submission, who: Claimant): Submission
  {
    if sub.settled then sub
    else sub.(settled := true, claims := sub.claims + [Claim(who, false)])
  }

  /** `settleReply`: latch, reply and notice in one step. */
  function SettleReply(sub: Submission): Submission
  {
    if sub.settled then sub
    else sub.(settled := true, writes := sub.writes + [Completion], notices := sub.notices + [Completion])
  }

  function Without<T>(s: seq<T>, i: nat): seq<T>
    requires i < |s|
  {
    s[..i] + s[i + 1..]
  }

  /** With the permit in hand, the closed check and the start of the body are one step. */
  function Taken(sub: Submission, closed: bool): Submission
  {
    if !closed then sub.(worker := Body, starts := sub.starts + 1)
    else if sub.settled then sub.(worker := Leaving)
    else InterruptOnce(sub, Refusal).(worker := Refusing)
  }

  function Finalized(sub: Submission): Submission
  {
    if sub.settled then sub.(worker := Exited, listed := false)
    else InterruptOnce(sub, Finalizer).(worker := Finalizing)
  }

  function Answered(sub: Submission, c: nat): Submission
    requires c < |sub.claims|
  {
    sub.(claims := sub.claims[c := sub.claims[c].(replied := true)], writes := sub.writes + [sub.claims[c].who])
  }

  /** After `onComplete`, an outside claimant interrupts the worker if its fiber is known. */
  function Notified(sub: Submission, c: nat): Submission
    requires c < |sub.claims|
  {
    var who := sub.claims[c].who;
    var done := sub.(claims := Without(sub.claims, c), notices := sub.notices + [who]);
    match who
    case Refusal => done.(worker := Leaving)
    case Finalizer => done.(worker := Exited, listed := false)
    case _ => done.(signalled := sub.signalled || sub.fiberKnown)
  }

  function Cut(sub: Submission, c: nat): Submission
    requires c < |sub.claims|
  {
    sub.(claims := Without(sub.claims, c), cut := Some(sub.claims[c]),
         worker := if sub.claims[c].who.Refusal? then Leaving else sub.worker)
  }

  /** Finalizers and interruption handlers are not interruptible; the caller of close is, and so is
      a worker that is refusing when its scope closes. */
  predicate MayBeCut(who: Claimant, scopeClosed: bool)
  {
    who.Closer? || (who.Refusal? && scopeClosed)
  }

  /** The submission admits the step. */
  predicate Allows(sub: Submission, step: Step, scopeClosed: bool)
  {
    match step
    case AssignFiber(_) => !sub.fiberKnown
    case TakePermit(_) => sub.worker.Queued?
    case BodyEnds(_) => sub.worker.Body?
    case Reply(_, c) => c < |sub.claims| && !sub.claims[c].replied
    case Notify(_, c) => c < |sub.claims| && sub.claims[c].replied
    case LandInterrupt(_) => (sub.signalled || scopeClosed) && (sub.worker.Queued? || sub.worker.Body?)
    case Finalize(_) => sub.worker.Leaving?
    case VisitClosed(_) => true
    case InterruptAwaiter(_) => sub.interruptible
    case CutClaim(_, c) => c < |sub.claims| && MayBeCut(sub.claims[c].who, scopeClosed)
    case _ => false
  }

  /** A claim past its latch goes on, or is interrupted. */
  predicate OfClaim(step: Step) { step.Reply? || step.Notify? || step.CutClaim? }

  function ClaimTouched(sub: Submission, step: Step): Submission
    requires OfClaim(step) && step.claim < |sub.claims|
  {
    if step.Reply? then Answered(sub, step.claim)
    else if step.Notify? then Notified(sub, step.claim)
    else Cut(sub, step.claim)
  }

  function WorkerTouched(sub: Submission, step: Step, closed: bool): Submission
    requires !OfClaim(step)
  {
    match step
    case AssignFiber(_) => sub.(fiberKnown := true)
    case TakePermit(_) => Taken(sub, closed)
    case BodyEnds(_) => SettleReply(sub).(worker := Leaving)
    case LandInterrupt(_) => sub.(worker := Leaving)
    case Finalize(_) => Finalized(sub)
    case VisitClosed(_) => InterruptOnce(sub, Closer)
    case InterruptAwaiter(_) => InterruptOnce(sub, Awaiter)
    case _ => sub
  }

  /** What the step makes of its submission. */
  function Touched(sub: Submission, step: Step, closed: bool, scopeClosed: bool): Submission
    requires Allows(sub, step, scopeClosed)
  {
    if OfClaim(step) then ClaimTouched(sub, step) else WorkerTouched(sub, step, closed)
  }

  predicate Enabled(s: State, step: Step)
  {
    match step
    case Submit(_) => true
    case Close => true
    case BeginExclusive => s.permit.Free?
    case EndExclusive => s.permit.Exclusive?
    case BeginCleanup => s.closed && s.permit.Free?
    case EndCleanup => s.permit.Cleanup?
    case CloseScope => s.closed
    case _ =>
      && step.i < |s.subs| && Allows(s.subs[step.i], step, s.scopeClosed)
      && (step.TakePermit? ==> s.permit.Free?) && (step.VisitClosed? ==> step.i in s.visits)
  }

  function PermitAfter(s: State, step: Step): Permit
    requires Enabled(s, step)
  {
    match step
    case TakePermit(i) => if s.closed && s.subs[i].settled then s.permit else HeldBy(i)
    case BodyEnds(_) => Free
    case Notify(i, c) => if s.subs[i].claims[c].who.Refusal? then Free else s.permit
    case LandInterrupt(i) => if s.permit == HeldBy(i) then Free else s.permit
    case CutClaim(i, c) => if s.subs[i].claims[c].who.Refusal? && s.permit == HeldBy(i) then Free else s.permit
    case BeginExclusive => Exclusive
    case EndExclusive => Free
    case BeginCleanup => Cleanup
    case EndCleanup => Free
    case _ => s.permit
  }

  function NewSubmission(interruptible: bool): Submission
  {
    Submission(Queued, false, false, false, interruptible, true, [], [], [], None, 0)
  }

  function SubsAfter(s: State, step: Step): seq<Submission>
    requires Enabled(s, step)
  {
    if step.Submit? then s.subs + [NewSubmission(step.interruptible)]
    else if Target(step).Some? then s.subs[step.i := Touched(s.subs[step.i], step, s.closed, s.scopeClosed)]
    else s.subs
  }

  function Next(s: State, step: Step): State
    requires Enabled(s, step)
  {
    State(
      s.closed || step.Close?, s.scopeClosed || step.CloseScope?, PermitAfter(s, step), SubsAfter(s, step),
      match step
      case Close => s.visits + multiset(Listed(s))
      case VisitClosed(i) => s.visits - multiset{i}
      case _ => s.visits)
  }

  /** The submissions a close call visits. */
  function Listed(s: State): set<nat>
  {
    set i: nat | i < |s.subs| && s.subs[i].listed
  }

  // ---------------------------------------------------------------- invariant

  /** Where the latch stands: free and nothing done, one claimant at work, settled, or cut. */
  predicate LatchInv(sub: Submission)
  {
    if !sub.settled then sub.claims == [] && sub.writes == [] && sub.notices == [] && sub.cut.None?
    else if sub.claims != [] then
      && |sub.claims| == 1 && sub.notices == [] && sub.cut.None?
      && sub.claims[0].who != Completion
      && sub.writes == (if sub.claims[0].replied then [sub.claims[0].who] else [])
    else if sub.cut.Some? then
      && (sub.cut.value.who.Closer? || sub.cut.value.who.Refusal?) && sub.notices == []
      && sub.writes == (if sub.cut.value.replied then [sub.cut.value.who] else [])
    else |sub.writes| == 1 && sub.notices == sub.writes
  }

  /** Where the worker stands; `holds` says that it has the permit. */
  predicate WorkerInv(sub: Submission, holds: bool)
  {
    && (holds <==> sub.worker.Body? || sub.worker.Refusing?)
    && (sub.worker.Refusing? <==> sub.claims != [] && sub.claims[0].who.Refusal?)
    && (sub.worker.Finalizing? <==> sub.claims != [] && sub.claims[0].who.Finalizer?)
    && (sub.worker.Exited? ==> sub.settled) && (sub.listed <==> !sub.worker.Exited?)
    && (sub.signalled ==> sub.settled)
    && sub.starts <= 1 && (sub.worker.Queued? ==> sub.starts == 0) && (sub.worker.Body? ==> sub.starts == 1)
    && (sub.writes != [] && sub.writes[0].Completion? ==> sub.starts == 1)
  }

  predicate Inv(s: State)
  {
    && (s.permit.HeldBy? ==> s.permit.worker < |s.subs|)
    && (s.permit.Cleanup? ==> s.closed)
    && (s.scopeClosed ==> s.closed)
    && forall i :: 0 <= i < |s.subs| ==> LatchInv(s.subs[i]) && WorkerInv(s.subs[i], s.permit == HeldBy(i))
  }

  lemma PermitIsWorkers(s: State, i: nat)
    requires Inv(s) && i < |s.subs|
    ensures LatchInv(s.subs[i]) && WorkerInv(s.subs[i], s.permit == HeldBy(i))
  {
  }

  /** Whether the worker of the touched submission has the permit afterwards. */
  function HoldsAfter(sub: Submission, step: Step, closed: bool, holds: bool): bool
    requires step.Notify? || step.CutClaim? ==> step.claim < |sub.claims|
  {
    match step
    case TakePermit(_) => !(closed && sub.settled)
    case BodyEnds(_) => false
    case Notify(_, c) => holds && !sub.claims[c].who.Refusal?
    case LandInterrupt(_) => false
    case CutClaim(_, c) => holds && !sub.claims[c].who.Refusal?
    case _ => holds
  }

  lemma PermitFollows(s: State, step: Step, k: nat)
    requires Inv(s) && Enabled(s, step) && k < |s.subs|
    ensures PermitAfter(s, step) == HeldBy(k)
       <==> if Target(step) == Some(k) then HoldsAfter(s.subs[k], step, s.closed, s.permit == HeldBy(k))
            else s.permit == HeldBy(k)
  {
    if Target(step).Some? {
      PermitIsWorkers(s, step.i);
    }
  }

  lemma OneClaim(sub: Submission, c: nat)
    requires LatchInv(sub) && c < |sub.claims|
    ensures c == 0 && |sub.claims| == 1 && sub.settled && sub.cut.None? && Without(sub.claims, c) == []
  {
  }

  /** A claim at work keeps latch and worker in order. */
  lemma ClaimStepKeeps(sub: Submission, step: Step, closed: bool, scopeClosed: bool, holds: bool)
    requires OfClaim(step)
    requires Allows(sub, step, scopeClosed) && LatchInv(sub) && WorkerInv(sub, holds)
    ensures LatchInv(ClaimTouched(sub, step))
    ensures WorkerInv(ClaimTouched(sub, step), HoldsAfter(sub, step, closed, holds))
  {
    OneClaim(sub, step.claim);
  }

  /** `interruptOnce` by anyone but the operation's own result takes a free latch and nothing else. */
  lemma InterruptKeeps(sub: Submission, who: Claimant)
    requires LatchInv(sub) && who != Completion
    ensures LatchInv(InterruptOnce(sub, who))
    ensures sub.settled ==> InterruptOnce(sub, who) == sub
    ensures !sub.settled ==> InterruptOnce(sub, who) == sub.(settled := true, claims := [Claim(who, false)])
  {
    if !sub.settled {
      assert sub.claims + [Claim(who, false)] == [Claim(who, false)];
    }
  }

  /** Moving only the worker, or noting a start, is no matter of the latch. */
  lemma SameLatch(sub: Submission, after: Submission)
    requires LatchInv(sub) && after.settled == sub.settled && after.claims == sub.claims && after.writes == sub.writes
    requires after.notices == sub.notices && after.cut == sub.cut
    ensures LatchInv(after)
  {
  }

  lemma TakenKeeps(sub: Submission, closed: bool)
    requires LatchInv(sub) && WorkerInv(sub, false) && sub.worker.Queued?
    ensures LatchInv(Taken(sub, closed)) && WorkerInv(Taken(sub, closed), !(closed && sub.settled))
  {
    if closed && !sub.settled {
      RefusalKeeps(sub);
    } else {
      SameLatch(sub, Taken(sub, closed));
    }
  }

  lemma RefusalKeeps(sub: Submission)
    requires LatchInv(sub) && WorkerInv(sub, false) && sub.worker.Queued? && !sub.settled
    ensures LatchInv(Taken(sub, true)) && WorkerInv(Taken(sub, true), true)
  {
    InterruptKeeps(sub, Refusal);
    SameLatch(InterruptOnce(sub, Refusal), Taken(sub, true));
  }

  lemma EndedKeeps(sub: Submission)
    requires LatchInv(sub) && WorkerInv(sub, true) && sub.worker.Body?
    ensures LatchInv(SettleReply(sub).(worker := Leaving)) && WorkerInv(SettleReply(sub).(worker := Leaving), false)
  {
    if !sub.settled {
      assert SettleReply(sub).writes == [Completion] == SettleReply(sub).notices;
    }
    SameLatch(SettleReply(sub), SettleReply(sub).(worker := Leaving));
  }

  lemma FinalizedKeeps(sub: Submission)
    requires LatchInv(sub) && WorkerInv(sub, false) && sub.worker.Leaving?
    ensures LatchInv(Finalized(sub)) && WorkerInv(Finalized(sub), false)
  {
    InterruptKeeps(sub, Finalizer);
    SameLatch(InterruptOnce(sub, Finalizer), Finalized(sub));
  }

  lemma OutsiderKeeps(sub: Submission, who: Claimant, holds: bool)
    requires LatchInv(sub) && WorkerInv(sub, holds) && (who.Closer? || who.Awaiter?)
    ensures LatchInv(InterruptOnce(sub, who)) && WorkerInv(InterruptOnce(sub, who), holds)
  {
    InterruptKeeps(sub, who);
  }

  lemma LandedKeeps(sub: Submission, holds: bool)
    requires LatchInv(sub) && WorkerInv(sub, holds) && (sub.worker.Queued? || sub.worker.Body?)
    ensures LatchInv(sub.(worker := Leaving)) && WorkerInv(sub.(worker := Leaving), false)
  {
    SameLatch(sub, sub.(worker := Leaving));
  }

  lemma WorkerStepKeeps(sub: Submission, step: Step, closed: bool, holds: bool)
    requires !OfClaim(step) && Allows(sub, step, true) && LatchInv(sub) && WorkerInv(sub, holds)
    ensures LatchInv(WorkerTouched(sub, step, closed))
    ensures WorkerInv(WorkerTouched(sub, step, closed), HoldsAfter(sub, step, closed, holds))
  {
    match step
    case VisitClosed(_) => OutsiderKeeps(sub, Closer, holds);
    case InterruptAwaiter(_) => OutsiderKeeps(sub, Awaiter, holds);
    case AssignFiber(_) => SameLatch(sub, sub.(fiberKnown := true));
    case _ => OwnStepKeeps(sub, step, closed, holds);
  }

  /** The worker's own steps. */
  lemma OwnStepKeeps(sub: Submission, step: Step, closed: bool, holds: bool)
    requires step.TakePermit? || step.BodyEnds? || step.Finalize? || step.LandInterrupt?
    requires Allows(sub, step, true) && LatchInv(sub) && WorkerInv(sub, holds)
    ensures LatchInv(WorkerTouched(sub, step, closed))
    ensures WorkerInv(WorkerTouched(sub, step, closed), HoldsAfter(sub, step, closed, holds))
  {
    match step
    case TakePermit(_) => TakenKeeps(sub, closed);
    case BodyEnds(_) => EndedKeeps(sub);
    case Finalize(_) => FinalizedKeeps(sub);
    case LandInterrupt(_) => LandedKeeps(sub, holds);
  }

  /** Every step keeps the invariant. */
  lemma InvStep(s: State, step: Step)
    requires Inv(s) && Enabled(s, step)
    ensures Inv(Next(s, step))
  {
    var t := Next(s, step);
    forall k | 0 <= k < |t.subs| ensures LatchInv(t.subs[k]) && WorkerInv(t.subs[k], t.permit == HeldBy(k)) {
      if k < |s.subs| {
        SubInvStep(s, step, k);
      } else {
        assert s.permit != HeldBy(k);
      }
    }
  }

  lemma SubInvStep(s: State, step: Step, k: nat)
    requires Inv(s) && Enabled(s, step) && k < |s.subs|
    ensures var t := Next(s, step);
      k < |t.subs| && LatchInv(t.subs[k]) && WorkerInv(t.subs[k], t.permit == HeldBy(k))
  {
    if Target(step) == Some(k) {
      TargetInvStep(s, step, k);
    } else {
      PermitIsWorkers(s, k);
      PermitFollows(s, step, k);
      OthersUntouched(s, step, k);
    }
  }

  lemma TargetInvStep(s: State, step: Step, k: nat)
    requires Inv(s) && Enabled(s, step) && k < |s.subs| && Target(step) == Some(k)
    ensures var t := Next(s, step);
      k < |t.subs| && LatchInv(t.subs[k]) && WorkerInv(t.subs[k], t.permit == HeldBy(k))
  {
    PermitIsWorkers(s, k);
    PermitFollows(s, step, k);
    TouchedKeeps(s.subs[k], step, s.closed, s.scopeClosed, s.permit == HeldBy(k));
    assert Next(s, step).subs[k] == Touched(s.subs[k], step, s.closed, s.scopeClosed);
  }

  lemma OthersUntouched(s: State, step: Step, i: nat)
    requires Enabled(s, step) && i < |s.subs| && Target(step) != Some(i)
    ensures i < |Next(s, step).subs| && Next(s, step).subs[i] == s.subs[i]
  {
  }

  lemma TouchedKeeps(sub: Submission, step: Step, closed: bool, scopeClosed: bool, holds: bool)
    requires Allows(sub, step, scopeClosed) && LatchInv(sub) && WorkerInv(sub, holds)
    ensures LatchInv(Touched(sub, step, closed, scopeClosed))
    ensures WorkerInv(Touched(sub, step, closed, scopeClosed), HoldsAfter(sub, step, closed, holds))
  {
    if OfClaim(step) {
      ClaimStepKeeps(sub, step, closed, scopeClosed, holds);
    } else {
      WorkerStepKeeps(sub, step, closed, holds);
    }
  }

  // ---------------------------------------------------------------- runs

  /** `steps` can be taken one after the other from `s`. */
  predicate Runs(s: State, steps: seq<Step>)
    decreases |steps|
  {
    steps == [] || (Enabled(s, steps[0]) && Runs(Next(s, steps[0]), steps[1..]))
  }

  function After(s: State, steps: seq<Step>): State
    requires Runs(s, steps)
    decreases |steps|
  {
    if steps == [] then s else After(Next(s, steps[0]), steps[1..])
  }

  lemma {:induction false} InvHoldsOnRuns(s: State, steps: seq<Step>)
    requires Inv(s) && Runs(s, steps)
    ensures Inv(After(s, steps))
    decreases |steps|
  {
    if steps != [] {
      InvStep(s, steps[0]);
      InvHoldsOnRuns(Next(s, steps[0]), steps[1..]);
    }
  }

  /** What the history of a submission says, whatever the interleaving: at most one reply and one
      notice, by the same claimant, the notice after the reply; a worker that exited left the latch
      taken; and once nobody is at work on the reply, it was completed exactly once if and only if no
      claimant was interrupted before completing it, and noticed exactly once if and only if none was
      interrupted at all.  Only a caller of close or a refusing worker can be. */
  lemma RepliedExactlyOnce(steps: seq<Step>, i: nat)
    requires Runs(INITIAL, steps) && i < |After(INITIAL, steps).subs|
    ensures var sub := After(INITIAL, steps).subs[i];
      && |sub.writes| <= 1 && sub.notices <= sub.writes
      && (sub.worker.Exited? ==> sub.settled)
      && (sub.settled && sub.claims == [] ==> (|sub.writes| == 1 <==> sub.cut.None? || sub.cut.value.replied))
      && (sub.settled && sub.claims == [] ==> (|sub.notices| == 1 <==> sub.cut.None?))
      && (sub.cut.Some? ==>
            (sub.cut.value.who.Closer? || sub.cut.value.who.Refusal?) && sub.writes <= [sub.cut.value.who])
  {
    InvHoldsOnRuns(INITIAL, steps);
    PermitIsWorkers(After(INITIAL, steps), i);
  }

  /** The claimant of a settled submission. */
  function Owner(sub: Submission): Claimant
    requires sub.settled && LatchInv(sub)
  {
    if sub.claims != [] then sub.claims[0].who
    else if sub.cut.Some? then sub.cut.value.who
    else sub.writes[0]
  }

  /** The latch never changes hands, so a body that ends after an interrupt took it cannot
      overwrite the reply. */
  lemma {:induction false} LatchNeverChangesHands(s: State, steps: seq<Step>, i: nat)
    requires Inv(s) && Runs(s, steps) && i < |s.subs| && s.subs[i].settled
    ensures Inv(After(s, steps)) && i < |After(s, steps).subs| && After(s, steps).subs[i].settled
    ensures Owner(After(s, steps).subs[i]) == Owner(s.subs[i])
    ensures After(s, steps).subs[i].writes <= [Owner(s.subs[i])]
    ensures s.subs[i].writes <= After(s, steps).subs[i].writes
    decreases |steps|
  {
    PermitIsWorkers(s, i);
    if steps != [] {
      InvStep(s, steps[0]);
      OwnerStays(s, steps[0], i);
      LatchNeverChangesHands(Next(s, steps[0]), steps[1..], i);
    }
  }

  predicate OwnerKept(sub: Submission, after: Submission)
  {
    && sub.settled && after.settled && LatchInv(sub) && LatchInv(after)
    && Owner(after) == Owner(sub) && sub.writes <= after.writes
  }

  lemma OwnerStays(s: State, step: Step, i: nat)
    requires Inv(s) && Enabled(s, step) && i < |s.subs| && s.subs[i].settled
    ensures i < |Next(s, step).subs| && OwnerKept(s.subs[i], Next(s, step).subs[i])
  {
    PermitIsWorkers(s, i);
    if Target(step) != Some(i) {
      OthersUntouched(s, step, i);
    } else {
      OwnTouch(s.subs[i], step, s.closed, s.scopeClosed, s.permit == HeldBy(i));
    }
  }

  /** What a step leaves of the owner of the settled submission it works on. */
  lemma OwnTouch(sub: Submission, step: Step, closed: bool, scopeClosed: bool, holds: bool)
    requires Allows(sub, step, scopeClosed) && sub.settled && LatchInv(sub) && WorkerInv(sub, holds)
    ensures OwnerKept(sub, Touched(sub, step, closed, scopeClosed))
  {
    if OfClaim(step) {
      ClaimStepKeeps(sub, step, closed, scopeClosed, holds);
      OwnTouchOfClaim(sub, step, closed, scopeClosed);
    } else {
      WorkerStepKeeps(sub, step, closed, holds);
      LatchUntouched(sub, step, closed, scopeClosed);
    }
  }

  lemma OwnTouchOfClaim(sub: Submission, step: Step, closed: bool, scopeClosed: bool)
    requires OfClaim(step)
    requires Allows(sub, step, scopeClosed) && sub.settled && LatchInv(sub)
    requires LatchInv(ClaimTouched(sub, step))
    ensures OwnerKept(sub, ClaimTouched(sub, step))
  {
    OneClaim(sub, step.claim);
    var after := ClaimTouched(sub, step);
    if step.Reply? {
      assert after.claims == [Claim(sub.claims[0].who, true)];
    } else {
      assert after.claims == [] && after.writes == sub.writes;
    }
  }

  /** A worker, a visit of close and an awaiter leave a taken latch as it is. */
  lemma LatchUntouched(sub: Submission, step: Step, closed: bool, scopeClosed: bool)
    requires !OfClaim(step) && Allows(sub, step, scopeClosed) && sub.settled
    ensures var after := WorkerTouched(sub, step, closed);
      after.settled && after.claims == sub.claims && after.cut == sub.cut && after.writes == sub.writes
  {
  }

  /** At most one submitted body holds the cell, never together with an exclusive effect or cleanup. */
  lemma OneHolder(steps: seq<Step>, i: nat, j: nat)
    requires Runs(INITIAL, steps)
    requires i < |After(INITIAL, steps).subs| && j < |After(INITIAL, steps).subs|
    requires After(INITIAL, steps).subs[i].worker.Body?
    ensures After(INITIAL, steps).subs[j].worker.Body? || After(INITIAL, steps).subs[j].worker.Refusing? ==> i == j
    ensures !After(INITIAL, steps).permit.Exclusive? && !After(INITIAL, steps).permit.Cleanup?
    ensures After(INITIAL, steps).subs[i].starts == 1
  {
    InvHoldsOnRuns(INITIAL, steps);
    PermitIsWorkers(After(INITIAL, steps), i);
    PermitIsWorkers(After(INITIAL, steps), j);
  }

  /** Once the cell is closed it stays closed, no body starts, and one that ended never runs again. */
  lemma {:induction false} NoBodyStartsOnceClosed(s: State, steps: seq<Step>, i: nat)
    requires Inv(s) && Runs(s, steps) && s.closed && i < |After(s, steps).subs|
    ensures After(s, steps).closed
    ensures After(s, steps).subs[i].starts == if i < |s.subs| then s.subs[i].starts else 0
    ensures After(s, steps).subs[i].worker.Body? ==> i < |s.subs| && s.subs[i].worker.Body?
    decreases |steps|
  {
    if steps != [] {
      InvStep(s, steps[0]);
      StaysClosed(s, steps[0]);
      var t := Next(s, steps[0]);
      NoBodyStartsOnceClosed(t, steps[1..], i);
      if i < |t.subs| {
        ClosedStep(s, steps[0], i);
      }
    }
  }

  lemma ClosedStep(s: State, step: Step, i: nat)
    requires Enabled(s, step) && s.closed && i < |Next(s, step).subs|
    ensures Next(s, step).closed
    ensures Next(s, step).subs[i].starts == if i < |s.subs| then s.subs[i].starts else 0
    ensures Next(s, step).subs[i].worker.Body? ==> i < |s.subs| && s.subs[i].worker.Body?
  {
    if i < |s.subs| {
      if Target(step) != Some(i) {
        OthersUntouched(s, step, i);
      } else {
        ClosedTouch(s.subs[i], step, s.scopeClosed);
      }
    }
  }

  lemma ClosedTouch(sub: Submission, step: Step, scopeClosed: bool)
    requires Allows(sub, step, scopeClosed)
    ensures var after := Touched(sub, step, true, scopeClosed);
      after.starts == sub.starts && (after.worker.Body? ==> sub.worker.Body?)
  {
    match step
    case TakePermit(_) | Finalize(_) | VisitClosed(_) | InterruptAwaiter(_) | BodyEnds(_) =>
    case Reply(_, _) | Notify(_, _) | CutClaim(_, _) =>
    case AssignFiber(_) | LandInterrupt(_) =>
  }

  lemma StaysClosed(s: State, step: Step)
    requires Enabled(s, step) && s.closed
    ensures Next(s, step).closed && |s.subs| <= |Next(s, step).subs|
  {
  }

  /** From the moment a shutdown's cleanup holds the cell no body is active, then or ever after. */
  lemma CleanupRunsAlone(before: seq<Step>, steps: seq<Step>, i: nat)
    requires Runs(INITIAL, before) && After(INITIAL, before).permit.Cleanup?
    requires Runs(After(INITIAL, before), steps) && i < |After(After(INITIAL, before), steps).subs|
    ensures !After(After(INITIAL, before), steps).subs[i].worker.Body?
  {
    var s := After(INITIAL, before);
    InvHoldsOnRuns(INITIAL, before);
    NoBodyStartsOnceClosed(s, steps, i);
    if i < |s.subs| {
      PermitIsWorkers(s, i);
    }
  }

  /** The first claim on submission `i` whose claimant the run interrupts. */
  function CutIn(s: State, steps: seq<Step>, i: nat): Option<Claim>
    requires Runs(s, steps)
    decreases |steps|
  {
    if steps == [] then None
    else if steps[0].CutClaim? && steps[0].i == i then Some(s.subs[i].claims[steps[0].claim])
    else CutIn(Next(s, steps[0]), steps[1..], i)
  }

  lemma CutStays(s: State, step: Step, i: nat)
    requires Inv(s) && Enabled(s, step) && i < |Next(s, step).subs|
    ensures Next(s, step).subs[i].cut
         == if i >= |s.subs| then None
            else if s.subs[i].cut.Some? then s.subs[i].cut
            else if step.CutClaim? && step.i == i then Some(s.subs[i].claims[step.claim])
            else None
  {
    if i < |s.subs| {
      PermitIsWorkers(s, i);
      if Target(step) != Some(i) {
        OthersUntouched(s, step, i);
      } else {
        CutOfTouched(s.subs[i], step, s.closed, s.scopeClosed);
      }
    }
  }

  lemma WorkerKeepsCut(sub: Submission, step: Step, closed: bool)
    requires !OfClaim(step)
    ensures WorkerTouched(sub, step, closed).cut == sub.cut
  {
  }

  lemma CutOfTouched(sub: Submission, step: Step, closed: bool, scopeClosed: bool)
    requires Allows(sub, step, scopeClosed) && LatchInv(sub)
    ensures step.CutClaim? ==> sub.cut.None?
    ensures Touched(sub, step, closed, scopeClosed).cut
         == if step.CutClaim? then Some(sub.claims[step.claim]) else sub.cut
  {
    if OfClaim(step) {
      OneClaim(sub, step.claim);
    } else {
      WorkerKeepsCut(sub, step, closed);
    }
  }

  lemma {:induction false} CutIsRecorded(s: State, steps: seq<Step>, i: nat)
    requires Inv(s) && Runs(s, steps) && i < |After(s, steps).subs|
    ensures After(s, steps).subs[i].cut
         == if i < |s.subs| && s.subs[i].cut.Some? then s.subs[i].cut else CutIn(s, steps, i)
    decreases |steps|
  {
    if steps != [] {
      var t := Next(s, steps[0]);
      InvStep(s, steps[0]);
      CutIsRecorded(t, steps[1..], i);
      if i < |t.subs| {
        CutStays(s, steps[0], i);
      }
    }
  }

  /** Whether a run loses a reply is told by its interruptions alone: of a submission whose worker exited and
      whose claimant is through, the reply was completed unless the run interrupts the claimant of that very
      submission before it replied, and the notice went out unless it interrupts it at all. */
  lemma NothingCutNothingLost(steps: seq<Step>, i: nat)
    requires Runs(INITIAL, steps) && i < |After(INITIAL, steps).subs|
    requires After(INITIAL, steps).subs[i].worker.Exited? && After(INITIAL, steps).subs[i].claims == []
    ensures var sub := After(INITIAL, steps).subs[i];
      var cut := CutIn(INITIAL, steps, i);
      && (|sub.writes| == 1 <==> cut.None? || cut.value.replied)
      && (|sub.notices| == 1 <==> cut.None?)
      && |sub.writes| <= 1 && sub.notices <= sub.writes
  {
    InvHoldsOnRuns(INITIAL, steps);
    CutIsRecorded(INITIAL, steps, i);
    PermitIsWorkers(After(INITIAL, steps), i);
  }

  lemma Prepended(s: State, step: Step, rest: seq<Step>)
    requires Enabled(s, step) && Runs(Next(s, step), rest)
    ensures Runs(s, [step] + rest) && After(s, [step] + rest) == After(Next(s, step), rest)
  {
    assert ([step] + rest)[1..] == rest;
  }

  predicate LostReply(s: State)
  {
    && |s.subs| == 1 && s.subs[0].worker.Exited? && s.subs[0].claims == []
    && s.subs[0].writes == [] && s.subs[0].notices == []
  }

  /** While the body of a submission runs, a caller of close takes its latch and is interrupted before it
      completes the reply: nobody answers, although the worker goes on to its end. */
  lemma CutCloserLosesTheReply() returns (steps: seq<Step>)
    ensures Runs(INITIAL, steps) && LostReply(After(INITIAL, steps))
  {
    var running := NewSubmission(false).(worker := Body, starts := 1);
    var s1 := Next(INITIAL, Submit(false));
    assert s1.subs == [NewSubmission(false)];
    var s2 := Next(s1, TakePermit(0));
    assert s2 == State(false, false, HeldBy(0), [running], multiset{});
    steps := LostWhileRunning(s2, running);
    Prepended(s1, TakePermit(0), steps);
    steps := [TakePermit(0)] + steps;
    Prepended(INITIAL, Submit(false), steps);
    steps := [Submit(false)] + steps;
  }

  lemma LostWhileRunning(s: State, running: Submission) returns (steps: seq<Step>)
    requires s == State(false, false, HeldBy(0), [running], multiset{})
    requires running == NewSubmission(false).(worker := Body, starts := 1)
    ensures Runs(s, steps) && LostReply(After(s, steps))
  {
    var t := Next(s, Close);
    assert Listed(s) == {0};
    assert t == State(true, false, HeldBy(0), [running], multiset{0});
    steps := LostWhenVisited(t, running);
    Prepended(s, Close, steps);
    steps := [Close] + steps;
  }

  lemma LostWhenVisited(s: State, running: Submission) returns (steps: seq<Step>)
    requires s == State(true, false, HeldBy(0), [running], multiset{0})
    requires running == NewSubmission(false).(worker := Body, starts := 1)
    ensures Runs(s, steps) && LostReply(After(s, steps))
  {
    var t := Next(s, VisitClosed(0));
    var claimed := running.(settled := true, claims := [Claim(Closer, false)]);
    InterruptKeeps(running, Closer);
    assert t.subs == [claimed] && multiset{0} - multiset{0} == multiset{};
    steps := LostAfterClaim(t, claimed);
    Prepended(s, VisitClosed(0), steps);
    steps := [VisitClosed(0)] + steps;
  }

  lemma LostAfterClaim(s: State, claimed: Submission) returns (steps: seq<Step>)
    requires s == State(true, false, HeldBy(0), [claimed], multiset{})
    requires claimed.worker.Body? && claimed.settled && claimed.claims == [Claim(Closer, false)]
    requires claimed.writes == [] && claimed.notices == []
    ensures Runs(s, steps) && LostReply(After(s, steps))
  {
    var t := Next(s, CutClaim(0, 0));
    var cut := Cut(claimed, 0);
    assert Without(claimed.claims, 0) == [];
    assert t == State(true, false, HeldBy(0), [cut], multiset{});
    LostFrom(t, cut);
    Prepended(s, CutClaim(0, 0), [BodyEnds(0), Finalize(0)]);
    steps := [CutClaim(0, 0)] + [BodyEnds(0), Finalize(0)];
  }

  lemma LostFrom(s: State, cut: Submission)
    requires s == State(true, false, HeldBy(0), [cut], multiset{})
    requires cut.worker.Body? && cut.settled && cut.claims == [] && cut.writes == [] && cut.notices == []
    ensures Runs(s, [BodyEnds(0), Finalize(0)])
    ensures LostReply(After(s, [BodyEnds(0), Finalize(0)]))
  {
    var t := Next(s, BodyEnds(0));
    assert t.subs == [cut.(worker := Leaving)];
    var u := Next(t, Finalize(0));
    assert u.subs == [cut.(worker := Exited, listed := false)];
    assert Runs(u, []) && After(u, []) == u;
    Prepended(t, Finalize(0), []);
    Prepended(s, BodyEnds(0), [Finalize(0)]);
    assert [Finalize(0)] + [] == [Finalize(0)];
    assert [BodyEnds(0)] + [Finalize(0)] == [BodyEnds(0), Finalize(0)];
  }

  /** A step that some fiber of the cell is bound to take, as opposed to an outside call. */
  predicate Internal(step: Step)
  {
    step.TakePermit? || step.BodyEnds? || step.Reply? || step.Notify? || step.Finalize?
    || step.EndExclusive? || step.EndCleanup?
  }

  /** As long as a worker has not exited the cell is not stuck. */
  lemma NeverStuck(s: State, i: nat) returns (step: Step)
    requires Inv(s) && i < |s.subs| && !s.subs[i].worker.Exited?
    ensures Internal(step) && Enabled(s, step)
  {
    PermitIsWorkers(s, i);
    match s.subs[i].worker
    case Queued =>
      match s.permit {
        case Free => step := TakePermit(i);
        case HeldBy(k) => step := HolderMoves(s, k);
        case Exclusive => step := EndExclusive;
        case Cleanup => step := EndCleanup;
      }
    case Body | Refusing => step := HolderMoves(s, i);
    case Leaving => step := Finalize(i);
    case Finalizing => step := if s.subs[i].claims[0].replied then Notify(i, 0) else Reply(i, 0);
    case Exited => assert false;
  }

  lemma HolderMoves(s: State, k: nat) returns (step: Step)
    requires Inv(s) && k < |s.subs| && s.permit == HeldBy(k)
    ensures Internal(step) && Enabled(s, step)
  {
    PermitIsWorkers(s, k);
    if s.subs[k].worker.Body? {
      step := BodyEnds(k);
    } else {
      step := if s.subs[k].claims[0].replied then Notify(k, 0) else Reply(k, 0);
    }
  }

  // ---------------------------------------------------------------- what a run makes of each submission

  /** Some close call still has to visit the submission, or its latch is taken. */
  predicate ReachedByClose(s: State, i: nat) { i < |s.subs| && (s.subs[i].settled || i in s.visits) }

  lemma {:induction false} ReachStays(s: State, steps: seq<Step>, i: nat)
    requires Inv(s) && Runs(s, steps) && ReachedByClose(s, i)
    ensures ReachedByClose(After(s, steps), i)
    decreases |steps|
  {
    if steps != [] {
      InvStep(s, steps[0]);
      if s.subs[i].settled {
        OwnerStays(s, steps[0], i);
      } else if Target(steps[0]) != Some(i) {
        OthersUntouched(s, steps[0], i);
      } else {
        PermitIsWorkers(s, i);
      }
      ReachStays(Next(s, steps[0]), steps[1..], i);
    }
  }

  /** A close reaches every submission whose worker has not exited, queued or running: whatever happens next, once no
      visit is left to make its latch is taken, and until then its own visit can be made. */
  lemma CloseReachesAll(before: seq<Step>, after: seq<Step>, i: nat)
    requires Runs(INITIAL, before) && i < |After(INITIAL, before).subs|
    requires !After(INITIAL, before).subs[i].worker.Exited?
    requires Runs(Next(After(INITIAL, before), Close), after)
    ensures var s := After(Next(After(INITIAL, before), Close), after);
      && i < |s.subs| && (s.visits == multiset{} ==> s.subs[i].settled)
      && (!s.subs[i].settled ==> Enabled(s, VisitClosed(i)) && Next(s, VisitClosed(i)).subs[i].settled)
  {
    var s := After(INITIAL, before);
    InvHoldsOnRuns(INITIAL, before);
    PermitIsWorkers(s, i);
    assert i in Listed(s);
    InvStep(s, Close);
    ReachStays(Next(s, Close), after, i);
    InvHoldsOnRuns(Next(s, Close), after);
    ReachedIsVisited(After(Next(s, Close), after), i);
  }

  lemma ReachedIsVisited(s: State, i: nat)
    requires Inv(s) && ReachedByClose(s, i)
    ensures s.visits == multiset{} ==> s.subs[i].settled
    ensures !s.subs[i].settled ==> Enabled(s, VisitClosed(i)) && Next(s, VisitClosed(i)).subs[i].settled
  {
  }

  /** The step takes the free latch of submission `i` for `who`. */
  predicate Takes(s: State, step: Step, i: nat, who: Claimant)
  {
    && i < |s.subs| && !s.subs[i].settled
    && match who
       case Completion => step == BodyEnds(i)
       case Refusal => step == TakePermit(i) && s.closed
       case Finalizer => step == Finalize(i)
       case Closer => step == VisitClosed(i)
       case Awaiter => step == InterruptAwaiter(i)
  }

  predicate TakenIn(s: State, steps: seq<Step>, i: nat, who: Claimant)
    requires Runs(s, steps)
    decreases |steps|
  {
    steps != [] && (Takes(s, steps[0], i, who) || TakenIn(Next(s, steps[0]), steps[1..], i, who))
  }

  predicate OwnedBy(sub: Submission, who: Claimant)
  {
    sub.settled && LatchInv(sub) && Owner(sub) == who
  }

  lemma OwnerStep(s: State, step: Step, i: nat, who: Claimant)
    requires Inv(s) && Enabled(s, step) && i < |Next(s, step).subs|
    ensures OwnedBy(Next(s, step).subs[i], who) <==> (i < |s.subs| && OwnedBy(s.subs[i], who)) || Takes(s, step, i, who)
  {
    if i < |s.subs| {
      PermitIsWorkers(s, i);
      if s.subs[i].settled {
        OwnerStays(s, step, i);
      } else if Target(step) != Some(i) {
        OthersUntouched(s, step, i);
      } else {
        OwnerOfFree(s.subs[i], step, s.closed, s.scopeClosed, who);
        TakesItsTarget(s, step, who);
      }
    }
  }

  lemma TakesItsTarget(s: State, step: Step, who: Claimant)
    requires Enabled(s, step) && Target(step).Some? && !s.subs[step.i].settled
    ensures Takes(s, step, step.i, who) <==> TakesFree(step, s.closed, who)
  {
  }

  lemma OwnerOfFree(sub: Submission, step: Step, closed: bool, scopeClosed: bool, who: Claimant)
    requires Allows(sub, step, scopeClosed) && LatchInv(sub) && !sub.settled
    ensures OwnedBy(Touched(sub, step, closed, scopeClosed), who) <==> TakesFree(step, closed, who)
  {
    if OfClaim(step) {
      assert sub.claims == [];
    } else {
      match step
      case BodyEnds(_) => FreeLatchCompleted(sub, who);
      case TakePermit(_) => if closed { FreeLatchTaken(sub, Refusal, Refusing, who); }
      case Finalize(_) => FreeLatchTaken(sub, Finalizer, Finalizing, who);
      case VisitClosed(_) => FreeLatchTaken(sub, Closer, sub.worker, who);
      case InterruptAwaiter(_) => FreeLatchTaken(sub, Awaiter, sub.worker, who);
      case AssignFiber(_) | LandInterrupt(_) =>
    }
  }

  /** The step is the one by which `who` takes a free latch. */
  predicate TakesFree(step: Step, closed: bool, who: Claimant)
  {
    match who
    case Completion => step.BodyEnds?
    case Refusal => step.TakePermit? && closed
    case Finalizer => step.Finalize?
    case Closer => step.VisitClosed?
    case Awaiter => step.InterruptAwaiter?
  }

  lemma FreeLatchCompleted(sub: Submission, who: Claimant)
    requires LatchInv(sub) && !sub.settled
    ensures OwnedBy(SettleReply(sub).(worker := Leaving), who) <==> who.Completion?
  {
    assert SettleReply(sub).writes == [Completion] == SettleReply(sub).notices;
  }

  lemma FreeLatchTaken(sub: Submission, taker: Claimant, worker: Worker, who: Claimant)
    requires LatchInv(sub) && !sub.settled && taker != Completion
    ensures OwnedBy(InterruptOnce(sub, taker).(worker := worker), who) <==> who == taker
  {
    InterruptKeeps(sub, taker);
    var after := InterruptOnce(sub, taker).(worker := worker);
    assert after.claims == [Claim(taker, false)];
    SameLatch(InterruptOnce(sub, taker), after);
  }

  lemma {:induction false} OwnerToldFrom(s: State, steps: seq<Step>, i: nat, who: Claimant)
    requires Inv(s) && Runs(s, steps) && i < |After(s, steps).subs|
    ensures OwnedBy(After(s, steps).subs[i], who)
       <==> (i < |s.subs| && OwnedBy(s.subs[i], who)) || TakenIn(s, steps, i, who)
    decreases |steps|
  {
    if steps != [] {
      var t := Next(s, steps[0]);
      InvStep(s, steps[0]);
      OwnerToldFrom(t, steps[1..], i, who);
      if i < |t.subs| {
        OwnerStep(s, steps[0], i, who);
      } else {
        NotTakenYet(s, steps[0], i, who);
      }
    }
  }

  lemma NotTakenYet(s: State, step: Step, i: nat, who: Claimant)
    requires Enabled(s, step) && i >= |Next(s, step).subs|
    ensures i >= |s.subs| && !Takes(s, step, i, who)
  {
  }

  /** Who answers a submission is told by the first to come to its latch: the end of its body, its worker finding the
      cell closed or leaving without an answer, a visit of close, or the interruption of its awaiter. */
  lemma OwnerIff(steps: seq<Step>, i: nat, who: Claimant)
    requires Runs(INITIAL, steps) && i < |After(INITIAL, steps).subs|
    ensures OwnedBy(After(INITIAL, steps).subs[i], who) <==> TakenIn(INITIAL, steps, i, who)
  {
    OwnerToldFrom(INITIAL, steps, i, who);
  }

  /** One who interrupts from outside, a close or an awaiter, is through with submission `i`, whose fiber is known. */
  predicate Signals(s: State, step: Step, i: nat)
  {
    Target(step) == Some(i) && i < |s.subs| && OutsiderThrough(s.subs[i], step)
  }

  predicate OutsiderThrough(sub: Submission, step: Step)
  {
    && step.Notify? && step.claim < |sub.claims| && sub.fiberKnown
    && (sub.claims[step.claim].who.Closer? || sub.claims[step.claim].who.Awaiter?)
  }

  predicate SignalledIn(s: State, steps: seq<Step>, i: nat)
    requires Runs(s, steps)
    decreases |steps|
  {
    steps != [] && (Signals(s, steps[0], i) || SignalledIn(Next(s, steps[0]), steps[1..], i))
  }

  predicate StartedIn(s: State, steps: seq<Step>, i: nat)
    requires Runs(s, steps)
    decreases |steps|
  {
    steps != [] && ((steps[0] == TakePermit(i) && !s.closed) || StartedIn(Next(s, steps[0]), steps[1..], i))
  }

  predicate KnownIn(steps: seq<Step>, i: nat) { AssignFiber(i) in steps }

  lemma SignalStep(s: State, step: Step, i: nat)
    requires Inv(s) && Enabled(s, step) && i < |Next(s, step).subs|
    ensures var sub := Next(s, step).subs[i];
      && (sub.signalled <==> (i < |s.subs| && s.subs[i].signalled) || Signals(s, step, i))
      && (sub.starts > 0 <==> (i < |s.subs| && s.subs[i].starts > 0) || (step == TakePermit(i) && !s.closed))
      && (sub.fiberKnown <==> (i < |s.subs| && s.subs[i].fiberKnown) || step == AssignFiber(i))
  {
    if i < |s.subs| {
      if Target(step) != Some(i) {
        OthersUntouched(s, step, i);
      } else {
        PermitIsWorkers(s, i);
        TouchSignals(s.subs[i], step, s.closed, s.scopeClosed);
      }
    }
  }

  lemma TouchSignals(sub: Submission, step: Step, closed: bool, scopeClosed: bool)
    requires Allows(sub, step, scopeClosed) && LatchInv(sub)
    ensures var after := Touched(sub, step, closed, scopeClosed);
      && (after.signalled <==> sub.signalled || OutsiderThrough(sub, step))
      && after.starts == sub.starts + (if step.TakePermit? && !closed then 1 else 0)
      && (after.fiberKnown <==> sub.fiberKnown || step.AssignFiber?)
  {
    if OfClaim(step) {
      ClaimSignals(sub, step);
    } else {
      WorkerStarts(sub, step, closed);
    }
  }

  lemma ClaimSignals(sub: Submission, step: Step)
    requires OfClaim(step) && LatchInv(sub) && step.claim < |sub.claims|
    ensures var after := ClaimTouched(sub, step);
      && (after.signalled <==> sub.signalled || OutsiderThrough(sub, step))
      && after.starts == sub.starts && after.fiberKnown == sub.fiberKnown
  {
    OneClaim(sub, step.claim);
  }

  lemma WorkerStarts(sub: Submission, step: Step, closed: bool)
    requires !OfClaim(step)
    ensures var after := WorkerTouched(sub, step, closed);
      && after.signalled == sub.signalled
      && after.starts == sub.starts + (if step.TakePermit? && !closed then 1 else 0)
      && (after.fiberKnown <==> sub.fiberKnown || step.AssignFiber?)
  {
    match step
    case TakePermit(_) | Finalize(_) | VisitClosed(_) | InterruptAwaiter(_) | BodyEnds(_) =>
    case AssignFiber(_) | LandInterrupt(_) =>
    case _ =>
  }

  lemma {:induction false} SignalledToldFrom(s: State, steps: seq<Step>, i: nat)
    requires Inv(s) && Runs(s, steps) && i < |After(s, steps).subs|
    ensures After(s, steps).subs[i].signalled <==> (i < |s.subs| && s.subs[i].signalled) || SignalledIn(s, steps, i)
    decreases |steps|
  {
    if steps != [] {
      InvStep(s, steps[0]);
      SignalledToldFrom(Next(s, steps[0]), steps[1..], i);
      if i < |Next(s, steps[0]).subs| {
        SignalStep(s, steps[0], i);
      }
    }
  }

  lemma {:induction false} StartedToldFrom(s: State, steps: seq<Step>, i: nat)
    requires Inv(s) && Runs(s, steps) && i < |After(s, steps).subs|
    ensures After(s, steps).subs[i].starts > 0 <==> (i < |s.subs| && s.subs[i].starts > 0) || StartedIn(s, steps, i)
    decreases |steps|
  {
    if steps != [] {
      InvStep(s, steps[0]);
      StartedToldFrom(Next(s, steps[0]), steps[1..], i);
      if i < |Next(s, steps[0]).subs| {
        SignalStep(s, steps[0], i);
      }
    }
  }

  lemma {:induction false} KnownToldFrom(s: State, steps: seq<Step>, i: nat)
    requires Inv(s) && Runs(s, steps) && i < |After(s, steps).subs|
    ensures After(s, steps).subs[i].fiberKnown <==> (i < |s.subs| && s.subs[i].fiberKnown) || KnownIn(steps, i)
    decreases |steps|
  {
    if steps != [] {
      InvStep(s, steps[0]);
      assert steps == [steps[0]] + steps[1..];
      KnownToldFrom(Next(s, steps[0]), steps[1..], i);
      if i < |Next(s, steps[0]).subs| {
        SignalStep(s, steps[0], i);
      }
    }
  }

  /** Over every run a worker is sent an interrupt exactly when a close or an awaiter that took the latch got through
      after the fiber was known, and a body starts exactly when its worker takes the permit of an open cell. */
  lemma SignalledIff(steps: seq<Step>, i: nat)
    requires Runs(INITIAL, steps) && i < |After(INITIAL, steps).subs|
    ensures After(INITIAL, steps).subs[i].signalled <==> SignalledIn(INITIAL, steps, i)
    ensures After(INITIAL, steps).subs[i].starts > 0 <==> StartedIn(INITIAL, steps, i)
    ensures After(INITIAL, steps).subs[i].fiberKnown <==> KnownIn(steps, i)
  {
    SignalledToldFrom(INITIAL, steps, i);
    StartedToldFrom(INITIAL, steps, i);
    KnownToldFrom(INITIAL, steps, i);
  }

  /** The submissions of a run, told by whether their awaiter may interrupt them. */
  function Submitted(steps: seq<Step>): seq<bool>
  {
    if steps == [] then [] else (if steps[0].Submit? then [steps[0].interruptible] else []) + Submitted(steps[1..])
  }

  function Interruptibles(s: State): seq<bool>
  {
    seq(|s.subs|, i requires 0 <= i < |s.subs| => s.subs[i].interruptible)
  }

  lemma InterruptiblesStep(s: State, step: Step)
    requires Enabled(s, step)
    ensures Interruptibles(Next(s, step)) == Interruptibles(s) + (if step.Submit? then [step.interruptible] else [])
  {
    var t := Next(s, step);
    if Target(step).Some? {
      InterruptibleKept(s.subs[step.i], step, s.closed, s.scopeClosed);
    }
    assert |t.subs| == |s.subs| + if step.Submit? then 1 else 0;
    forall i | 0 <= i < |s.subs| ensures t.subs[i].interruptible == s.subs[i].interruptible {
      if Target(step) != Some(i) {
        OthersUntouched(s, step, i);
      }
    }
  }

  lemma InterruptibleKept(sub: Submission, step: Step, closed: bool, scopeClosed: bool)
    requires Allows(sub, step, scopeClosed)
    ensures Touched(sub, step, closed, scopeClosed).interruptible == sub.interruptible
  {
    match step
    case TakePermit(_) | Finalize(_) | VisitClosed(_) | InterruptAwaiter(_) | BodyEnds(_) =>
    case Reply(_, _) | Notify(_, _) | CutClaim(_, _) =>
    case AssignFiber(_) | LandInterrupt(_) =>
  }

  lemma {:induction false} EverySubmissionIsKept(s: State, steps: seq<Step>)
    requires Runs(s, steps)
    ensures Interruptibles(After(s, steps)) == Interruptibles(s) + Submitted(steps)
    decreases |steps|
  {
    if steps == [] {
      assert Interruptibles(s) + [] == Interruptibles(s);
    } else {
      InterruptiblesStep(s, steps[0]);
      EverySubmissionIsKept(Next(s, steps[0]), steps[1..]);
      RegroupFlags(Interruptibles(s), if steps[0].Submit? then [steps[0].interruptible] else [], Submitted(steps[1..]));
    }
  }

  lemma RegroupFlags(a: seq<bool>, b: seq<bool>, c: seq<bool>)
    ensures (a + b) + c == a + (b + c)
  {
  }

  /** In every reachable cell the moves of a submission are open: its awaiter can interrupt it exactly if it was
      submitted so, and its latch is taken then; a queued worker waits for the permit only, a body can end, and a
      worker that was sent an interrupt before its body ended can leave. */
  lemma EveryMoveIsOpen(steps: seq<Step>, i: nat)
    requires Runs(INITIAL, steps) && i < |After(INITIAL, steps).subs|
    ensures var s := After(INITIAL, steps);
      && i < |Submitted(steps)| && (Enabled(s, InterruptAwaiter(i)) <==> Submitted(steps)[i])
      && (Submitted(steps)[i] ==> Next(s, InterruptAwaiter(i)).subs[i].settled)
      && (s.subs[i].worker.Queued? ==> (Enabled(s, TakePermit(i)) <==> s.permit.Free?))
      && (s.subs[i].worker.Body? ==> Enabled(s, BodyEnds(i)))
      && (SignalledIn(INITIAL, steps, i) && (s.subs[i].worker.Queued? || s.subs[i].worker.Body?) ==>
            Enabled(s, LandInterrupt(i)))
  {
    EverySubmissionIsKept(INITIAL, steps);
    SignalledIff(steps, i);
    var s := After(INITIAL, steps);
    assert Interruptibles(INITIAL) == [];
    assert [] + Submitted(steps) == Submitted(steps);
    assert Interruptibles(s)[i] == s.subs[i].interruptible;
    MovesOfWorker(s, i);
  }

  lemma MovesOfWorker(s: State, i: nat)
    requires i < |s.subs|
    ensures Enabled(s, InterruptAwaiter(i)) <==> s.subs[i].interruptible
    ensures s.subs[i].interruptible ==> Next(s, InterruptAwaiter(i)).subs[i].settled
    ensures s.subs[i].worker.Queued? ==> (Enabled(s, TakePermit(i)) <==> s.permit.Free?)
    ensures s.subs[i].worker.Body? ==> Enabled(s, BodyEnds(i))
    ensures s.subs[i].signalled && (s.subs[i].worker.Queued? || s.subs[i].worker.Body?) ==> Enabled(s, LandInterrupt(i))
  {
  }

  lemma {:induction false} ClosingToldFrom(s: State, steps: seq<Step>)
    requires Runs(s, steps)
    ensures After(s, steps).closed <==> s.closed || Close in steps
    ensures After(s, steps).scopeClosed <==> s.scopeClosed || CloseScope in steps
    decreases |steps|
  {
    if steps != [] {
      assert steps == [steps[0]] + steps[1..];
      ClosingToldFrom(Next(s, steps[0]), steps[1..]);
    }
  }

  /** Nor is anybody else shut out: whoever waits for the permit can take it once it is free, the cleanup and the end
      of the scope only once the cell was closed; a fiber becomes known once; a claim goes on, and that of a close, or
      of a refusing worker whose scope ended, can be cut. */
  lemma EveryTurnIsOpen(steps: seq<Step>, i: nat)
    requires Runs(INITIAL, steps) && i < |After(INITIAL, steps).subs|
    ensures var s := After(INITIAL, steps);
      && (Enabled(s, BeginExclusive) <==> s.permit.Free?)
      && (Enabled(s, BeginCleanup) <==> s.permit.Free? && Close in steps)
      && (Enabled(s, CloseScope) <==> Close in steps)
      && (Enabled(s, AssignFiber(i)) <==> AssignFiber(i) !in steps)
      && (CloseScope in steps && (s.subs[i].worker.Queued? || s.subs[i].worker.Body?) ==> Enabled(s, LandInterrupt(i)))
    ensures var s := After(INITIAL, steps);
      s.subs[i].claims != [] ==>
        && Enabled(s, if s.subs[i].claims[0].replied then Notify(i, 0) else Reply(i, 0))
        && (Enabled(s, CutClaim(i, 0)) <==>
              s.subs[i].claims[0].who.Closer? || (s.subs[i].claims[0].who.Refusal? && CloseScope in steps))
  {
    ClosingToldFrom(INITIAL, steps);
    SignalledIff(steps, i);
    TurnsOpen(After(INITIAL, steps), i);
  }

  lemma TurnsOpen(s: State, i: nat)
    requires i < |s.subs|
    ensures Enabled(s, BeginCleanup) <==> s.permit.Free? && s.closed
    ensures Enabled(s, CloseScope) <==> s.closed
    ensures Enabled(s, AssignFiber(i)) <==> !s.subs[i].fiberKnown
    ensures s.scopeClosed && (s.subs[i].worker.Queued? || s.subs[i].worker.Body?) ==> Enabled(s, LandInterrupt(i))
    ensures s.subs[i].claims != [] ==>
      && Enabled(s, if s.subs[i].claims[0].replied then Notify(i, 0) else Reply(i, 0))
      && (Enabled(s, CutClaim(i, 0)) <==>
            s.subs[i].claims[0].who.Closer? || (s.subs[i].claims[0].who.Refusal? && s.scopeClosed))
  {
  }

  /** A worker exits by way of its finalizer only. */
  lemma {:induction false} ExitsByFinalizer(s: State, steps: seq<Step>, i: nat)
    requires Inv(s) && Runs(s, steps) && i < |After(s, steps).subs| && After(s, steps).subs[i].worker.Exited?
    ensures Finalize(i) in steps || (i < |s.subs| && (s.subs[i].worker.Exited? || s.subs[i].worker.Finalizing?))
    decreases |steps|
  {
    if steps != [] {
      assert steps == [steps[0]] + steps[1..];
      InvStep(s, steps[0]);
      ExitsByFinalizer(Next(s, steps[0]), steps[1..], i);
      if i < |s.subs| {
        PermitIsWorkers(s, i);
        if Target(steps[0]) != Some(i) {
          OthersUntouched(s, steps[0], i);
        } else {
          ExitOfTouched(s.subs[i], steps[0], s.closed, s.scopeClosed, s.permit == HeldBy(i));
        }
      }
    }
  }

  lemma ExitOfTouched(sub: Submission, step: Step, closed: bool, scopeClosed: bool, holds: bool)
    requires Allows(sub, step, scopeClosed) && LatchInv(sub) && WorkerInv(sub, holds)
    ensures var after := Touched(sub, step, closed, scopeClosed);
      after.worker.Exited? || after.worker.Finalizing? ==>
        step.Finalize? || sub.worker.Exited? || sub.worker.Finalizing?
  {
    if OfClaim(step) {
      OneClaim(sub, step.claim);
    }
  }

  // ---------------------------------------------------------------- settling

  /** A call from outside the fibers at work, as opposed to what they still have to do. */
  predicate FromOutside(step: Step)
  {
    step.Submit? || step.Close? || step.BeginExclusive? || step.BeginCleanup? || step.CloseScope?
    || step.InterruptAwaiter?
  }

  function WorkerLeft(worker: Worker): nat
  {
    match worker
    case Queued => 5
    case Body => 3
    case Refusing => 3
    case Leaving => 2
    case Finalizing => 1
    case Exited => 0
  }

  function ClaimsLeft(claims: seq<Claim>): nat
  {
    if claims == [] then 0 else (if claims[0].replied then 1 else 2) + ClaimsLeft(claims[1..])
  }

  /** What is at most left to do for a submission; a free latch stands for a claim still to come. */
  function SubLeft(sub: Submission): nat
  {
    WorkerLeft(sub.worker) + ClaimsLeft(sub.claims) + (if sub.settled then 0 else 3) + (if sub.fiberKnown then 0 else 1)
  }

  function SubsLeft(subs: seq<Submission>): nat
  {
    if subs == [] then 0 else SubLeft(subs[0]) + SubsLeft(subs[1..])
  }

  function PermitLeft(permit: Permit): nat { if permit.Exclusive? || permit.Cleanup? then 1 else 0 }

  function StepsLeft(s: State): nat
  {
    SubsLeft(s.subs) + |s.visits| + PermitLeft(s.permit)
  }

  lemma {:induction false} SubsLeftUpdate(subs: seq<Submission>, i: nat, sub: Submission)
    requires i < |subs|
    ensures SubsLeft(subs[i := sub]) == SubsLeft(subs) - SubLeft(subs[i]) + SubLeft(sub)
  {
    if i == 0 {
      assert subs[0 := sub][1..] == subs[1..];
    } else {
      assert subs[i := sub][1..] == subs[1..][i - 1 := sub];
      SubsLeftUpdate(subs[1..], i - 1, sub);
    }
  }

  lemma OneClaimLeft(claims: seq<Claim>)
    requires |claims| == 1
    ensures ClaimsLeft(claims) == if claims[0].replied then 1 else 2
  {
    assert claims[1..] == [];
  }

  /** Every step of a fiber at work leaves its submission less to do, a visit of close at least no more. */
  lemma SubLeftShrinks(sub: Submission, step: Step, closed: bool, scopeClosed: bool, holds: bool)
    requires Allows(sub, step, scopeClosed) && LatchInv(sub) && WorkerInv(sub, holds) && !FromOutside(step)
    ensures SubLeft(Touched(sub, step, closed, scopeClosed)) <= SubLeft(sub)
    ensures !step.VisitClosed? ==> SubLeft(Touched(sub, step, closed, scopeClosed)) < SubLeft(sub)
  {
    if OfClaim(step) {
      ClaimStepShrinks(sub, step, closed, scopeClosed, holds);
    } else {
      WorkerStepShrinks(sub, step, closed, scopeClosed);
    }
  }

  lemma ClaimStepShrinks(sub: Submission, step: Step, closed: bool, scopeClosed: bool, holds: bool)
    requires Allows(sub, step, scopeClosed) && LatchInv(sub) && WorkerInv(sub, holds)
    requires OfClaim(step)
    ensures SubLeft(ClaimTouched(sub, step)) < SubLeft(sub)
  {
    OneClaim(sub, step.claim);
    OneClaimLeft(sub.claims);
    if step.Reply? {
      OneClaimLeft(Answered(sub, step.claim).claims);
    }
  }

  lemma WorkerStepShrinks(sub: Submission, step: Step, closed: bool, scopeClosed: bool)
    requires Allows(sub, step, scopeClosed) && LatchInv(sub) && !FromOutside(step)
    requires !OfClaim(step)
    ensures SubLeft(WorkerTouched(sub, step, closed)) <= SubLeft(sub)
    ensures !step.VisitClosed? ==> SubLeft(WorkerTouched(sub, step, closed)) < SubLeft(sub)
  {
    if !sub.settled {
      TakenLeft(sub, Refusal);
      TakenLeft(sub, Finalizer);
      TakenLeft(sub, Closer);
    }
  }

  lemma TakenLeft(sub: Submission, who: Claimant)
    requires !sub.settled && sub.claims == []
    ensures ClaimsLeft(InterruptOnce(sub, who).claims) == 2
  {
    OneClaimLeft([Claim(who, false)]);
    assert sub.claims + [Claim(who, false)] == [Claim(who, false)];
  }

  /** Every step but a call from outside leaves less to do. */
  lemma StepsLeftShrink(s: State, step: Step)
    requires Inv(s) && Enabled(s, step) && !FromOutside(step)
    ensures StepsLeft(Next(s, step)) < StepsLeft(s)
  {
    if Target(step).Some? {
      var sub := s.subs[step.i];
      PermitIsWorkers(s, step.i);
      SubLeftShrinks(sub, step, s.closed, s.scopeClosed, s.permit == HeldBy(step.i));
      SubsLeftUpdate(s.subs, step.i, Touched(sub, step, s.closed, s.scopeClosed));
      PermitLeftStays(s, step);
      if step.VisitClosed? {
        assert |s.visits - multiset{step.i}| == |s.visits| - 1;
      }
    }
  }

  lemma PermitLeftStays(s: State, step: Step)
    requires Enabled(s, step) && Target(step).Some?
    ensures PermitLeft(PermitAfter(s, step)) <= PermitLeft(s.permit)
  {
  }

  /** Once the calls from outside stop, every run of the fibers at work ends after boundedly many steps, and it
      can only end with every worker exited. */
  lemma {:induction false} EverythingSettles(s: State, steps: seq<Step>)
    requires Inv(s) && Runs(s, steps) && forall k :: 0 <= k < |steps| ==> !FromOutside(steps[k])
    ensures |steps| + StepsLeft(After(s, steps)) <= StepsLeft(s)
    ensures (forall step :: FromOutside(step) || !Enabled(After(s, steps), step)) ==>
      forall i :: 0 <= i < |After(s, steps).subs| ==> After(s, steps).subs[i].worker.Exited?
    decreases |steps|
  {
    if steps == [] {
      forall i | 0 <= i < |s.subs| && !s.subs[i].worker.Exited?
        ensures exists step :: !FromOutside(step) && Enabled(s, step)
      {
        var step := NeverStuck(s, i);
        assert !FromOutside(step) && Enabled(s, step);
      }
    } else {
      InvStep(s, steps[0]);
      StepsLeftShrink(s, steps[0]);
      assert forall k :: 0 <= k < |steps[1..]| ==> steps[1..][k] == steps[k + 1];
      EverythingSettles(Next(s, steps[0]), steps[1..]);
    }
  }
}
