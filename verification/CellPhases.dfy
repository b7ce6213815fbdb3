/** The phases of a graph cell: packages/core/src/graph/cell/cellPhase.ts, the transition helpers of
    packages/core/src/graph/cell/cellTransitions.ts, and the runs they make up. */
module CellPhases {
  import opened Prelude

  type Args(==,!new)
  type Cause(==,!new)
  type Validity(==,!new)
  type Lease(==,!new)
  type Outcome(==,!new)   // dependencies, result and load time of one driver result
  type Disposer = nat
  type RegistryId = nat   // a disposer registry, by identity

  datatype CellBase = CellBase(
    args: Args, liveLeases: seq<Lease>, resultValidity: Option<Validity>, liveFailure: Option<Cause>)

  datatype LiveResource = Inactive | Active(generation: nat)

  datatype ReadyData = ReadyData(
    node: nat, args: Args, liveLeases: seq<Lease>, outcome: Outcome, resultValidity: Validity,
    disposers: RegistryId, liveResource: LiveResource, liveFailure: Option<Cause>
  )

  datatype Phase =
    | Idle(base: CellBase, cleanupFailure: Option<Cause>)
    | Acquiring(base: CellBase, attemptId: nat)
    | ReadinessError(base: CellBase, error: Cause)
    | Ready(ready: ReadyData, operationFailure: Option<Cause>)
    | Operating(ready: ReadyData, operationId: nat)
    | Releasing(base: CellBase, cleanupFailure: Option<Cause>)
    | Invalid(error: Cause, lastBase: Option<CellBase>)
    | Evicted

  datatype NodeState = NodeState(nextOperationId: nat, nextAttemptId: nat, phase: Phase)

  // ---------------------------------------------------------------- lookups and maps

  function BaseOfReady(ready: ReadyData): CellBase
  {
    CellBase(ready.args, ready.liveLeases, Some(ready.resultValidity), ready.liveFailure)
  }

  function PhaseBase(phase: Phase): Option<CellBase>
  {
    match phase
    case Ready(ready, _) => Some(BaseOfReady(ready))
    case Operating(ready, _) => Some(BaseOfReady(ready))
    case Invalid(_, lastBase) => lastBase
    case Evicted => None
    case _ => Some(phase.base)
  }

  function PhaseReady(phase: Phase): Option<ReadyData>
  {
    if phase.Ready? || phase.Operating? then Some(phase.ready) else None
  }

  function Leases(phase: Phase): seq<Lease>
  {
    var base := PhaseBase(phase);
    if base.Some? then base.value.liveLeases else []
  }

  function MapReadyBase(ready: ReadyData, f: CellBase -> CellBase): ReadyData
  {
    var next := f(BaseOfReady(ready));
    ready.(args := next.args, liveLeases := next.liveLeases, liveFailure := next.liveFailure,
           resultValidity := if next.resultValidity.Some? then next.resultValidity.value else ready.resultValidity)
  }

  function MapPhaseBase(phase: Phase, f: CellBase -> CellBase): Phase
  {
    match phase
    case Idle(base, failure) => Idle(f(base), failure)
    case Acquiring(base, attemptId) => Acquiring(f(base), attemptId)
    case ReadinessError(base, error) => ReadinessError(f(base), error)
    case Ready(ready, failure) => Ready(MapReadyBase(ready, f), failure)
    case Operating(ready, operationId) => Operating(MapReadyBase(ready, f), operationId)
    case Releasing(base, failure) => Releasing(f(base), failure)
    case Invalid(error, lastBase) => Invalid(error, if lastBase.Some? then Some(f(lastBase.value)) else None)
    case Evicted => Evicted
  }

  function MapPhaseReady(phase: Phase, f: ReadyData -> ReadyData): Phase
  {
    match phase
    case Ready(ready, failure) => Ready(f(ready), failure)
    case Operating(ready, operationId) => Operating(f(ready), operationId)
    case _ => phase
  }

  /** Mapping the base maps what the lookup finds; only a ready cell does not let go of its validity. */
  lemma MappedBase(phase: Phase, f: CellBase -> CellBase)
    ensures var before, after := PhaseBase(phase), PhaseBase(MapPhaseBase(phase, f));
      && after.Some? == before.Some?
      && (before.Some? ==>
            && after.value.args == f(before.value).args && after.value.liveLeases == f(before.value).liveLeases
            && after.value.liveFailure == f(before.value).liveFailure
            && after.value.resultValidity
               == (if PhaseReady(phase).Some? && f(before.value).resultValidity.None? then before.value.resultValidity
                   else f(before.value).resultValidity))
  {
  }

  // ---------------------------------------------------------------- the transition helpers

  function BeginReadinessAttemptState(latest: NodeState, attemptId: nat, base: CellBase): NodeState
  {
    latest.(nextAttemptId := attemptId, phase := Acquiring(base, attemptId))
  }

  function FailReadinessAttemptState(latest: NodeState, cause: Cause, validity: Option<Validity>): NodeState
  {
    if latest.phase.Acquiring? then
      var base := latest.phase.base;
      latest.(phase := ReadinessError(if validity.Some? then base.(resultValidity := validity) else base, cause))
    else latest
  }

  datatype Completion = Committed(state: NodeState) | Stale(state: NodeState)

  datatype Acquired = Acquired(node: nat, args: Args, outcome: Outcome, resultValidity: Validity, disposers: RegistryId)

  function CompleteAcquireState(latest: NodeState, attemptId: nat, acquired: Acquired): Completion
  {
    if !latest.phase.Acquiring? || latest.phase.attemptId != attemptId then Stale(latest)
    else Committed(latest.(phase := Ready(
      ReadyData(acquired.node, acquired.args, Leases(latest.phase), acquired.outcome, acquired.resultValidity,
                acquired.disposers, Inactive, None), None)))
  }

  function BeginNodeOperationState(latest: NodeState, operationId: nat): NodeState
  {
    latest.(nextOperationId := operationId + 1,
            phase := if latest.phase.Ready? then Operating(latest.phase.ready, operationId) else latest.phase)
  }

  predicate IsCurrentOperation(latest: NodeState, operationId: nat)
  {
    latest.phase.Operating? && latest.phase.operationId == operationId
  }

  function CompleteNodeOperationState(latest: NodeState, operationId: nat): NodeState
  {
    latest.(phase := if IsCurrentOperation(latest, operationId) then Ready(latest.phase.ready, None) else latest.phase)
  }

  function FailNodeOperationState(latest: NodeState, operationId: nat, failure: Cause): NodeState
  {
    latest.(phase := if IsCurrentOperation(latest, operationId) then Ready(latest.phase.ready, Some(failure))
                     else latest.phase)
  }

  function CommitReadyOperationState(latest: NodeState, outcome: Outcome, validity: Validity): NodeState
  {
    latest.(phase :=
      MapPhaseReady(latest.phase, (ready: ReadyData) => ready.(outcome := outcome, resultValidity := validity)))
  }

  function CompleteReleaseState(latest: NodeState, cleanupFailures: seq<Cause>): NodeState
  {
    var base := PhaseBase(latest.phase);
    latest.(phase := if base.None? then latest.phase
                     else Idle(base.value, if cleanupFailures == [] then None else Some(cleanupFailures[0])))
  }

  function MarkInvalidState(latest: NodeState, failure: Cause): NodeState
  {
    latest.(phase := Invalid(failure, PhaseBase(latest.phase)))
  }

  // ---------------------------------------------------------------- runs

  datatype Step =
    | BeginAttempt(base: CellBase)
    | FailAttempt(attemptId: nat, cause: Cause, validity: Option<Validity>)
    | EvictReadiness(cause: Cause)  // a readiness submission is interrupted
    | LeaveBody                     // the operation that ran the latest attempt gives the permit back
    | CompleteAcquire(attemptId: nat, acquired: Acquired)
    | BeginOperation
    | CompleteOperation(operationId: nat)
    | FailOperation(operationId: nat, failure: Cause)
    | CommitOperation(outcome: Outcome, resultValidity: Validity, disposers: seq<Disposer>)
    | AppendDisposers(disposers: seq<Disposer>)
    | Release(cleanupFailures: seq<Cause>)
    | MarkInvalid(failure: Cause)
    | SetLeases(leases: seq<Lease>)
    | SetArgs(args: Args)
    | SetLiveFailure(liveFailure: Option<Cause>)

  datatype Commit = Commit(attemptId: nat, node: nat, disposers: RegistryId)
  datatype Appended = Appended(registry: RegistryId, disposers: seq<Disposer>)
  datatype AttemptEvent = Begun(attemptId: nat) | Left(attemptId: nat)

  /** A cell with what happened to it: the acquires that committed, the operations that ended, what was appended
      to which disposer registry, and when attempts began and stopped being current. */
  datatype Cell = Cell(state: NodeState, commits: seq<Commit>, ended: seq<nat>, appends: seq<Appended>,
                       attempts: seq<AttemptEvent>)

  function Initial(base: CellBase): Cell { Cell(NodeState(1, 0, Idle(base, None)), [], [], [], []) }

  function Append(c: Cell, disposers: seq<Disposer>): Cell
  {
    var ready := PhaseReady(c.state.phase);
    if ready.Some? then c.(appends := c.appends + [Appended(ready.value.disposers, disposers)]) else c
  }

  function End(c: Cell, operationId: nat): Cell
  {
    if IsCurrentOperation(c.state, operationId) then c.(ended := c.ended + [operationId]) else c
  }

  predicate IsCurrentAttempt(s: NodeState, attemptId: nat)
  {
    s.phase.Acquiring? && s.phase.attemptId == attemptId
  }

  /** Any helper may be called at any time, a completion or failure with any id; only the ids of beginnings come
      from the counters. */
  function Next(c: Cell, step: Step): Cell
  {
    var d := Apply(c, step);
    d.(attempts := c.attempts + Changes(c.state, d.state))
  }

  /** Which attempts stop and start being current. */
  function Changes(s: NodeState, t: NodeState): seq<AttemptEvent>
  {
    (if s.phase.Acquiring? && !IsCurrentAttempt(t, s.phase.attemptId) then [Left(s.phase.attemptId)] else [])
    + if t.phase.Acquiring? && !IsCurrentAttempt(s, t.phase.attemptId) then [Begun(t.phase.attemptId)] else []
  }

  function Apply(c: Cell, step: Step): Cell
  {
    var s := c.state;
    match step
    case BeginAttempt(base) => c.(state := BeginReadinessAttemptState(s, s.nextAttemptId + 1, base))
    case FailAttempt(_, cause, validity) => c.(state := FailReadinessAttemptState(s, cause, validity))
    case EvictReadiness(cause) => c.(state := FailReadinessAttemptState(s, cause, None))
    case LeaveBody => c
    case CompleteAcquire(attemptId, acquired) =>
      (match CompleteAcquireState(s, attemptId, acquired)
       case Committed(state) =>
         c.(state := state, commits := c.commits + [Commit(attemptId, acquired.node, acquired.disposers)])
       case Stale(state) => c.(state := state))
    case BeginOperation => c.(state := BeginNodeOperationState(s, s.nextOperationId))
    case CompleteOperation(operationId) => End(c, operationId).(state := CompleteNodeOperationState(s, operationId))
    case FailOperation(operationId, failure) =>
      End(c, operationId).(state := FailNodeOperationState(s, operationId, failure))
    case CommitOperation(outcome, validity, disposers) =>
      Append(c, disposers).(state := CommitReadyOperationState(s, outcome, validity))
    case AppendDisposers(disposers) => Append(c, disposers)
    case Release(cleanupFailures) => c.(state := CompleteReleaseState(s, cleanupFailures))
    case MarkInvalid(failure) => c.(state := MarkInvalidState(s, failure))
    case SetLeases(leases) =>
      c.(state := s.(phase := MapPhaseBase(s.phase, (b: CellBase) => b.(liveLeases := leases))))
    case SetArgs(args) => c.(state := s.(phase := MapPhaseBase(s.phase, (b: CellBase) => b.(args := args))))
    case SetLiveFailure(failure) =>
      c.(state := s.(phase := MapPhaseBase(s.phase, (b: CellBase) => b.(liveFailure := failure))))
  }

  function After(c: Cell, steps: seq<Step>): Cell
    decreases |steps|
  {
    if steps == [] then c else After(Next(c, steps[0]), steps[1..])
  }

  // ---------------------------------------------------------------- ids

  predicate CommitsAscend(commits: seq<Commit>, bound: int)
  {
    && (forall i, j :: 0 <= i < j < |commits| ==> commits[i].attemptId < commits[j].attemptId)
    && (forall i :: 0 <= i < |commits| ==> commits[i].attemptId <= bound)
  }

  predicate EndsAscend(ended: seq<nat>, bound: int)
  {
    && (forall i, j :: 0 <= i < j < |ended| ==> ended[i] < ended[j])
    && (forall i :: 0 <= i < |ended| ==> ended[i] <= bound)
  }

  predicate AttemptsInv(c: Cell)
  {
    if c.state.phase.Acquiring? then
      c.state.phase.attemptId == c.state.nextAttemptId && CommitsAscend(c.commits, c.state.nextAttemptId - 1)
    else CommitsAscend(c.commits, c.state.nextAttemptId)
  }

  predicate OperationsInv(c: Cell)
  {
    if c.state.phase.Operating? then
      c.state.phase.operationId < c.state.nextOperationId && EndsAscend(c.ended, c.state.phase.operationId - 1)
    else EndsAscend(c.ended, c.state.nextOperationId - 1)
  }

  predicate IncarnationInv(c: Cell)
  {
    var ready := PhaseReady(c.state.phase);
    ready.Some? ==>
      && c.commits != []
      && var last := c.commits[|c.commits| - 1];
         ready.value.node == last.node && ready.value.disposers == last.disposers
  }

  predicate Inv(c: Cell) { AttemptsInv(c) && OperationsInv(c) && IncarnationInv(c) }

  lemma InvStep(c: Cell, step: Step)
    requires Inv(c)
    ensures Inv(Next(c, step))
  {
    AttemptsStep(c, step);
    OperationsStep(c, step);
    IncarnationStep(c, step);
  }

  lemma AttemptsStep(c: Cell, step: Step)
    requires AttemptsInv(c)
    ensures AttemptsInv(Next(c, step))
  {
    if step.CompleteAcquire? && CompleteAcquireState(c.state, step.attemptId, step.acquired).Committed? {
      OneMoreCommit(c.commits, Commit(step.attemptId, step.acquired.node, step.acquired.disposers));
    } else {
      assert Next(c, step).commits == c.commits;
    }
  }

  lemma OneMoreCommit(commits: seq<Commit>, commit: Commit)
    requires CommitsAscend(commits, commit.attemptId - 1)
    ensures CommitsAscend(commits + [commit], commit.attemptId)
  {
  }

  lemma OperationsStep(c: Cell, step: Step)
    requires OperationsInv(c)
    ensures OperationsInv(Next(c, step))
  {
    if (step.CompleteOperation? || step.FailOperation?) && IsCurrentOperation(c.state, step.operationId) {
      OneMoreEnd(c.ended, step.operationId);
    } else {
      assert Next(c, step).ended == c.ended;
    }
  }

  lemma OneMoreEnd(ended: seq<nat>, operationId: nat)
    requires EndsAscend(ended, operationId - 1)
    ensures EndsAscend(ended + [operationId], operationId)
  {
  }

  lemma IncarnationStep(c: Cell, step: Step)
    requires IncarnationInv(c)
    ensures IncarnationInv(Next(c, step))
  {
  }

  lemma {:induction false} InvHoldsOnRuns(c: Cell, steps: seq<Step>)
    requires Inv(c)
    ensures Inv(After(c, steps))
    decreases |steps|
  {
    if steps != [] {
      InvStep(c, steps[0]);
      InvHoldsOnRuns(Next(c, steps[0]), steps[1..]);
    }
  }

  function CountIf(steps: seq<Step>, p: Step -> bool): nat
  {
    if steps == [] then 0 else (if p(steps[0]) then 1 else 0) + CountIf(steps[1..], p)
  }

  predicate BeginsAttempt(step: Step) { step.BeginAttempt? }

  predicate BeginsOperation(step: Step) { step.BeginOperation? }

  /** Attempts and operations are numbered one by one as they begin, whatever comes of them. */
  lemma {:induction false} IdsCountBeginnings(c: Cell, steps: seq<Step>)
    ensures After(c, steps).state.nextAttemptId == c.state.nextAttemptId + CountIf(steps, BeginsAttempt)
    ensures After(c, steps).state.nextOperationId == c.state.nextOperationId + CountIf(steps, BeginsOperation)
    decreases |steps|
  {
    if steps != [] {
      IdsCountBeginnings(Next(c, steps[0]), steps[1..]);
    }
  }

  /** Over every run no attempt commits a ready node twice and no operation ends twice, in whatever order and
      however often completions and failures arrive. */
  lemma CommittedAndEndedOnce(base: CellBase, steps: seq<Step>)
    ensures var c := After(Initial(base), steps);
      && (forall i, j :: 0 <= i < j < |c.commits| ==> c.commits[i].attemptId != c.commits[j].attemptId)
      && (forall i, j :: 0 <= i < j < |c.ended| ==> c.ended[i] != c.ended[j])
  {
    InvHoldsOnRuns(Initial(base), steps);
  }

  /** A ready node is always the one of the last committed acquire, so disposers are appended to the registry of
      that incarnation and no other; outside a ready phase they are dropped. */
  lemma DisposersGoToTheIncarnation(base: CellBase, steps: seq<Step>, disposers: seq<Disposer>)
    ensures var c := After(Initial(base), steps);
      AppendsToTheLast(c, Next(c, AppendDisposers(disposers)), disposers)
  {
    InvHoldsOnRuns(Initial(base), steps);
    AppendedToTheLast(After(Initial(base), steps), disposers);
  }

  predicate AppendsToTheLast(c: Cell, next: Cell, disposers: seq<Disposer>)
  {
    if PhaseReady(c.state.phase).Some? then
      c.commits != [] && next.appends == c.appends + [Appended(c.commits[|c.commits| - 1].disposers, disposers)]
    else next == c
  }

  lemma AppendedToTheLast(c: Cell, disposers: seq<Disposer>)
    requires IncarnationInv(c)
    ensures AppendsToTheLast(c, Next(c, AppendDisposers(disposers)), disposers)
  {
  }

  /** A completion or failure changes the cell exactly when its operation or attempt is the current one. */
  lemma StaleChangesNothing(latest: NodeState, id: nat, acquired: Acquired, failure: Cause)
    ensures CompleteNodeOperationState(latest, id) == latest <==> !IsCurrentOperation(latest, id)
    ensures FailNodeOperationState(latest, id, failure) == latest <==> !IsCurrentOperation(latest, id)
    ensures CompleteAcquireState(latest, id, acquired).state == latest
       <==> !(latest.phase.Acquiring? && latest.phase.attemptId == id)
    ensures CompleteAcquireState(latest, id, acquired).Committed?
       <==> latest.phase.Acquiring? && latest.phase.attemptId == id
  {
  }

  /** A step that neither ends operation `id` nor takes the ready data away. */
  predicate LeavesOperation(step: Step, id: nat)
  {
    match step
    case BeginAttempt(_) => false
    case CompleteOperation(other) => other != id
    case FailOperation(other, _) => other != id
    case Release(_) => false
    case MarkInvalid(_) => false
    case _ => true
  }

  /** The ready data the steps make of `ready`, from their requests alone. */
  function ReadyAfter(ready: ReadyData, steps: seq<Step>): ReadyData
    decreases |steps|
  {
    if steps == [] then ready
    else ReadyAfter(match steps[0]
                    case CommitOperation(outcome, validity, _) => ready.(outcome := outcome, resultValidity := validity)
                    case SetLeases(leases) => ready.(liveLeases := leases)
                    case SetArgs(args) => ready.(args := args)
                    case SetLiveFailure(failure) => ready.(liveFailure := failure)
                    case _ => ready, steps[1..])
  }

  lemma {:induction false} OperationLasts(c: Cell, id: nat, steps: seq<Step>)
    requires IsCurrentOperation(c.state, id) && forall i :: 0 <= i < |steps| ==> LeavesOperation(steps[i], id)
    ensures After(c, steps).state.phase == Operating(ReadyAfter(c.state.phase.ready, steps), id)
    ensures After(c, steps).commits == c.commits && After(c, steps).ended == c.ended
    decreases |steps|
  {
    if steps != [] {
      assert LeavesOperation(steps[0], id);
      OneStepOfOperation(c, id, steps[0]);
      assert forall i :: 0 <= i < |steps[1..]| ==> steps[1..][i] == steps[i + 1];
      OperationLasts(Next(c, steps[0]), id, steps[1..]);
    }
  }

  lemma OneStepOfOperation(c: Cell, id: nat, step: Step)
    requires IsCurrentOperation(c.state, id) && LeavesOperation(step, id)
    ensures Next(c, step).state.phase == Operating(ReadyAfter(c.state.phase.ready, [step]), id)
    ensures Next(c, step).commits == c.commits && Next(c, step).ended == c.ended
  {
  }

  /** An operation that begins on a ready cell stays current through any steps that do not end it or take the
      ready data away: late completions of other operations, further beginnings, late acquires and failures,
      commits and updates.  Ending it gives back a ready cell with all that was committed on the way, and its
      own failure or none. */
  lemma OperationRoundTrip(c: Cell, steps: seq<Step>, failure: Cause)
    requires c.state.phase.Ready?
    requires forall i :: 0 <= i < |steps| ==> LeavesOperation(steps[i], c.state.nextOperationId)
    ensures var id := c.state.nextOperationId;
      var after := After(Next(c, BeginOperation), steps);
      var ready := ReadyAfter(c.state.phase.ready, steps);
      && IsCurrentOperation(after.state, id)
      && EndedWith(Next(after, CompleteOperation(id)), ready, None, c.ended + [id], c.commits)
      && EndedWith(Next(after, FailOperation(id, failure)), ready, Some(failure), c.ended + [id], c.commits)
  {
    BeginningIs(c);
    OperationLasts(Next(c, BeginOperation), c.state.nextOperationId, steps);
    EndOfOperation(After(Next(c, BeginOperation), steps), c.state.nextOperationId, failure);
  }

  lemma BeginningIs(c: Cell)
    requires c.state.phase.Ready?
    ensures Next(c, BeginOperation).state.phase == Operating(c.state.phase.ready, c.state.nextOperationId)
    ensures Next(c, BeginOperation).commits == c.commits && Next(c, BeginOperation).ended == c.ended
  {
  }

  lemma EndOfOperation(c: Cell, id: nat, failure: Cause)
    requires IsCurrentOperation(c.state, id)
    ensures var ready, ended := c.state.phase.ready, c.ended + [id];
      && EndedWith(Next(c, CompleteOperation(id)), ready, None, ended, c.commits)
      && EndedWith(Next(c, FailOperation(id, failure)), ready, Some(failure), ended, c.commits)
  {
  }

  /** The cell is ready again, with this data and failure, and this is what happened to it. */
  predicate EndedWith(c: Cell, ready: ReadyData, failure: Option<Cause>, ended: seq<nat>, commits: seq<Commit>)
  {
    c.state.phase == Ready(ready, failure) && c.ended == ended && c.commits == commits
  }

  /** A step that neither ends attempt `id` nor supersedes it. */
  predicate LeavesAttempt(step: Step, id: nat)
  {
    match step
    case BeginAttempt(_) => false
    case FailAttempt(_, _, _) => false
    case EvictReadiness(_) => false
    case CompleteAcquire(other, _) => other != id
    case Release(_) => false
    case MarkInvalid(_) => false
    case _ => true
  }

  /** What the steps make of an attempt's base, from their requests alone. */
  function BaseAfter(base: CellBase, steps: seq<Step>): CellBase
    decreases |steps|
  {
    if steps == [] then base
    else BaseAfter(match steps[0]
                   case SetLeases(leases) => base.(liveLeases := leases)
                   case SetArgs(args) => base.(args := args)
                   case SetLiveFailure(failure) => base.(liveFailure := failure)
                   case _ => base, steps[1..])
  }

  lemma {:induction false} AttemptLasts(c: Cell, id: nat, steps: seq<Step>)
    requires IsCurrentAttempt(c.state, id) && forall i :: 0 <= i < |steps| ==> LeavesAttempt(steps[i], id)
    ensures After(c, steps).state.phase == Acquiring(BaseAfter(c.state.phase.base, steps), id)
    ensures After(c, steps).commits == c.commits
    decreases |steps|
  {
    if steps != [] {
      assert LeavesAttempt(steps[0], id);
      OneStepOfAttempt(c, id, steps[0]);
      assert forall i :: 0 <= i < |steps[1..]| ==> steps[1..][i] == steps[i + 1];
      AttemptLasts(Next(c, steps[0]), id, steps[1..]);
    }
  }

  lemma OneStepOfAttempt(c: Cell, id: nat, step: Step)
    requires IsCurrentAttempt(c.state, id) && LeavesAttempt(step, id)
    ensures Next(c, step).state.phase == Acquiring(BaseAfter(c.state.phase.base, [step]), id)
    ensures Next(c, step).commits == c.commits
  {
  }

  /** An attempt stays current through any steps that do not end it.  Completing it makes the cell ready with what was
      acquired, the leases of the attempt's base as last set and no live resource or failure, and commits it;
      failing it keeps the base, with the validity the failure brings if it brings one. */
  lemma AcquireRoundTrip(c: Cell, base: CellBase, steps: seq<Step>, acquired: Acquired, cause: Cause,
                         validity: Option<Validity>)
    requires forall i :: 0 <= i < |steps| ==> LeavesAttempt(steps[i], c.state.nextAttemptId + 1)
    ensures var id := c.state.nextAttemptId + 1;
      var after := After(Next(c, BeginAttempt(base)), steps);
      var done, failed := Next(after, CompleteAcquire(id, acquired)), Next(after, FailAttempt(id, cause, validity));
      && IsCurrentAttempt(after.state, id) && AcquiredAs(done.state.phase, acquired, BaseAfter(base, steps).liveLeases)
      && done.commits == c.commits + [Commit(id, acquired.node, acquired.disposers)]
      && FailedFrom(failed.state.phase, BaseAfter(base, steps), cause, validity) && failed.commits == c.commits
  {
    AttemptLasts(Next(c, BeginAttempt(base)), c.state.nextAttemptId + 1, steps);
    EndOfAttempt(After(Next(c, BeginAttempt(base)), steps), c.state.nextAttemptId + 1, acquired, cause, validity);
  }

  lemma EndOfAttempt(c: Cell, id: nat, acquired: Acquired, cause: Cause, validity: Option<Validity>)
    requires IsCurrentAttempt(c.state, id)
    ensures var done, failed := Next(c, CompleteAcquire(id, acquired)), Next(c, FailAttempt(id, cause, validity));
      && AcquiredAs(done.state.phase, acquired, c.state.phase.base.liveLeases)
      && done.commits == c.commits + [Commit(id, acquired.node, acquired.disposers)]
      && FailedFrom(failed.state.phase, c.state.phase.base, cause, validity) && failed.commits == c.commits
  {
  }

  /** The cell is ready with what the acquire brought. */
  predicate AcquiredAs(phase: Phase, acquired: Acquired, leases: seq<Lease>)
  {
    && phase.Ready? && phase.operationFailure.None?
    && var ready := phase.ready;
      && ready.node == acquired.node && ready.args == acquired.args && ready.disposers == acquired.disposers
      && ready.outcome == acquired.outcome && ready.resultValidity == acquired.resultValidity
      && ready.liveLeases == leases && ready.liveResource.Inactive? && ready.liveFailure.None?
  }

  /** The attempt failed of `cause`: only the validity of its base may have changed. */
  predicate FailedFrom(phase: Phase, base: CellBase, cause: Cause, validity: Option<Validity>)
  {
    && phase.ReadinessError? && phase.error == cause
    && phase.base.args == base.args && phase.base.liveLeases == base.liveLeases
    && phase.base.liveFailure == base.liveFailure
    && phase.base.resultValidity == if validity.Some? then validity else base.resultValidity
  }

  /** A step that leaves a ready cell ready or operating. */
  predicate KeepsReady(step: Step) { !step.BeginAttempt? && !step.Release? && !step.MarkInvalid? }

  /** From there on the ready data changes by commits of operations and by updates only. */
  lemma {:induction false} ReadyLasts(c: Cell, steps: seq<Step>)
    requires PhaseReady(c.state.phase).Some? && forall i :: 0 <= i < |steps| ==> KeepsReady(steps[i])
    ensures PhaseReady(After(c, steps).state.phase) == Some(ReadyAfter(PhaseReady(c.state.phase).value, steps))
    decreases |steps|
  {
    if steps != [] {
      assert KeepsReady(steps[0]);
      OneStepOfReady(c, steps[0]);
      assert forall i :: 0 <= i < |steps[1..]| ==> steps[1..][i] == steps[i + 1];
      ReadyLasts(Next(c, steps[0]), steps[1..]);
    }
  }

  lemma OneStepOfReady(c: Cell, step: Step)
    requires PhaseReady(c.state.phase).Some? && KeepsReady(step)
    ensures PhaseReady(Next(c, step).state.phase) == Some(ReadyAfter(PhaseReady(c.state.phase).value, [step]))
  {
  }

  /** Wherever a cell with a base has been, through readiness, operations or invalidity, a release brings it back
      to idle with the base it had last and the first cleanup failure; a second release forgets that failure. */
  lemma {:induction false} ReleaseReturnsToIdle(c: Cell, steps: seq<Step>, failure: Cause, cleanupFailures: seq<Cause>)
    requires PhaseBase(c.state.phase).Some?
    ensures var after := After(c, steps);
      var released := Next(after, Release(cleanupFailures));
      && PhaseBase(after.state.phase).Some?
      && released.state.phase == Idle(PhaseBase(after.state.phase).value,
                                      if cleanupFailures == [] then None else Some(cleanupFailures[0]))
      && Next(released, Release([])).state.phase == Idle(PhaseBase(after.state.phase).value, None)
      && Next(Next(after, MarkInvalid(failure)), Release(cleanupFailures)).state == released.state
    decreases |steps|
  {
    if steps != [] {
      LeasesStep(c, steps[0]);
      ReleaseReturnsToIdle(Next(c, steps[0]), steps[1..], failure, cleanupFailures);
    }
  }

  // ---------------------------------------------------------------- failures of attempts

  /** Failing an attempt is not told which attempt failed: it changes the cell exactly while any attempt is
      current, whichever attempt that is. */
  lemma FailureHitsTheCurrentAttempt(latest: NodeState, cause: Cause, validity: Option<Validity>)
    ensures FailReadinessAttemptState(latest, cause, validity) == latest <==> !latest.phase.Acquiring?
  {
  }

  /** An attempt begins only when none is current: a caller that finds one waits for it instead. */
  predicate BeginsWhenFree(c: Cell, steps: seq<Step>)
    decreases |steps|
  {
    steps == [] || (
      && (steps[0].BeginAttempt? ==> !c.state.phase.Acquiring?)
      && BeginsWhenFree(Next(c, steps[0]), steps[1..]))
  }

  /** One attempt after the other, each begun and left. */
  function Alternation(n: nat): (events: seq<AttemptEvent>)
    ensures |events| == 2 * n
  {
    if n == 0 then [] else Alternation(n - 1) + [Begun(n), Left(n)]
  }

  lemma {:induction false} AlternationAt(n: nat, k: nat)
    requires 1 <= k <= n
    ensures Alternation(n)[2 * k - 2] == Begun(k) && Alternation(n)[2 * k - 1] == Left(k)
  {
    if k < n {
      AlternationAt(n - 1, k);
    }
  }

  ghost predicate Alternates(c: Cell)
  {
    var n := c.state.nextAttemptId;
    if c.state.phase.Acquiring? then n > 0 && c.attempts == Alternation(n - 1) + [Begun(n)]
    else c.attempts == Alternation(n)
  }

  lemma AlternatesStep(c: Cell, step: Step)
    requires AttemptsInv(c) && Alternates(c) && (step.BeginAttempt? ==> !c.state.phase.Acquiring?)
    ensures Alternates(Next(c, step))
  {
    if step.BeginAttempt? {
      assert Changes(c.state, Next(c, step).state) == [] + [Begun(c.state.nextAttemptId + 1)];
    } else {
      OnlyBeginningBegins(c, step);
      if c.state.phase.Acquiring? {
        AlternationStep(c.state.nextAttemptId);
      }
      assert c.attempts + [] == c.attempts;
    }
  }

  lemma AlternationStep(n: nat)
    requires n > 0
    ensures Alternation(n - 1) + [Begun(n)] + [Left(n)] == Alternation(n)
  {
  }

  lemma OnlyBeginningBegins(c: Cell, step: Step)
    requires AttemptsInv(c) && !step.BeginAttempt?
    ensures var d := Next(c, step);
      && d.state.nextAttemptId == c.state.nextAttemptId
      && Changes(c.state, d.state)
         == (if c.state.phase.Acquiring? && !d.state.phase.Acquiring? then [Left(c.state.nextAttemptId)] else [])
      && (d.state.phase.Acquiring? ==> c.state.phase.Acquiring?)
      && d.attempts == c.attempts + Changes(c.state, d.state)
  {
  }

  lemma {:induction false} AlternatesOnRuns(c: Cell, steps: seq<Step>)
    requires Inv(c) && Alternates(c) && BeginsWhenFree(c, steps)
    ensures Inv(After(c, steps)) && Alternates(After(c, steps))
    decreases |steps|
  {
    if steps != [] {
      InvStep(c, steps[0]);
      AlternatesStep(c, steps[0]);
      AlternatesOnRuns(Next(c, steps[0]), steps[1..]);
    }
  }

  /** `k` had been left when the attempt that is now the latest began. */
  ghost predicate OverBeforeLatest(c: Cell, k: nat)
  {
    exists i, j :: 0 <= i < j < |c.attempts|
      && c.attempts[i] == Left(k) && c.attempts[j] == Begun(c.state.nextAttemptId)
  }

  /** Over every run, the failure of an attempt `k` that is not the current one changes the cell exactly when
      another attempt is current; and that is so exactly when `k` was over before that one began. */
  lemma LateFailureIff(base: CellBase, steps: seq<Step>, k: nat, cause: Cause, validity: Option<Validity>)
    requires BeginsWhenFree(Initial(base), steps)
    requires 1 <= k <= After(Initial(base), steps).state.nextAttemptId
    ensures var c := After(Initial(base), steps);
      var hitsAnother := Next(c, FailAttempt(k, cause, validity)).state != c.state && !IsCurrentAttempt(c.state, k);
      && (hitsAnother <==> c.state.phase.Acquiring? && c.state.phase.attemptId != k)
      && (hitsAnother <==> c.state.phase.Acquiring? && OverBeforeLatest(c, k))
  {
    AlternatesOnRuns(Initial(base), steps);
    var c := After(Initial(base), steps);
    FailureHitsTheCurrentAttempt(c.state, cause, validity);
    if c.state.phase.Acquiring? {
      OverIffEarlier(c, k);
    }
  }

  lemma OverIffEarlier(c: Cell, k: nat)
    requires Alternates(c) && c.state.phase.Acquiring? && 1 <= k <= c.state.nextAttemptId
    ensures OverBeforeLatest(c, k) <==> k < c.state.nextAttemptId
  {
    var n := c.state.nextAttemptId;
    if k < n {
      AlternationAt(n - 1, k);
      assert c.attempts[2 * k - 1] == Left(k) && c.attempts[2 * n - 2] == Begun(n);
    } else {
      LeftOnlyOnce(n - 1, n);
      assert Left(k) !in c.attempts;
    }
  }

  lemma {:induction false} LeftOnlyOnce(n: nat, k: nat)
    requires k > n
    ensures Left(k) !in Alternation(n)
  {
    if n > 0 {
      LeftOnlyOnce(n - 1, k);
    }
  }

  /** Such a run exists: the second failure of attempt 1, after attempt 2 has begun, discards attempt 2, whose
      acquire then completes as stale. */
  lemma LateFailureDiscardsTheNextAttempt(base: CellBase, cause: Cause, acquired: Acquired)
    returns (steps: seq<Step>)
    ensures BeginsWhenFree(Initial(base), steps + [FailAttempt(1, cause, None)])
    ensures var c := After(Initial(base), steps);
      && c.state.phase == Acquiring(base, 2) && OverBeforeLatest(c, 1)
      && var failed := Next(c, FailAttempt(1, cause, None));
         && failed.state.phase == ReadinessError(base, cause)
         && Next(failed, CompleteAcquire(2, acquired)) == failed
  {
    var failure := FailAttempt(1, cause, None);
    steps := [BeginAttempt(base), failure, BeginAttempt(base)];
    var c1 := Next(Initial(base), BeginAttempt(base));
    assert c1 == Cell(NodeState(1, 1, Acquiring(base, 1)), [], [], [], [Begun(1)]);
    var c2 := Next(c1, failure);
    assert c2 == Cell(NodeState(1, 1, ReadinessError(base, cause)), [], [], [], [Begun(1), Left(1)]);
    var c3 := Next(c2, BeginAttempt(base));
    assert c3 == Cell(NodeState(1, 2, Acquiring(base, 2)), [], [], [], [Begun(1), Left(1), Begun(2)]);
    assert c3.attempts[1] == Left(1) && c3.attempts[2] == Begun(2);
    StaleCompletion(Next(c3, failure), 2, acquired);
    ThreeSteps(Initial(base), BeginAttempt(base), failure, BeginAttempt(base), failure);
  }

  lemma StaleCompletion(c: Cell, k: nat, acquired: Acquired)
    requires !c.state.phase.Acquiring?
    ensures Next(c, CompleteAcquire(k, acquired)) == c
  {
    assert c.attempts + [] == c.attempts;
  }

  lemma ThreeSteps(c: Cell, s1: Step, s2: Step, s3: Step, s4: Step)
    ensures var d := Next(Next(Next(c, s1), s2), s3);
      && After(c, [s1, s2, s3]) == d
      && (!s2.BeginAttempt? && !s4.BeginAttempt?
          && (s1.BeginAttempt? ==> !c.state.phase.Acquiring?)
          && (s3.BeginAttempt? ==> !Next(Next(c, s1), s2).state.phase.Acquiring?)
          ==> BeginsWhenFree(c, [s1, s2, s3] + [s4]))
  {
    var d1 := Next(c, s1);
    var d2 := Next(d1, s2);
    var d3 := Next(d2, s3);
    assert After(d3, []) == d3 && BeginsWhenFree(Next(d3, s4), []);
    Prepended(d3, s4, []);
    Prepended(d2, s3, []);
    Prepended(d2, s3, [s4]);
    Prepended(d1, s2, [s3]);
    Prepended(d1, s2, [s3, s4]);
    Prepended(c, s1, [s2, s3]);
    Prepended(c, s1, [s2, s3, s4]);
    assert [s1, s2, s3] == [s1] + [s2, s3] && [s1, s2, s3] + [s4] == [s1] + [s2, s3, s4];
    assert [s2, s3] == [s2] + [s3] && [s2, s3, s4] == [s2] + [s3, s4];
  }

  lemma Prepended(c: Cell, step: Step, rest: seq<Step>)
    ensures After(c, [step] + rest) == After(Next(c, step), rest)
    ensures BeginsWhenFree(c, [step] + rest)
       <==> (step.BeginAttempt? ==> !c.state.phase.Acquiring?) && BeginsWhenFree(Next(c, step), rest)
  {
    assert ([step] + rest)[1..] == rest;
  }

  /** What the graph's own callers do: an attempt runs within one operation that holds the cell's permit, begins
      when no attempt is current, and is failed or completed only by that operation, before it gives the permit
      back.  Everything else may come at any time; `body` is the attempt of the operation that holds the permit. */
  predicate UnderPermit(c: Cell, body: Option<nat>, steps: seq<Step>)
    decreases |steps|
  {
    steps == [] || (
      match steps[0]
      case BeginAttempt(_) =>
        body.None? && !c.state.phase.Acquiring?
        && UnderPermit(Next(c, steps[0]), Some(c.state.nextAttemptId + 1), steps[1..])
      case FailAttempt(k, _, _) => body == Some(k) && UnderPermit(Next(c, steps[0]), body, steps[1..])
      case CompleteAcquire(k, _) => body == Some(k) && UnderPermit(Next(c, steps[0]), body, steps[1..])
      case LeaveBody => UnderPermit(Next(c, steps[0]), None, steps[1..])
      case _ => UnderPermit(Next(c, steps[0]), body, steps[1..]))
  }

  /** Under that discipline no failure of an attempt ever reaches another one: in every run, wherever attempt `k`
      is failed, that changes the cell exactly if `k` is the current attempt. */
  lemma {:induction false} FailuresUnderPermitAreOwn(c: Cell, body: Option<nat>, steps: seq<Step>, i: nat)
    requires Inv(c) && (body.Some? ==> body.value == c.state.nextAttemptId) && UnderPermit(c, body, steps)
    requires i < |steps| && steps[i].FailAttempt?
    ensures var at := After(c, steps[..i]);
      Next(at, steps[i]).state != at.state <==> IsCurrentAttempt(at.state, steps[i].attemptId)
    decreases i
  {
    if i == 0 {
      assert steps[..0] == [];
      FailureIsOwn(c, steps[0]);
    } else {
      InvStep(c, steps[0]);
      StillUnderPermit(c, body, steps);
      FailuresUnderPermitAreOwn(Next(c, steps[0]), BodyAfter(c, body, steps[0]), steps[1..], i - 1);
      RunTo(c, steps, i);
    }
  }

  lemma RunTo(c: Cell, steps: seq<Step>, i: nat)
    requires 0 < i < |steps|
    ensures After(c, steps[..i]) == After(Next(c, steps[0]), steps[1..][..i - 1]) && steps[i] == steps[1..][i - 1]
  {
    assert steps[..i] == [steps[0]] + steps[1..][..i - 1];
    Prepended(c, steps[0], steps[1..][..i - 1]);
  }

  lemma FailureIsOwn(c: Cell, step: Step)
    requires AttemptsInv(c) && step.FailAttempt? && step.attemptId == c.state.nextAttemptId
    ensures Next(c, step).state != c.state <==> IsCurrentAttempt(c.state, step.attemptId)
  {
  }

  /** The attempt of the operation that holds the permit after the step. */
  function BodyAfter(c: Cell, body: Option<nat>, step: Step): Option<nat>
  {
    match step
    case BeginAttempt(_) => Some(c.state.nextAttemptId + 1)
    case LeaveBody => None
    case _ => body
  }

  lemma StillUnderPermit(c: Cell, body: Option<nat>, steps: seq<Step>)
    requires steps != [] && UnderPermit(c, body, steps) && (body.Some? ==> body.value == c.state.nextAttemptId)
    ensures var t, next := Next(c, steps[0]), BodyAfter(c, body, steps[0]);
      UnderPermit(t, next, steps[1..]) && (next.Some? ==> next.value == t.state.nextAttemptId)
  {
  }

  // ---------------------------------------------------------------- live leases

  /** Every attempt begins from the base the cell has at that moment, or one with the same leases. */
  predicate BeginsFromLatest(c: Cell, steps: seq<Step>)
    decreases |steps|
  {
    steps == [] || (
      && (steps[0].BeginAttempt? ==> steps[0].base.liveLeases == Leases(c.state.phase))
      && BeginsFromLatest(Next(c, steps[0]), steps[1..]))
  }

  /** The leases last set, from the requests alone. */
  function LastLeases(steps: seq<Step>, start: seq<Lease>): seq<Lease>
  {
    if steps == [] then start
    else LastLeases(steps[1..], if steps[0].SetLeases? then steps[0].leases else start)
  }

  lemma LeasesStep(c: Cell, step: Step)
    requires PhaseBase(c.state.phase).Some?
    ensures PhaseBase(Next(c, step).state.phase).Some?
    ensures Leases(Next(c, step).state.phase)
         == match step
            case SetLeases(leases) => leases
            case BeginAttempt(base) => base.liveLeases
            case _ => Leases(c.state.phase)
  {
  }

  /** No transition of a run loses or changes live leases: whatever happened to the cell, it holds those last
      set, as long as attempts begin from the latest base. */
  lemma {:induction false} LeasesSurviveRuns(c: Cell, steps: seq<Step>)
    requires PhaseBase(c.state.phase).Some? && BeginsFromLatest(c, steps)
    ensures Leases(After(c, steps).state.phase) == LastLeases(steps, Leases(c.state.phase))
    decreases |steps|
  {
    if steps != [] {
      LeasesStep(c, steps[0]);
      LeasesSurviveRuns(Next(c, steps[0]), steps[1..]);
    }
  }

  /** An attempt begun from an older base brings the older leases back. */
  lemma StaleBaseRevertsLeases(base: CellBase, leases: seq<Lease>)
    ensures var c := After(Initial(base), [SetLeases(leases), BeginAttempt(base)]);
      Leases(c.state.phase) == base.liveLeases
  {
    assert [BeginAttempt(base)][1..] == [];
    var first := Next(Initial(base), SetLeases(leases));
    assert After(first, [BeginAttempt(base)]) == After(Next(first, BeginAttempt(base)), []);
    assert [SetLeases(leases), BeginAttempt(base)][1..] == [BeginAttempt(base)];
  }
}
