/** The runtime coordinator of packages/core/src/runtimeCoordinator.ts.

    `start` and `dispose` chain a transition behind the last one; its body runs in pieces between
    awaits.  The pieces are the methods of class Coordinator; the lemmas are about every order in
    which callers, created leases and disposals can make them happen. */
module RuntimeCoordinator {
  import opened Prelude

  datatype Kind = Start | Dispose

  datatype Outcome =
    | Started(lease: nat)
    | AlreadyActive
    | CreateFailed
    | Superseded
    | Disposed
    | DisposeFailed

  datatype Phase =
    | Waiting                   // chained, body not begun
    | Creating                  // createLease in flight
    | Superseding(lease: nat)   // disposing a lease that arrived too late
    | Disposing(lease: nat)
    | Settled(outcome: Outcome)

  datatype Transition = Transition(
    kind: Kind,
    generation: nat,            // claimed by the call
    after: Option<nat>,         // the transition it is chained behind
    phase: Phase,
    arrived: Option<nat>)       // history: the coordinator's generation when its lease arrived

  /** What happened to a lease. */
  datatype Lease = Lease(disposeCalls: nat, disposed: bool)

  datatype State = State(
    generation: nat,
    current: Option<nat>,
    last: Option<nat>,          // the `transition` variable
    transitions: seq<Transition>,
    leases: seq<Lease>)

  const INITIAL := State(0, None, None, [], [])

  datatype Step =
    | Call(kind: Kind)
    | Begin(n: nat)
    | LeaseArrives(n: nat)
    | CreateRejects(n: nat)
    | DisposeSettles(n: nat, ok: bool)

  predicate IsSettled(s: State, n: nat)
    requires n < |s.transitions|
  {
    s.transitions[n].phase.Settled?
  }

  predicate Enabled(s: State, step: Step)
  {
    match step
    case Call(_) => true
    case Begin(n) =>
      n < |s.transitions| && s.transitions[n].phase.Waiting?
      && (match s.transitions[n].after case None => true case Some(k) => k < |s.transitions| && IsSettled(s, k))
    case LeaseArrives(n) => n < |s.transitions| && s.transitions[n].phase.Creating?
    case CreateRejects(n) => n < |s.transitions| && s.transitions[n].phase.Creating?
    case DisposeSettles(n, _) => n < |s.transitions| && InDisposal(s, n)
  }

  predicate InDisposal(s: State, n: nat)
    requires n < |s.transitions|
  {
    var phase := s.transitions[n].phase;
    (phase.Superseding? || phase.Disposing?) && phase.lease < |s.leases|
  }

  function WithPhase(s: State, n: nat, phase: Phase): State
    requires n < |s.transitions|
  {
    s.(transitions := s.transitions[n := s.transitions[n].(phase := phase)])
  }

  function DisposeCalled(leases: seq<Lease>, l: nat): seq<Lease>
    requires l < |leases|
  {
    leases[l := leases[l].(disposeCalls := leases[l].disposeCalls + 1)]
  }

  function Next(s: State, step: Step): State
    requires Enabled(s, step)
  {
    match step
    case Call(kind) =>
      State(s.generation + 1, s.current, Some(|s.transitions|),
            s.transitions + [Transition(kind, s.generation + 1, s.last, Waiting, None)], s.leases)
    case Begin(n) =>
      if s.transitions[n].kind.Start? then
        WithPhase(s, n, if s.current.Some? then Settled(AlreadyActive) else Creating)
      else if s.current.Some? && s.current.value < |s.leases| then
        WithPhase(s, n, Disposing(s.current.value))
          .(current := None, leases := DisposeCalled(s.leases, s.current.value))
      else WithPhase(s, n, Settled(Disposed)).(current := None)
    case LeaseArrives(n) =>
      var l := |s.leases|;
      var t := s.transitions[n].(arrived := Some(s.generation));
      if s.generation != t.generation then
        s.(transitions := s.transitions[n := t.(phase := Superseding(l))], leases := s.leases + [Lease(1, false)])
      else
        s.(transitions := s.transitions[n := t.(phase := Settled(Started(l)))], current := Some(l),
           leases := s.leases + [Lease(0, false)])
    case CreateRejects(n) => WithPhase(s, n, Settled(CreateFailed))
    case DisposeSettles(n, ok) =>
      var phase := s.transitions[n].phase;
      var l := phase.lease;
      WithPhase(s, n, Settled(if !ok then DisposeFailed else if phase.Superseding? then Superseded else Disposed))
        .(leases := s.leases[l := s.leases[l].(disposed := true)])
  }

  // ---------------------------------------------------------------- invariant

  predicate ChainInv(s: State)
  {
    && s.generation == |s.transitions|
    && s.last == (if s.transitions == [] then None else Some(|s.transitions| - 1))
    && forall n :: 0 <= n < |s.transitions| ==>
      && s.transitions[n].generation == n + 1
      && s.transitions[n].after == (if n == 0 then None else Some(n - 1))
  }

  /** A transition whose body has begun has every earlier one settled. */
  predicate OrderInv(s: State)
  {
    forall m, n :: 0 <= m < n < |s.transitions| && !s.transitions[n].phase.Waiting? ==> s.transitions[m].phase.Settled?
  }

  predicate Held(s: State, l: nat, n: nat)
    requires n < |s.transitions|
  {
    var phase := s.transitions[n].phase;
    (phase.Superseding? || phase.Disposing?) && phase.lease == l
  }

  predicate LeaseInv(s: State, l: nat)
    requires l < |s.leases|
  {
    var lease := s.leases[l];
    if s.current == Some(l) then lease == Lease(0, false)
    else lease.disposeCalls == 1 && (lease.disposed || exists n :: 0 <= n < |s.transitions| && Held(s, l, n))
  }

  predicate PhaseInv(s: State, n: nat)
    requires n < |s.transitions|
  {
    var t := s.transitions[n];
    && (t.phase.Creating? || t.phase.Superseding? || t.phase.Disposing? ==> s.current.None?)
    && (t.phase.Superseding? || t.phase.Disposing? ==>
      t.phase.lease < |s.leases| && s.leases[t.phase.lease] == Lease(1, false))
    && (t.phase.Waiting? || t.phase.Creating? ==> t.arrived.None?)
    && (t.phase.Creating? || t.phase.Superseding? ==> t.kind.Start?)
    && (t.phase.Superseding? ==> t.arrived.Some? && t.arrived.value > t.generation)
    && (t.phase.Disposing? ==> t.kind.Dispose? && t.arrived.None?)
    && (t.phase.Settled? && t.phase.outcome.Started? <==> t.arrived == Some(t.generation))
    && (t.arrived.Some? ==> t.arrived.value >= t.generation && t.kind.Start?)
  }

  predicate Inv(s: State)
  {
    && ChainInv(s) && OrderInv(s)
    && (s.current.Some? ==> s.current.value < |s.leases|)
    && (forall n :: 0 <= n < |s.transitions| ==> PhaseInv(s, n))
    && (forall l :: 0 <= l < |s.leases| ==> LeaseInv(s, l))
  }

  lemma CallKeeps(s: State, kind: Kind)
    requires Inv(s)
    ensures Inv(Next(s, Call(kind)))
  {
    var t := Next(s, Call(kind));
    forall l | 0 <= l < |t.leases| ensures LeaseInv(t, l) {
      assert LeaseInv(s, l);
      if s.current != Some(l) && !s.leases[l].disposed {
        var n :| 0 <= n < |s.transitions| && Held(s, l, n);
        assert Held(t, l, n);
      }
    }
    forall n | 0 <= n < |t.transitions| ensures PhaseInv(t, n) {
      if n < |s.transitions| {
        assert PhaseInv(s, n);
      }
    }
  }

  /** The body that runs next is the only one not settled among those begun. */
  lemma Alone(s: State, n: nat, m: nat)
    requires Inv(s) && n < |s.transitions| && m < |s.transitions| && m != n
    requires !s.transitions[n].phase.Settled?
    requires s.transitions[n].phase.Waiting? ==> Enabled(s, Begin(n))
    ensures s.transitions[m].phase.Waiting? || s.transitions[m].phase.Settled?
    ensures m < n ==> s.transitions[m].phase.Settled?
    ensures m > n ==> s.transitions[m].phase.Waiting?
  {
    if m < n {
      assert s.transitions[n].after == Some(n - 1);
      if s.transitions[n].phase.Waiting? && m < n - 1 {
        assert !s.transitions[n - 1].phase.Waiting?;
      }
    }
  }

  lemma NothingHeld(s: State, n: nat, l: nat)
    requires Inv(s) && n < |s.transitions| && l < |s.leases| && s.current != Some(l)
    requires s.transitions[n].phase.Creating? || Enabled(s, Begin(n))
    ensures s.leases[l] == Lease(1, true)
  {
    assert LeaseInv(s, l);
    if !s.leases[l].disposed {
      var m :| 0 <= m < |s.transitions| && Held(s, l, m);
      if m != n {
        Alone(s, n, m);
      }
      assert false;
    }
  }

  /** Changing the one running transition keeps the order. */
  lemma OrderKept(s: State, t: State, n: nat)
    requires Inv(s) && n < |s.transitions| && |t.transitions| == |s.transitions|
    requires !s.transitions[n].phase.Settled?
    requires s.transitions[n].phase.Waiting? ==> Enabled(s, Begin(n))
    requires forall m :: 0 <= m < |s.transitions| && m != n ==> t.transitions[m] == s.transitions[m]
    ensures OrderInv(t)
  {
    forall a, b | 0 <= a < b < |t.transitions| && !t.transitions[b].phase.Waiting?
      ensures t.transitions[a].phase.Settled?
    {
      if b == n {
        Alone(s, n, a);
      }
    }
  }

  lemma BodyStepKeeps(s: State, step: Step, n: nat)
    requires Inv(s) && Enabled(s, step) && !step.Call? && step.n == n
    ensures Inv(Next(s, step))
  {
    var t := Next(s, step);
    OrderKept(s, t, n);
    if s.current.Some? {
      assert LeaseInv(s, s.current.value);
    }
    forall m | 0 <= m < |t.transitions| ensures PhaseInv(t, m) {
      PhaseKept(s, step, n, m);
    }
    forall l | 0 <= l < |t.leases| ensures LeaseInv(t, l) {
      if l < |s.leases| {
        assert LeaseInv(s, l) && PhaseInv(s, n);
        LeaseKept(s, step, n, l);
      } else if t.current != Some(l) {
        assert Held(t, l, n);
      }
    }
  }

  lemma PhaseKept(s: State, step: Step, n: nat, m: nat)
    requires Inv(s) && Enabled(s, step) && !step.Call? && step.n == n && m < |s.transitions|
    ensures |Next(s, step).transitions| == |s.transitions| && PhaseInv(Next(s, step), m)
  {
    assert PhaseInv(s, m) && PhaseInv(s, n);
    if s.current.Some? {
      assert LeaseInv(s, s.current.value);
    }
    if m != n {
      Alone(s, n, m);
    }
  }

  lemma LeaseKept(s: State, step: Step, n: nat, l: nat)
    requires Inv(s) && Enabled(s, step) && !step.Call? && step.n == n && l < |s.leases|
    requires LeaseInv(s, l) && PhaseInv(s, n)
    ensures LeaseInv(Next(s, step), l)
  {
    var t := Next(s, step);
    if s.current == Some(l) {
      if step.Begin? && s.transitions[n].kind.Dispose? {
        assert Held(t, l, n);
      }
    } else if step.DisposeSettles? {
      if !s.leases[l].disposed {
        var m :| 0 <= m < |s.transitions| && Held(s, l, m);
        if m != n {
          Alone(s, n, m);
        }
      }
    } else {
      NothingHeld(s, n, l);
    }
  }

  /** Every step keeps the invariant. */
  lemma InvStep(s: State, step: Step)
    requires Inv(s) && Enabled(s, step)
    ensures Inv(Next(s, step))
  {
    if step.Call? {
      CallKeeps(s, step.kind);
    } else {
      BodyStepKeeps(s, step, step.n);
    }
  }

  // ---------------------------------------------------------------- runs

  predicate Runs(s: State, steps: seq<Step>)
    decreases |steps|
  {
    steps == [] || (Enabled(s, steps[0]) && Runs(Next(s, steps[0]), steps[1..]))
  }

  function After(s: State, steps: seq<Step>): State
    requires Runs(s, steps)
    decreases |steps|
  {
    if steps == [] then s else After(Next(s, steps[0]), steps[1..])
  }

  lemma {:induction false} InvHoldsOnRuns(s: State, steps: seq<Step>)
    requires Inv(s) && Runs(s, steps)
    ensures Inv(After(s, steps))
    decreases |steps|
  {
    if steps != [] {
      InvStep(s, steps[0]);
      InvHoldsOnRuns(Next(s, steps[0]), steps[1..]);
    }
  }

  /** A lease that has been created and whose disposal has not settled. */
  predicate Live(s: State, l: nat) { l < |s.leases| && !s.leases[l].disposed }

  lemma HeldMeansNoCurrent(s: State, l: nat, m: nat)
    requires Inv(s) && m < |s.transitions| && Held(s, l, m)
    ensures s.current.None?
  {
    assert PhaseInv(s, m);
  }

  lemma OneLive(s: State, k: nat, l: nat)
    requires Inv(s) && Live(s, k) && Live(s, l)
    ensures k == l
  {
    LiveIsCurrentOrHeld(s, k);
    LiveIsCurrentOrHeld(s, l);
    if k != l {
      if s.current == Some(k) {
        var m :| 0 <= m < |s.transitions| && Held(s, l, m);
        HeldMeansNoCurrent(s, l, m);
      } else {
        var a :| 0 <= a < |s.transitions| && Held(s, k, a);
        HeldMeansNoCurrent(s, k, a);
      }
      assert false;
    }
  }

  /** Two runtime generations never overlap: at most one lease is live, and none is while a replacement
      boots. */
  lemma GenerationsNeverOverlap(steps: seq<Step>, k: nat, l: nat, n: nat)
    requires Runs(INITIAL, steps)
    ensures var s := After(INITIAL, steps);
      && (Live(s, k) && Live(s, l) ==> k == l)
      && (n < |s.transitions| && s.transitions[n].phase.Creating? ==> !Live(s, l))
  {
    InvHoldsOnRuns(INITIAL, steps);
    var s := After(INITIAL, steps);
    if Live(s, k) && Live(s, l) && k != l {
      OneLive(s, k, l);
    }
    if n < |s.transitions| && s.transitions[n].phase.Creating? && Live(s, l) {
      assert PhaseInv(s, n);
      NothingHeld(s, n, l);
      assert false;
    }
  }

  lemma LiveIsCurrentOrHeld(s: State, l: nat)
    requires Inv(s) && Live(s, l)
    ensures s.current == Some(l) || exists n :: 0 <= n < |s.transitions| && Held(s, l, n)
  {
    assert LeaseInv(s, l);
  }

  /** A createLease, like any body, begins only after every earlier transition and its disposal settled. */
  lemma BootWaitsForEarlier(steps: seq<Step>, n: nat, m: nat)
    requires Runs(INITIAL, steps) && Enabled(After(INITIAL, steps), Begin(n)) && m < n
    ensures After(INITIAL, steps).transitions[m].phase.Settled?
  {
    InvHoldsOnRuns(INITIAL, steps);
    Alone(After(INITIAL, steps), n, m);
  }

  /** When the chain is idle every lease is the current one, never disposed, or was disposed exactly once;
      at no time is one disposed twice. */
  lemma NoLeaseLeaks(steps: seq<Step>, l: nat)
    requires Runs(INITIAL, steps) && l < |After(INITIAL, steps).leases|
    ensures var s := After(INITIAL, steps);
      && s.leases[l].disposeCalls <= 1
      && ((forall n :: 0 <= n < |s.transitions| ==> IsSettled(s, n)) ==>
        s.leases[l] == if s.current == Some(l) then Lease(0, false) else Lease(1, true))
  {
    InvHoldsOnRuns(INITIAL, steps);
    var s := After(INITIAL, steps);
    assert LeaseInv(s, l);
    if s.current != Some(l) && !s.leases[l].disposed {
      var n :| 0 <= n < |s.transitions| && Held(s, l, n);
      assert !IsSettled(s, n);
    }
  }

  /** A start succeeds exactly when its lease arrived and no later call had claimed a generation by then. */
  lemma SuccessIffNotSuperseded(steps: seq<Step>, n: nat)
    requires Runs(INITIAL, steps) && n < |After(INITIAL, steps).transitions|
    ensures var t := After(INITIAL, steps).transitions[n];
      && (t.phase.Settled? && t.phase.outcome.Started? <==> t.arrived == Some(n + 1))
      && (t.arrived.Some? ==> t.kind.Start? && t.arrived.value >= n + 1)
      && (t.phase.Superseding? ==> t.arrived.Some? && t.arrived.value > n + 1)
  {
    InvHoldsOnRuns(INITIAL, steps);
    assert PhaseInv(After(INITIAL, steps), n);
  }

  /** As long as a transition has not settled some body can go on. */
  lemma {:induction false} NeverStuck(s: State, n: nat) returns (step: Step)
    requires Inv(s) && n < |s.transitions| && !IsSettled(s, n)
    ensures Enabled(s, step) && !step.Call? && step.n <= n
    decreases n
  {
    assert PhaseInv(s, n);
    match s.transitions[n].phase
    case Waiting =>
      if n > 0 && !IsSettled(s, n - 1) {
        step := NeverStuck(s, n - 1);
      } else {
        step := Begin(n);
      }
    case Creating => step := LeaseArrives(n);
    case Superseding(_) | Disposing(_) => step := DisposeSettles(n, true);
    case Settled(_) => assert false;
  }

  function PhaseLeft(phase: Phase): nat
  {
    match phase
    case Waiting => 3
    case Creating => 2
    case Superseding(_) => 1
    case Disposing(_) => 1
    case Settled(_) => 0
  }

  /** The continuations that can at most still run. */
  function StepsLeft(transitions: seq<Transition>): nat
  {
    if transitions == [] then 0 else PhaseLeft(transitions[0].phase) + StepsLeft(transitions[1..])
  }

  lemma {:induction false} StepsLeftUpdate(transitions: seq<Transition>, n: nat, t: Transition)
    requires n < |transitions|
    ensures StepsLeft(transitions[n := t])
         == StepsLeft(transitions) - PhaseLeft(transitions[n].phase) + PhaseLeft(t.phase)
  {
    if n == 0 {
      assert transitions[0 := t][1..] == transitions[1..];
    } else {
      assert transitions[n := t][1..] == transitions[1..][n - 1 := t];
      StepsLeftUpdate(transitions[1..], n - 1, t);
    }
  }

  lemma StepsLeftShrink(s: State, step: Step)
    requires Enabled(s, step) && !step.Call?
    ensures StepsLeft(Next(s, step).transitions) < StepsLeft(s.transitions)
  {
    var t := Next(s, step).transitions[step.n];
    assert Next(s, step).transitions == s.transitions[step.n := t];
    StepsLeftUpdate(s.transitions, step.n, t);
  }

  /** Once no more calls come, the chain makes boundedly many steps, and it can only stop with every start and
      dispose settled, provided created leases arrive or fail and disposals settle. */
  lemma {:induction false} EverythingSettles(s: State, steps: seq<Step>)
    requires Inv(s) && Runs(s, steps) && forall k :: 0 <= k < |steps| ==> !steps[k].Call?
    ensures |steps| + StepsLeft(After(s, steps).transitions) <= StepsLeft(s.transitions)
    ensures (forall step: Step :: step.Call? || !Enabled(After(s, steps), step)) ==>
      forall n :: 0 <= n < |After(s, steps).transitions| ==> IsSettled(After(s, steps), n)
    decreases |steps|
  {
    if steps == [] {
      forall n | 0 <= n < |s.transitions| && !IsSettled(s, n)
        ensures exists step: Step :: !step.Call? && Enabled(s, step)
      {
        var step := NeverStuck(s, n);
        assert !step.Call? && Enabled(s, step);
      }
    } else {
      InvStep(s, steps[0]);
      StepsLeftShrink(s, steps[0]);
      assert forall k :: 0 <= k < |steps[1..]| ==> steps[1..][k] == steps[k + 1];
      EverythingSettles(Next(s, steps[0]), steps[1..]);
    }
  }

  // ---------------------------------------------------------------- what a run makes of each call

  predicate IsA(s: State, n: nat, kind: Kind) { n < |s.transitions| && s.transitions[n].kind == kind }

  /** Some lease has been created and its disposal has not settled. */
  ghost predicate SomeLive(s: State) { exists l :: Live(s, l) }

  /** When a body begins no disposal is under way, so a lease is live exactly if the coordinator holds it. */
  lemma LiveIffCurrent(s: State, n: nat)
    requires Inv(s) && Enabled(s, Begin(n))
    ensures SomeLive(s) <==> s.current.Some?
  {
    if s.current.Some? {
      assert LeaseInv(s, s.current.value);
      assert Live(s, s.current.value);
    }
    forall l: nat | Live(s, l) ensures s.current.Some? {
      if s.current != Some(l) {
        NothingHeld(s, n, l);
      }
    }
  }

  /** What must happen, at one moment of a run, for transition `n` to end with outcome `o`. */
  ghost predicate Brings(s: State, step: Step, n: nat, o: Outcome)
  {
    match o
    case AlreadyActive => step == Begin(n) && IsA(s, n, Start) && SomeLive(s)
    case CreateFailed => step == CreateRejects(n)
    case Started(l) => step == LeaseArrives(n) && |s.transitions| == n + 1 && l == |s.leases|
    case Superseded => step == DisposeSettles(n, true) && IsA(s, n, Start)
    case Disposed =>
      IsA(s, n, Dispose) && (step == DisposeSettles(n, true) || (step == Begin(n) && !SomeLive(s)))
    case DisposeFailed => step == DisposeSettles(n, false)
  }

  ghost predicate Brought(s: State, steps: seq<Step>, n: nat, o: Outcome)
    requires Runs(s, steps)
    decreases |steps|
  {
    steps != [] && (Brings(s, steps[0], n, o) || Brought(Next(s, steps[0]), steps[1..], n, o))
  }

  predicate HasOutcome(s: State, n: nat, o: Outcome)
  {
    n < |s.transitions| && s.transitions[n].phase == Settled(o)
  }

  lemma OutcomeStep(s: State, step: Step, n: nat, o: Outcome)
    requires Inv(s) && Enabled(s, step)
    ensures HasOutcome(Next(s, step), n, o) <==> HasOutcome(s, n, o) || Brings(s, step, n, o)
  {
    if n < |s.transitions| {
      assert PhaseInv(s, n);
      if step == Begin(n) {
        LiveIffCurrent(s, n);
        if s.current.Some? {
          assert LeaseInv(s, s.current.value);
        }
      }
    }
  }

  lemma {:induction false} OutcomeToldFrom(s: State, steps: seq<Step>, n: nat, o: Outcome)
    requires Inv(s) && Runs(s, steps)
    ensures HasOutcome(After(s, steps), n, o) <==> HasOutcome(s, n, o) || Brought(s, steps, n, o)
    decreases |steps|
  {
    if steps != [] {
      InvStep(s, steps[0]);
      OutcomeStep(s, steps[0], n, o);
      OutcomeToldFrom(Next(s, steps[0]), steps[1..], n, o);
    }
  }

  /** Over every run each outcome is told by what happened: a start is refused as already active exactly if its body
      began while a lease was live, it succeeds with the lease that arrived before any later call, it fails if the
      creation was rejected, it is superseded if the disposal of its late lease went well; a dispose succeeds if
      nothing was live when it began or the disposal went well; and a failed disposal fails its transition. */
  lemma OutcomeIff(steps: seq<Step>, n: nat, o: Outcome)
    requires Runs(INITIAL, steps)
    ensures HasOutcome(After(INITIAL, steps), n, o) <==> Brought(INITIAL, steps, n, o)
  {
    OutcomeToldFrom(INITIAL, steps, n, o);
  }

  /** The body of start `n` began while no lease was live. */
  ghost predicate BootBegun(s: State, steps: seq<Step>, n: nat)
    requires Runs(s, steps)
    decreases |steps|
  {
    steps != [] && (
      || (steps[0] == Begin(n) && IsA(s, n, Start) && !SomeLive(s))
      || BootBegun(Next(s, steps[0]), steps[1..], n))
  }

  /** The lease of start `n` arrived after a later call. */
  predicate ArrivedLate(s: State, steps: seq<Step>, n: nat)
    requires Runs(s, steps)
    decreases |steps|
  {
    steps != [] && (
      || (steps[0] == LeaseArrives(n) && |s.transitions| > n + 1)
      || ArrivedLate(Next(s, steps[0]), steps[1..], n))
  }

  /** The start is creating its lease or has gone beyond that. */
  predicate Booted(s: State, n: nat)
  {
    IsA(s, n, Start) && !s.transitions[n].phase.Waiting? && s.transitions[n].phase != Settled(AlreadyActive)
  }

  predicate Late(s: State, n: nat)
  {
    IsA(s, n, Start) && (
      || s.transitions[n].phase.Superseding? || s.transitions[n].phase == Settled(Superseded)
      || s.transitions[n].phase == Settled(DisposeFailed))
  }

  lemma BootStep(s: State, step: Step, n: nat)
    requires Inv(s) && Enabled(s, step)
    ensures Booted(Next(s, step), n) <==> Booted(s, n) || (step == Begin(n) && IsA(s, n, Start) && !SomeLive(s))
    ensures Late(Next(s, step), n) <==> Late(s, n) || (step == LeaseArrives(n) && |s.transitions| > n + 1)
  {
    if n < |s.transitions| {
      assert PhaseInv(s, n);
      if step == Begin(n) {
        LiveIffCurrent(s, n);
      }
    }
  }

  lemma {:induction false} BootToldFrom(s: State, steps: seq<Step>, n: nat)
    requires Inv(s) && Runs(s, steps)
    ensures Booted(After(s, steps), n) <==> Booted(s, n) || BootBegun(s, steps, n)
    ensures Late(After(s, steps), n) <==> Late(s, n) || ArrivedLate(s, steps, n)
    decreases |steps|
  {
    if steps != [] {
      InvStep(s, steps[0]);
      BootStep(s, steps[0], n);
      BootToldFrom(Next(s, steps[0]), steps[1..], n);
    }
  }

  /** Over every run a start goes on to create its lease exactly if its body began while none was live, and its lease
      is disposed again exactly if it arrived after a later call. */
  lemma BootIff(steps: seq<Step>, n: nat)
    requires Runs(INITIAL, steps)
    ensures Booted(After(INITIAL, steps), n) <==> BootBegun(INITIAL, steps, n)
    ensures Late(After(INITIAL, steps), n) <==> ArrivedLate(INITIAL, steps, n)
  {
    BootToldFrom(INITIAL, steps, n);
  }

  /** Nothing decides in advance how a creation or a disposal ends, and a body waits for its predecessor only. */
  lemma EveryEndIsOpen(steps: seq<Step>, n: nat)
    requires Runs(INITIAL, steps) && n < |After(INITIAL, steps).transitions|
    ensures var s := After(INITIAL, steps);
      match s.transitions[n].phase
      case Waiting => Enabled(s, Begin(n)) <==> n == 0 || IsSettled(s, n - 1)
      case Creating => Enabled(s, LeaseArrives(n)) && Enabled(s, CreateRejects(n))
      case Superseding(_) => Enabled(s, DisposeSettles(n, true)) && Enabled(s, DisposeSettles(n, false))
      case Disposing(_) => Enabled(s, DisposeSettles(n, true)) && Enabled(s, DisposeSettles(n, false))
      case Settled(_) => true
  {
    InvHoldsOnRuns(INITIAL, steps);
    assert PhaseInv(After(INITIAL, steps), n);
  }

  /** The kinds of the calls of a run. */
  function Calls(steps: seq<Step>): seq<Kind>
  {
    if steps == [] then [] else (if steps[0].Call? then [steps[0].kind] else []) + Calls(steps[1..])
  }

  function Kinds(s: State): seq<Kind>
  {
    seq(|s.transitions|, n requires 0 <= n < |s.transitions| => s.transitions[n].kind)
  }

  /** Every call has its transition, in the order of the calls. */
  lemma {:induction false} EveryCallIsKept(s: State, steps: seq<Step>)
    requires Runs(s, steps)
    ensures Kinds(After(s, steps)) == Kinds(s) + Calls(steps)
    decreases |steps|
  {
    if steps == [] {
      assert Kinds(s) + [] == Kinds(s);
    } else {
      var t := Next(s, steps[0]);
      assert Kinds(t) == Kinds(s) + (if steps[0].Call? then [steps[0].kind] else []);
      EveryCallIsKept(t, steps[1..]);
      RegroupKinds(Kinds(s), if steps[0].Call? then [steps[0].kind] else [], Calls(steps[1..]));
    }
  }

  lemma RegroupKinds(a: seq<Kind>, b: seq<Kind>, c: seq<Kind>)
    ensures (a + b) + c == a + (b + c)
  {
  }

  // ---------------------------------------------------------------- the source's variables

  class Coordinator {
    var generation: nat
    var current: Option<nat>
    var transition: Option<nat>
    ghost var transitions: seq<Transition>
    ghost var leases: seq<Lease>

    ghost function View(): State
      reads this
    {
      State(generation, current, transition, transitions, leases)
    }

    constructor ()
      ensures View() == INITIAL && Inv(View())
    {
      generation, current, transition := 0, None, None;
      transitions, leases := [], [];
    }

    /** `start` and `dispose` up to their `transition.then`. */
    method Chain(ghost kind: Kind, ghost id: nat) returns (claimed: nat, after: Option<nat>)
      requires Inv(View()) && id == |transitions|
      modifies this
      ensures Inv(View()) && View() == Next(old(View()), Call(kind))
      ensures claimed == transitions[id].generation && after == transitions[id].after
    {
      CallKeeps(View(), kind);
      generation := generation + 1;
      claimed, after := generation, transition;
      transitions := transitions + [Transition(kind, generation, transition, Waiting, None)];
      transition := Some(generation - 1);
    }

    /** The body of a start up to `createLease`: false when a runtime is already active. */
    method BeginStart(ghost n: nat) returns (create: bool)
      requires Inv(View()) && Enabled(View(), Begin(n)) && transitions[n].kind.Start?
      modifies this
      ensures Inv(View()) && View() == Next(old(View()), Begin(n))
      ensures create <==> old(current).None?
      ensures transitions[n].phase == if create then Creating else Settled(AlreadyActive)
    {
      BodyStepKeeps(View(), Begin(n), n);
      create := current.None?;
      transitions := WithPhase(View(), n, if create then Creating else Settled(AlreadyActive)).transitions;
    }

    /** The body of a start once its lease is there; true when the lease must be disposed. */
    method ReceiveLease(ghost n: nat, bootGeneration: nat, lease: nat) returns (superseded: bool)
      requires Inv(View()) && Enabled(View(), LeaseArrives(n))
      requires bootGeneration == transitions[n].generation && lease == |leases|
      modifies this
      ensures Inv(View()) && View() == Next(old(View()), LeaseArrives(n))
      ensures superseded <==> old(generation) != bootGeneration
      ensures transitions[n].phase == if superseded then Superseding(lease) else Settled(Started(lease))
      ensures current == if superseded then old(current) else Some(lease)
    {
      BodyStepKeeps(View(), LeaseArrives(n), n);
      ghost var t := transitions[n].(arrived := Some(generation));
      superseded := generation != bootGeneration;
      if superseded {
        transitions := transitions[n := t.(phase := Superseding(lease))];
        leases := leases + [Lease(1, false)];
      } else {
        current := Some(lease);
        transitions := transitions[n := t.(phase := Settled(Started(lease)))];
        leases := leases + [Lease(0, false)];
      }
    }

    /** The body of a dispose up to the lease's own disposal. */
    method BeginDispose(ghost n: nat) returns (lease: Option<nat>)
      requires Inv(View()) && Enabled(View(), Begin(n)) && transitions[n].kind.Dispose?
      modifies this
      ensures Inv(View()) && View() == Next(old(View()), Begin(n))
      ensures lease == old(current) && current == None
    {
      BodyStepKeeps(View(), Begin(n), n);
      lease := current;
      current := None;
      match lease {
        case None =>
          transitions := transitions[n := transitions[n].(phase := Settled(Disposed))];
        case Some(l) =>
          transitions := transitions[n := transitions[n].(phase := Disposing(l))];
          leases := DisposeCalled(leases, l);
      }
    }
  }
}
