/** The disposers of one driver operation, packages/core/src/graph/lifecycle/operationDisposers.ts: collected
    while it runs, handed off, taken or drained when it ends, and run at once when they come too late. */
module OperationDisposers {
  import opened Disposers

  // ---------------------------------------------------------------- late runs

  /** What adding `d` late runs, in order: `d` unless it was invoked before, and within its call whatever it adds
      in turn. */
  function LateRuns(script: Script, d: Disposer, done: set<Disposer>, ghost universe: set<Disposer>): seq<Disposer>
    requires Within(script, universe) && d in universe
    decreases |universe - done|, 1, 0
  {
    if d in done then []
    else
      Shrinks(universe - (done + {d}), universe - done, d);
      [d] + LateRunsAll(script, AddsTo(script(d), Ready), done + {d}, universe)
  }

  function LateRunsAll(script: Script, ds: seq<Disposer>, done: set<Disposer>,
                       ghost universe: set<Disposer>): seq<Disposer>
    requires Within(script, universe) && Members(ds) <= universe
    decreases |universe - done|, 2, |ds|
  {
    if ds == [] then []
    else
      HeadWithin(ds, universe);
      var first := LateRuns(script, ds[0], done, universe);
      Monotone(universe - (done + Members(first)), universe - done);
      first + LateRunsAll(script, ds[1..], done + Members(first), universe)
  }

  lemma HeadWithin(ds: seq<Disposer>, universe: set<Disposer>)
    requires ds != [] && Members(ds) <= universe
    ensures ds[0] in universe && Members(ds[1..]) <= universe
    ensures Members(ds) == {ds[0]} + Members(ds[1..])
  {
    assert ds[0] in Members(ds);
    assert ds == [ds[0]] + ds[1..];
    MembersOfJoin([ds[0]], ds[1..]);
    assert Members([ds[0]]) == {ds[0]};
  }

  /** Each of `ran` ran once and for the first time, and whatever it added has run too. */
  ghost predicate Closed(script: Script, done: set<Disposer>, ran: seq<Disposer>)
  {
    && NoRepeats(ran) && Members(ran) !! done
    && forall x :: x in ran ==> Members(AddsTo(script(x), Ready)) <= done + Members(ran)
  }

  lemma ClosedJoin(script: Script, done: set<Disposer>, a: seq<Disposer>, b: seq<Disposer>)
    requires Closed(script, done, a) && Closed(script, done + Members(a), b)
    ensures Closed(script, done, a + b)
  {
    NoRepeatsJoin(a, b);
    MembersOfJoin(a, b);
  }

  /** A disposer that comes too late runs at once, unless it ran before, and so does everything it adds. */
  lemma {:induction false} LateRunsAreClosed(script: Script, d: Disposer, done: set<Disposer>, universe: set<Disposer>)
    requires Within(script, universe) && d in universe
    ensures var ran := LateRuns(script, d, done, universe);
      Closed(script, done, ran) && d in done + Members(ran)
    decreases |universe - done|, 1, 0
  {
    if d !in done {
      Shrinks(universe - (done + {d}), universe - done, d);
      var more := AddsTo(script(d), Ready);
      LateRunsAllAreClosed(script, more, done + {d}, universe);
      ClosedHead(script, d, done, LateRunsAll(script, more, done + {d}, universe));
    }
  }

  lemma ClosedHead(script: Script, d: Disposer, done: set<Disposer>, rest: seq<Disposer>)
    requires d !in done && Closed(script, done + {d}, rest)
    requires Members(AddsTo(script(d), Ready)) <= done + {d} + Members(rest)
    ensures Closed(script, done, [d] + rest) && d in Members([d] + rest)
  {
    assert Members([d]) == {d};
    MembersOfJoin([d], rest);
    NoRepeatsJoin([d], rest);
  }

  lemma {:induction false} LateRunsAllAreClosed(script: Script, ds: seq<Disposer>, done: set<Disposer>,
                                                universe: set<Disposer>)
    requires Within(script, universe) && Members(ds) <= universe
    ensures var ran := LateRunsAll(script, ds, done, universe);
      Closed(script, done, ran) && Members(ds) <= done + Members(ran)
    decreases |universe - done|, 2, |ds|
  {
    if ds != [] {
      HeadWithin(ds, universe);
      var first := LateRuns(script, ds[0], done, universe);
      LateRunsAreClosed(script, ds[0], done, universe);
      Monotone(universe - (done + Members(first)), universe - done);
      var rest := LateRunsAll(script, ds[1..], done + Members(first), universe);
      LateRunsAllAreClosed(script, ds[1..], done + Members(first), universe);
      ClosedJoin(script, done, first, rest);
      MembersOfJoin(first, rest);
    }
  }

  /** The disposers of a batch that fail when their turn comes. */
  ghost function BatchFailures(script: Script, ds: seq<Disposer>, done: set<Disposer>,
                               universe: set<Disposer>): seq<Disposer>
    requires Within(script, universe) && Members(ds) <= universe
    decreases |ds|
  {
    if ds == [] then []
    else
      HeadWithin(ds, universe);
      (if ds[0] !in done && script(ds[0]).failed then [ds[0]] else [])
      + BatchFailures(script, ds[1..], done + Members(LateRuns(script, ds[0], done, universe)), universe)
  }

  /** What a batch reports are functions of it that ran and failed; one that ran and failed without being
      reported was added by another that ran, so it is reported where it was added. */
  lemma {:induction false} BatchFailuresAreFailures(script: Script, ds: seq<Disposer>, done: set<Disposer>,
                                                    universe: set<Disposer>, d: Disposer)
    requires Within(script, universe) && Members(ds) <= universe
    ensures var ran := LateRunsAll(script, ds, done, universe);
      var reported := BatchFailures(script, ds, done, universe);
      && (d in reported ==> d in ds && d in ran && script(d).failed)
      && (d in ran && script(d).failed && d !in reported ==> exists x :: x in ran && d in AddsTo(script(x), Ready))
    decreases |ds|
  {
    if ds != [] {
      HeadWithin(ds, universe);
      var first := LateRuns(script, ds[0], done, universe);
      LateRunsComeFrom(script, ds[0], done, universe, d);
      BatchFailuresAreFailures(script, ds[1..], done + Members(first), universe, d);
    }
  }

  /** Whatever a late disposer brings to run is the disposer itself or added by one that ran. */
  lemma {:induction false} LateRunsComeFrom(script: Script, d: Disposer, done: set<Disposer>, universe: set<Disposer>,
                                            e: Disposer)
    requires Within(script, universe) && d in universe
    ensures var ran := LateRuns(script, d, done, universe);
      e in ran ==> d !in done && (e == d || exists x :: x in ran && e in AddsTo(script(x), Ready))
    decreases |universe - done|, 1, 0
  {
    if d !in done {
      Shrinks(universe - (done + {d}), universe - done, d);
      var more := AddsTo(script(d), Ready);
      LateRunsAllComeFrom(script, more, done + {d}, universe, e);
      var rest := LateRunsAll(script, more, done + {d}, universe);
      assert LateRuns(script, d, done, universe) == [d] + rest;
      if e in rest && e in more {
        assert d in [d] + rest;
      }
    }
  }

  lemma {:induction false} LateRunsAllComeFrom(script: Script, ds: seq<Disposer>, done: set<Disposer>,
                                               universe: set<Disposer>, e: Disposer)
    requires Within(script, universe) && Members(ds) <= universe
    ensures var ran := LateRunsAll(script, ds, done, universe);
      e in ran ==> e in ds || exists x :: x in ran && e in AddsTo(script(x), Ready)
    decreases |universe - done|, 2, |ds|
  {
    if ds != [] {
      HeadWithin(ds, universe);
      var first := LateRuns(script, ds[0], done, universe);
      Monotone(universe - (done + Members(first)), universe - done);
      LateRunsComeFrom(script, ds[0], done, universe, e);
      LateRunsAllComeFrom(script, ds[1..], done + Members(first), universe, e);
    }
  }

  // ---------------------------------------------------------------- the bag

  /** Runs a late disposer; its own additions arrive inside its call, and their failures are reported there. */
  method RunLate(invoked: InvokedDisposers, d: Disposer, script: Script, ghost universe: set<Disposer>)
    returns (failed: bool)
    requires Within(script, universe) && d in universe
    modifies invoked
    ensures var ran := LateRuns(script, d, old(invoked.done), universe);
      invoked.runs == old(invoked.runs) + ran && invoked.done == old(invoked.done) + Members(ran)
    ensures failed <==> d !in old(invoked.done) && script(d).failed
    decreases |universe - invoked.done|, 1, 0
  {
    failed := false;
    if d !in invoked.done {
      SplitRun(script, d, invoked.done, universe, invoked.runs);
      invoked.done := invoked.done + {d};
      invoked.runs := invoked.runs + [d];
      var detached := RunLateAll(invoked, AddsTo(script(d), Ready), script, universe);
      failed := script(d).failed;
    } else {
      assert invoked.runs + [] == invoked.runs;
      assert Members([]) == {};
    }
  }

  lemma SplitRun(script: Script, d: Disposer, done: set<Disposer>, universe: set<Disposer>, runs: seq<Disposer>)
    requires Within(script, universe) && d in universe && d !in done
    ensures |universe - (done + {d})| < |universe - done|
    ensures var rest := LateRunsAll(script, AddsTo(script(d), Ready), done + {d}, universe);
      && (runs + [d]) + rest == runs + LateRuns(script, d, done, universe)
      && (done + {d}) + Members(rest) == done + Members(LateRuns(script, d, done, universe))
  {
    Shrinks(universe - (done + {d}), universe - done, d);
    var rest := LateRunsAll(script, AddsTo(script(d), Ready), done + {d}, universe);
    MembersOfJoin([d], rest);
    assert Members([d]) == {d};
    assert (runs + [d]) + rest == runs + ([d] + rest);
  }

  method RunLateAll(invoked: InvokedDisposers, ds: seq<Disposer>, script: Script, ghost universe: set<Disposer>)
    returns (failures: seq<Disposer>)
    requires Within(script, universe) && Members(ds) <= universe
    modifies invoked
    ensures var ran := LateRunsAll(script, ds, old(invoked.done), universe);
      invoked.runs == old(invoked.runs) + ran && invoked.done == old(invoked.done) + Members(ran)
    ensures failures == BatchFailures(script, ds, old(invoked.done), universe)
    decreases |universe - invoked.done|, 2, |ds|
  {
    failures := [];
    if ds != [] {
      HeadWithin(ds, universe);
      ghost var done, runs := invoked.done, invoked.runs;
      SplitRuns(script, ds, done, universe, runs);
      var failed := RunLate(invoked, ds[0], script, universe);
      failures := RunLateAll(invoked, ds[1..], script, universe);
      if failed {
        failures := [ds[0]] + failures;
      }
    } else {
      assert invoked.runs + [] == invoked.runs;
      assert Members([]) == {};
    }
  }

  lemma SplitRuns(script: Script, ds: seq<Disposer>, done: set<Disposer>, universe: set<Disposer>, runs: seq<Disposer>)
    requires Within(script, universe) && Members(ds) <= universe && ds != []
    ensures ds[0] in universe && Members(ds[1..]) <= universe
    ensures var first := LateRuns(script, ds[0], done, universe);
      var rest := LateRunsAll(script, ds[1..], done + Members(first), universe);
      && |universe - (done + Members(first))| <= |universe - done|
      && (runs + first) + rest == runs + LateRunsAll(script, ds, done, universe)
      && (done + Members(first)) + Members(rest) == done + Members(LateRunsAll(script, ds, done, universe))
  {
    HeadWithin(ds, universe);
    var first := LateRuns(script, ds[0], done, universe);
    var rest := LateRunsAll(script, ds[1..], done + Members(first), universe);
    Monotone(universe - (done + Members(first)), universe - done);
    RunsOfJoin(runs, done, first, rest);
  }

  lemma RunsOfJoin(runs: seq<Disposer>, done: set<Disposer>, first: seq<Disposer>, rest: seq<Disposer>)
    ensures (runs + first) + rest == runs + (first + rest)
    ensures (done + Members(first)) + Members(rest) == done + Members(first + rest)
  {
    MembersOfJoin(first, rest);
    Regroup(runs, first, rest);
  }

  class OperationDisposers {
    const registry: DisposerRegistry
    var pending: seq<Disposer>
    var settled: bool
    var handedOff: bool
    ghost var added: set<Disposer>  // everything ever added through this bag
    ghost var taken: set<Disposer>  // what `take` gave to the caller

    /** Nothing added is lost: it is pending, listed in the registry, given to the caller, or has run. */
    ghost predicate Valid()
      reads this, registry, registry.invoked
    {
      && added <= Members(pending) + Members(registry.list) + taken + registry.invoked.done
      && (settled || handedOff ==> pending == [])
    }

    constructor (registry: DisposerRegistry)
      ensures Valid() && this.registry == registry && added == {} && !settled && !handedOff
    {
      this.registry := registry;
      pending, settled, handedOff, added, taken := [], false, false, {}, {};
    }

    /** `add`: once the operation has settled, or its registry was torn down, a disposer runs at once. */
    method Add(d: Disposer, script: Script, ghost universe: set<Disposer>)
      requires Valid() && Within(script, universe) && d in universe
      modifies this, registry, registry.invoked
      ensures Valid() && added == old(added) + {d} && taken == old(taken)
      ensures settled == old(settled) && handedOff == old(handedOff)
      ensures settled || (handedOff && old(registry.settled)) ==>
        && registry.invoked.runs
           == old(registry.invoked.runs) + LateRuns(script, d, old(registry.invoked.done), universe)
        && d in registry.invoked.done && registry.Contents() == old(registry.Contents()) && pending == old(pending)
      ensures !settled && handedOff && !old(registry.settled) ==>
        && registry.Contents() == old(registry.Contents()).Append([d])
        && registry.invoked.runs == old(registry.invoked.runs) && pending == old(pending)
      ensures !settled && !handedOff ==>
        && pending == old(pending) + [d] && registry.Contents() == old(registry.Contents())
        && registry.invoked.runs == old(registry.invoked.runs)
    {
      added := added + {d};
      assert Members([d]) == {d};
      if settled || (handedOff && registry.settled) {
        LateRunsAreClosed(script, d, registry.invoked.done, universe);
        var failed := RunLate(registry.invoked, d, script, universe);
      } else if handedOff {
        MembersOfJoin(registry.list, [d]);
        registry.Append([d]);
      } else {
        MembersOfJoin(pending, [d]);
        pending := pending + [d];
      }
    }

    /** `handOff`: the registry takes over what was collected. */
    method HandOff()
      requires Valid()
      modifies this, registry
      ensures Valid() && handedOff && added == old(added) && taken == old(taken) && settled == old(settled)
      ensures registry.Contents() == old(registry.Contents()).Append(old(pending))
    {
      MembersOfJoin(registry.list, pending);
      handedOff := true;
      registry.Append(pending);
      pending := [];
    }

    /** `take`: the caller takes over what was collected. */
    method Take() returns (collected: seq<Disposer>)
      requires Valid()
      modifies this
      ensures Valid() && settled && added == old(added) && handedOff == old(handedOff)
      ensures collected == old(pending) && pending == [] && taken == old(taken) + Members(collected)
    {
      settled := true;
      collected := pending;
      taken := taken + Members(collected);
      pending := [];
    }

    /** `drain` on a failure or interruption: nothing after a hand-off; else everything collected runs. */
    method Drain(script: Script, ghost universe: set<Disposer>) returns (failures: seq<Disposer>)
      requires Valid() && Within(script, universe) && Members(pending) <= universe
      modifies this, registry.invoked
      ensures Valid() && added == old(added) && taken == old(taken) && handedOff == old(handedOff)
      ensures registry.invoked.runs == old(registry.invoked.runs)
        + if handedOff then [] else LateRunsAll(script, Reversed(old(pending)), old(registry.invoked.done), universe)
      ensures !handedOff ==> settled && pending == [] && Members(old(pending)) <= registry.invoked.done
      ensures failures == if handedOff then []
                          else BatchFailures(script, Reversed(old(pending)), old(registry.invoked.done), universe)
    {
      if handedOff {
        assert registry.invoked.runs + [] == registry.invoked.runs;
        return [];
      }
      settled := true;
      var batch := pending;
      pending := [];
      LateRunsAllAreClosed(script, Reversed(batch), registry.invoked.done, universe);
      failures := RunLateAll(registry.invoked, Reversed(batch), script, universe);
    }
  }
}
