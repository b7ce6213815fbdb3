/** Disposer registries of packages/core/src/graph/lifecycle/disposers.ts and the teardown of
    packages/core/src/graph/lifecycle/cleanup.ts: sibling registries of one ready incarnation share the
    set of disposers already invoked, and disposers may add disposers while a registry is drained. */
module Disposers {
  /** A disposer function, by identity. */
  type Disposer = nat

  datatype Population = ReleaseHook | Ready

  /** What invoking a disposer does until its await ends: what it, or driver work running meanwhile, adds
      to either registry, and whether it throws, rejects or times out. */
  datatype Run = Run(toRelease: seq<Disposer>, toReady: seq<Disposer>, failed: bool)

  type Script = Disposer -> Run

  function AddsTo(run: Run, p: Population): seq<Disposer>
  {
    if p.ReleaseHook? then run.toRelease else run.toReady
  }

  /** Only functions of the universe are ever added. */
  ghost predicate Within(script: Script, universe: set<Disposer>)
  {
    forall d :: d in universe ==> Members(script(d).toRelease) <= universe && Members(script(d).toReady) <= universe
  }

  function Members(s: seq<Disposer>): set<Disposer> { set d | d in s }

  predicate NoRepeats(s: seq<Disposer>) { forall i, j :: 0 <= i < j < |s| ==> s[i] != s[j] }

  function Reversed(s: seq<Disposer>): (r: seq<Disposer>)
    ensures |r| == |s| && Members(r) == Members(s)
  {
    if s == [] then []
    else
      assert s == [s[0]] + s[1..];
      MembersOfJoin([s[0]], s[1..]);
      MembersOfJoin(Reversed(s[1..]), [s[0]]);
      Reversed(s[1..]) + [s[0]]
  }

  // ---------------------------------------------------------------- what a drain runs

  /** The disposers of a batch that are not yet invoked, each once. */
  function Fresh(batch: seq<Disposer>, done: set<Disposer>): seq<Disposer>
  {
    if batch == [] then []
    else if batch[0] in done then Fresh(batch[1..], done)
    else [batch[0]] + Fresh(batch[1..], done + {batch[0]})
  }

  /** Everything the disposers that ran added to a population. */
  function Added(script: Script, p: Population, ran: seq<Disposer>): seq<Disposer>
  {
    if ran == [] then [] else AddsTo(script(ran[0]), p) + Added(script, p, ran[1..])
  }

  lemma {:induction false} FreshFacts(batch: seq<Disposer>, done: set<Disposer>)
    ensures var ran := Fresh(batch, done);
      NoRepeats(ran) && Members(ran) !! done && Members(ran) + done == Members(batch) + done
    decreases |batch|
  {
    if batch != [] {
      var d := batch[0];
      assert batch == [d] + batch[1..];
      assert Members(batch) == {d} + Members(batch[1..]);
      if d in done {
        FreshFacts(batch[1..], done);
      } else {
        FreshFacts(batch[1..], done + {d});
        var rest := Fresh(batch[1..], done + {d});
        assert d !in Members(rest);
        assert Members([d] + rest) == {d} + Members(rest);
      }
    }
  }

  lemma {:induction false} AddedWithin(script: Script, p: Population, ran: seq<Disposer>, universe: set<Disposer>)
    requires Within(script, universe) && Members(ran) <= universe
    ensures Members(Added(script, p, ran)) <= universe
  {
    if ran != [] {
      assert ran[0] in Members(ran);
      assert Members(ran[1..]) <= Members(ran);
      AddedWithin(script, p, ran[1..], universe);
      var first := AddsTo(script(ran[0]), p);
      assert Members(first) <= universe;
      assert Members(first + Added(script, p, ran[1..])) == Members(first) + Members(Added(script, p, ran[1..]));
    }
  }

  /** What draining `list` runs, in order: batch after batch in reverse order of registration, until nothing
      is left.  Either a function not yet invoked runs, or the batch adds nothing. */
  function DrainRuns(script: Script, p: Population, list: seq<Disposer>, done: set<Disposer>,
                     ghost universe: set<Disposer>): seq<Disposer>
    requires Within(script, universe) && Members(list) <= universe
    decreases |universe - done|, |list|
  {
    if list == [] then []
    else
      var ran := Fresh(Reversed(list), done);
      DrainStep(script, p, list, done, universe);
      ran + DrainRuns(script, p, Added(script, p, ran), done + Members(ran), universe)
  }

  lemma {:induction false} ReversedAt(s: seq<Disposer>, k: nat)
    requires k < |s|
    ensures Reversed(s)[k] == s[|s| - 1 - k]
  {
    if k < |s| - 1 {
      ReversedAt(s[1..], k);
    }
  }

  /** Somewhere in the runs `e` comes and later `d`. */
  predicate RunsBefore(ran: seq<Disposer>, e: Disposer, d: Disposer)
  {
    exists i, j :: 0 <= i < j < |ran| && ran[i] == e && ran[j] == d
  }

  /** Of two functions not invoked yet, the one that comes first in the batch runs first. */
  lemma {:induction false} FreshInOrder(batch: seq<Disposer>, done: set<Disposer>, k: nat, d: Disposer)
    requires k < |batch| && batch[k] !in done && d in batch && d !in done && d !in batch[..k + 1]
    ensures RunsBefore(Fresh(batch, done), batch[k], d)
  {
    var e, x := batch[k], batch[0];
    assert batch == [x] + batch[1..];
    assert x == batch[..k + 1][0];
    if x == e {
      var rest := Fresh(batch[1..], done + {x});
      FreshFacts(batch[1..], done + {x});
      assert d in Members(rest);
      var j :| 0 <= j < |rest| && rest[j] == d;
      assert ([x] + rest)[0] == e && ([x] + rest)[j + 1] == d;
    } else {
      assert forall i :: 0 <= i < k ==> batch[1..][..k][i] == batch[..k + 1][i + 1];
      FreshInOrder(batch[1..], if x in done then done else done + {x}, k - 1, d);
      if x !in done {
        RunsBeforeUnder(x, Fresh(batch[1..], done + {x}), e, d);
      }
    }
  }

  lemma RunsBeforeUnder(x: Disposer, rest: seq<Disposer>, e: Disposer, d: Disposer)
    requires RunsBefore(rest, e, d)
    ensures RunsBefore([x] + rest, e, d)
  {
    var i, j :| 0 <= i < j < |rest| && rest[i] == e && rest[j] == d;
    assert ([x] + rest)[i + 1] == e && ([x] + rest)[j + 1] == d;
  }

  /** Disposers run in reverse order of registration: of two functions not invoked yet, the one registered after all
      registrations of the other runs before it. */
  lemma RunsInReverse(script: Script, p: Population, list: seq<Disposer>, done: set<Disposer>, universe: set<Disposer>,
                      k: nat, d: Disposer)
    requires Within(script, universe) && Members(list) <= universe
    requires k < |list| && list[k] !in done && d in list && d !in done && d !in list[k..]
    ensures RunsBefore(DrainRuns(script, p, list, done, universe), list[k], d)
  {
    var batch, n := Reversed(list), |list| - 1 - k;
    ReversedAt(list, n);
    forall i | 0 <= i <= n ensures batch[i] in list[k..] {
      ReversedAt(list, i);
      assert batch[i] == list[k..][n - i];
    }
    assert d in Members(batch);
    FreshInOrder(batch, done, n, d);
    DrainStep(script, p, list, done, universe);
    var ran := Fresh(batch, done);
    var more := DrainRuns(script, p, Added(script, p, ran), done + Members(ran), universe);
    var i, j :| 0 <= i < j < |ran| && ran[i] == list[k] && ran[j] == d;
    assert (ran + more)[i] == list[k] && (ran + more)[j] == d;
  }

  lemma DrainStep(script: Script, p: Population, list: seq<Disposer>, done: set<Disposer>, universe: set<Disposer>)
    requires Within(script, universe) && Members(list) <= universe && list != []
    ensures var ran := Fresh(Reversed(list), done);
      && Members(ran) <= universe && Members(ran) !! done
      && Members(Added(script, p, ran)) <= universe
      && (|universe - (done + Members(ran))| < |universe - done|
          || (|universe - (done + Members(ran))| == |universe - done| && |Added(script, p, ran)| < |list|))
  {
    var ran := Fresh(Reversed(list), done);
    FreshFacts(Reversed(list), done);
    assert Members(ran) <= Members(list);
    AddedWithin(script, p, ran, universe);
    if ran == [] {
      assert done + Members(ran) == done;
    } else {
      assert ran[0] in Members(ran);
      Shrinks(universe - (done + Members(ran)), universe - done, ran[0]);
    }
  }

  lemma Shrinks(small: set<Disposer>, large: set<Disposer>, d: Disposer)
    requires small <= large && d in large && d !in small
    ensures |small| < |large|
  {
    assert small <= large - {d};
    Monotone(small, large - {d});
  }

  lemma {:induction false} Monotone(small: set<Disposer>, large: set<Disposer>)
    requires small <= large
    ensures |small| <= |large|
  {
    if small != {} {
      var d :| d in small;
      Monotone(small - {d}, large - {d});
    }
  }

  lemma MembersOfJoin(a: seq<Disposer>, b: seq<Disposer>)
    ensures Members(a + b) == Members(a) + Members(b)
  {
  }

  lemma NoRepeatsJoin(a: seq<Disposer>, b: seq<Disposer>)
    requires NoRepeats(a) && NoRepeats(b) && Members(a) !! Members(b)
    ensures NoRepeats(a + b)
  {
    forall i, j | 0 <= i < j < |a + b| ensures (a + b)[i] != (a + b)[j] {
      if i < |a| <= j {
        assert a[i] in Members(a) && b[j - |a|] in Members(b);
      }
    }
  }

  lemma {:induction false} AddedJoin(script: Script, p: Population, a: seq<Disposer>, b: seq<Disposer>)
    ensures Added(script, p, a + b) == Added(script, p, a) + Added(script, p, b)
  {
    if a == [] {
      assert a + b == b;
    } else {
      assert (a + b)[1..] == a[1..] + b;
      AddedJoin(script, p, a[1..], b);
    }
  }

  /** What holds of the functions that one drain ran. */
  ghost predicate Complete(script: Script, p: Population, list: seq<Disposer>, done: set<Disposer>, ran: seq<Disposer>)
  {
    && NoRepeats(ran) && Members(ran) !! done
    && Members(list) <= done + Members(ran)
    && Members(Added(script, p, ran)) <= done + Members(ran)
  }

  lemma CompleteJoin(script: Script, p: Population, list: seq<Disposer>, done: set<Disposer>,
                     ran: seq<Disposer>, rest: seq<Disposer>)
    requires NoRepeats(ran) && Members(ran) !! done && Members(list) <= done + Members(ran)
    requires Complete(script, p, Added(script, p, ran), done + Members(ran), rest)
    ensures Complete(script, p, list, done, ran + rest)
  {
    NoRepeatsJoin(ran, rest);
    MembersOfJoin(ran, rest);
    AddedJoin(script, p, ran, rest);
    MembersOfJoin(Added(script, p, ran), Added(script, p, rest));
  }

  /** A drain runs each function at most once and none already invoked; everything listed, and everything
      added on the way, has been invoked when it ends. */
  lemma {:induction false} DrainIsComplete(script: Script, p: Population, list: seq<Disposer>, done: set<Disposer>,
                                           universe: set<Disposer>)
    requires Within(script, universe) && Members(list) <= universe
    ensures Complete(script, p, list, done, DrainRuns(script, p, list, done, universe))
    decreases |universe - done|, |list|
  {
    if list != [] {
      var ran := Fresh(Reversed(list), done);
      var more := Added(script, p, ran);
      DrainStep(script, p, list, done, universe);
      FreshFacts(Reversed(list), done);
      DrainIsComplete(script, p, more, done + Members(ran), universe);
      CompleteJoin(script, p, list, done, ran, DrainRuns(script, p, more, done + Members(ran), universe));
    }
  }

  /** Nothing runs that was not listed or added: every set that holds the list and all that its members add
      holds whatever runs. */
  lemma {:induction false} DrainIsLeast(script: Script, p: Population, list: seq<Disposer>, done: set<Disposer>,
                                        universe: set<Disposer>, closed: set<Disposer>)
    requires Within(script, universe) && Members(list) <= universe
    requires Members(list) <= closed && forall d :: d in closed ==> Members(AddsTo(script(d), p)) <= closed
    ensures Members(DrainRuns(script, p, list, done, universe)) <= closed
    decreases |universe - done|, |list|
  {
    if list != [] {
      var ran := Fresh(Reversed(list), done);
      DrainStep(script, p, list, done, universe);
      FreshFacts(Reversed(list), done);
      AddedClosed(script, p, ran, closed);
      DrainIsLeast(script, p, Added(script, p, ran), done + Members(ran), universe, closed);
      MembersOfJoin(ran, DrainRuns(script, p, Added(script, p, ran), done + Members(ran), universe));
    }
  }

  lemma {:induction false} AddedClosed(script: Script, p: Population, ran: seq<Disposer>, closed: set<Disposer>)
    requires Members(ran) <= closed && forall d :: d in closed ==> Members(AddsTo(script(d), p)) <= closed
    ensures Members(Added(script, p, ran)) <= closed
  {
    if ran != [] {
      assert ran[0] in Members(ran);
      assert Members(ran[1..]) <= Members(ran);
      AddedClosed(script, p, ran[1..], closed);
      MembersOfJoin(AddsTo(script(ran[0]), p), Added(script, p, ran[1..]));
    }
  }

  /** The disposers that failed, in the order they ran. */
  function Failures(script: Script, ran: seq<Disposer>): seq<Disposer>
  {
    if ran == [] then []
    else if script(ran[0]).failed then [ran[0]] + Failures(script, ran[1..])
    else Failures(script, ran[1..])
  }

  lemma {:induction false} FailuresJoin(script: Script, a: seq<Disposer>, b: seq<Disposer>)
    ensures Failures(script, a + b) == Failures(script, a) + Failures(script, b)
  {
    if a == [] {
      assert a + b == b;
    } else {
      assert (a + b)[1..] == a[1..] + b;
      FailuresJoin(script, a[1..], b);
    }
  }

  // ---------------------------------------------------------------- the registries

  /** One registry of an incarnation: what is listed, everything ever added, and whether a drain settled it. */
  datatype Listing = Listing(list: seq<Disposer>, added: seq<Disposer>, settled: bool) {
    function Append(disposers: seq<Disposer>): Listing
    {
      Listing(list + disposers, added + disposers, settled)
    }
  }

  /** A registry, its sibling, and the invocations of the incarnation in order. */
  datatype View = View(mine: Listing, sibling: Listing, done: set<Disposer>, runs: seq<Disposer>)

  /** No function ran twice, and those that ran are the invoked ones. */
  ghost predicate OnceOnly(v: View)
  {
    NoRepeats(v.runs) && v.done == Members(v.runs)
  }

  /** Once-only invocations, and everything ever added to either registry is still listed or was invoked. */
  ghost predicate Accounted(v: View)
  {
    OnceOnly(v) && AllAccounted(v.mine, v.done) && AllAccounted(v.sibling, v.done)
  }

  ghost predicate AllAccounted(l: Listing, done: set<Disposer>) { Members(l.added) <= Members(l.list) + done }

  lemma AccountedAppend(l: Listing, disposers: seq<Disposer>, done: set<Disposer>, more: set<Disposer>)
    requires AllAccounted(l, done) && done <= more
    ensures AllAccounted(l.Append(disposers), more)
  {
    MembersOfJoin(l.list, disposers);
    MembersOfJoin(l.added, disposers);
  }

  /** Running functions that had not run keeps the account. */
  lemma AccountedAfterRunning(v: View, script: Script, p: Population, ran: seq<Disposer>)
    requires Accounted(v) && NoRepeats(ran) && Members(ran) !! v.done
    ensures Accounted(AfterRunning(v, script, p, ran))
  {
    NoRepeatsJoin(v.runs, ran);
    MembersOfJoin(v.runs, ran);
    AccountedAppend(v.mine, Added(script, p, ran), v.done, v.done + Members(ran));
    AccountedAppend(v.sibling, Added(script, Other(p), ran), v.done, v.done + Members(ran));
  }

  /** So does a drain, which leaves nothing listed: all it found or got on the way was invoked. */
  lemma AccountedDrained(v: View, script: Script, p: Population, universe: set<Disposer>)
    requires Accounted(v) && Within(script, universe) && Members(v.mine.list) <= universe
    ensures Accounted(Drained(v, script, p, DrainRuns(script, p, v.mine.list, v.done, universe)))
  {
    var ran := DrainRuns(script, p, v.mine.list, v.done, universe);
    DrainIsComplete(script, p, v.mine.list, v.done, universe);
    AccountedAfterRunning(v, script, p, ran);
    MembersOfJoin(v.mine.list, Added(script, p, ran));
  }

  ghost function AfterRunning(v: View, script: Script, p: Population, ran: seq<Disposer>): View
  {
    View(v.mine.Append(Added(script, p, ran)), v.sibling.Append(Added(script, Other(p), ran)),
         v.done + Members(ran), v.runs + ran)
  }

  function Other(p: Population): Population { if p.Ready? then ReleaseHook else Ready }

  lemma ListingJoin(l: Listing, a: seq<Disposer>, b: seq<Disposer>)
    ensures l.Append(a).Append(b) == l.Append(a + b)
  {
    assert (l.list + a) + b == l.list + (a + b);
    assert (l.added + a) + b == l.added + (a + b);
  }

  lemma AfterRunningJoin(v: View, script: Script, p: Population, a: seq<Disposer>, b: seq<Disposer>)
    ensures AfterRunning(AfterRunning(v, script, p, a), script, p, b) == AfterRunning(v, script, p, a + b)
  {
    ListingAfterJoin(v.mine, script, p, a, b);
    ListingAfterJoin(v.sibling, script, Other(p), a, b);
    RunsJoin(v, a, b);
  }

  lemma ListingAfterJoin(l: Listing, script: Script, p: Population, a: seq<Disposer>, b: seq<Disposer>)
    ensures l.Append(Added(script, p, a)).Append(Added(script, p, b)) == l.Append(Added(script, p, a + b))
  {
    AddedJoin(script, p, a, b);
    ListingJoin(l, Added(script, p, a), Added(script, p, b));
  }

  lemma RunsJoin(v: View, a: seq<Disposer>, b: seq<Disposer>)
    ensures v.runs + a + b == v.runs + (a + b) && v.done + Members(a) + Members(b) == v.done + Members(a + b)
  {
    MembersOfJoin(a, b);
    Regroup(v.runs, a, b);
  }

  lemma AfterRunningNothing(v: View, script: Script, p: Population)
    ensures AfterRunning(v, script, p, []) == v
  {
    assert v.mine.list + [] == v.mine.list && v.mine.added + [] == v.mine.added;
    assert v.sibling.list + [] == v.sibling.list && v.sibling.added + [] == v.sibling.added;
    assert v.runs + [] == v.runs;
    assert Members([]) == {};
  }

  /** The once-only bookkeeping of one incarnation. */
  class InvokedDisposers {
    var done: set<Disposer>
    ghost var runs: seq<Disposer>  // every invocation, in order

    constructor ()
      ensures Once() && done == {} && runs == []
    {
      done, runs := {}, [];
    }

    ghost predicate Once()
      reads this
    {
      NoRepeats(runs) && done == Members(runs)
    }
  }

  class DisposerRegistry {
    const population: Population
    const invoked: InvokedDisposers
    var list: seq<Disposer>
    var settled: bool
    ghost var added: seq<Disposer>  // everything ever added

    constructor (population: Population, invoked: InvokedDisposers)
      ensures this.population == population && this.invoked == invoked
      ensures Contents() == Listing([], [], false) && (invoked.Once() ==> Valid())
    {
      this.population, this.invoked := population, invoked;
      list, settled, added := [], false, [];
    }

    ghost function Contents(): Listing
      reads this
    {
      Listing(list, added, settled)
    }

    /** Nothing ran twice, and nothing added is lost: it is listed or was invoked. */
    ghost predicate Valid()
      reads this, invoked
    {
      invoked.Once() && AllAccounted(Contents(), invoked.done)
    }

    ghost predicate Siblings(other: DisposerRegistry)
    {
      this != other && invoked == other.invoked && other.population == Other(population)
    }

    ghost function State(other: DisposerRegistry): View
      reads this, other, invoked
    {
      View(Contents(), other.Contents(), invoked.done, invoked.runs)
    }

    method Append(disposers: seq<Disposer>)
      modifies this
      ensures Contents() == old(Contents()).Append(disposers) && (old(Valid()) ==> Valid())
    {
      if Valid() {
        AccountedAppend(Contents(), disposers, invoked.done, invoked.done);
      }
      list := list + disposers;
      added := added + disposers;
    }

    /** `invokeDisposerOnce`, with what happens until its await ends. */
    method InvokeDisposerOnce(disposer: Disposer, other: DisposerRegistry, script: Script) returns (failed: bool)
      requires Siblings(other)
      modifies this, other, invoked
      ensures old(disposer in invoked.done) ==> !failed && State(other) == old(State(other))
      ensures old(disposer !in invoked.done) ==> failed == script(disposer).failed
      ensures old(disposer !in invoked.done) ==>
        State(other) == AfterRunning(old(State(other)), script, population, [disposer])
      ensures old(Valid() && other.Valid()) ==> Valid() && other.Valid()
    {
      failed := false;
      ghost var start, valid := State(other), Valid() && other.Valid();
      if disposer !in invoked.done {
        invoked.done := invoked.done + {disposer};
        invoked.runs := invoked.runs + [disposer];
        Append(AddsTo(script(disposer), population));
        other.Append(AddsTo(script(disposer), other.population));
        failed := script(disposer).failed;
        AddedOfOne(script, population, disposer);
        AddedOfOne(script, other.population, disposer);
        assert Members([disposer]) == {disposer};
        if valid {
          AccountedAfterRunning(start, script, population, [disposer]);
        }
      }
    }

    /** `runDisposers`: reverse registration order, one after the other, whatever fails. */
    method RunDisposers(batch: seq<Disposer>, other: DisposerRegistry, script: Script) returns (failures: seq<Disposer>)
      requires Siblings(other)
      modifies this, other, invoked
      ensures var ran := Fresh(Reversed(batch), old(invoked.done));
        State(other) == AfterRunning(old(State(other)), script, population, ran) && failures == Failures(script, ran)
    {
      var order := Reversed(batch);
      failures := [];
      ghost var start := State(other);
      ghost var ran: seq<Disposer> := [];
      AfterRunningNothing(start, script, population);
      for i := 0 to |order|
        invariant State(other) == AfterRunning(start, script, population, ran) && failures == Failures(script, ran)
        invariant Fresh(order, start.done) == ran + Fresh(order[i..], State(other).done)
      {
        FreshStep(order, i, start.done, ran, invoked.done);
        ghost var isNew := order[i] !in invoked.done;
        var failed := InvokeDisposerOnce(order[i], other, script);
        if failed {
          failures := failures + [order[i]];
        }
        if isNew {
          AfterRunningJoin(start, script, population, ran, [order[i]]);
          FailuresJoin(script, ran, [order[i]]);
          assert Members([order[i]]) == {order[i]};
          ran := ran + [order[i]];
        }
      }
      assert ran + [] == ran;
    }

    /** `drain`: loops until nothing is left, then settles.  Terminates although disposers add disposers. */
    method Drain(other: DisposerRegistry, script: Script, ghost universe: set<Disposer>)
      returns (failures: seq<Disposer>)
      requires Siblings(other) && Within(script, universe) && Members(list) <= universe
      modifies this, other, invoked
      ensures var ran := DrainRuns(script, population, old(list), old(invoked.done), universe);
        && State(other) == Drained(old(State(other)), script, population, ran)
        && failures == Failures(script, ran)
      ensures old(Valid() && other.Valid()) ==> Valid() && other.Valid()
    {
      ghost var start, valid := State(other), Valid() && other.Valid();
      failures := DrainList(other, script, universe);
      if valid {
        AccountedDrained(start, script, population, universe);
      }
    }

    method DrainList(other: DisposerRegistry, script: Script, ghost universe: set<Disposer>)
      returns (failures: seq<Disposer>)
      requires Siblings(other) && Within(script, universe) && Members(list) <= universe
      modifies this, other, invoked
      ensures var ran := DrainRuns(script, population, old(list), old(invoked.done), universe);
        && State(other) == Drained(old(State(other)), script, population, ran)
        && failures == Failures(script, ran)
    {
      failures := [];
      ghost var start := State(other);
      ghost var ran: seq<Disposer> := [];
      DrainedNothing(start, script, population);
      while |list| > 0
        invariant Members(list) <= universe && failures == Failures(script, ran)
        invariant Emptied(State(other)) == Emptied(AfterRunning(start, script, population, ran))
        invariant DrainRuns(script, population, start.mine.list, start.done, universe)
               == ran + DrainRuns(script, population, State(other).mine.list, State(other).done, universe)
        decreases |universe - invoked.done|, |list|
      {
        var batch := list;
        ghost var next := Fresh(Reversed(batch), invoked.done);
        DrainTurn(start, State(other), script, population, ran, universe);
        FailuresJoin(script, ran, next);
        list := [];
        var batchFailures := RunDisposers(batch, other, script);
        failures := failures + batchFailures;
        ran := ran + next;
      }
      settled := true;
      assert ran + [] == ran;
    }
  }

  /** The view with the own list taken away. */
  ghost function Emptied(v: View): View
  {
    v.(mine := v.mine.(list := []))
  }

  ghost function Drained(v: View, script: Script, p: Population, ran: seq<Disposer>): View
  {
    var after := AfterRunning(v, script, p, ran);
    after.(mine := Listing([], after.mine.added, true))
  }

  lemma DrainedNothing(v: View, script: Script, p: Population)
    ensures Emptied(AfterRunning(v, script, p, [])) == Emptied(v)
  {
    AfterRunningNothing(v, script, p);
  }

  /** Taking the batch off the list first changes only what is left listed. */
  lemma DrainedJoin(start: View, now: View, script: Script, p: Population, ran: seq<Disposer>, next: seq<Disposer>)
    requires Emptied(now) == Emptied(AfterRunning(start, script, p, ran))
    ensures var after := AfterRunning(Emptied(now), script, p, next);
      && after.mine.list == Added(script, p, next) && after.done == now.done + Members(next)
      && Emptied(after) == Emptied(AfterRunning(start, script, p, ran + next))
  {
    AfterRunningJoin(start, script, p, ran, next);
    assert [] + Added(script, p, next) == Added(script, p, next);
  }

  /** One turn of the drain loop: the batch leaves the list and runs. */
  lemma DrainTurn(start: View, now: View, script: Script, p: Population, ran: seq<Disposer>, universe: set<Disposer>)
    requires Within(script, universe) && Members(start.mine.list) <= universe && Members(now.mine.list) <= universe
    requires now.mine.list != [] && Emptied(now) == Emptied(AfterRunning(start, script, p, ran))
    requires DrainRuns(script, p, start.mine.list, start.done, universe)
          == ran + DrainRuns(script, p, now.mine.list, now.done, universe)
    ensures var next := Fresh(Reversed(now.mine.list), now.done);
      var after := AfterRunning(Emptied(now), script, p, next);
      && Members(after.mine.list) <= universe
      && Emptied(after) == Emptied(AfterRunning(start, script, p, ran + next))
      && DrainRuns(script, p, start.mine.list, start.done, universe)
         == (ran + next) + DrainRuns(script, p, after.mine.list, after.done, universe)
      && (|universe - after.done| < |universe - now.done|
          || (|universe - after.done| == |universe - now.done| && |after.mine.list| < |now.mine.list|))
  {
    DrainStep(script, p, now.mine.list, now.done, universe);
    DrainRunsUnfold(script, p, now.mine.list, now.done, universe, ran);
    DrainedJoin(start, now, script, p, ran, Fresh(Reversed(now.mine.list), now.done));
  }

  lemma FreshStep(order: seq<Disposer>, i: nat, start: set<Disposer>, ran: seq<Disposer>, done: set<Disposer>)
    requires i < |order| && Fresh(order, start) == ran + Fresh(order[i..], done)
    ensures order[i] in done ==> Fresh(order, start) == ran + Fresh(order[i + 1..], done)
    ensures order[i] !in done ==> Fresh(order, start) == (ran + [order[i]]) + Fresh(order[i + 1..], done + {order[i]})
  {
    assert order[i..][1..] == order[i + 1..];
    if order[i] !in done {
      var rest := Fresh(order[i + 1..], done + {order[i]});
      assert ran + ([order[i]] + rest) == (ran + [order[i]]) + rest;
    }
  }

  lemma DrainRunsUnfold(script: Script, p: Population, list: seq<Disposer>, done: set<Disposer>,
                        universe: set<Disposer>, ran: seq<Disposer>)
    requires Within(script, universe) && Members(list) <= universe && list != []
    ensures var next := Fresh(Reversed(list), done);
      && Members(Added(script, p, next)) <= universe
      && ran + DrainRuns(script, p, list, done, universe)
         == (ran + next) + DrainRuns(script, p, Added(script, p, next), done + Members(next), universe)
  {
    var next := Fresh(Reversed(list), done);
    DrainStep(script, p, list, done, universe);
    var rest := DrainRuns(script, p, Added(script, p, next), done + Members(next), universe);
    assert ran + (next + rest) == (ran + next) + rest;
  }

  lemma AddedOfOne(script: Script, p: Population, d: Disposer)
    ensures Added(script, p, [d]) == AddsTo(script(d), p)
  {
    assert Added(script, p, [d]) == AddsTo(script(d), p) + [];
  }

  // ---------------------------------------------------------------- the teardown of ready data

  /** The invocations of a teardown: the release hook's registry, then the ready registry. */
  ghost function HookRuns(script: Script, hook: Run, done: set<Disposer>, universe: set<Disposer>): seq<Disposer>
    requires Within(script, universe) && Members(hook.toRelease) <= universe
  {
    DrainRuns(script, ReleaseHook, hook.toRelease, done, universe)
  }

  /** What the ready registry lists once the release hook's registry has drained. */
  ghost function ReadyList(script: Script, hook: Run, list: seq<Disposer>, first: seq<Disposer>): seq<Disposer>
  {
    list + hook.toReady + Added(script, Ready, first)
  }

  lemma ReadyListWithin(script: Script, hook: Run, list: seq<Disposer>, done: set<Disposer>, universe: set<Disposer>)
    requires Within(script, universe) && Members(list) <= universe
    requires Members(hook.toRelease) <= universe && Members(hook.toReady) <= universe
    ensures var first := HookRuns(script, hook, done, universe);
      Members(ReadyList(script, hook, list, first)) <= universe
  {
    var first := HookRuns(script, hook, done, universe);
    DrainIsLeast(script, ReleaseHook, hook.toRelease, done, universe, universe);
    AddedWithin(script, Ready, first, universe);
    MembersOfJoin(list, hook.toReady);
    MembersOfJoin(list + hook.toReady, Added(script, Ready, first));
  }

  /** What a teardown finds: functions of the universe only, none run twice, and of what was added to the ready
      registry before, everything run or still listed. */
  ghost predicate TeardownInputs(script: Script, hook: Run, before: View, universe: set<Disposer>)
  {
    && OnceOnly(before) && Within(script, universe) && Members(before.mine.list) <= universe
    && Members(before.mine.added) <= Members(before.mine.list) + before.done
    && Members(hook.toRelease) <= universe && Members(hook.toReady) <= universe
  }

  ghost function ReadyRuns(script: Script, hook: Run, before: View, universe: set<Disposer>): seq<Disposer>
    requires TeardownInputs(script, hook, before, universe)
  {
    ReadyListWithin(script, hook, before.mine.list, before.done, universe);
    var first := HookRuns(script, hook, before.done, universe);
    DrainRuns(script, Ready, ReadyList(script, hook, before.mine.list, first), before.done + Members(first), universe)
  }

  /** What a teardown leaves: everything ever added to the ready registry ran, and so did everything the release
      hook's registry got before it settled; what that registry got later is still listed. */
  ghost predicate TornDown(script: Script, hook: Run, before: View, universe: set<Disposer>, after: View,
                           failures: seq<Disposer>)
    requires TeardownInputs(script, hook, before, universe)
  {
    TornDownBy(script, hook, before, after, failures,
               HookRuns(script, hook, before.done, universe), ReadyRuns(script, hook, before, universe))
  }

  ghost predicate TornDownBy(script: Script, hook: Run, before: View, after: View, failures: seq<Disposer>,
                             first: seq<Disposer>, second: seq<Disposer>)
  {
    && after.runs == before.runs + (first + second) && after.done == before.done + Members(first) + Members(second)
    && failures == Failures(script, first + second)
    && after.mine.settled && after.mine.list == []
    && after.mine.added == before.mine.added + hook.toReady + Added(script, Ready, first + second)
    && Members(after.mine.added) <= after.done
    && after.sibling.settled && after.sibling.list == Added(script, ReleaseHook, second)
    && after.sibling.added == hook.toRelease + Added(script, ReleaseHook, first) + after.sibling.list
    && Members(hook.toRelease + Added(script, ReleaseHook, first)) <= after.done
  }

  lemma TeardownLeaves(script: Script, hook: Run, before: View, universe: set<Disposer>)
    returns (first: seq<Disposer>, second: seq<Disposer>)
    requires TeardownInputs(script, hook, before, universe)
    ensures first == HookRuns(script, hook, before.done, universe)
    ensures second == ReadyRuns(script, hook, before, universe)
    ensures Members(ReadyList(script, hook, before.mine.list, first)) <= universe
    ensures second == DrainRuns(script, Ready, ReadyList(script, hook, before.mine.list, first),
                                before.done + Members(first), universe)
    ensures NoRepeats(before.runs + (first + second))
    ensures Members(before.runs + (first + second)) == before.done + Members(first) + Members(second)
    ensures Members(hook.toRelease + Added(script, ReleaseHook, first)) <= before.done + Members(first)
    ensures Members(before.mine.added + hook.toReady + Added(script, Ready, first + second))
         <= before.done + Members(first) + Members(second)
  {
    first := HookRuns(script, hook, before.done, universe);
    ReadyListWithin(script, hook, before.mine.list, before.done, universe);
    var list := ReadyList(script, hook, before.mine.list, first);
    var done := before.done + Members(first);
    second := DrainRuns(script, Ready, list, done, universe);
    DrainIsComplete(script, ReleaseHook, hook.toRelease, before.done, universe);
    DrainIsComplete(script, Ready, list, done, universe);
    JoinedRuns(before, first, second);
    MembersOfJoin(hook.toRelease, Added(script, ReleaseHook, first));
    AddedJoin(script, Ready, first, second);
    MembersOfJoin(Added(script, Ready, first), Added(script, Ready, second));
    MembersOfJoin(before.mine.list, hook.toReady);
    MembersOfJoin(before.mine.list + hook.toReady, Added(script, Ready, first));
    MembersOfJoin(before.mine.added, hook.toReady);
    MembersOfJoin(before.mine.added + hook.toReady, Added(script, Ready, first + second));
  }

  lemma JoinedRuns(before: View, first: seq<Disposer>, second: seq<Disposer>)
    requires OnceOnly(before) && NoRepeats(first) && NoRepeats(second)
    requires Members(first) !! before.done && Members(second) !! (before.done + Members(first))
    ensures NoRepeats(before.runs + (first + second))
    ensures Members(before.runs + (first + second)) == before.done + Members(first) + Members(second)
  {
    MembersOfJoin(first, second);
    NoRepeatsJoin(first, second);
    NoRepeatsJoin(before.runs, first + second);
    MembersOfJoin(before.runs, first + second);
  }

  /** `teardownReadyData` after the live stop: the release hook with its own registry, then the ready
      registry.  What reaches the hook's registry after its drain settled stays listed. */
  method TeardownReadyData(ready: DisposerRegistry, hook: Run, script: Script, ghost universe: set<Disposer>)
    returns (failures: seq<Disposer>, released: DisposerRegistry)
    requires ready.population.Ready? && Within(script, universe) && Members(ready.list) <= universe
    requires ready.Valid()
    requires Members(hook.toRelease) <= universe && Members(hook.toReady) <= universe
    modifies ready, ready.invoked
    ensures fresh(released) && ready.Siblings(released) && ready.Valid() && released.Valid()
    ensures
      var before := View(old(ready.Contents()), Listing([], [], false),
                         old(ready.invoked.done), old(ready.invoked.runs));
      && TeardownInputs(script, hook, before, universe)
      && TornDown(script, hook, before, universe, ready.State(released), failures)
  {
    released := new DisposerRegistry(ReleaseHook, ready.invoked);
    ghost var before := ready.State(released);
    ghost var first, second := TeardownLeaves(script, hook, before, universe);
    released.Append(hook.toRelease);
    ready.Append(hook.toReady);
    ghost var hooked := ready.State(released);
    assert hooked == Hooked(before, hook);
    assert released.State(ready) == Swapped(hooked);
    assert released.list == hook.toRelease && released.population == ReleaseHook;
    failures := released.Drain(ready, script, universe);
    ghost var middle := ready.State(released);
    assert released.State(ready) == Drained(Swapped(hooked), script, ReleaseHook, first);
    assert middle == Swapped(released.State(ready));
    assert ready.list == ReadyList(script, hook, before.mine.list, first);
    var readyFailures := ready.Drain(released, script, universe);
    assert ready.State(released) == Drained(middle, script, Ready, second);
    FailuresJoin(script, first, second);
    failures := failures + readyFailures;
    TeardownShape(script, hook, before, first, second);
    assert TornDownBy(script, hook, before, ready.State(released), failures, first, second);
  }

  ghost function Hooked(v: View, hook: Run): View
  {
    v.(mine := v.mine.Append(hook.toReady), sibling := v.sibling.Append(hook.toRelease))
  }

  ghost function Swapped(v: View): View
  {
    v.(mine := v.sibling, sibling := v.mine)
  }

  lemma AddedInTwo(script: Script, added: seq<Disposer>, first: seq<Disposer>, second: seq<Disposer>)
    ensures added + Added(script, Ready, first) + Added(script, Ready, second)
         == added + Added(script, Ready, first + second)
  {
    AddedJoin(script, Ready, first, second);
  }

  lemma Regroup(a: seq<Disposer>, b: seq<Disposer>, c: seq<Disposer>)
    ensures (a + b) + c == a + (b + c)
  {
  }

  lemma NothingBefore(a: seq<Disposer>)
    ensures [] + a == a
  {
  }

  lemma TeardownShape(script: Script, hook: Run, before: View, first: seq<Disposer>, second: seq<Disposer>)
    requires before.sibling == Listing([], [], false)
    ensures var after := Drained(Swapped(Drained(Swapped(Hooked(before, hook)), script, ReleaseHook, first)),
                                 script, Ready, second);
      var early := hook.toRelease + Added(script, ReleaseHook, first);
      var late := Added(script, ReleaseHook, second);
      && after.runs == before.runs + (first + second) && after.done == before.done + Members(first) + Members(second)
      && after.mine == Listing([], before.mine.added + hook.toReady + Added(script, Ready, first + second), true)
      && after.sibling == Listing(late, early + late, true)
  {
    AddedInTwo(script, before.mine.added + hook.toReady, first, second);
    Regroup(before.runs, first, second);
    NothingBefore(hook.toRelease);
    NothingBefore(Added(script, ReleaseHook, second));
  }

  lemma {:induction false} AddedWithinIff(script: Script, p: Population, ran: seq<Disposer>, within: set<Disposer>)
    ensures Members(Added(script, p, ran)) <= within
       <==> forall d :: d in ran ==> Members(AddsTo(script(d), p)) <= within
  {
    if ran != [] {
      AddedWithinIff(script, p, ran[1..], within);
      MembersOfJoin(AddsTo(script(ran[0]), p), Added(script, p, ran[1..]));
      assert ran == [ran[0]] + ran[1..];
    }
  }

  // ---------------------------------------------------------------- what is reached, from the inputs alone

  /** `path` leads from `start` through additions to population `p`, never through a function of `avoid`. */
  ghost predicate IsPath(script: Script, p: Population, start: iset<Disposer>, avoid: iset<Disposer>,
                         path: seq<Disposer>)
  {
    && path != [] && path[0] in start && (forall i :: 0 <= i < |path| ==> path[i] !in avoid)
    && forall i :: 0 <= i < |path| - 1 ==> path[i + 1] in AddsTo(script(path[i]), p)
  }

  ghost predicate Reaches(script: Script, p: Population, start: iset<Disposer>, avoid: iset<Disposer>, d: Disposer)
  {
    exists path :: IsPath(script, p, start, avoid, path) && path[|path| - 1] == d
  }

  lemma ReachesFirst(script: Script, p: Population, start: iset<Disposer>, avoid: iset<Disposer>, d: Disposer)
    requires d in start && d !in avoid
    ensures Reaches(script, p, start, avoid, d)
  {
    assert IsPath(script, p, start, avoid, [d]) && [d][|[d]| - 1] == d;
  }

  lemma ReachesNext(script: Script, p: Population, start: iset<Disposer>, avoid: iset<Disposer>, d: Disposer,
                    e: Disposer)
    requires Reaches(script, p, start, avoid, d) && e in AddsTo(script(d), p) && e !in avoid
    ensures Reaches(script, p, start, avoid, e)
  {
    var path :| IsPath(script, p, start, avoid, path) && path[|path| - 1] == d;
    var longer := path + [e];
    assert longer[|longer| - 1] == e;
    assert IsPath(script, p, start, avoid, longer);
  }

  lemma {:induction false} AddedBy(script: Script, p: Population, ran: seq<Disposer>, e: Disposer)
    ensures e in Added(script, p, ran) <==> exists d :: d in ran && e in AddsTo(script(d), p)
  {
    if ran != [] {
      AddedBy(script, p, ran[1..], e);
      assert ran == [ran[0]] + ran[1..];
    }
  }

  lemma {:induction false} RunsAreReached(script: Script, p: Population, list: seq<Disposer>, done: set<Disposer>,
                                          universe: set<Disposer>, start: iset<Disposer>, avoid: iset<Disposer>)
    requires Within(script, universe) && Members(list) <= universe
    requires forall d :: d in avoid ==> d in done
    requires forall d :: d in list ==> d in avoid || Reaches(script, p, start, avoid, d)
    ensures forall d :: d in DrainRuns(script, p, list, done, universe) ==> Reaches(script, p, start, avoid, d)
    decreases |universe - done|, |list|
  {
    if list != [] {
      var ran := Fresh(Reversed(list), done);
      DrainStep(script, p, list, done, universe);
      FreshFacts(Reversed(list), done);
      forall d | d in ran ensures Reaches(script, p, start, avoid, d) {
        assert d in Members(ran) && d in Members(list) + done;
      }
      forall e | e in Added(script, p, ran) ensures e in avoid || Reaches(script, p, start, avoid, e) {
        AddedBy(script, p, ran, e);
        var d :| d in ran && e in AddsTo(script(d), p);
        if e !in avoid {
          ReachesNext(script, p, start, avoid, d, e);
        }
      }
      RunsAreReached(script, p, Added(script, p, ran), done + Members(ran), universe, start, avoid);
    }
  }

  lemma {:induction false} PathRuns(script: Script, p: Population, list: seq<Disposer>, done: set<Disposer>,
                                    ran: seq<Disposer>, start: iset<Disposer>, avoid: iset<Disposer>,
                                    path: seq<Disposer>, i: nat)
    requires Complete(script, p, list, done, ran)
    requires (forall d :: d in start ==> d in list) && (forall d :: d in done ==> d in avoid)
    requires IsPath(script, p, start, avoid, path) && i < |path|
    ensures path[i] in ran
  {
    if i == 0 {
      assert path[0] in Members(list);
      assert path[0] in Members(ran);
    } else {
      PathRuns(script, p, list, done, ran, start, avoid, path, i - 1);
      AddedBy(script, p, ran, path[i]);
      assert path[i] in AddsTo(script(path[i - 1]), p);
      assert path[i] in Members(Added(script, p, ran));
      assert path[i] in Members(ran);
    }
  }

  /** A drain runs exactly what can be reached from its list through additions, without passing through a function
      already invoked. */
  lemma RunsIffReached(script: Script, p: Population, list: seq<Disposer>, done: set<Disposer>,
                       universe: set<Disposer>, d: Disposer)
    requires Within(script, universe) && Members(list) <= universe
    ensures d in DrainRuns(script, p, list, done, universe)
       <==> Reaches(script, p, (iset e | e in list), (iset e | e in done), d)
  {
    var start, avoid := (iset e | e in list), (iset e | e in done);
    var ran := DrainRuns(script, p, list, done, universe);
    DrainIsComplete(script, p, list, done, universe);
    if Reaches(script, p, start, avoid, d) {
      var path :| IsPath(script, p, start, avoid, path) && path[|path| - 1] == d;
      PathRuns(script, p, list, done, ran, start, avoid, path, |path| - 1);
    }
    forall e | e in list ensures e in avoid || Reaches(script, p, start, avoid, e) {
      if e !in avoid {
        ReachesFirst(script, p, start, avoid, e);
      }
    }
    RunsAreReached(script, p, list, done, universe, start, avoid);
  }

  /** The release hook's registry runs `d`. */
  ghost predicate HookReaches(script: Script, hook: Run, done: set<Disposer>, d: Disposer)
  {
    Reaches(script, ReleaseHook, (iset e | e in hook.toRelease), (iset e | e in done), d)
  }

  /** The ready registry runs `d`. */
  ghost predicate ReadyReaches(script: Script, hook: Run, list: seq<Disposer>, done: set<Disposer>, d: Disposer)
  {
    Reaches(script, Ready, ReadyStart(script, hook, list, done),
            (iset e | e in done || HookReaches(script, hook, done, e)), d)
  }

  /** What the ready registry starts from: its list, what the hook added to it, and what the disposers of the
      hook's registry added to it. */
  ghost function ReadyStart(script: Script, hook: Run, list: seq<Disposer>, done: set<Disposer>): iset<Disposer>
  {
    iset e | e in list || e in hook.toReady || exists d :: HookReaches(script, hook, done, d) && e in script(d).toReady
  }

  lemma ReadyRunsIffReached(script: Script, hook: Run, before: View, universe: set<Disposer>, d: Disposer)
    requires TeardownInputs(script, hook, before, universe)
    ensures d in ReadyRuns(script, hook, before, universe)
       <==> ReadyReaches(script, hook, before.mine.list, before.done, d)
  {
    var first := HookRuns(script, hook, before.done, universe);
    var list, done := ReadyList(script, hook, before.mine.list, first), before.done + Members(first);
    ReadyListWithin(script, hook, before.mine.list, before.done, universe);
    RunsIffReached(script, Ready, list, done, universe, d);
    ReadyStartIsListed(script, hook, before, universe);
  }

  lemma ReadyStartIsListed(script: Script, hook: Run, before: View, universe: set<Disposer>)
    requires TeardownInputs(script, hook, before, universe)
    ensures var first := HookRuns(script, hook, before.done, universe);
      && (iset e | e in ReadyList(script, hook, before.mine.list, first))
         == ReadyStart(script, hook, before.mine.list, before.done)
      && (iset e | e in before.done + Members(first))
         == (iset e | e in before.done || HookReaches(script, hook, before.done, e))
  {
    var first := HookRuns(script, hook, before.done, universe);
    forall e ensures e in first <==> HookReaches(script, hook, before.done, e) {
      RunsIffReached(script, ReleaseHook, hook.toRelease, before.done, universe, e);
    }
    forall e ensures e in Added(script, Ready, first) <==> exists d :: d in first && e in script(d).toReady {
      AddedBy(script, Ready, first, e);
    }
  }

  /** Told from the inputs of a teardown: everything the release hook's registry ever gets is run exactly when
      every function that a disposer run by the ready registry adds to it has run already or is run by either
      registry anyway.  Nobody asks that registry whether it has settled, as a late addition through an
      operation's bag does. */
  lemma HookAdditionsRanIff(script: Script, hook: Run, before: View, universe: set<Disposer>, after: View,
                            failures: seq<Disposer>)
    requires TeardownInputs(script, hook, before, universe)
    requires TornDown(script, hook, before, universe, after, failures)
    ensures Members(after.sibling.added) <= after.done
       <==> forall d, e :: ReadyReaches(script, hook, before.mine.list, before.done, d) && e in script(d).toRelease ==>
              || e in before.done || HookReaches(script, hook, before.done, e)
              || ReadyReaches(script, hook, before.mine.list, before.done, e)
  {
    var first, second := HookRuns(script, hook, before.done, universe), ReadyRuns(script, hook, before, universe);
    forall d ensures d in second <==> ReadyReaches(script, hook, before.mine.list, before.done, d) {
      ReadyRunsIffReached(script, hook, before, universe, d);
    }
    forall d ensures d in first <==> HookReaches(script, hook, before.done, d) {
      RunsIffReached(script, ReleaseHook, hook.toRelease, before.done, universe, d);
    }
    LateAdditionsDecide(script, hook, before, after, failures, first, second);
    assert forall e :: e in after.done <==> e in before.done || e in first || e in second;
  }

  lemma LateAdditionsDecide(script: Script, hook: Run, before: View, after: View, failures: seq<Disposer>,
                            first: seq<Disposer>, second: seq<Disposer>)
    requires TornDownBy(script, hook, before, after, failures, first, second)
    ensures Members(after.sibling.added) <= after.done
       <==> forall d, e :: d in second && e in script(d).toRelease ==> e in after.done
  {
    MembersOfJoin(hook.toRelease + Added(script, ReleaseHook, first), after.sibling.list);
    AddedWithinIff(script, ReleaseHook, second, after.done);
    if Members(after.sibling.added) <= after.done {
      forall d, e | d in second && e in script(d).toRelease ensures e in after.done {
        assert e in Members(AddsTo(script(d), ReleaseHook));
      }
    }
  }

  lemma DrainOfOne(script: Script, p: Population, d: Disposer, universe: set<Disposer>)
    requires Within(script, universe) && d in universe && AddsTo(script(d), p) == []
    ensures Members([d]) <= universe && DrainRuns(script, p, [d], {}, universe) == [d]
  {
    assert [d][1..] == [] && Members([d]) == {d};
    assert Fresh([d], {}) == [d] + Fresh([d][1..], {d});
    assert Reversed([d]) == Reversed([d][1..]) + [d] == [d];
    AddedOfOne(script, p, d);
    DrainStep(script, p, [d], {}, universe);
  }

  /** A disposer of the ready registry registers another with the release hook's context, after that registry has
      settled: the teardown ends, the addition is listed, and it has not run. */
  lemma LateAdditionIsLost()
    returns (script: Script, hook: Run, before: View, universe: set<Disposer>, after: View, lost: Disposer)
    ensures TeardownInputs(script, hook, before, universe) && TornDown(script, hook, before, universe, after, [])
    ensures lost in after.sibling.added && lost in after.sibling.list && lost !in after.done
  {
    script := d => if d == 1 then Run([2], [], false) else Run([], [], false);
    hook, universe, lost := Run([], [1], false), {1, 2}, 2;
    before := View(Listing([], [], false), Listing([], [], false), {}, []);
    var first := HookRuns(script, hook, {}, universe);
    assert first == [];
    assert ReadyList(script, hook, [], first) == [1];
    assert Members([1]) == {1} && {} + Members([]) == {};
    DrainOfOne(script, Ready, 1, universe);
    assert ReadyRuns(script, hook, before, universe) == [1];
    AddedOfOne(script, Ready, 1);
    AddedOfOne(script, ReleaseHook, 1);
    after := View(Listing([], [1], true), Listing([2], [2], true), {1}, [1]);
    assert Failures(script, [1]) == [];
    assert [] + [] + [2] == [2];
    assert TornDownBy(script, hook, before, after, [], [], [1]);
  }
}
