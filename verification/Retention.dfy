/** The hub's event ring of apps/hub/src/retention.ts and the cursor protocol over it of
    apps/hub/src/mcpReads.ts. */
module Retention {
  import opened Prelude

  const RETAINED_PER_ATTACHMENT := 10000
  const TRIM_SLACK := 512
  const MAX_LIMIT := 200
  const DEFAULT_LIMIT := 50

  datatype Record = Record(
    sequence: nat,
    recordedAt: int,
    tag: string,
    category: string,
    severity: string,
    workId: nat,
    nodeIds: seq<string>,
    channel: Option<string>,
    name: Option<string>)

  datatype Filters = Filters(
    tag: Option<string>,
    category: Option<string>,
    severity: Option<string>,
    workId: Option<nat>,
    nodeId: Option<string>,
    channel: Option<string>,
    name: Option<string>)

  datatype Window = Window(
    records: seq<Record>,
    oldestRetainedSequence: Option<nat>,
    evictedCount: nat,
    hasMore: bool)

  /** `matches`: every filter that is given holds. */
  predicate Matches(r: Record, f: Filters)
  {
    && (f.tag.Some? ==> r.tag == f.tag.value)
    && (f.category.Some? ==> r.category == f.category.value)
    && (f.severity.Some? ==> r.severity == f.severity.value)
    && (f.workId.Some? ==> r.workId == f.workId.value)
    && (f.nodeId.Some? ==> f.nodeId.value in r.nodeIds)
    && (f.channel.Some? ==> r.channel == f.channel)
    && (f.name.Some? ==> r.name == f.name)
  }

  predicate Ascending(records: seq<Record>)
  {
    forall i, j :: 0 <= i < j < |records| ==> records[i].sequence < records[j].sequence
  }

  predicate IsAfter(since: Option<int>, r: Record)
  {
    since.None? || r.sequence > since.value
  }

  predicate Wanted(r: Record, since: Option<int>, f: Filters) { IsAfter(since, r) && Matches(r, f) }

  /** The matching records after `since`, by plain filtering. */
  function Selected(records: seq<Record>, since: Option<int>, f: Filters): (r: seq<Record>)
    ensures |r| <= |records|
  {
    if records == [] then []
    else if Wanted(records[0], since, f) then [records[0]] + Selected(records[1..], since, f)
    else Selected(records[1..], since, f)
  }

  lemma {:induction false} SelectedMembers(records: seq<Record>, since: Option<int>, f: Filters)
    ensures forall x :: x in Selected(records, since, f) <==> x in records && Wanted(x, since, f)
  {
    if records != [] {
      SelectedMembers(records[1..], since, f);
      assert records == [records[0]] + records[1..];
    }
  }

  function OldestOf(records: seq<Record>): Option<nat>
  {
    if records == [] then None else Some(records[0].sequence)
  }

  /** What a read answers, said without any search; a negative limit never cuts. */
  function WindowOf(records: seq<Record>, evicted: nat, since: Option<int>, limit: int, f: Filters): Window
  {
    var all := Selected(records, since, f);
    if 0 <= limit < |all| then Window(all[..limit], OldestOf(records), evicted, true)
    else Window(all, OldestOf(records), evicted, false)
  }

  /** What a filter asks of a record, field by field; one that is not given asks nothing. */
  predicate AskedFor(r: Record, since: Option<int>, f: Filters)
  {
    && (since == None || since.value < r.sequence)
    && (f.tag == None || f.tag == Some(r.tag)) && (f.category == None || f.category == Some(r.category))
    && (f.severity == None || f.severity == Some(r.severity)) && (f.workId == None || f.workId == Some(r.workId))
    && (f.nodeId == None || exists i :: 0 <= i < |r.nodeIds| && f.nodeId == Some(r.nodeIds[i]))
    && (f.channel == None || (r.channel.Some? && f.channel == r.channel))
    && (f.name == None || (r.name.Some? && f.name == r.name))
  }

  /** A read holds the retained records that are asked for and no others, all of them unless the limit cuts it. */
  lemma AnsweredIff(records: seq<Record>, evicted: nat, since: Option<int>, limit: int, f: Filters, r: Record)
    ensures var w := WindowOf(records, evicted, since, limit, f);
      && (r in w.records ==> r in records && AskedFor(r, since, f))
      && (r in records && AskedFor(r, since, f) && !w.hasMore ==> r in w.records)
      && (w.hasMore ==> |w.records| == limit)
      && (limit >= 0 ==> |w.records| <= limit)
  {
    SelectedMembers(records, since, f);
    WantedIsAskedFor(r, since, f);
  }

  lemma WantedIsAskedFor(r: Record, since: Option<int>, f: Filters)
    ensures Wanted(r, since, f) <==> AskedFor(r, since, f)
  {
  }

  /** There is more exactly when some retained record that is asked for comes after those in the answer. */
  lemma HasMoreIff(records: seq<Record>, evicted: nat, since: Option<int>, limit: int, f: Filters)
    requires Ascending(records)
    ensures var w := WindowOf(records, evicted, since, limit, f);
      && (forall r, x :: r in records && AskedFor(r, since, f) && r !in w.records && x in w.records ==>
            x.sequence < r.sequence)
      && (w.hasMore <==> exists r :: r in records && AskedFor(r, since, f) && r !in w.records)
  {
    var all, w := Selected(records, since, f), WindowOf(records, evicted, since, limit, f);
    SelectedAscends(records, since, f);
    forall r ensures r in all <==> r in records && AskedFor(r, since, f) {
      SelectedMembers(records, since, f);
      WantedIsAskedFor(r, since, f);
    }
    if w.hasMore {
      assert all[limit] in all && all[limit] !in all[..limit];
      forall i | 0 <= i < limit ensures all[i] in all[..limit] {
        assert all[i] == all[..limit][i];
      }
      forall r, x | r in all && r !in w.records && x in w.records ensures x.sequence < r.sequence {
        var i, j :| 0 <= i < |all| && all[i] == r && 0 <= j < limit && all[j] == x;
      }
    }
  }

  lemma SuffixGrows(pushed: seq<Record>, evicted: nat, records: seq<Record>, batch: seq<Record>)
    requires evicted <= |pushed| && pushed == pushed[..evicted] + records
    ensures pushed + batch == (pushed + batch)[..evicted] + (records + batch)
  {
  }

  lemma SuffixMoves(pushed: seq<Record>, evicted: nat, records: seq<Record>, excess: nat)
    requires evicted <= |pushed| && pushed == pushed[..evicted] + records && excess <= |records|
    ensures pushed == pushed[..evicted + excess] + records[excess..]
  {
  }

  class EventRing {
    const capacity: nat
    var records: seq<Record>
    var evicted: nat
    ghost var pushed: seq<Record>  // every record ever pushed
    ghost var trims: nat           // how often the front was spliced off
    ghost var moved: nat           // how many survivors those splices moved to the front

    /** The ring is a suffix of everything pushed, and trims are rare enough to be amortized. */
    ghost predicate Valid()
      reads this
    {
      && evicted <= |pushed| && pushed == pushed[..evicted] + records
      && |records| <= capacity + TRIM_SLACK
      && (evicted > 0 ==> |records| >= capacity)
      && trims * (TRIM_SLACK + 1) <= evicted && moved == trims * capacity
    }

    constructor (capacity: nat)
      ensures Valid() && this.capacity == capacity && pushed == [] && evicted == 0 && trims == 0 && moved == 0
    {
      this.capacity := capacity;
      records, evicted, pushed, trims, moved := [], 0, [], 0, 0;
    }

    method Push(batch: seq<Record>)
      requires Valid()
      modifies this
      ensures Valid() && pushed == old(pushed) + batch && evicted >= old(evicted)
      ensures evicted == if |old(records)| + |batch| > capacity + TRIM_SLACK
                           then |pushed| - capacity else old(evicted)
      ensures trims == old(trims) + if evicted > old(evicted) then 1 else 0
      ensures moved == old(moved) + if evicted > old(evicted) then |records| else 0
    {
      SuffixGrows(pushed, evicted, records, batch);
      records := records + batch;
      pushed := pushed + batch;
      if |records| > capacity + TRIM_SLACK {
        var excess := |records| - capacity;
        SuffixMoves(pushed, evicted, records, excess);
        records := records[excess..];
        evicted := evicted + excess;
        trims := trims + 1;
        moved := moved + |records|;
      }
    }

    /** Index of the first record with a sequence greater than `since`. */
    method IndexAfter(since: int) returns (low: nat)
      requires Ascending(records)
      ensures low <= |records|
      ensures forall i :: 0 <= i < low ==> records[i].sequence <= since
      ensures forall i :: low <= i < |records| ==> records[i].sequence > since
    {
      low := 0;
      var high := |records|;
      while low < high
        invariant 0 <= low <= high <= |records|
        invariant forall i :: 0 <= i < low ==> records[i].sequence <= since
        invariant forall i :: high <= i < |records| ==> records[i].sequence > since
      {
        var mid := (low + high) / 2;
        if records[mid].sequence <= since {
          low := mid + 1;
        } else {
          high := mid;
        }
      }
    }

    /** The search and the scan together answer what plain filtering would. */
    method Read(since: Option<int>, limit: int, f: Filters) returns (w: Window)
      requires Ascending(records)
      ensures w == WindowOf(records, evicted, since, limit, f)
    {
      var start := 0;
      if since.Some? {
        start := IndexAfter(since.value);
      }
      NothingBefore(records, start, since, f);
      var matched, hasMore := Scan(records, start, since, limit, f);
      w := Window(matched, OldestOf(records), evicted, hasMore);
    }

    /** A read through `page`, which clamps the limit: it answers from what was pushed and is not evicted. */
    method ReadPage(since: Option<int>, limit: Option<int>, f: Filters) returns (w: Window)
      requires Valid() && Ascending(pushed)
      ensures w == Page(Snapshot(pushed, evicted), since, ClampLimit(limit), f)
    {
      assert records == pushed[evicted..];
      w := Read(since, ClampLimit(limit), f);
    }
  }

  /** The scan loop of `read`, from the index the search found. */
  method Scan(records: seq<Record>, start: nat, ghost since: Option<int>, limit: int, f: Filters)
    returns (matched: seq<Record>, hasMore: bool)
    requires start <= |records| && forall i :: start <= i < |records| ==> IsAfter(since, records[i])
    ensures var all := Selected(records[start..], since, f);
      && (hasMore <==> 0 <= limit < |all|)
      && matched == if hasMore then all[..limit] else all
  {
    matched, hasMore := [], false;
    var index := start;
    ghost var all := Selected(records[start..], since, f);
    ghost var rest := all;  // what is still ahead
    while index < |records|
      invariant start <= index <= |records|
      invariant rest == Selected(records[index..], since, f) && all == matched + rest
      invariant 0 <= limit ==> |matched| <= limit
    {
      var record := records[index];
      SelectedStep(records, index, since, f);
      if Matches(record, f) {
        if |matched| == limit {
          assert |all| == |matched| + |rest| && all[..|matched|] == matched;
          hasMore := true;
          return;
        }
        OneMoreMatched(matched, rest);
        matched := matched + [record];
        rest := rest[1..];
      }
      index := index + 1;
    }
  }

  lemma OneMoreMatched(matched: seq<Record>, rest: seq<Record>)
    requires rest != []
    ensures matched + rest == (matched + [rest[0]]) + rest[1..]
  {
  }

  lemma SelectedStep(records: seq<Record>, index: nat, since: Option<int>, f: Filters)
    requires index < |records|
    ensures Selected(records[index..], since, f) ==
      if Wanted(records[index], since, f)
      then [records[index]] + Selected(records[index + 1..], since, f)
      else Selected(records[index + 1..], since, f)
  {
    assert records[index..][1..] == records[index + 1..];
  }

  lemma {:induction false} NothingBefore(records: seq<Record>, start: nat, since: Option<int>, f: Filters)
    requires start <= |records|
    requires forall i :: 0 <= i < start ==> !IsAfter(since, records[i])
    ensures Selected(records, since, f) == Selected(records[start..], since, f)
  {
    if start > 0 {
      NothingBefore(records[1..], start - 1, since, f);
      assert records[1..][start - 1..] == records[start..];
    }
  }

  /** All trims together move at most `capacity / 513` survivors per pushed record. */
  lemma SurvivorsMovedAreAmortized(ring: EventRing)
    requires ring.Valid()
    ensures ring.moved * (TRIM_SLACK + 1) <= ring.capacity * |ring.pushed|
  {
    assert ring.moved * (TRIM_SLACK + 1) == ring.capacity * (ring.trims * (TRIM_SLACK + 1));
    MulMonotone(ring.capacity, ring.trims * (TRIM_SLACK + 1), |ring.pushed|);
  }

  lemma MulMonotone(a: nat, b: int, c: int)
    requires b <= c
    ensures a * b <= a * c
  {
  }

  // ---------------------------------------------------------------- paging

  function Distance(a: int, b: int): nat { if a < b then b - a else a - b }

  /** `clampLimit` of a truncated limit: the nearest that is allowed. */
  function ClampLimit(limit: Option<int>): (r: nat)
    ensures 1 <= r <= MAX_LIMIT && (limit.None? ==> r == DEFAULT_LIMIT)
    ensures limit.Some? ==> forall k :: 1 <= k <= MAX_LIMIT ==> Distance(r, limit.value) <= Distance(k, limit.value)
  {
    if limit.None? then DEFAULT_LIMIT
    else if limit.value < 1 then 1
    else if limit.value > MAX_LIMIT then MAX_LIMIT
    else limit.value
  }

  /** The ring as one read finds it: everything pushed so far and how much of it is gone. */
  datatype SnapshotData = Snapshot(pushed: seq<Record>, evicted: nat)

  /** One runtime numbers its records upwards. */
  type Snapshot = s: SnapshotData | s.evicted <= |s.pushed| && Ascending(s.pushed) witness Snapshot([], 0)

  /** Between two reads records are only pushed and evicted. */
  predicate Later(s: Snapshot, t: Snapshot) { s.pushed <= t.pushed && s.evicted <= t.evicted }

  predicate History(snaps: seq<Snapshot>)
  {
    forall i, j :: 0 <= i < j < |snaps| ==> Later(snaps[i], snaps[j])
  }

  function Page(s: Snapshot, since: Option<int>, limit: nat, f: Filters): Window
  {
    WindowOf(s.pushed[s.evicted..], s.evicted, since, limit, f)
  }

  /** The `nextSince` of a page; an empty page keeps the cursor. */
  function NextSince(w: Window, since: Option<int>): Option<int>
  {
    if w.records == [] then since else Some(w.records[|w.records| - 1].sequence)
  }

  /** The cursor after reading a page from each snapshot. */
  function Cursor(snaps: seq<Snapshot>, since: Option<int>, limit: nat, f: Filters): Option<int>
    decreases |snaps|
  {
    if snaps == [] then since
    else Cursor(snaps[1..], NextSince(Page(snaps[0], since, limit, f), since), limit, f)
  }

  /** The pages put together. */
  function Collected(snaps: seq<Snapshot>, since: Option<int>, limit: nat, f: Filters): seq<Record>
    decreases |snaps|
  {
    if snaps == [] then []
    else
      var w := Page(snaps[0], since, limit, f);
      w.records + Collected(snaps[1..], NextSince(w, since), limit, f)
  }

  lemma TailHistory(snaps: seq<Snapshot>)
    requires History(snaps) && snaps != []
    ensures History(snaps[1..])
  {
    forall i, j | 0 <= i < j < |snaps[1..]| ensures Later(snaps[1..][i], snaps[1..][j]) {
      assert Later(snaps[i + 1], snaps[j + 1]);
    }
  }

  lemma {:induction false} SelectedAscends(records: seq<Record>, since: Option<int>, f: Filters)
    requires Ascending(records)
    ensures Ascending(Selected(records, since, f))
  {
    if records != [] {
      SelectedAscends(records[1..], since, f);
      SelectedMembers(records[1..], since, f);
      forall r | r in Selected(records[1..], since, f) ensures records[0].sequence < r.sequence {
        assert r in records[1..];
      }
    }
  }

  /** What one page holds, for any limit of at least one. */
  lemma PageFacts(s: Snapshot, since: Option<int>, limit: nat, f: Filters)
    requires limit >= 1
    ensures var w := Page(s, since, limit, f);
      var next := NextSince(w, since);
      && Ascending(w.records)
      && (forall r :: r in w.records ==> r in s.pushed && Matches(r, f) && IsAfter(since, r) && !IsAfter(next, r))
      && (w.hasMore ==> w.records != [] && |w.records| == limit)
      && (forall r :: r in s.pushed[s.evicted..] && Matches(r, f) && IsAfter(since, r)
            ==> r in w.records || (w.hasMore && IsAfter(next, r)))
  {
    var kept := s.pushed[s.evicted..];
    var all := Selected(kept, since, f);
    SelectedAscends(kept, since, f);
    SelectedMembers(kept, since, f);
    var w := Page(s, since, limit, f);
    assert w.records <= all;
    forall r | r in w.records ensures r in s.pushed && Matches(r, f) && IsAfter(since, r) {
      assert r in all;
      assert r in kept;
    }
  }

  predicate AtMost(a: Option<int>, b: Option<int>)
  {
    a.None? || (b.Some? && a.value <= b.value)
  }

  /** A page that says there is more moves the cursor strictly forward. */
  lemma HasMoreProgresses(s: Snapshot, since: Option<int>, limit: Option<int>, f: Filters)
    ensures var w := Page(s, since, ClampLimit(limit), f);
      w.hasMore ==> (
        && w.records != [] && NextSince(w, since).Some?
        && (since.Some? ==> since.value < NextSince(w, since).value))
  {
    PageFacts(s, since, ClampLimit(limit), f);
    NextSinceGrows(s, since, ClampLimit(limit), f);
  }

  lemma NextSinceGrows(s: Snapshot, since: Option<int>, limit: nat, f: Filters)
    requires limit >= 1
    ensures var w := Page(s, since, limit, f);
      && AtMost(since, NextSince(w, since))
      && (w.records != [] && since.Some? ==> since.value < NextSince(w, since).value)
  {
    PageFacts(s, since, limit, f);
    var w := Page(s, since, limit, f);
    if w.records != [] {
      assert w.records[|w.records| - 1] in w.records;
    }
  }

  lemma AscendingJoin(a: seq<Record>, b: seq<Record>)
    requires Ascending(a) && Ascending(b)
    requires forall x, y :: x in a && y in b ==> x.sequence < y.sequence
    ensures Ascending(a + b)
  {
    forall i, j | 0 <= i < j < |a + b| ensures (a + b)[i].sequence < (a + b)[j].sequence {
      if i < |a| <= j {
        assert a[i] in a && b[j - |a|] in b;
      }
    }
  }

  /** Pages read with interleaved pushes are strictly increasing, hold matching records only, and stay
      between the first and the last cursor. */
  lemma {:induction false} CollectedAscends(snaps: seq<Snapshot>, since: Option<int>, limit: nat, f: Filters)
    requires limit >= 1
    ensures Ascending(Collected(snaps, since, limit, f))
    ensures AtMost(since, Cursor(snaps, since, limit, f))
    ensures forall r :: r in Collected(snaps, since, limit, f) ==>
      IsAfter(since, r) && !IsAfter(Cursor(snaps, since, limit, f), r) && Matches(r, f)
    decreases |snaps|
  {
    if snaps != [] {
      var w := Page(snaps[0], since, limit, f);
      var next := NextSince(w, since);
      PageFacts(snaps[0], since, limit, f);
      NextSinceGrows(snaps[0], since, limit, f);
      CollectedAscends(snaps[1..], next, limit, f);
      AscendingJoin(w.records, Collected(snaps[1..], next, limit, f));
    }
  }

  /** `r` was gone before the read of snapshot `k`, whose cursor had not reached it. */
  predicate EvictedUnread(snaps: seq<Snapshot>, k: nat, r: Record, since: Option<int>, limit: nat, f: Filters)
    requires k < |snaps|
  {
    IsAfter(Cursor(snaps[..k], since, limit, f), r) && r in snaps[k].pushed[..snaps[k].evicted]
  }

  lemma InTheRest(records: seq<Record>, k: nat, r: Record)
    requires k <= |records| && r in records && r !in records[..k]
    ensures r in records[k..]
  {
    assert records == records[..k] + records[k..];
  }

  /** A record that is not in a page although it matches is either gone or ahead of the cursor. */
  lemma NotYetPassed(s: Snapshot, t: Snapshot, r: Record, since: Option<int>, limit: nat, f: Filters)
    requires Later(s, t) && limit >= 1
    requires r in t.pushed && Matches(r, f) && IsAfter(since, r)
    requires r !in Page(s, since, limit, f).records && r !in s.pushed[..s.evicted]
    ensures IsAfter(NextSince(Page(s, since, limit, f), since), r)
  {
    PageFacts(s, since, limit, f);
    var w := Page(s, since, limit, f);
    if r in s.pushed {
      InTheRest(s.pushed, s.evicted, r);
    } else if w.records != [] {
      assert w.records[|w.records| - 1] in w.records;
      PushedLaterIsGreater(s, t, w.records[|w.records| - 1], r);
    }
  }

  lemma PushedLaterIsGreater(s: Snapshot, t: Snapshot, earlier: Record, later: Record)
    requires s.pushed <= t.pushed && earlier in s.pushed && later in t.pushed && later !in s.pushed
    ensures earlier.sequence < later.sequence
  {
    var i :| 0 <= i < |s.pushed| && s.pushed[i] == earlier;
    var more := t.pushed[|s.pushed|..];
    assert t.pushed == s.pushed + more;
    assert later in more;
    var j :| 0 <= j < |more| && more[j] == later;
    assert t.pushed[i] == earlier && t.pushed[|s.pushed| + j] == later;
  }

  /** The cursor passed `r`, or the last page had nothing more to show. */
  predicate Covered(snaps: seq<Snapshot>, r: Record, since: Option<int>, limit: nat, f: Filters)
    requires snaps != []
  {
    var n := |snaps| - 1;
    || !IsAfter(Cursor(snaps, since, limit, f), r)
    || !Page(snaps[n], Cursor(snaps[..n], since, limit, f), limit, f).hasMore
  }

  lemma CoveredByTheRest(snaps: seq<Snapshot>, r: Record, since: Option<int>, limit: nat, f: Filters)
    requires |snaps| > 1 && Covered(snaps, r, since, limit, f)
    ensures Covered(snaps[1..], r, NextSince(Page(snaps[0], since, limit, f), since), limit, f)
  {
    var n := |snaps| - 1;
    assert snaps[1..][n - 1] == snaps[n];
    assert snaps[..n][1..] == snaps[1..][..n - 1];
  }

  lemma EvictedLater(snaps: seq<Snapshot>, k: nat, r: Record, since: Option<int>, limit: nat, f: Filters)
    requires snaps != [] && k < |snaps[1..]|
    requires EvictedUnread(snaps[1..], k, r, NextSince(Page(snaps[0], since, limit, f), since), limit, f)
    ensures EvictedUnread(snaps, k + 1, r, since, limit, f)
  {
    assert snaps[..k + 1][1..] == snaps[1..][..k];
  }

  /** A matching record that the cursor has passed, or that the last page would have shown, was collected
      unless it was evicted before its read. */
  lemma {:induction false} MissedOnlyIfEvicted(snaps: seq<Snapshot>, r: Record, since: Option<int>, limit: nat,
                                               f: Filters)
    returns (k: nat)
    requires History(snaps) && limit >= 1 && snaps != []
    requires Matches(r, f) && IsAfter(since, r) && r in snaps[|snaps| - 1].pushed
    requires Covered(snaps, r, since, limit, f)
    ensures r in Collected(snaps, since, limit, f)
      || (k < |snaps| && EvictedUnread(snaps, k, r, since, limit, f))
    decreases |snaps|
  {
    k := 0;
    var s := snaps[0];
    var w := Page(s, since, limit, f);
    var next := NextSince(w, since);
    if r in w.records {
    } else if r in s.pushed[..s.evicted] {
      assert snaps[..0] == [];
    } else if |snaps| == 1 {
      OnePageSuffices(snaps, r, since, limit, f);
    } else {
      assert Later(s, snaps[|snaps| - 1]);
      NotYetPassed(s, snaps[|snaps| - 1], r, since, limit, f);
      assert snaps[1..][|snaps[1..]| - 1] == snaps[|snaps| - 1];
      TailHistory(snaps);
      CoveredByTheRest(snaps, r, since, limit, f);
      k := MissedOnlyIfEvicted(snaps[1..], r, next, limit, f);
      if r !in Collected(snaps[1..], next, limit, f) {
        EvictedLater(snaps, k, r, since, limit, f);
        k := k + 1;
      }
    }
  }

  lemma OnePageSuffices(snaps: seq<Snapshot>, r: Record, since: Option<int>, limit: nat, f: Filters)
    requires |snaps| == 1 && limit >= 1 && Matches(r, f) && IsAfter(since, r)
    requires r in snaps[0].pushed && r !in snaps[0].pushed[..snaps[0].evicted]
    requires Covered(snaps, r, since, limit, f)
    ensures r in Page(snaps[0], since, limit, f).records
  {
    var s := snaps[0];
    PageFacts(s, since, limit, f);
    InTheRest(s.pushed, s.evicted, r);
    assert snaps[..0] == [];
    var next := NextSince(Page(s, since, limit, f), since);
    assert Cursor(snaps[1..], next, limit, f) == next;
  }

  /** A gap is never silent: a missed record lies between the cursor and the oldest sequence that the page
      reports, or the page reports nothing retained. */
  lemma GapIsReported(snaps: seq<Snapshot>, k: nat, r: Record, since: Option<int>, limit: nat, f: Filters)
    requires k < |snaps| && EvictedUnread(snaps, k, r, since, limit, f)
    ensures var cursor := Cursor(snaps[..k], since, limit, f);
      var oldest := Page(snaps[k], cursor, limit, f).oldestRetainedSequence;
      if snaps[k].evicted == |snaps[k].pushed| then oldest.None?
      else oldest.Some? && oldest.value > r.sequence && (cursor.Some? ==> cursor.value < r.sequence)
  {
    var s := snaps[k];
    var i :| 0 <= i < s.evicted && s.pushed[i] == r;
    if s.evicted < |s.pushed| {
      assert s.pushed[s.evicted..][0] == s.pushed[s.evicted];
    }
  }
}
