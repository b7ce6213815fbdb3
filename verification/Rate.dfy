/** The sliding rate window of apps/hub/src/rate.ts, refined by the log of everything that happened to it. */
module Rate {
  const RATE_BUCKET_MS := 1000
  const RATE_BUCKET_COUNT := 60

  datatype RateWindow = RateWindow(buckets: seq<nat>, bucketAt: int)

  /** The second of the clock that `at` falls in; `/` floors, as `Math.floor` does. */
  function Second(at: int): int { at / RATE_BUCKET_MS }

  function BucketStart(at: int): int { Second(at) * RATE_BUCKET_MS }

  function Zeroed(n: nat): (r: seq<nat>)
    ensures |r| == n && forall i :: 0 <= i < n ==> r[i] == 0
  {
    seq(n, _ => 0)
  }

  /** Sixty buckets on the grid. */
  predicate Aligned(w: RateWindow)
  {
    |w.buckets| == RATE_BUCKET_COUNT && w.bucketAt % RATE_BUCKET_MS == 0
  }

  function EmptyRate(at: int): (w: RateWindow)
    ensures Aligned(w) && w.bucketAt <= at < w.bucketAt + RATE_BUCKET_MS
  {
    RateWindow(Zeroed(RATE_BUCKET_COUNT), BucketStart(at))
  }

  function AdvanceRate(w: RateWindow, now: int): (r: RateWindow)
    requires Aligned(w)
    ensures Aligned(r) && r.bucketAt >= w.bucketAt
  {
    var target := BucketStart(now);
    var shift := (target - w.bucketAt) / RATE_BUCKET_MS;
    if shift <= 0 then w
    else if shift >= RATE_BUCKET_COUNT then RateWindow(Zeroed(RATE_BUCKET_COUNT), target)
    else RateWindow(w.buckets[shift..] + Zeroed(shift), target)
  }

  function RecordRate(w: RateWindow, now: int, count: nat): (r: RateWindow)
    requires Aligned(w)
    ensures Aligned(r) && r.bucketAt >= w.bucketAt
  {
    var advanced := AdvanceRate(w, now);
    var newest := |advanced.buckets| - 1;
    RateWindow(advanced.buckets[newest := advanced.buckets[newest] + count], advanced.bucketAt)
  }

  // ---------------------------------------------------------------- the log

  /** What happened to a window since it was made, latest event last. */
  datatype Log =
    | Made(at: int)
    | Recorded(before: Log, now: int, count: nat)
    | Advanced(before: Log, now: int)

  /** The window after a log. */
  function WindowAfter(log: Log): (w: RateWindow)
    ensures Aligned(w)
  {
    match log
    case Made(at) => EmptyRate(at)
    case Recorded(before, now, count) => RecordRate(WindowAfter(before), now, count)
    case Advanced(before, now) => AdvanceRate(WindowAfter(before), now)
  }

  /** The latest second the clock has shown. */
  function Latest(log: Log): int
  {
    if log.Made? then Second(log.at)
    else if Second(log.now) > Latest(log.before) then Second(log.now)
    else Latest(log.before)
  }

  /** What was recorded while the latest second was `second`. */
  function CountIn(log: Log, second: int): nat
  {
    if log.Made? then 0
    else CountIn(log.before, second) + if log.Recorded? && Latest(log) == second then log.count else 0
  }

  /** What was recorded since the latest second reached `second`. */
  function CountSince(log: Log, second: int): nat
  {
    if log.Made? then 0
    else CountSince(log.before, second) + if log.Recorded? && Latest(log) >= second then log.count else 0
  }

  lemma {:induction false} NothingAhead(log: Log, second: int)
    requires second > Latest(log)
    ensures CountIn(log, second) == 0 && CountSince(log, second) == 0
  {
    if !log.Made? {
      NothingAhead(log.before, second);
    }
  }

  /** Advancing moves every bucket with its second. */
  lemma AdvancedBucket(w: RateWindow, now: int, i: nat)
    requires Aligned(w) && i < RATE_BUCKET_COUNT
    ensures var r := AdvanceRate(w, now);
      var shift := (r.bucketAt - w.bucketAt) / RATE_BUCKET_MS;
      && r.bucketAt == (if BucketStart(now) > w.bucketAt then BucketStart(now) else w.bucketAt)
      && shift >= 0 && r.bucketAt == w.bucketAt + shift * RATE_BUCKET_MS
      && r.buckets[i] == if i + shift < RATE_BUCKET_COUNT then w.buckets[i + shift] else 0
  {
    GridDistance(BucketStart(now), w.bucketAt);
  }

  lemma GridDistance(a: int, b: int)
    requires a % RATE_BUCKET_MS == 0 && b % RATE_BUCKET_MS == 0
    ensures a == b + (a - b) / RATE_BUCKET_MS * RATE_BUCKET_MS
    ensures (a - b) / RATE_BUCKET_MS > 0 <==> a > b
  {
  }

  /** The newest bucket is second `top`, and each bucket holds what was recorded while its second was the latest. */
  predicate Holds(w: RateWindow, log: Log, top: int)
  {
    && Aligned(w) && w.bucketAt == top * RATE_BUCKET_MS
    && forall i :: 0 <= i < RATE_BUCKET_COUNT ==> w.buckets[i] == CountIn(log, top - (RATE_BUCKET_COUNT - 1) + i)
  }

  predicate Counts(w: RateWindow, log: Log) { Holds(w, log, Latest(log)) }

  lemma AdvancedHolds(log: Log, w: RateWindow, now: int)
    requires Counts(w, log)
    ensures Holds(AdvanceRate(w, now), log, if Second(now) > Latest(log) then Second(now) else Latest(log))
  {
    var latest := Latest(log);
    var top := if Second(now) > latest then Second(now) else latest;
    AdvancedBucket(w, now, 0);
    forall i | 0 <= i < RATE_BUCKET_COUNT
      ensures AdvanceRate(w, now).buckets[i] == CountIn(log, top - (RATE_BUCKET_COUNT - 1) + i)
    {
      AdvancedBucket(w, now, i);
      var j := i + (top - latest);
      if j < RATE_BUCKET_COUNT {
        assert w.buckets[j] == CountIn(log, latest - (RATE_BUCKET_COUNT - 1) + j);
      } else {
        NothingAhead(log, top - (RATE_BUCKET_COUNT - 1) + i);
      }
    }
  }

  /** Recording keeps the window the counts of its log. */
  lemma RecordedCounts(log: Log, w: RateWindow, now: int, count: nat)
    requires Counts(w, log)
    ensures Counts(RecordRate(w, now, count), Recorded(log, now, count))
  {
    AdvancedHolds(log, w, now);
    var more := Recorded(log, now, count);
    var advanced := AdvanceRate(w, now);
    forall i | 0 <= i < RATE_BUCKET_COUNT
      ensures RecordRate(w, now, count).buckets[i] == CountIn(more, Latest(more) - (RATE_BUCKET_COUNT - 1) + i)
    {
      assert advanced.buckets[i] == CountIn(log, Latest(more) - (RATE_BUCKET_COUNT - 1) + i);
    }
  }

  lemma AdvancedCounts(log: Log, w: RateWindow, now: int)
    requires Counts(w, log)
    ensures Counts(AdvanceRate(w, now), Advanced(log, now))
  {
    AdvancedHolds(log, w, now);
    var more := Advanced(log, now);
    forall i | 0 <= i < RATE_BUCKET_COUNT
      ensures AdvanceRate(w, now).buckets[i] == CountIn(more, Latest(more) - (RATE_BUCKET_COUNT - 1) + i)
    {
      assert CountIn(more, Latest(more) - (RATE_BUCKET_COUNT - 1) + i)
          == CountIn(log, Latest(more) - (RATE_BUCKET_COUNT - 1) + i);
    }
  }

  /** Whatever was recorded and however the clock jumped, the newest bucket is the latest second and each bucket
      holds what was recorded while its second was the latest. */
  lemma {:induction false} BucketsAreCounts(log: Log)
    ensures Counts(WindowAfter(log), log)
  {
    match log
    case Made(_) =>
    case Recorded(before, now, count) =>
      BucketsAreCounts(before);
      RecordedCounts(before, WindowAfter(before), now, count);
    case Advanced(before, now) =>
      BucketsAreCounts(before);
      AdvancedCounts(before, WindowAfter(before), now);
  }

  /** Advancing twice is advancing once to the later time. */
  lemma AdvanceTwice(w: RateWindow, first: int, second: int)
    requires Aligned(w)
    ensures AdvanceRate(AdvanceRate(w, first), second) == AdvanceRate(w, if first > second then first else second)
  {
    var once := AdvanceRate(w, first);
    var twice := AdvanceRate(once, second);
    var direct := AdvanceRate(w, if first > second then first else second);
    AdvancedBucket(w, first, 0);
    AdvancedBucket(once, second, 0);
    AdvancedBucket(w, if first > second then first else second, 0);
    assert twice.bucketAt == direct.bucketAt;
    forall i | 0 <= i < RATE_BUCKET_COUNT ensures twice.buckets[i] == direct.buckets[i] {
      AdvanceTwiceBucket(w, first, second, i);
    }
  }

  lemma AdvanceTwiceBucket(w: RateWindow, first: int, second: int, i: nat)
    requires Aligned(w) && i < RATE_BUCKET_COUNT
    ensures AdvanceRate(AdvanceRate(w, first), second).buckets[i]
         == AdvanceRate(w, if first > second then first else second).buckets[i]
  {
    var once := AdvanceRate(w, first);
    AdvancedBucket(once, second, i);
    AdvancedBucket(w, if first > second then first else second, i);
    var shift := (AdvanceRate(once, second).bucketAt - once.bucketAt) / RATE_BUCKET_MS;
    if i + shift < RATE_BUCKET_COUNT {
      AdvancedBucket(w, first, i + shift);
    } else {
      AdvancedBucket(w, first, i);
    }
  }

  function Sum(s: seq<nat>): nat { if s == [] then 0 else s[0] + Sum(s[1..]) }

  lemma {:induction false} SinceIsInPlusSince(log: Log, second: int)
    ensures CountSince(log, second) == CountIn(log, second) + CountSince(log, second + 1)
  {
    if !log.Made? {
      SinceIsInPlusSince(log.before, second);
    }
  }

  /** The buckets from `i` on sum to what was recorded since the second of bucket `i`. */
  lemma {:induction false} SumIsCountSince(log: Log, i: nat)
    requires i <= RATE_BUCKET_COUNT
    ensures Sum(WindowAfter(log).buckets[i..]) == CountSince(log, Latest(log) - (RATE_BUCKET_COUNT - 1) + i)
    decreases RATE_BUCKET_COUNT - i
  {
    var buckets := WindowAfter(log).buckets;
    var second := Latest(log) - (RATE_BUCKET_COUNT - 1) + i;
    if i == RATE_BUCKET_COUNT {
      NothingAhead(log, second);
    } else {
      BucketIsCount(log, i);
      SumIsCountSince(log, i + 1);
      SinceIsInPlusSince(log, second);
      SumStep(buckets, i);
    }
  }

  lemma BucketIsCount(log: Log, i: nat)
    requires i < RATE_BUCKET_COUNT
    ensures WindowAfter(log).buckets[i] == CountIn(log, Latest(log) - (RATE_BUCKET_COUNT - 1) + i)
  {
    BucketsAreCounts(log);
  }

  lemma SumStep(s: seq<nat>, i: nat)
    requires i < |s|
    ensures Sum(s[i..]) == s[i] + Sum(s[i + 1..])
  {
    assert s[i..][1..] == s[i + 1..];
  }

  /** The whole window sums to what was recorded in the sixty latest seconds. */
  lemma WindowSumsLastMinute(log: Log)
    ensures Sum(WindowAfter(log).buckets) == CountSince(log, Latest(log) - (RATE_BUCKET_COUNT - 1))
  {
    SumIsCountSince(log, 0);
    assert WindowAfter(log).buckets[0..] == WindowAfter(log).buckets;
  }
}
