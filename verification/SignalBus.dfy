/** The signal bus of packages/core/src/runtime/signalBus.ts: per-channel buffers that are merged back into
    publish order when they are read. */
module SignalBus {
  import opened Prelude

  type Channel(==,!new)
  type Payload(==,!new)

  datatype Signal = Signal(channel: Channel, payload: Option<Payload>)
  datatype Record = Record(sequence: nat, signal: Signal)
  datatype Policy = NoRetention | Bounded(bufferSize: nat)
  datatype Policies = Policies(byChannel: map<Channel, Policy>, defaultPolicy: Policy)
  datatype Query = Query(channel: Option<Channel>, limit: Option<int>)
  datatype QueryError = NegativeLimit(limit: int)

  function PolicyOf(policies: Policies, channel: Channel): Policy
  {
    if channel in policies.byChannel then policies.byChannel[channel] else policies.defaultPolicy
  }

  // ---------------------------------------------------------------- what should be readable, from the log alone

  /** The records of one channel, in order. */
  function OnChannel(log: seq<Record>, channel: Channel): seq<Record>
  {
    if log == [] then []
    else (if log[0].signal.channel == channel then [log[0]] else []) + OnChannel(log[1..], channel)
  }

  /** A record survives while its channel is retained and fewer than `bufferSize` later records share it. */
  predicate Survives(policies: Policies, record: Record, later: seq<Record>)
  {
    match PolicyOf(policies, record.signal.channel)
    case NoRetention => false
    case Bounded(bufferSize) => |OnChannel(later, record.signal.channel)| < bufferSize
  }

  /** The surviving records of the global publish log, in publish order. */
  function Retained(policies: Policies, log: seq<Record>): seq<Record>
  {
    if log == [] then []
    else (if Survives(policies, log[0], log[1..]) then [log[0]] else []) + Retained(policies, log[1..])
  }

  /** What a channel's buffer holds. */
  function Kept(policies: Policies, log: seq<Record>, channel: Channel): seq<Record>
  {
    match PolicyOf(policies, channel)
    case NoRetention => []
    case Bounded(bufferSize) => Last(OnChannel(log, channel), bufferSize)
  }

  lemma {:induction false} OnChannelAppend(log: seq<Record>, more: seq<Record>, channel: Channel)
    ensures OnChannel(log + more, channel) == OnChannel(log, channel) + OnChannel(more, channel)
  {
    if log == [] {
      assert log + more == more;
    } else {
      assert (log + more)[1..] == log[1..] + more;
      OnChannelAppend(log[1..], more, channel);
      Regroup(if log[0].signal.channel == channel then [log[0]] else [],
              OnChannel(log[1..], channel), OnChannel(more, channel));
    }
  }

  lemma Regroup(a: seq<Record>, b: seq<Record>, c: seq<Record>)
    ensures a + (b + c) == (a + b) + c
  {
  }

  /** The buffers hold exactly the surviving records, channel by channel. */
  lemma {:induction false} KeptIsRetained(policies: Policies, log: seq<Record>, channel: Channel)
    ensures Kept(policies, log, channel) == OnChannel(Retained(policies, log), channel)
  {
    if log != [] {
      var rest := log[1..];
      KeptIsRetained(policies, rest, channel);
      var head := if Survives(policies, log[0], rest) then [log[0]] else [];
      OnChannelAppend(head, Retained(policies, rest), channel);
      assert OnChannel([log[0]], channel) == (if log[0].signal.channel == channel then [log[0]] else []) + [];
      if log[0].signal.channel == channel && PolicyOf(policies, channel).Bounded? {
        LastOfMore(log[0], OnChannel(rest, channel), PolicyOf(policies, channel).bufferSize);
      }
    }
  }

  lemma LastOfMore<T>(x: T, s: seq<T>, n: nat)
    ensures Last([x] + s, n) == if |s| < n then [x] + s else Last(s, n)
  {
  }

  lemma LastOfLast<T>(s: seq<T>, x: T, n: nat)
    ensures Last(Last(s, n) + [x], n) == Last(s + [x], n)
  {
  }

  // ---------------------------------------------------------------- publish order

  predicate Ascending(s: seq<Record>)
  {
    forall i, j :: 0 <= i < j < |s| ==> s[i].sequence < s[j].sequence
  }

  /** Two ascending sequences of the same records are the same sequence. */
  lemma {:induction false} AscendingIsUnique(a: seq<Record>, b: seq<Record>)
    requires Ascending(a) && Ascending(b) && multiset(a) == multiset(b)
    ensures a == b
  {
    if a == [] || b == [] {
      assert |multiset(a)| == |a| && |multiset(b)| == |b|;
    } else {
      HeadIsLeast(a, b);
      HeadIsLeast(b, a);
      TailOf(a);
      TailOf(b);
      AscendingIsUnique(a[1..], b[1..]);
    }
  }

  lemma TailOf(a: seq<Record>)
    requires a != [] && Ascending(a)
    ensures a == [a[0]] + a[1..] && Ascending(a[1..])
    ensures multiset(a[1..]) == multiset(a) - multiset{a[0]}
  {
    assert a == [a[0]] + a[1..];
  }

  lemma HeadIsLeast(a: seq<Record>, b: seq<Record>)
    requires a != [] && Ascending(b) && multiset(a) == multiset(b) && Ascending(a)
    ensures b != [] && b[0].sequence <= a[0].sequence
    ensures a[0] in b
    ensures b[0].sequence == a[0].sequence ==> a[0] == b[0]
  {
    assert a[0] in multiset(a);
    assert a[0] in multiset(b);
    var i :| 0 <= i < |b| && b[i] == a[0];
  }

  /** A record placed before the first one with a greater sequence. */
  function Insert(record: Record, s: seq<Record>): seq<Record>
  {
    if s == [] then [record]
    else if record.sequence < s[0].sequence then [record] + s
    else [s[0]] + Insert(record, s[1..])
  }

  /** `sort((left, right) => left.sequence - right.sequence)`, which is stable. */
  function SortBySequence(s: seq<Record>): seq<Record>
  {
    if s == [] then [] else Insert(s[|s| - 1], SortBySequence(s[..|s| - 1]))
  }

  /** The publish log counts from one. */
  predicate Numbered(log: seq<Record>)
  {
    forall i :: 0 <= i < |log| ==> log[i].sequence == i + 1
  }

  predicate Weakly(s: seq<Record>) {
    forall i, j :: 0 <= i < j < |s| ==> s[i].sequence <= s[j].sequence
  }

  lemma {:induction false} InsertPermutes(record: Record, s: seq<Record>)
    ensures multiset(Insert(record, s)) == multiset(s) + multiset{record}
  {
    if s != [] {
      assert s == [s[0]] + s[1..];
      InsertPermutes(record, s[1..]);
    }
  }

  lemma {:induction false} InsertKeepsOrder(record: Record, s: seq<Record>)
    requires Weakly(s)
    ensures Weakly(Insert(record, s))
  {
    if s != [] && s[0].sequence <= record.sequence {
      var rest := Insert(record, s[1..]);
      InsertKeepsOrder(record, s[1..]);
      InsertPermutes(record, s[1..]);
      forall j | 0 <= j < |rest| ensures s[0].sequence <= rest[j].sequence {
        assert rest[j] in multiset(rest);
      }
      WeaklyCons(s[0], rest);
    } else if s != [] {
      WeaklyCons(record, s);
    }
  }

  lemma WeaklyCons(record: Record, s: seq<Record>)
    requires Weakly(s) && forall j :: 0 <= j < |s| ==> record.sequence <= s[j].sequence
    ensures Weakly([record] + s)
  {
  }

  lemma {:induction false} SortFacts(s: seq<Record>)
    ensures Weakly(SortBySequence(s)) && multiset(SortBySequence(s)) == multiset(s)
  {
    if s != [] {
      SortFacts(s[..|s| - 1]);
      InsertPermutes(s[|s| - 1], SortBySequence(s[..|s| - 1]));
      InsertKeepsOrder(s[|s| - 1], SortBySequence(s[..|s| - 1]));
      assert s == s[..|s| - 1] + [s[|s| - 1]];
    }
  }

  // ---------------------------------------------------------------- merging the buffers

  predicate Distinct(channels: seq<Channel>) { forall i, j :: 0 <= i < j < |channels| ==> channels[i] != channels[j] }

  /** The records of several channels, channel after channel. */
  function Grouped(log: seq<Record>, channels: seq<Channel>): seq<Record>
  {
    if channels == [] then []
    else Grouped(log, channels[..|channels| - 1]) + OnChannel(log, channels[|channels| - 1])
  }

  /** Grouping by channel loses and repeats nothing when the channels are all different and cover the log. */
  lemma {:induction false} GroupedIsPermutation(log: seq<Record>, channels: seq<Channel>)
    requires Distinct(channels) && forall r :: r in log ==> r.signal.channel in channels
    ensures multiset(Grouped(log, channels)) == multiset(log)
  {
    if log == [] {
      GroupedEmpty(channels);
    } else {
      var r, rest := log[0], log[1..];
      assert log == [r] + rest;
      assert r in log && forall q :: q in rest ==> q in log;
      GroupedIsPermutation(rest, channels);
      GroupedOneMore(r, rest, channels);
    }
  }

  lemma {:induction false} GroupedEmpty(channels: seq<Channel>)
    ensures Grouped([], channels) == []
  {
    if channels != [] {
      GroupedEmpty(channels[..|channels| - 1]);
    }
  }

  lemma {:induction false} GroupedOneMore(r: Record, rest: seq<Record>, channels: seq<Channel>)
    requires Distinct(channels)
    ensures multiset(Grouped([r] + rest, channels))
         == multiset(Grouped(rest, channels)) + (if r.signal.channel in channels then multiset{r} else multiset{})
  {
    if channels != [] {
      var front, c := channels[..|channels| - 1], channels[|channels| - 1];
      assert channels == front + [c];
      GroupedOneMore(r, rest, front);
      assert ([r] + rest)[1..] == rest;
      assert c !in front;
    }
  }

  lemma {:induction false} RetainedIsAscending(policies: Policies, log: seq<Record>)
    requires Ascending(log)
    ensures Ascending(Retained(policies, log))
    ensures forall r :: r in Retained(policies, log) ==> r in log
  {
    if log != [] {
      RetainedIsAscending(policies, log[1..]);
      var rest := Retained(policies, log[1..]);
      assert forall j :: 0 <= j < |rest| ==> rest[j] in log[1..];
      assert forall q :: q in log[1..] ==> log[0].sequence < q.sequence && q in log;
    }
  }

  lemma WeaklyOfAscending(s: seq<Record>, t: seq<Record>)
    requires Ascending(s) && Weakly(t) && multiset(s) == multiset(t)
    ensures Ascending(t)
  {
    forall i, j | 0 <= i < j < |t| ensures t[i].sequence < t[j].sequence {
      if t[i].sequence == t[j].sequence {
        assert t[i] in multiset(s) && t[j] in multiset(s);
        var k :| 0 <= k < |s| && s[k] == t[i];
        var l :| 0 <= l < |s| && s[l] == t[j];
        assert k == l;
        Twice(t, i, j);
        OnlyOnce(s, k);
        assert false;
      }
    }
  }

  lemma Twice(t: seq<Record>, i: nat, j: nat)
    requires i < j < |t| && t[i] == t[j]
    ensures multiset(t)[t[i]] >= 2
  {
    assert t == t[..j] + [t[j]] + t[j + 1..];
    assert t[i] == t[..j][i];
    assert t[i] in multiset(t[..j]);
  }

  lemma OnlyOnce(s: seq<Record>, k: nat)
    requires Ascending(s) && k < |s|
    ensures multiset(s)[s[k]] == 1
  {
    assert s == s[..k] + [s[k]] + s[k + 1..];
    assert s[k] !in s[..k] && s[k] !in s[k + 1..];
  }

  /** Sorting the buffers, taken in any order of channels, gives the surviving records in publish order. */
  lemma MergeIsRetained(policies: Policies, log: seq<Record>, channels: seq<Channel>)
    requires Ascending(log) && Distinct(channels)
    requires forall r :: r in Retained(policies, log) ==> r.signal.channel in channels
    ensures SortBySequence(Grouped(Retained(policies, log), channels)) == Retained(policies, log)
  {
    var retained := Retained(policies, log);
    RetainedIsAscending(policies, log);
    GroupedIsPermutation(retained, channels);
    SortFacts(Grouped(retained, channels));
    WeaklyOfAscending(retained, SortBySequence(Grouped(retained, channels)));
    AscendingIsUnique(SortBySequence(Grouped(retained, channels)), retained);
  }

  // ---------------------------------------------------------------- the bus

  /** What a query should return, from the log alone. */
  function Answer(policies: Policies, log: seq<Record>, query: Query): Result<seq<Record>, QueryError>
  {
    var retained := Retained(policies, log);
    var matching := if query.channel.Some? then OnChannel(retained, query.channel.value) else retained;
    match query.limit
    case None => Ok(matching)
    case Some(limit) => if limit < 0 then Err(NegativeLimit(limit)) else Ok(Last(matching, limit))
  }

  /** What the event stream shows of a record: no payload from a channel that is not retained. */
  function EventRecord(policies: Policies, record: Record): Record
  {
    if PolicyOf(policies, record.signal.channel).NoRetention? then record.(signal := record.signal.(payload := None))
    else record
  }

  /** `recordsByChannel.get(channel) ?? []`. */
  function Buffer(buffers: map<Channel, seq<Record>>, channel: Channel): seq<Record>
  {
    if channel in buffers then buffers[channel] else []
  }

  /** The buffers agree with the log. */
  ghost predicate BuffersHold(policies: Policies, log: seq<Record>, buffers: map<Channel, seq<Record>>)
  {
    forall c :: Kept(policies, log, c) == Buffer(buffers, c)
  }

  lemma BuffersHoldAfter(policies: Policies, log: seq<Record>, record: Record,
                         buffers: map<Channel, seq<Record>>, next: map<Channel, seq<Record>>)
    requires BuffersHold(policies, log, buffers)
    requires forall c :: c != record.signal.channel ==> Buffer(next, c) == Buffer(buffers, c)
    requires var c := record.signal.channel;
      Buffer(next, c) == match PolicyOf(policies, c)
                         case NoRetention => []
                         case Bounded(bufferSize) => Last(Buffer(buffers, c) + [record], bufferSize)
    ensures BuffersHold(policies, log + [record], next)
  {
    forall c ensures Kept(policies, log + [record], c) == Buffer(next, c) {
      KeptAfter(policies, log, record, c);
      assert Kept(policies, log, c) == Buffer(buffers, c);
    }
  }

  class Bus {
    const policies: Policies
    var sequence: nat
    var channels: seq<Channel>  // the keys of the map in insertion order
    var recordsByChannel: map<Channel, seq<Record>>
    ghost var log: seq<Record>  // every published record

    ghost predicate Valid()
      reads this
    {
      && sequence == |log| && Numbered(log)
      && Distinct(channels) && (forall c :: c in channels <==> c in recordsByChannel)
      && BuffersHold(policies, log, recordsByChannel)
    }

    constructor (policies: Policies)
      ensures Valid() && this.policies == policies && log == []
    {
      this.policies := policies;
      sequence, channels, recordsByChannel, log := 0, [], map[], [];
    }

    /** `store`. */
    method Store(record: Record)
      requires Valid() && record.sequence == sequence + 1
      modifies this
      ensures Valid() && log == old(log) + [record]
    {
      var c := record.signal.channel;
      ghost var published, buffers := log, recordsByChannel;
      assert Kept(policies, log, c) == Buffer(recordsByChannel, c);
      match PolicyOf(policies, c) {
        case NoRetention =>
        case Bounded(bufferSize) =>
          if c !in recordsByChannel {
            channels := channels + [c];
            recordsByChannel := recordsByChannel[c := []];
          }
          var records := recordsByChannel[c] + [record];
          if |records| > bufferSize {
            records := records[|records| - bufferSize..];
          }
          recordsByChannel := recordsByChannel[c := records];
      }
      assert Buffer(recordsByChannel, c) == match PolicyOf(policies, c)
                                            case NoRetention => []
                                            case Bounded(bufferSize) => Last(Buffer(buffers, c) + [record], bufferSize);
      BuffersHoldAfter(policies, published, record, buffers, recordsByChannel);
      log := log + [record];
      sequence := sequence + 1;
    }

    /** `publish` without the delivery to subscribers: the record and what the event stream gets. */
    method Publish(signal: Signal) returns (record: Record, event: Record)
      requires Valid()
      modifies this
      ensures Valid() && log == old(log) + [record] && record == Record(|old(log)| + 1, signal)
      ensures event == EventRecord(policies, record)
    {
      record := Record(sequence + 1, signal);
      Store(record);
      event := EventRecord(policies, record);
    }

    /** `mergeBySequence`. */
    method MergeBySequence() returns (merged: seq<Record>)
      requires Valid()
      ensures merged == Retained(policies, log)
    {
      merged := [];
      ghost var retained := Retained(policies, log);
      for i := 0 to |channels|
        invariant merged == Grouped(retained, channels[..i])
      {
        KeptIsRetained(policies, log, channels[i]);
        assert channels[..i + 1][..i] == channels[..i];
        merged := merged + recordsByChannel[channels[i]];
      }
      assert channels[..|channels|] == channels;
      forall r | r in retained ensures r.signal.channel in channels {
        KeptIsRetained(policies, log, r.signal.channel);
        OnOwnChannel(retained, r);
      }
      MergeIsRetained(policies, log, channels);
      merged := SortBySequence(merged);
    }

    /** `queryRecords`. */
    method QueryRecords(query: Query) returns (r: Result<seq<Record>, QueryError>)
      requires Valid()
      ensures r == Answer(policies, log, query)
    {
      var filtered: seq<Record>;
      match query.channel {
        case None => filtered := MergeBySequence();
        case Some(c) =>
          KeptIsRetained(policies, log, c);
          filtered := Buffer(recordsByChannel, c);
      }
      match query.limit
      case None => r := Ok(filtered);
      case Some(limit) =>
        if limit < 0 {
          r := Err(NegativeLimit(limit));
        } else if limit == 0 {
          r := Ok([]);
        } else {
          r := Ok(Last(filtered, limit));
        }
    }
  }

  /** Publishing one record changes only its own channel's buffer. */
  lemma KeptAfter(policies: Policies, log: seq<Record>, record: Record, c: Channel)
    ensures c != record.signal.channel ==> Kept(policies, log + [record], c) == Kept(policies, log, c)
    ensures c == record.signal.channel ==>
      Kept(policies, log + [record], c)
      == match PolicyOf(policies, c)
         case NoRetention => []
         case Bounded(bufferSize) => Last(Kept(policies, log, c) + [record], bufferSize)
  {
    OnChannelOneMore(log, record, c);
    if PolicyOf(policies, c).Bounded? && c == record.signal.channel {
      LastOfLast(OnChannel(log, c), record, PolicyOf(policies, c).bufferSize);
    }
  }

  lemma {:induction false} OnChannelOneMore(log: seq<Record>, record: Record, c: Channel)
    ensures OnChannel(log + [record], c)
         == if c == record.signal.channel then OnChannel(log, c) + [record] else OnChannel(log, c)
  {
    OnChannelAppend(log, [record], c);
    assert OnChannel([record], c) == (if c == record.signal.channel then [record] else []) + [];
  }

  lemma {:induction false} OnOwnChannel(s: seq<Record>, r: Record)
    requires r in s
    ensures r in OnChannel(s, r.signal.channel)
  {
    if r != s[0] {
      OnOwnChannel(s[1..], r);
    }
  }

  /** A record of the log is readable exactly while its channel is retained and fewer than `bufferSize` later
      records went to that channel. */
  lemma {:induction false} ReadableIff(policies: Policies, log: seq<Record>, i: nat)
    requires Ascending(log) && i < |log|
    ensures log[i] in Retained(policies, log) <==> Survives(policies, log[i], log[i + 1..])
  {
    RetainedIsAscending(policies, log[1..]);
    if i == 0 {
      assert log[0] !in log[1..];
    } else {
      assert log[i] == log[1..][i - 1] && log[1..][i..] == log[i + 1..];
      ReadableIff(policies, log[1..], i - 1);
      assert log[0] != log[i];
    }
  }

  /** The channel's own policy is this one; or it has none, and this is the default. */
  predicate Governs(policies: Policies, channel: Channel, policy: Policy)
  {
    || (channel in policies.byChannel && policies.byChannel[channel] == policy)
    || (channel !in policies.byChannel && policies.defaultPolicy == policy)
  }

  /** What a channel's own policy says goes for it, whatever the default is: without retention none of its records can
      be read, and with a buffer just as many of the latest as the buffer holds. */
  lemma OwnPolicyDecides(policies: Policies, log: seq<Record>, i: nat, policy: Policy)
    requires Ascending(log) && i < |log| && Governs(policies, log[i].signal.channel, policy)
    ensures policy.NoRetention? ==> log[i] !in Retained(policies, log)
    ensures policy.Bounded? ==>
      (log[i] in Retained(policies, log) <==> |OnChannel(log[i + 1..], log[i].signal.channel)| < policy.bufferSize)
  {
    ReadableIff(policies, log, i);
  }

  /** However much is published, a channel never holds more than its buffer, and an unretained one nothing. */
  lemma BufferIsBounded(policies: Policies, log: seq<Record>, channel: Channel)
    ensures |OnChannel(Retained(policies, log), channel)|
         == match PolicyOf(policies, channel)
            case NoRetention => 0
            case Bounded(bufferSize) =>
              if |OnChannel(log, channel)| <= bufferSize then |OnChannel(log, channel)| else bufferSize
  {
    KeptIsRetained(policies, log, channel);
  }
}
