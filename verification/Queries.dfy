/** The query broker of apps/hub/src/queries.ts: requests parked per attachment until a reply, a detachment, a
    timeout or an interruption ends them. */
module Queries {
  import opened Prelude

  const MAX_IN_FLIGHT := 32

  type AttachmentId(==,!new)
  type Outcome(==,!new)

  datatype Reason = Detached | NotConnected | TooManyOutstanding | TimedOut | StoppedListening | Interrupted

  /** What a deferred is completed with. */
  datatype Answer = Replied(outcome: Outcome) | Unanswered(reason: Reason)

  /** One call of `ask` that got as far as waiting: its request id is its index, its deferred is `answer`. */
  datatype Ask = Ask(channel: nat, answer: Option<Answer>, result: Option<Answer>)

  /** A channel object; it outlives its place in the map while an `ask` still holds it. */
  datatype Channel = Channel(attachmentId: AttachmentId, pending: seq<nat>, closed: bool)

  predicate NoRepeats(s: seq<nat>) { forall i, j :: 0 <= i < j < |s| ==> s[i] != s[j] }

  /** `pending.delete(requestId)`. */
  function Without(s: seq<nat>, r: nat): seq<nat>
  {
    if s == [] then [] else if s[0] == r then Without(s[1..], r) else [s[0]] + Without(s[1..], r)
  }

  lemma {:induction false} WithoutFacts(s: seq<nat>, r: nat)
    ensures |Without(s, r)| <= |s| && forall q :: q in Without(s, r) <==> q in s && q != r
    ensures NoRepeats(s) ==> NoRepeats(Without(s, r))
  {
    if s != [] {
      WithoutFacts(s[1..], r);
      var rest := Without(s[1..], r);
      assert s == [s[0]] + s[1..];
      if NoRepeats(s) && s[0] != r {
        assert NoRepeats(s[1..]) && s[0] !in s[1..];
        assert forall i :: 0 <= i < |rest| ==> rest[i] in rest;
        assert NoRepeats([s[0]] + rest);
      }
    }
  }

  /** Everything a deferred was completed with stays, and nobody is un-asked. */
  predicate Kept(before: seq<Ask>, after: seq<Ask>)
  {
    && |before| <= |after|
    && forall r :: 0 <= r < |before| ==>
         && after[r].channel == before[r].channel
         && (before[r].answer.Some? ==> after[r].answer == before[r].answer)
         && (before[r].result.Some? ==> after[r].result == before[r].result)
  }

  /** A channel lists exactly the requests that still wait on it, at most 32, until it is closed. */
  predicate ChannelInv(channels: seq<Channel>, asks: seq<Ask>, c: nat)
    requires c < |channels|
  {
    var channel := channels[c];
    && |channel.pending| <= MAX_IN_FLIGHT && NoRepeats(channel.pending) && (channel.closed ==> channel.pending == [])
    && forall r :: r in channel.pending ==> r < |asks| && asks[r].channel == c && asks[r].result.None?
  }

  /** Whoever still waits is listed with its channel or has been answered. */
  predicate AskInv(channels: seq<Channel>, ask: Ask, r: nat)
  {
    && ask.channel < |channels|
    && (ask.result.None? ==> r in channels[ask.channel].pending || (channels[ask.channel].closed && ask.answer.Some?))
  }

  predicate Inv(open: map<AttachmentId, nat>, channels: seq<Channel>, asks: seq<Ask>)
  {
    && (forall id :: id in open ==>
          && open[id] < |channels| && channels[open[id]].attachmentId == id && !channels[open[id]].closed)
    && (forall c :: 0 <= c < |channels| ==> ChannelInv(channels, asks, c))
    && (forall r :: 0 <= r < |asks| ==> AskInv(channels, asks[r], r))
  }

  /** The requests that wait on an attachment's channel. */
  function Waiting(open: map<AttachmentId, nat>, channels: seq<Channel>, id: AttachmentId): seq<nat>
  {
    if id in open && open[id] < |channels| then channels[open[id]].pending else []
  }

  /** The asks after a reply: the request is answered if it waits there unanswered. */
  function Settled(asks: seq<Ask>, waiting: seq<nat>, r: nat, outcome: Outcome): seq<Ask>
  {
    if r in waiting && r < |asks| && asks[r].answer.None? then asks[r := asks[r].(answer := Some(Replied(outcome)))]
    else asks
  }

  class QueryBroker {
    var open: map<AttachmentId, nat>  // the `channels` map: which channel object an attachment has
    var channels: seq<Channel>        // every channel object, by identity
    var asks: seq<Ask>

    predicate Valid()
      reads this
    {
      Inv(open, channels, asks)
    }

    constructor ()
      ensures Valid() && open == map[] && asks == []
    {
      open, channels, asks := map[], [], [];
    }

    /** `open`. */
    method Open(id: AttachmentId)
      requires Valid()
      modifies this
      ensures Valid() && open == old(open)[id := |old(channels)|] && asks == old(asks)
      ensures channels == old(channels) + [Channel(id, [], false)]
    {
      ghost var before := channels;
      channels := channels + [Channel(id, [], false)];
      open := open[id := |channels| - 1];
      forall c | 0 <= c < |channels| ensures ChannelInv(channels, asks, c) {
        if c < |before| {
          assert ChannelInv(before, asks, c);
        }
      }
      forall r | 0 <= r < |asks| ensures AskInv(channels, asks[r], r) {
        assert AskInv(before, asks[r], r);
      }
    }

    /** `close`: everything that still waits on the attachment is failed at once. */
    method Close(id: AttachmentId)
      requires Valid()
      modifies this
      ensures Valid() && open == old(open) - {id} && Kept(old(asks), asks)
      ensures id !in old(open) ==> asks == old(asks) && channels == old(channels)
      ensures id in old(open) ==>
        && channels == old(channels)[old(open)[id] := Channel(id, [], true)]
        && asks == Failed(old(asks), old(channels[open[id]].pending))
    {
      if id in open {
        var c := open[id];
        ghost var before := asks;
        var pending := channels[c].pending;
        assert ChannelInv(channels, asks, c);
        open := open - {id};
        for i := 0 to |pending|
          invariant channels == old(channels) && open == old(open) - {id}
          invariant asks == Failed(before, pending[..i])
        {
          FailedAt(before, pending[..i]);
          assert pending[..i + 1][..i] == pending[..i];
          var r := pending[i];
          assert r in channels[c].pending;
          if asks[r].answer.None? {
            asks := asks[r := asks[r].(answer := Some(Unanswered(Detached)))];
          }
        }
        assert pending[..|pending|] == pending;
        FailedAt(before, pending);
        ghost var channelsBefore := channels;
        channels := channels[c := channels[c].(pending := [], closed := true)];
        ClosedInv(old(open), channelsBefore, before, id);
      }
    }

    /** `settle`: a reply reaches a request only if it waits on the very attachment that replied, and only once. */
    method Settle(id: AttachmentId, r: nat, outcome: Outcome)
      requires Valid()
      modifies this
      ensures Valid() && open == old(open) && channels == old(channels) && Kept(old(asks), asks)
      ensures r in Waiting(open, channels, id) ==> r < |old(asks)| && old(asks[r]).channel == open[id]
      ensures asks == Settled(old(asks), Waiting(open, channels, id), r, outcome)
    {
      if id in open && r in channels[open[id]].pending {
        ghost var before := asks;
        assert ChannelInv(channels, asks, open[id]);
        if asks[r].answer.None? {
          asks := asks[r := asks[r].(answer := Some(Replied(outcome)))];
          AnsweredInv(open, channels, before, asks);
        }
      }
    }

    /** `ask` up to the offer of the command: the request it waits with, or why it may not. */
    method AskBegin(id: AttachmentId) returns (r: Result<nat, Reason>)
      requires Valid()
      modifies this
      ensures Valid() && open == old(open) && Kept(old(asks), asks)
      ensures r == if id !in open then Err(NotConnected)
                   else if |old(channels[open[id]].pending)| >= MAX_IN_FLIGHT then Err(TooManyOutstanding)
                   else Ok(|old(asks)|)
      ensures r.Err? ==> asks == old(asks) && channels == old(channels)
      ensures r.Ok? ==>
        && asks == old(asks) + [Ask(open[id], None, None)]
        && var before := old(channels[open[id]]);
           channels == old(channels)[open[id] := before.(pending := before.pending + [r.value])]
    {
      if id !in open {
        return Err(NotConnected);
      }
      var c := open[id];
      if |channels[c].pending| >= MAX_IN_FLIGHT {
        return Err(TooManyOutstanding);
      }
      ghost var asksBefore, channelsBefore := asks, channels;
      var requestId := |asks|;
      asks := asks + [Ask(c, None, None)];
      channels := channels[c := channels[c].(pending := channels[c].pending + [requestId])];
      AskedInv(open, channelsBefore, asksBefore, c);
      return Ok(requestId);
    }

    /** How `ask` ends: with the answer of its deferred, or because it timed out, the queue no longer accepts, or
        the caller was interrupted; its entry leaves the channel it was made on, whatever became of the map. */
    method AskEnd(r: nat, gaveUp: Option<Reason>) returns (result: Answer)
      requires Valid() && r < |asks| && asks[r].result.None? && (gaveUp.Some? || asks[r].answer.Some?)
      modifies this
      ensures Valid() && open == old(open) && Kept(old(asks), asks)
      ensures result == if gaveUp.Some? then Unanswered(gaveUp.value) else old(asks[r].answer.value)
      ensures asks == old(asks)[r := old(asks[r]).(result := Some(result))]
      ensures var c := old(asks[r].channel);
        channels == old(channels)[c := old(channels[c]).(pending := Without(old(channels[c].pending), r))]
    {
      assert AskInv(channels, asks[r], r);
      result := if gaveUp.Some? then Unanswered(gaveUp.value) else asks[r].answer.value;
      ghost var asksBefore, channelsBefore := asks, channels;
      var c := asks[r].channel;
      asks := asks[r := asks[r].(result := Some(result))];
      channels := channels[c := channels[c].(pending := Without(channels[c].pending, r))];
      EndedInv(open, channelsBefore, asksBefore, r, result);
    }
  }

  /** The asks once the deferreds of `pending` are failed; one already completed keeps its answer. */
  function Failed(asks: seq<Ask>, pending: seq<nat>): seq<Ask>
  {
    seq(|asks|, r requires 0 <= r < |asks| =>
      if r in pending && asks[r].answer.None? then asks[r].(answer := Some(Unanswered(Detached))) else asks[r])
  }

  lemma FailedAt(asks: seq<Ask>, pending: seq<nat>)
    ensures Kept(asks, Failed(asks, pending))
    ensures pending == [] ==> Failed(asks, pending) == asks
  {
  }

  lemma ClosedInv(open: map<AttachmentId, nat>, channels: seq<Channel>, asks: seq<Ask>, id: AttachmentId)
    requires Inv(open, channels, asks) && id in open
    ensures var c := open[id];
      Inv(open - {id}, channels[c := channels[c].(pending := [], closed := true)], Failed(asks, channels[c].pending))
  {
    var c := open[id];
    var after, failed := channels[c := channels[c].(pending := [], closed := true)], Failed(asks, channels[c].pending);
    forall d | 0 <= d < |after| ensures ChannelInv(after, failed, d) {
      assert ChannelInv(channels, asks, d);
    }
    forall r | 0 <= r < |failed| ensures AskInv(after, failed[r], r) {
      assert AskInv(channels, asks[r], r);
    }
  }

  lemma AnsweredInv(open: map<AttachmentId, nat>, channels: seq<Channel>, before: seq<Ask>, after: seq<Ask>)
    requires Inv(open, channels, before) && Kept(before, after) && |after| == |before|
    requires forall r :: 0 <= r < |before| ==> after[r].result == before[r].result
    ensures Inv(open, channels, after)
  {
    forall c | 0 <= c < |channels| ensures ChannelInv(channels, after, c) {
      assert ChannelInv(channels, before, c);
    }
    forall r | 0 <= r < |after| ensures AskInv(channels, after[r], r) {
      assert AskInv(channels, before[r], r);
    }
  }

  lemma AskedInv(open: map<AttachmentId, nat>, channels: seq<Channel>, asks: seq<Ask>, c: nat)
    requires Inv(open, channels, asks) && c < |channels| && |channels[c].pending| < MAX_IN_FLIGHT && !channels[c].closed
    ensures Inv(open, channels[c := channels[c].(pending := channels[c].pending + [|asks|])],
                asks + [Ask(c, None, None)])
  {
    var after := channels[c := channels[c].(pending := channels[c].pending + [|asks|])];
    var more := asks + [Ask(c, None, None)];
    forall d | 0 <= d < |after| ensures ChannelInv(after, more, d) {
      assert ChannelInv(channels, asks, d);
      assert |asks| !in channels[d].pending;
      assert forall i :: 0 <= i < |channels[d].pending| ==> channels[d].pending[i] in channels[d].pending;
    }
    forall r | 0 <= r < |more| ensures AskInv(after, more[r], r) {
      if r < |asks| {
        assert AskInv(channels, asks[r], r);
      }
    }
  }

  lemma EndedInv(open: map<AttachmentId, nat>, channels: seq<Channel>, asks: seq<Ask>, r: nat, result: Answer)
    requires Inv(open, channels, asks) && r < |asks|
    requires asks[r].channel < |channels|
    ensures var c := asks[r].channel;
      Inv(open, channels[c := channels[c].(pending := Without(channels[c].pending, r))],
          asks[r := asks[r].(result := Some(result))])
  {
    var c := asks[r].channel;
    var after := channels[c := channels[c].(pending := Without(channels[c].pending, r))];
    var ended := asks[r := asks[r].(result := Some(result))];
    WithoutFacts(channels[c].pending, r);
    forall d | 0 <= d < |after| ensures ChannelInv(after, ended, d) {
      assert ChannelInv(channels, asks, d);
    }
    forall q | 0 <= q < |ended| ensures AskInv(after, ended[q], q) {
      assert AskInv(channels, asks[q], q);
    }
  }

  /** No detachment leaves a caller to its timeout: whoever waits without an answer is listed with a channel that
      was never closed (its attachment's, or one that opening the same id again displaced). */
  lemma WaitersAreReachable(open: map<AttachmentId, nat>, channels: seq<Channel>, asks: seq<Ask>, r: nat)
    requires Inv(open, channels, asks) && r < |asks| && asks[r].result.None? && asks[r].answer.None?
    ensures asks[r].channel < |channels| && !channels[asks[r].channel].closed && r in channels[asks[r].channel].pending
  {
    assert AskInv(channels, asks[r], r);
    assert ChannelInv(channels, asks, asks[r].channel);
  }
}
