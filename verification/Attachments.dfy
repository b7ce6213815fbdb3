/** The hub's registry of attached runtimes, apps/hub/src/nodes/attachments.ts: the view, the event ring and the
    query channel of every attachment, all derived from the batches that arrived for it. */
module Attachments {
  import opened Prelude
  import opened Queries
  import Rate
  import Retention

  const TAIL_LIMIT := 100

  type Info(==,!new)

  /** What one `ingested` action brings, with the hub's clock. */
  datatype Batch = Batch(now: int, records: seq<Retention.Record>, droppedSince: nat)

  datatype AttachmentView = AttachmentView(
    attachmentId: AttachmentId,
    info: Info,
    connectedAt: int,
    eventCount: nat,
    droppedCount: nat,
    lastSequence: nat,
    lastEventAt: int,
    lastTag: Option<string>,
    rate: Rate.RateWindow,
    tail: seq<Retention.Record>)

  /** An attachment since it attached. */
  datatype History =
    | Opened(info: Info, connectedAt: int)
    | Then(before: History, batch: Batch)

  // ---------------------------------------------------------------- what a view should show

  /** Every record that arrived, in order. */
  function Arrived(h: History): seq<Retention.Record>
  {
    if h.Opened? then [] else Arrived(h.before) + h.batch.records
  }

  function Dropped(h: History): nat
  {
    if h.Opened? then 0 else Dropped(h.before) + h.batch.droppedSince
  }

  function RateLog(h: History): Rate.Log
  {
    if h.Opened? then Rate.Made(h.connectedAt)
    else Rate.Recorded(RateLog(h.before), h.batch.now, |h.batch.records|)
  }

  function InfoOf(h: History): Info { if h.Opened? then h.info else InfoOf(h.before) }

  function ConnectedAt(h: History): int { if h.Opened? then h.connectedAt else ConnectedAt(h.before) }

  /** The last records of `all`, as many as a view carries. */
  predicate IsTail(tail: seq<Retention.Record>, all: seq<Retention.Record>)
  {
    && |tail| == (if |all| < TAIL_LIMIT then |all| else TAIL_LIMIT)
    && forall i :: 0 <= i < |tail| ==> tail[i] == all[|all| - |tail| + i]
  }

  /** A view shows exactly what arrived. */
  predicate Shows(view: AttachmentView, id: AttachmentId, h: History)
  {
    var all := Arrived(h);
    && view.attachmentId == id && view.info == InfoOf(h) && view.connectedAt == ConnectedAt(h)
    && view.eventCount == |all| && view.droppedCount == Dropped(h)
    && view.lastSequence == (if all == [] then 0 else all[|all| - 1].sequence)
    && view.lastEventAt == (if all == [] then 0 else all[|all| - 1].recordedAt)
    && view.lastTag == (if all == [] then None else Some(all[|all| - 1].tag))
    && Rate.Counts(view.rate, RateLog(h)) && IsTail(view.tail, all)
  }

  function NewView(id: AttachmentId, info: Info, at: int): AttachmentView
  {
    AttachmentView(id, info, at, 0, 0, 0, 0, None, Rate.EmptyRate(at), [])
  }

  /** The update `ingested` makes to a view. */
  function Ingest(view: AttachmentView, batch: Batch): AttachmentView
    requires Rate.Aligned(view.rate)
  {
    var records := batch.records;
    view.(
      eventCount := view.eventCount + |records|,
      droppedCount := view.droppedCount + batch.droppedSince,
      lastSequence := if records == [] then view.lastSequence else records[|records| - 1].sequence,
      lastEventAt := if records == [] then view.lastEventAt else records[|records| - 1].recordedAt,
      lastTag := if records == [] then view.lastTag else Some(records[|records| - 1].tag),
      rate := Rate.RecordRate(view.rate, batch.now, |records|),
      tail := Last(view.tail + records, TAIL_LIMIT))
  }

  lemma TailOfMore(tail: seq<Retention.Record>, all: seq<Retention.Record>, records: seq<Retention.Record>)
    requires IsTail(tail, all)
    ensures IsTail(Last(tail + records, TAIL_LIMIT), all + records)
  {
  }

  lemma NewViewShows(id: AttachmentId, info: Info, at: int)
    ensures Shows(NewView(id, info, at), id, Opened(info, at))
  {
  }

  /** Updating the view batch by batch keeps it showing all that arrived. */
  lemma IngestShows(view: AttachmentView, id: AttachmentId, h: History, batch: Batch)
    requires Shows(view, id, h)
    ensures Shows(Ingest(view, batch), id, Then(h, batch))
  {
    TailOfMore(view.tail, Arrived(h), batch.records);
    Rate.RecordedCounts(RateLog(h), view.rate, batch.now, |batch.records|);
  }

  // ---------------------------------------------------------------- the registry

  /** The ring of an attachment got every record that arrived, and the view shows them. */
  ghost predicate Entry(view: AttachmentView, ring: Retention.EventRing, id: AttachmentId, h: History)
    reads ring
  {
    && Shows(view, id, h)
    && ring.Valid() && ring.capacity == Retention.RETAINED_PER_ATTACHMENT && ring.pushed == Arrived(h)
  }

  type Rings = map<AttachmentId, Retention.EventRing>
  type ViewMap = map<AttachmentId, AttachmentView>
  type Histories = map<AttachmentId, History>

  /** The views, the rings and the channels have the same ids as the histories. */
  predicate SameIds(views: ViewMap, retained: Rings, channels: map<AttachmentId, nat>, histories: Histories)
  {
    views.Keys == retained.Keys == channels.Keys == histories.Keys
  }

  /** Every id has a ring of its own. */
  ghost predicate Unshared(retained: Rings)
  {
    forall a, b :: a in retained && b in retained && a != b ==> retained[a] != retained[b]
  }

  ghost predicate Entries(views: ViewMap, retained: Rings, rings: set<Retention.EventRing>, histories: Histories)
    reads rings
  {
    forall id :: id in histories && id in views && id in retained ==>
      retained[id] in rings && Entry(views[id], retained[id], id, histories[id])
  }

  /** What the registry's fields keep among themselves. */
  ghost predicate Coherent(views: ViewMap, retained: Rings, rings: set<Retention.EventRing>,
                           channels: map<AttachmentId, nat>, histories: Histories)
    reads rings
  {
    SameIds(views, retained, channels, histories) && Unshared(retained) && Entries(views, retained, rings, histories)
  }

  class AttachmentsNode {
    var attachments: ViewMap
    var retained: Rings
    const queries: QueryBroker
    ghost var histories: Histories
    ghost var rings: set<Retention.EventRing>  // every ring in use

    ghost predicate Valid()
      reads this, queries, rings
    {
      queries.Valid() && Coherent(attachments, retained, rings, queries.open, histories)
    }

    constructor ()
      ensures Valid() && fresh(queries) && histories == map[]
    {
      attachments, retained, histories, rings := map[], map[], map[], {};
      queries := new QueryBroker();
    }

    method Attached(id: AttachmentId, info: Info, at: int)
      requires Valid()
      modifies this, queries
      ensures Valid() && histories == Apply(old(histories), Attach(id, info, at)) && fresh(rings - old(rings))
      ensures queries.asks == old(queries.asks) && queries.channels == old(queries.channels) + [Channel(id, [], false)]
    {
      Admit(id, info, at, queries.open, |queries.channels|);
      queries.Open(id);
    }

    /** A ring of its own and a fresh view. */
    method Admit(id: AttachmentId, info: Info, at: int, ghost channels: map<AttachmentId, nat>, ghost c: nat)
      requires Coherent(attachments, retained, rings, channels, histories)
      modifies this
      ensures Coherent(attachments, retained, rings, channels[id := c], histories)
      ensures histories == old(histories)[id := Opened(info, at)] && fresh(rings - old(rings))
    {
      var ring := AddRing(attachments, retained, rings, channels, histories, id, info, at, c);
      Become(attachments[id := NewView(id, info, at)], retained[id := ring], rings + {ring},
             histories[id := Opened(info, at)]);
    }

    method Detached(id: AttachmentId)
      requires Valid()
      modifies this, queries
      ensures Valid() && histories == Apply(old(histories), Detach(id)) && rings == old(rings)
      ensures queries.asks == if id in old(queries.open)
                                then Failed(old(queries.asks), old(queries.channels[queries.open[id]].pending))
                                else old(queries.asks)
    {
      ghost var channels := queries.open;
      Forget(id, channels);
      queries.Close(id);
    }

    /** The map entries go. */
    method Forget(id: AttachmentId, ghost channels: map<AttachmentId, nat>)
      requires Coherent(attachments, retained, rings, channels, histories)
      modifies this
      ensures Coherent(attachments, retained, rings, channels - {id}, histories)
      ensures histories == old(histories) - {id} && rings == old(rings)
    {
      DetachedCoherent(attachments, retained, rings, channels, histories, id);
      Become(attachments - {id}, retained - {id}, rings, histories - {id});
    }

    method Replied(id: AttachmentId, requestId: nat, outcome: Outcome)
      requires Valid()
      modifies queries
      ensures Valid() && Kept(old(queries.asks), queries.asks)
      ensures queries.asks
           == Settled(old(queries.asks), Waiting(queries.open, queries.channels, id), requestId, outcome)
    {
      queries.Settle(id, requestId, outcome);
    }

    /** A batch for an id that is not attached changes nothing. */
    method Ingested(id: AttachmentId, batch: Batch)
      requires Valid()
      modifies this, rings
      ensures Valid() && retained == old(retained) && rings == old(rings)
      ensures histories == Apply(old(histories), Arrive(id, batch))
      ensures id !in old(histories) ==> attachments == old(attachments)
    {
      CoherentIds(attachments, retained, rings, queries.open, histories, id);
      if id !in attachments {
        return;
      }
      ghost var next := Apply(histories, Arrive(id, batch));
      Absorb(id, batch, queries.open);
      assert histories == next;
    }

    /** Ring and view take the batch. */
    method Absorb(id: AttachmentId, batch: Batch, ghost channels: map<AttachmentId, nat>)
      requires Coherent(attachments, retained, rings, channels, histories) && id in attachments
      modifies this, rings
      ensures Coherent(attachments, retained, rings, channels, histories)
      ensures retained == old(retained) && rings == old(rings)
      ensures id in old(histories) && histories == old(histories)[id := Then(old(histories[id]), batch)]
    {
      var view := IngestBatch(attachments, retained, rings, channels, histories, id, batch);
      Become(attachments[id := view], retained, rings, histories[id := Then(histories[id], batch)]);
    }

    /** The maps are updated. */
    method Become(views: ViewMap, next: Rings, ghost ringsNext: set<Retention.EventRing>,
                  ghost historiesNext: Histories)
      requires Entries(views, next, ringsNext, historiesNext)
      modifies this
      ensures attachments == views && retained == next && rings == ringsNext && histories == historiesNext
      ensures Entries(views, next, ringsNext, historiesNext)
    {
      attachments, retained := views, next;
      rings, histories := ringsNext, historiesNext;
    }
  }

  lemma CoherentIds(views: ViewMap, retained: Rings, rings: set<Retention.EventRing>,
                    channels: map<AttachmentId, nat>, histories: Histories, id: AttachmentId)
    requires Coherent(views, retained, rings, channels, histories)
    ensures id in views <==> id in histories
  {
  }

  lemma AttachedCoherent(views: ViewMap, retained: Rings, rings: set<Retention.EventRing>,
                         channels: map<AttachmentId, nat>, histories: Histories,
                         id: AttachmentId, info: Info, at: int, ring: Retention.EventRing, c: nat)
    requires Coherent(views, retained, rings, channels, histories) && ring !in rings
    requires ring.Valid() && ring.capacity == Retention.RETAINED_PER_ATTACHMENT && ring.pushed == []
    ensures Coherent(views[id := NewView(id, info, at)], retained[id := ring], rings + {ring}, channels[id := c],
                     histories[id := Opened(info, at)])
  {
    AttachedUnshared(views, retained, rings, histories, id, ring);
    NewEntry(id, info, at, ring);
  }

  lemma NewEntry(id: AttachmentId, info: Info, at: int, ring: Retention.EventRing)
    requires ring.Valid() && ring.capacity == Retention.RETAINED_PER_ATTACHMENT && ring.pushed == []
    ensures Entry(NewView(id, info, at), ring, id, Opened(info, at))
  {
    NewViewShows(id, info, at);
  }

  lemma AttachedUnshared(views: ViewMap, retained: Rings, rings: set<Retention.EventRing>, histories: Histories,
                         id: AttachmentId, ring: Retention.EventRing)
    requires Entries(views, retained, rings, histories) && Unshared(retained) && ring !in rings
    requires views.Keys == retained.Keys == histories.Keys
    ensures Unshared(retained[id := ring])
  {
  }

  lemma DetachedCoherent(views: ViewMap, retained: Rings, rings: set<Retention.EventRing>,
                         channels: map<AttachmentId, nat>, histories: Histories, id: AttachmentId)
    requires Coherent(views, retained, rings, channels, histories)
    ensures Coherent(views - {id}, retained - {id}, rings, channels - {id}, histories - {id})
  {
  }

  /** A new attachment gets a ring of its own. */
  method AddRing(ghost views: ViewMap, ghost retained: Rings, ghost rings: set<Retention.EventRing>,
                 ghost channels: map<AttachmentId, nat>, ghost histories: Histories,
                 id: AttachmentId, info: Info, at: int, ghost c: nat)
    returns (ring: Retention.EventRing)
    requires Coherent(views, retained, rings, channels, histories)
    ensures fresh(ring)
    ensures Coherent(views[id := NewView(id, info, at)], retained[id := ring], rings + {ring}, channels[id := c],
                     histories[id := Opened(info, at)])
  {
    ring := new Retention.EventRing(Retention.RETAINED_PER_ATTACHMENT);
    AttachedCoherent(views, retained, rings, channels, histories, id, info, at, ring, c);
  }

  /** The ring and the view of one attachment take the batch; no other ring changes. */
  method IngestBatch(views: ViewMap, retained: Rings, ghost rings: set<Retention.EventRing>,
                     ghost channels: map<AttachmentId, nat>, ghost histories: Histories, id: AttachmentId, batch: Batch)
    returns (view: AttachmentView)
    requires Coherent(views, retained, rings, channels, histories) && id in views
    modifies rings
    ensures id in histories
    ensures Coherent(views[id := view], retained, rings, channels, histories[id := Then(histories[id], batch)])
  {
    view := PushTo(views, retained, rings, histories, id, batch);
    SameIdsUpdated(views, retained, channels, histories, id, view, Then(histories[id], batch));
  }

  lemma SameIdsUpdated(views: ViewMap, retained: Rings, channels: map<AttachmentId, nat>, histories: Histories,
                       id: AttachmentId, view: AttachmentView, h: History)
    requires SameIds(views, retained, channels, histories) && id in views
    ensures SameIds(views[id := view], retained, channels, histories[id := h])
  {
  }

  method PushTo(views: ViewMap, retained: Rings, ghost rings: set<Retention.EventRing>, ghost histories: Histories,
                id: AttachmentId, batch: Batch)
    returns (view: AttachmentView)
    requires Entries(views, retained, rings, histories) && Unshared(retained)
    requires id in views && id in retained && id in histories
    modifies rings
    ensures Entries(views[id := view], retained, rings, histories[id := Then(histories[id], batch)])
  {
    ghost var h := histories[id];
    assert Entry(views[id], retained[id], id, h);
    retained[id].Push(batch.records);
    IngestShows(views[id], id, h, batch);
    view := Ingest(views[id], batch);
    assert Entry(view, retained[id], id, Then(h, batch));
    forall other | other in histories && other in views && other in retained && other != id
      ensures retained[other] in rings && Entry(views[other], retained[other], other, histories[other])
    {
      assert retained[other] != retained[id];
      assert old(Entry(views[other], retained[other], other, histories[other]));
    }
  }

  // ---------------------------------------------------------------- whole runs

  /** In every reachable registry the view counts what the ring holds and what it has evicted, and its tail is the
      end of what the ring still holds. */
  lemma ViewMatchesRing(node: AttachmentsNode, id: AttachmentId)
    requires node.Valid() && id in node.attachments
    ensures id in node.retained && id in node.queries.open && id in node.histories
    ensures var view, ring := node.attachments[id], node.retained[id];
      view.eventCount == |ring.records| + ring.evicted && IsTail(view.tail, ring.records)
  {
    assert Entry(node.attachments[id], node.retained[id], id, node.histories[id]);
    EntryMatches(node.attachments[id], node.retained[id], id, node.histories[id]);
  }

  lemma EntryMatches(view: AttachmentView, ring: Retention.EventRing, id: AttachmentId, h: History)
    requires Entry(view, ring, id, h)
    ensures view.eventCount == |ring.records| + ring.evicted && IsTail(view.tail, ring.records)
  {
    TailOfSuffix(view.tail, ring.pushed[..ring.evicted], ring.records);
  }

  lemma TailOfSuffix(tail: seq<Retention.Record>, gone: seq<Retention.Record>, records: seq<Retention.Record>)
    requires IsTail(tail, gone + records) && (gone != [] ==> |records| >= TAIL_LIMIT)
    ensures IsTail(tail, records)
  {
  }

  datatype Action =
    | Attach(id: AttachmentId, info: Info, at: int)
    | Detach(id: AttachmentId)
    | Arrive(id: AttachmentId, batch: Batch)

  /** What one action makes of the histories, as the methods of AttachmentsNode promise. */
  function Apply(histories: Histories, action: Action): Histories
  {
    match action
    case Attach(id, info, at) => histories[id := Opened(info, at)]
    case Detach(id) => histories - {id}
    case Arrive(id, batch) => if id in histories then histories[id := Then(histories[id], batch)] else histories
  }

  function Run(actions: seq<Action>): Histories
  {
    if actions == [] then map[] else Apply(Run(actions[..|actions| - 1]), actions[|actions| - 1])
  }

  /** The records of the batches that name an id, from index `from` on. */
  function Sent(actions: seq<Action>, id: AttachmentId, from: nat): seq<Retention.Record>
  {
    if |actions| <= from then []
    else
      var last := actions[|actions| - 1];
      Sent(actions[..|actions| - 1], id, from) + if last.Arrive? && last.id == id then last.batch.records else []
  }

  predicate Untouched(actions: seq<Action>, id: AttachmentId, from: nat)
  {
    forall j :: from <= j < |actions| ==> actions[j].Arrive? || actions[j].id != id
  }

  /** After the last attachment of an id its history is exactly the batches sent since; after its last detachment
      there is none, whatever batches still come. */
  lemma {:induction false} OnlyAttachingAttaches(actions: seq<Action>, id: AttachmentId, i: nat)
    requires i < |actions| && !actions[i].Arrive? && actions[i].id == id && Untouched(actions, id, i + 1)
    ensures id in Run(actions) <==> actions[i].Attach?
    ensures id in Run(actions) ==> Arrived(Run(actions)[id]) == Sent(actions, id, i + 1)
    ensures id in Run(actions) ==> InfoOf(Run(actions)[id]) == actions[i].info
    ensures id in Run(actions) ==> ConnectedAt(Run(actions)[id]) == actions[i].at
  {
    if i < |actions| - 1 {
      OnlyAttachingAttaches(actions[..|actions| - 1], id, i);
    }
  }

  lemma {:induction false} NeverAttached(actions: seq<Action>, id: AttachmentId)
    requires forall j :: 0 <= j < |actions| ==> actions[j].Attach? ==> actions[j].id != id
    ensures id !in Run(actions)
  {
    if actions != [] {
      NeverAttached(actions[..|actions| - 1], id);
    }
  }

  lemma {:induction false} LastTouch(actions: seq<Action>, id: AttachmentId, j: nat) returns (i: nat)
    requires j < |actions| && !actions[j].Arrive? && actions[j].id == id
    ensures j <= i < |actions| && !actions[i].Arrive? && actions[i].id == id && Untouched(actions, id, i + 1)
    decreases |actions| - j
  {
    if Untouched(actions, id, j + 1) {
      i := j;
    } else {
      var k :| j + 1 <= k < |actions| && !actions[k].Arrive? && actions[k].id == id;
      i := LastTouch(actions, id, k);
    }
  }

  /** After any run exactly those ids have an entry that were attached and not detached since; batches alone never
      make one. */
  lemma {:induction false} AttachedIff(actions: seq<Action>, id: AttachmentId)
    ensures id in Run(actions)
       <==> exists i :: 0 <= i < |actions| && actions[i].Attach? && actions[i].id == id && Untouched(actions, id, i + 1)
  {
    if i: nat :| i < |actions| && actions[i].Attach? && actions[i].id == id && Untouched(actions, id, i + 1) {
      OnlyAttachingAttaches(actions, id, i);
    } else if j: nat :| j < |actions| && actions[j].Attach? && actions[j].id == id {
      var i := LastTouch(actions, id, j);
      OnlyAttachingAttaches(actions, id, i);
    } else {
      NeverAttached(actions, id);
    }
  }
}
