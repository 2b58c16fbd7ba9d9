/** The pipeline end to end: producers and publishers write the topics, order transactions turn order
    events into match requests, matcher transactions turn requests into reservations. Workers are not
    fenced here: any transaction over any stretch of a partition may commit at any moment, any number of
    times, which includes every run of fenced, stale, crashed and restarted workers. */
module Pipeline {
  import opened Model
  import opened OrderApplier
  import opened MatchWorker
  import Pub = OutboxPublisher

  /** `loaded` keeps the riders as they were loaded; `maxOrders` is the matcher's capacity limit. */
  datatype State = State(
    orders: Orders, riders: map<int, RiderRow>, orderInbox: map<string, Position>, matchInbox: map<string, Position>,
    pub: Pub.State, loaded: map<int, RiderRow>, maxOrders: int)

  /** An order transaction over records lo..hi of a partition. Order rows are read without a lock, so the
      transaction may compute from `seen`, rows as they stood earlier, and overwrite the rows `written`. */
  datatype Step =
    | Publish(step: Pub.Step)
    | OrderTx(shardId: int, lo: nat, hi: nat, seen: Orders, written: set<int>)
    | MatchTx(shardId: int, offset: nat, candidates: seq<Candidate>, now: int)

  function Init(riders: map<int, RiderRow>, maxOrders: int, now: nat, lease: nat): State {
    State(map[], riders, map[], map[], Pub.Init(now, lease), riders, maxOrders)
  }

  function OrderLog(logs: Pub.Logs, shardId: int): seq<Event> {
    Pub.LogOf(logs, Pub.Partition(OrderEvents, shardId))
  }

  function RequestLog(logs: Pub.Logs, shardId: int): seq<Event> {
    Pub.LogOf(logs, Pub.Partition(MatchRequests, shardId))
  }

  predicate OrderTxEnabled(s: State, step: Step)
    requires step.OrderTx?
  {
    && step.lo <= step.hi <= |OrderLog(s.pub.logs, step.shardId)|
    && step.seen.Keys <= s.orders.Keys
  }

  function RunBatch(s: State, step: Step): Result<Tables>
    requires step.OrderTx? && OrderTxEnabled(s, step)
  {
    ApplyBatch(Tables(s.orderInbox, step.seen, s.pub.outbox),
               Records(step.shardId, OrderLog(s.pub.logs, step.shardId), step.lo, step.hi))
  }

  /** `written` covers at least the rows the transaction changed against what it had seen. */
  predicate CoversWrites(seen: Orders, after: Orders, written: set<int>) {
    && written <= after.Keys
    && forall orderId :: orderId in after && (orderId !in seen || seen[orderId] != after[orderId]) ==>
      orderId in written
  }

  function MatchView(s: State): MatchTables {
    MatchTables(s.matchInbox, s.orders, s.riders, s.pub.outbox)
  }

  function RunRequest(s: State, step: Step): Result<MatchTables>
    requires step.MatchTx? && step.offset < |RequestLog(s.pub.logs, step.shardId)|
  {
    ApplyRequest(MatchView(s), RecordAt(step.shardId, RequestLog(s.pub.logs, step.shardId), step.offset),
                 step.candidates, s.maxOrders, step.now)
  }

  function DoOrderTx(s: State, step: Step): State
    requires step.OrderTx? && OrderTxEnabled(s, step)
  {
    match RunBatch(s, step)
    case Err(_) => s
    case Ok(t) =>
      if !CoversWrites(step.seen, t.orders, step.written) then s
      else s.(orders := s.orders + map orderId | orderId in step.written :: t.orders[orderId],
              orderInbox := t.inbox, pub := s.pub.(outbox := t.outbox))
  }

  function DoMatchTx(s: State, step: Step): State
    requires step.MatchTx? && step.offset < |RequestLog(s.pub.logs, step.shardId)|
  {
    match RunRequest(s, step)
    case Err(_) => s
    case Ok(t) => s.(orders := t.orders, riders := t.riders, matchInbox := t.inbox, pub := s.pub.(outbox := t.outbox))
  }

  function Do(s: State, step: Step): State {
    match step
    case Publish(inner) => if inner.Insert? then s else s.(pub := Pub.Do(s.pub, inner))
    case OrderTx(_, _, _, _, _) => if OrderTxEnabled(s, step) then DoOrderTx(s, step) else s
    case MatchTx(shardId, offset, _, _) => if offset < |RequestLog(s.pub.logs, shardId)| then DoMatchTx(s, step) else s
  }

  function Exec(s: State, steps: seq<Step>): State {
    if |steps| == 0 then s else Do(Exec(s, steps[..|steps| - 1]), steps[|steps| - 1])
  }

  // ---------------------------------------------------------------------------------------------
  // Derived event ids
  // ---------------------------------------------------------------------------------------------

  function Strip(s: string, suffix: string): string
    requires |s| >= |suffix|
  {
    s[..|s| - |suffix|]
  }

  lemma StripUndoes(base: string, suffix: string)
    ensures EndsWith(base + suffix, suffix) && Strip(base + suffix, suffix) == base
  {
    assert (base + suffix)[|base|..] == suffix && (base + suffix)[..|base|] == base;
  }

  lemma StripThenAppend(s: string, suffix: string)
    requires EndsWith(s, suffix)
    ensures Strip(s, suffix) + suffix == s
  {
  }

  /** The three suffixes differ in their third character from the end, so no id ends in two of them. */
  lemma SuffixesAreExclusive(s: string)
    ensures !(EndsWith(s, MATCH_REQUESTED_SUFFIX) && EndsWith(s, MATCHED_SUFFIX))
    ensures !(EndsWith(s, MATCH_REQUESTED_SUFFIX) && EndsWith(s, MISSED_SUFFIX))
    ensures !(EndsWith(s, MATCHED_SUFFIX) && EndsWith(s, MISSED_SUFFIX))
  {
    if EndsWith(s, MATCH_REQUESTED_SUFFIX) { assert s[|s| - 3] == s[|s| - 16..][13] == 't'; }
    if EndsWith(s, MATCHED_SUFFIX) { assert s[|s| - 3] == s[|s| - 14..][11] == 'h'; }
    if EndsWith(s, MISSED_SUFFIX) { assert s[|s| - 3] == s[|s| - 13..][10] == 's'; }
  }

  // ---------------------------------------------------------------------------------------------
  // The invariant
  // ---------------------------------------------------------------------------------------------

  /** The rows the invariant relates: the topics, the two inboxes, the outbox and the known order ids. */
  datatype View = View(
    logs: Pub.Logs, inbox: map<string, Position>, matchInbox: map<string, Position>,
    outbox: map<string, Message>, orderIds: set<int>)

  function ViewOf(s: State): View {
    View(s.pub.logs, s.orderInbox, s.matchInbox, s.pub.outbox, s.orders.Keys)
  }

  predicate IsRequestFor(m: Message, orderId: int) {
    m.topic == MatchRequests && m.event.body.MatchRequested? && m.event.body.orderId == orderId
  }

  predicate AtPosition(logs: Pub.Logs, pos: Position) {
    0 <= pos.offset < |OrderLog(logs, pos.shardId)|
  }

  function SourceAt(logs: Pub.Logs, pos: Position): Event
    requires AtPosition(logs, pos)
  {
    OrderLog(logs, pos.shardId)[pos.offset]
  }

  /** The applied event `id` queues a match request for `orderId`. */
  predicate Queued(v: View, id: string, orderId: int) {
    && id in v.inbox
    && AtPosition(v.logs, v.inbox[id])
    && QueuesMatchRequest(SourceAt(v.logs, v.inbox[id]).body)
    && SourceAt(v.logs, v.inbox[id]).body.orderId == orderId
  }

  predicate RequestedFor(v: View, id: string, orderId: int) {
    orderId in v.orderIds && RequestId(id) in v.outbox && IsRequestFor(v.outbox[RequestId(id)], orderId)
  }

  /** An applied event is in the log where the inbox says, and if it queues a match then its order exists
      and its request row is in the outbox. */
  predicate SourceOk(v: View, id: string)
    requires id in v.inbox
  {
    && AtPosition(v.logs, v.inbox[id])
    && SourceAt(v.logs, v.inbox[id]).id == id
    && (QueuesMatchRequest(SourceAt(v.logs, v.inbox[id]).body) ==>
          RequestedFor(v, id, SourceAt(v.logs, v.inbox[id]).body.orderId))
  }

  /** A request row stems from an applied created or retry event. */
  predicate RequestRowOk(v: View, id: string)
    requires id in v.outbox
  {
    var m := v.outbox[id];
    && m.topic == MatchRequests
    && m.event.body.MatchRequested?
    && EndsWith(id, MATCH_REQUESTED_SUFFIX)
    && Queued(v, Strip(id, MATCH_REQUESTED_SUFFIX), m.event.body.orderId)
  }

  function ResultSuffix(m: Message): string {
    if m.event.body.OrderMatched? then MATCHED_SUFFIX else MISSED_SUFFIX
  }

  /** A result row stems from a processed request for the same order. */
  predicate ResultRowOk(v: View, id: string)
    requires id in v.outbox
  {
    var m := v.outbox[id];
    && m.topic == OrderEvents
    && (m.event.body.OrderMatched? || m.event.body.OrderMissed?)
    && EndsWith(id, ResultSuffix(m))
    && Strip(id, ResultSuffix(m)) in v.matchInbox
    && Strip(id, ResultSuffix(m)) in v.outbox
    && IsRequestFor(v.outbox[Strip(id, ResultSuffix(m))], m.event.body.orderId)
  }

  predicate RowOk(v: View, id: string)
    requires id in v.outbox
  {
    v.outbox[id].event.id == id && (RequestRowOk(v, id) || ResultRowOk(v, id))
  }

  /** A processed request is a request row, and it has at most one result row. */
  predicate ProcessedOk(outbox: map<string, Message>, id: string) {
    && id in outbox && outbox[id].topic == MatchRequests
    && !(id + MATCHED_SUFFIX in outbox && id + MISSED_SUFFIX in outbox)
  }

  ghost predicate SourcesOk(v: View) {
    forall id :: id in v.inbox ==> SourceOk(v, id)
  }

  ghost predicate OutboxOk(v: View) {
    forall id :: id in v.outbox ==> RowOk(v, id)
  }

  ghost predicate AllProcessedOk(v: View) {
    forall id :: id in v.matchInbox ==> ProcessedOk(v.outbox, id)
  }

  ghost predicate RowsInv(v: View) {
    SourcesOk(v) && OutboxOk(v) && AllProcessedOk(v)
  }

  function MatchedRows(outbox: map<string, Message>, riderId: int): set<string> {
    set id | id in outbox && outbox[id].event.body.OrderMatched? && outbox[id].event.body.riderId == riderId
  }

  predicate CapacityOk(s: State, riderId: int)
    requires riderId in s.riders && riderId in s.loaded
  {
    && s.riders[riderId].count == s.loaded[riderId].count + |MatchedRows(s.pub.outbox, riderId)|
    && (s.loaded[riderId].count <= s.maxOrders ==> s.riders[riderId].count <= s.maxOrders)
  }

  ghost predicate CapacityInv(s: State) {
    && s.riders.Keys == s.loaded.Keys
    && (forall riderId :: riderId in s.riders ==> CapacityOk(s, riderId))
  }

  ghost predicate Inv(s: State) {
    && Pub.Inv(s.pub)
    && RowsInv(ViewOf(s))
    && CapacityInv(s)
  }

  /** A request row belongs to an applied event. */
  lemma RequestRowIsApplied(v: View, id: string)
    requires OutboxOk(v) && RequestId(id) in v.outbox
    ensures RequestRowOk(v, RequestId(id)) && id in v.inbox
  {
    StripUndoes(id, MATCH_REQUESTED_SUFFIX);
    SuffixesAreExclusive(RequestId(id));
    assert RowOk(v, RequestId(id));
  }

  /** A result row belongs to a processed request. */
  lemma ResultRowIsProcessed(v: View, id: string, suffix: string)
    requires OutboxOk(v) && suffix in {MATCHED_SUFFIX, MISSED_SUFFIX} && id + suffix in v.outbox
    ensures ResultRowOk(v, id + suffix) && id in v.matchInbox
    ensures suffix == ResultSuffix(v.outbox[id + suffix])
  {
    StripUndoes(id, suffix);
    SuffixesAreExclusive(id + suffix);
    assert RowOk(v, id + suffix);
  }

  /** Result ids determine their request and their kind. */
  lemma DistinctResultIds(a: string, b: string)
    ensures a + MATCHED_SUFFIX != b + MISSED_SUFFIX && a + MISSED_SUFFIX != b + MATCHED_SUFFIX
    ensures a + MATCHED_SUFFIX == b + MATCHED_SUFFIX ==> a == b
    ensures a + MISSED_SUFFIX == b + MISSED_SUFFIX ==> a == b
  {
    StripUndoes(a, MATCHED_SUFFIX);
    StripUndoes(b, MATCHED_SUFFIX);
    StripUndoes(a, MISSED_SUFFIX);
    StripUndoes(b, MISSED_SUFFIX);
    SuffixesAreExclusive(a + MATCHED_SUFFIX);
    SuffixesAreExclusive(a + MISSED_SUFFIX);
  }

  // ---------------------------------------------------------------------------------------------
  // What the rows survive
  // ---------------------------------------------------------------------------------------------

  /** Longer topics, more applied events, more orders, more processed requests and more rows: `v` inside `w`. */
  ghost predicate Within(v: View, w: View) {
    && (forall shardId :: OrderLog(v.logs, shardId) <= OrderLog(w.logs, shardId))
    && (forall id :: id in v.inbox ==> id in w.inbox && w.inbox[id] == v.inbox[id])
    && (forall id :: id in v.outbox ==> id in w.outbox && w.outbox[id] == v.outbox[id])
    && v.matchInbox.Keys <= w.matchInbox.Keys
    && v.orderIds <= w.orderIds
  }

  lemma SourceSurvives(v: View, w: View, id: string)
    requires Within(v, w) && id in v.inbox && SourceOk(v, id)
    ensures SourceOk(w, id)
  {
    assert OrderLog(v.logs, v.inbox[id].shardId) <= OrderLog(w.logs, v.inbox[id].shardId);
  }

  lemma RowSurvives(v: View, w: View, id: string)
    requires Within(v, w) && id in v.outbox && RowOk(v, id)
    ensures RowOk(w, id)
  {
    if RequestRowOk(v, id) {
      var pos := v.inbox[Strip(id, MATCH_REQUESTED_SUFFIX)];
      assert OrderLog(v.logs, pos.shardId) <= OrderLog(w.logs, pos.shardId);
    } else {
      assert ResultRowOk(w, id);
    }
  }

  /** To keep the invariant it is enough to look at what is new. */
  lemma OnlyNewRowsMatter(v: View, w: View)
    requires RowsInv(v) && Within(v, w)
    requires forall id :: id in w.inbox && id !in v.inbox ==> SourceOk(w, id)
    requires forall id :: id in w.outbox && id !in v.outbox ==> RowOk(w, id)
    requires AllProcessedOk(w)
    ensures RowsInv(w)
  {
    forall id | id in w.inbox ensures SourceOk(w, id) {
      if id in v.inbox { SourceSurvives(v, w, id); }
    }
    forall id | id in w.outbox ensures RowOk(w, id) {
      if id in v.outbox { RowSurvives(v, w, id); }
    }
  }

  /** Two outboxes with the same result rows say the same about processed requests. */
  lemma SameResultsSameProcessed(v: View, w: View)
    requires AllProcessedOk(v) && Within(v, w) && w.matchInbox == v.matchInbox
    requires forall id, suffix :: suffix in {MATCHED_SUFFIX, MISSED_SUFFIX} && id + suffix in w.outbox ==>
               id + suffix in v.outbox
    ensures AllProcessedOk(w)
  {
    forall id | id in w.matchInbox ensures ProcessedOk(w.outbox, id) {
      assert ProcessedOk(v.outbox, id);
      assert MATCHED_SUFFIX in {MATCHED_SUFFIX, MISSED_SUFFIX} && MISSED_SUFFIX in {MATCHED_SUFFIX, MISSED_SUFFIX};
    }
  }

  lemma OtherRowsKeepCapacity(s: State, after: State)
    requires CapacityInv(s)
    requires after.riders == s.riders && after.loaded == s.loaded && after.maxOrders == s.maxOrders
    requires forall id :: id in s.pub.outbox ==> id in after.pub.outbox && after.pub.outbox[id] == s.pub.outbox[id]
    requires forall id :: id in after.pub.outbox && id !in s.pub.outbox ==>
               !after.pub.outbox[id].event.body.OrderMatched?
    ensures CapacityInv(after)
  {
    forall other | other in after.riders ensures CapacityOk(after, other) {
      assert CapacityOk(s, other);
      assert MatchedRows(after.pub.outbox, other) == MatchedRows(s.pub.outbox, other);
    }
  }

  lemma PublishKeepsInv(s: State, inner: Pub.Step)
    requires Inv(s)
    ensures Inv(Do(s, Publish(inner)))
  {
    if !inner.Insert? {
      var after := Do(s, Publish(inner));
      Pub.InvStep(s.pub, inner);
      forall shardId ensures OrderLog(s.pub.logs, shardId) <= OrderLog(after.pub.logs, shardId) {
        Pub.StepExtendsLogs(s.pub, inner, Pub.Partition(OrderEvents, shardId));
      }
      Pub.StepExtendsLogs(s.pub, inner, Pub.Partition(OrderEvents, 0));
      OnlyNewRowsMatter(ViewOf(s), ViewOf(after));
      OtherRowsKeepCapacity(s, after);
    }
  }

  // ---------------------------------------------------------------------------------------------
  // Order transactions keep it
  // ---------------------------------------------------------------------------------------------

  /** What one applied record adds: its inbox row, at most its own request row, and only existing orders. */
  lemma RecordEffect(t: Tables, r: Record)
    requires ApplyRecord(t, r).Ok? && r.event.id !in t.inbox
    ensures var after := ApplyRecord(t, r).value;
            && after.inbox == t.inbox[r.event.id := r.position]
            && t.orders.Keys <= after.orders.Keys
            && (!QueuesMatchRequest(r.event.body) ==> after.outbox == t.outbox)
            && (QueuesMatchRequest(r.event.body) ==>
                  && r.event.body.orderId in after.orders
                  && exists m: Message :: m.event.id == RequestId(r.event.id) && IsRequestFor(m, r.event.body.orderId)
                                          && after.outbox == InsertMessage(t.outbox, m))
  {
    if QueuesMatchRequest(r.event.body) {
      var applied := Tables(t.inbox[r.event.id := r.position], ApplyEvent(t.orders, r.event).value, t.outbox);
      var state := applied.orders[r.event.body.orderId].(status := MatchPending);
      var m := MatchRequest(r.event, state);
      assert m.event.id == RequestId(r.event.id) && IsRequestFor(m, r.event.body.orderId);
    }
  }

  lemma RequestIsNoResult(outbox: map<string, Message>, m: Message, id: string)
    requires m.event.id == RequestId(id)
    ensures forall other, suffix |
              suffix in {MATCHED_SUFFIX, MISSED_SUFFIX} && other + suffix in InsertMessage(outbox, m) ::
              other + suffix in outbox
  {
    StripUndoes(id, MATCH_REQUESTED_SUFFIX);
    SuffixesAreExclusive(RequestId(id));
    forall other, suffix | suffix in {MATCHED_SUFFIX, MISSED_SUFFIX} && other + suffix in InsertMessage(outbox, m)
      ensures other + suffix in outbox
    {
      StripUndoes(other, suffix);
    }
  }

  /** A newly applied event together with the request row it queues. */
  lemma RequestKeepsRows(v: View, w: View, id: string, pos: Position, m: Message)
    requires RowsInv(v) && id !in v.inbox && v.orderIds <= w.orderIds
    requires AtPosition(v.logs, pos) && SourceAt(v.logs, pos).id == id && QueuesMatchRequest(SourceAt(v.logs, pos).body)
    requires SourceAt(v.logs, pos).body.orderId in w.orderIds
    requires m.event.id == RequestId(id) && IsRequestFor(m, SourceAt(v.logs, pos).body.orderId)
    requires w == v.(inbox := v.inbox[id := pos], outbox := InsertMessage(v.outbox, m), orderIds := w.orderIds)
    ensures RowsInv(w) && RequestId(id) !in v.outbox
  {
    if RequestId(id) in v.outbox { RequestRowIsApplied(v, id); }
    StripUndoes(id, MATCH_REQUESTED_SUFFIX);
    RequestIsNoResult(v.outbox, m, id);
    hide EndsWith, Strip;
    SameResultsSameProcessed(v, w);
    assert RequestRowOk(w, RequestId(id));
    OnlyNewRowsMatter(v, w);
  }

  /** Rows present before are untouched, and every new row is a match request. */
  ghost predicate OnlyRequestsAdded(outbox: map<string, Message>, after: map<string, Message>) {
    && (forall id :: id in outbox ==> id in after && after[id] == outbox[id])
    && (forall id :: id in after && id !in outbox ==> after[id].event.body.MatchRequested?)
  }

  function TxView(logs: Pub.Logs, t: Tables, matchInbox: map<string, Position>, orderIds: set<int>): View {
    View(logs, t.inbox, matchInbox, t.outbox, orderIds + t.orders.Keys)
  }

  lemma RecordKeepsRows(logs: Pub.Logs, t: Tables, matchInbox: map<string, Position>, orderIds: set<int>, shardId: int,
                        offset: nat)
    requires offset < |OrderLog(logs, shardId)|
    requires RowsInv(TxView(logs, t, matchInbox, orderIds))
    requires ApplyRecord(t, RecordAt(shardId, OrderLog(logs, shardId), offset)).Ok?
    ensures var after := ApplyRecord(t, RecordAt(shardId, OrderLog(logs, shardId), offset)).value;
            && RowsInv(TxView(logs, after, matchInbox, orderIds))
            && OnlyRequestsAdded(t.outbox, after.outbox)
  {
    var r := RecordAt(shardId, OrderLog(logs, shardId), offset);
    if r.event.id !in t.inbox {
      RecordEffect(t, r);
      var after := ApplyRecord(t, r).value;
      var v := TxView(logs, t, matchInbox, orderIds);
      var w := TxView(logs, after, matchInbox, orderIds);
      assert SourceAt(logs, r.position).body == r.event.body;
      if QueuesMatchRequest(r.event.body) {
        var m: Message :| m.event.id == RequestId(r.event.id) && IsRequestFor(m, r.event.body.orderId)
                          && after.outbox == InsertMessage(t.outbox, m);
        RequestKeepsRows(v, w, r.event.id, r.position, m);
      } else {
        OnlyNewRowsMatter(v, w);
      }
    }
  }

  lemma AddedNothing(outbox: map<string, Message>)
    ensures OnlyRequestsAdded(outbox, outbox)
  {
  }

  lemma AddedMore(outbox: map<string, Message>, mid: map<string, Message>, after: map<string, Message>)
    requires OnlyRequestsAdded(outbox, mid) && OnlyRequestsAdded(mid, after)
    ensures OnlyRequestsAdded(outbox, after)
  {
  }

  lemma LastRecord(t: Tables, shardId: int, log: seq<Event>, lo: nat, hi: nat)
    requires lo < hi <= |log| && ApplyBatch(t, Records(shardId, log, lo, hi)).Ok?
    ensures ApplyBatch(t, Records(shardId, log, lo, hi - 1)).Ok?
    ensures ApplyBatch(t, Records(shardId, log, lo, hi)) ==
            ApplyRecord(ApplyBatch(t, Records(shardId, log, lo, hi - 1)).value, RecordAt(shardId, log, hi - 1))
  {
    hide ApplyRecord;
    var records := Records(shardId, log, lo, hi);
    assert records[..|records| - 1] == Records(shardId, log, lo, hi - 1);
  }

  lemma {:induction false} BatchKeepsRows(logs: Pub.Logs, t: Tables, matchInbox: map<string, Position>,
                                          orderIds: set<int>, shardId: int, lo: nat, hi: nat)
    requires lo <= hi <= |OrderLog(logs, shardId)|
    requires RowsInv(TxView(logs, t, matchInbox, orderIds))
    requires ApplyBatch(t, Records(shardId, OrderLog(logs, shardId), lo, hi)).Ok?
    ensures var after := ApplyBatch(t, Records(shardId, OrderLog(logs, shardId), lo, hi)).value;
            && RowsInv(TxView(logs, after, matchInbox, orderIds))
            && OnlyRequestsAdded(t.outbox, after.outbox)
    decreases hi
  {
    hide ApplyRecord, RowsInv, RecordAt, TxView, OnlyRequestsAdded, OrderLog;
    var log := OrderLog(logs, shardId);
    if lo == hi {
      assert Records(shardId, log, lo, hi) == [];
      AddedNothing(t.outbox);
    } else {
      LastRecord(t, shardId, log, lo, hi);
      hide ApplyBatch, Records;
      var mid := ApplyBatch(t, Records(shardId, log, lo, hi - 1)).value;
      BatchKeepsRows(logs, t, matchInbox, orderIds, shardId, lo, hi - 1);
      RecordKeepsRows(logs, mid, matchInbox, orderIds, shardId, hi - 1);
      AddedMore(t.outbox, mid.outbox, ApplyBatch(t, Records(shardId, log, lo, hi)).value.outbox);
    }
  }

  /** New outbox rows leave everything the publishers rely on in place. */
  lemma RowsKeepPubInv(pub: Pub.State, outbox: map<string, Message>)
    requires Pub.Inv(pub)
    requires forall id :: id in pub.outbox ==> id in outbox && outbox[id] == pub.outbox[id]
    requires forall id :: id in outbox ==> outbox[id].event.id == id
    ensures Pub.Inv(pub.(outbox := outbox))
  {
    var after := pub.(outbox := outbox);
    forall shardId, i | 0 <= i < |Pub.LogOf(after.logs, Pub.Partition(MatchRequests, shardId))|
      ensures Pub.FromOutbox(after.outbox, Pub.LogOf(after.logs, Pub.Partition(MatchRequests, shardId))[i], shardId)
    {
      assert Pub.FromOutbox(pub.outbox, Pub.LogOf(pub.logs, Pub.Partition(MatchRequests, shardId))[i], shardId);
    }
    Pub.GrowthKeepsInv(pub, after);
  }

  lemma OrderIdsAfterTx(s: State, seen: Orders, t: Tables, written: set<int>, after: Orders)
    requires seen.Keys <= s.orders.Keys && CoversWrites(seen, t.orders, written)
    requires after == s.orders + map orderId | orderId in written :: t.orders[orderId]
    ensures after.Keys == s.orders.Keys + t.orders.Keys
  {
    forall orderId | orderId in t.orders ensures orderId in after {
      assert orderId in seen || orderId in written;
    }
  }

  lemma OrderTxKeepsInv(s: State, step: Step)
    requires Inv(s) && step.OrderTx?
    ensures Inv(Do(s, step))
  {
    if OrderTxEnabled(s, step) && RunBatch(s, step).Ok?
       && CoversWrites(step.seen, RunBatch(s, step).value.orders, step.written) {
      var after := DoOrderTx(s, step);
      var t := RunBatch(s, step).value;
      var start := Tables(s.orderInbox, step.seen, s.pub.outbox);
      assert TxView(s.pub.logs, start, s.matchInbox, s.orders.Keys) == ViewOf(s);
      BatchKeepsRows(s.pub.logs, start, s.matchInbox, s.orders.Keys, step.shardId, step.lo, step.hi);
      OrderIdsAfterTx(s, step.seen, t, step.written, after.orders);
      assert ViewOf(after) == TxView(s.pub.logs, t, s.matchInbox, s.orders.Keys);
      assert forall id :: id in t.outbox ==> RowOk(ViewOf(after), id);
      RowsKeepPubInv(s.pub, t.outbox);
      OtherRowsKeepCapacity(s, after);
    }
  }

  // ---------------------------------------------------------------------------------------------
  // Matcher transactions keep it
  // ---------------------------------------------------------------------------------------------

  /** Every record of the match-request topic is a request whose order exists. */
  lemma RequestIsGenuine(s: State, shardId: int, offset: nat)
    requires Inv(s) && offset < |RequestLog(s.pub.logs, shardId)|
    ensures var e := RequestLog(s.pub.logs, shardId)[offset];
            && e.shardId == shardId
            && e.id in s.pub.outbox && s.pub.outbox[e.id] == Message(e, MatchRequests)
            && e.body.MatchRequested? && e.body.orderId in s.orders
  {
    var e := RequestLog(s.pub.logs, shardId)[offset];
    var v := ViewOf(s);
    assert Pub.FromOutbox(s.pub.outbox, e, shardId);
    assert RowOk(v, e.id) && RequestRowOk(v, e.id);
    assert SourceOk(v, Strip(e.id, MATCH_REQUESTED_SUFFIX));
  }

  predicate IsResultOf(m: Message, e: Event)
    requires e.body.MatchRequested?
  {
    && m.topic == OrderEvents
    && (m.event.body.OrderMatched? || m.event.body.OrderMissed?)
    && m.event.body.orderId == e.body.orderId
    && m.event.id == e.id + ResultSuffix(m)
  }

  /** Noting a request in the matcher's inbox without a result. */
  lemma NotingKeepsRows(v: View, e: Event, pos: Position)
    requires RowsInv(v)
    requires e.id !in v.matchInbox && e.id in v.outbox && v.outbox[e.id] == Message(e, MatchRequests)
    ensures RowsInv(v.(matchInbox := v.matchInbox[e.id := pos]))
    ensures e.id + MATCHED_SUFFIX !in v.outbox && e.id + MISSED_SUFFIX !in v.outbox
  {
    if e.id + MATCHED_SUFFIX in v.outbox { ResultRowIsProcessed(v, e.id, MATCHED_SUFFIX); }
    if e.id + MISSED_SUFFIX in v.outbox { ResultRowIsProcessed(v, e.id, MISSED_SUFFIX); }
    var w := v.(matchInbox := v.matchInbox[e.id := pos]);
    forall id | id in w.matchInbox ensures ProcessedOk(w.outbox, id) {
      if id != e.id { assert ProcessedOk(v.outbox, id); }
    }
    OnlyNewRowsMatter(v, w);
  }

  /** Adding the one result row of a noted request. */
  lemma ResultKeepsRows(v: View, e: Event, m: Message)
    requires RowsInv(v) && e.body.MatchRequested? && IsResultOf(m, e)
    requires e.id in v.matchInbox && e.id in v.outbox && v.outbox[e.id] == Message(e, MatchRequests)
    requires e.id + MATCHED_SUFFIX !in v.outbox && e.id + MISSED_SUFFIX !in v.outbox
    ensures RowsInv(v.(outbox := v.outbox[m.event.id := m]))
  {
    var w := v.(outbox := v.outbox[m.event.id := m]);
    StripUndoes(e.id, ResultSuffix(m));
    assert ResultRowOk(w, m.event.id);
    forall id | id in w.matchInbox ensures ProcessedOk(w.outbox, id) {
      assert ProcessedOk(v.outbox, id);
      DistinctResultIds(e.id, id);
    }
    OnlyNewRowsMatter(v, w);
  }

  /** A reservation adds one to one rider's count and one matched row naming that rider. */
  lemma ReservationKeepsCapacity(s: State, after: State, riderId: int, m: Message)
    requires CapacityInv(s) && Reservable(s.riders, riderId, s.maxOrders)
    requires m.event.body.OrderMatched? && m.event.body.riderId == riderId && m.event.id !in s.pub.outbox
    requires after.riders == s.riders[riderId := s.riders[riderId].(count := s.riders[riderId].count + 1)]
    requires after.pub.outbox == s.pub.outbox[m.event.id := m]
    requires after.loaded == s.loaded && after.maxOrders == s.maxOrders
    ensures CapacityInv(after)
  {
    forall other | other in after.riders ensures CapacityOk(after, other) {
      assert CapacityOk(s, other);
      var rows := MatchedRows(s.pub.outbox, other);
      if other == riderId {
        assert MatchedRows(after.pub.outbox, other) == rows + {m.event.id};
      } else {
        assert MatchedRows(after.pub.outbox, other) == rows;
      }
    }
  }

  /** The matcher's transaction is about this record. */
  ghost predicate Takes(s: State, step: Step, r: Record) {
    && step.MatchTx? && step.offset < |RequestLog(s.pub.logs, step.shardId)|
    && r == RecordAt(step.shardId, RequestLog(s.pub.logs, step.shardId), step.offset)
  }

  /** A queued request that is new to the matcher: noting it keeps the rows in order, and it has no result yet. */
  ghost predicate FreshRequest(s: State, e: Event, pos: Position) {
    && Pub.Inv(s.pub) && CapacityInv(s) && e.id !in s.matchInbox
    && RowsInv(ViewOf(s).(matchInbox := s.matchInbox[e.id := pos]))
    && e.id + MATCHED_SUFFIX !in s.pub.outbox && e.id + MISSED_SUFFIX !in s.pub.outbox
    && e.id in s.pub.outbox && s.pub.outbox[e.id] == Message(e, MatchRequests)
    && e.body.MatchRequested? && e.body.orderId in s.orders
  }

  lemma SkippedKeepsInv(s: State, step: Step, r: Record)
    requires Takes(s, step, r) && FreshRequest(s, r.event, r.position) && !IsPending(s.orders, r.event.body.orderId)
    ensures Inv(DoMatchTx(s, step))
  {
    hide RowsInv, CapacityInv, Pub.Inv;
    assert DoMatchTx(s, step) == s.(matchInbox := s.matchInbox[r.event.id := r.position]);
    OtherRowsKeepCapacity(s, DoMatchTx(s, step));
  }

  /** The state after a miss, field by field. */
  lemma MissedOutcome(s: State, step: Step, r: Record, m: Message)
    requires Takes(s, step, r) && r.event.id !in s.matchInbox
    requires r.event.body.MatchRequested? && IsPending(s.orders, r.event.body.orderId)
    requires Choose(s.riders, step.candidates, s.maxOrders).None?
    requires m == Message(MissedEvent(r.event, r.event.body.orderId, step.now), OrderEvents)
    ensures var after := DoMatchTx(s, step);
            && after.orders.Keys == s.orders.Keys
            && after == s.(orders := after.orders, matchInbox := s.matchInbox[r.event.id := r.position],
                           pub := s.pub.(outbox := InsertMessage(s.pub.outbox, m)))
  {
  }

  lemma MissedKeepsInv(s: State, after: State, e: Event, pos: Position, m: Message)
    requires FreshRequest(s, e, pos)
    requires IsResultOf(m, e) && m.event.body.OrderMissed? && m.event.id == e.id + MISSED_SUFFIX
    requires after.orders.Keys == s.orders.Keys
    requires after == s.(orders := after.orders, matchInbox := s.matchInbox[e.id := pos],
                         pub := s.pub.(outbox := InsertMessage(s.pub.outbox, m)))
    ensures Inv(after)
  {
    hide RowsInv, CapacityInv;
    var v := ViewOf(s).(matchInbox := s.matchInbox[e.id := pos]);
    ResultKeepsRows(v, e, m);
    assert ViewOf(after) == v.(outbox := v.outbox[m.event.id := m]);
    RowsKeepPubInv(s.pub, after.pub.outbox);
    OtherRowsKeepCapacity(s, after);
  }

  /** The state after a reservation, field by field. */
  lemma MatchedOutcome(s: State, step: Step, r: Record, chosen: Candidate, m: Message)
    requires Takes(s, step, r) && r.event.id !in s.matchInbox
    requires r.event.body.MatchRequested? && IsPending(s.orders, r.event.body.orderId)
    requires Choose(s.riders, step.candidates, s.maxOrders) == Some(chosen)
    requires m == Message(MatchedEvent(r.event, r.event.body.orderId, chosen, step.now), OrderEvents)
    ensures Reservable(s.riders, chosen.riderId, s.maxOrders)
    ensures var after := DoMatchTx(s, step);
            && after.orders.Keys == s.orders.Keys
            && after.riders ==
               s.riders[chosen.riderId := s.riders[chosen.riderId].(count := s.riders[chosen.riderId].count + 1)]
            && after == s.(orders := after.orders, riders := after.riders,
                           matchInbox := s.matchInbox[r.event.id := r.position],
                           pub := s.pub.(outbox := InsertMessage(s.pub.outbox, m)))
  {
    ChosenIsReservable(s.riders, step.candidates, s.maxOrders);
  }

  lemma ReservedKeepsInv(s: State, after: State, e: Event, pos: Position, m: Message)
    requires FreshRequest(s, e, pos)
    requires IsResultOf(m, e) && m.event.body.OrderMatched? && m.event.id == e.id + MATCHED_SUFFIX
    requires Reservable(s.riders, m.event.body.riderId, s.maxOrders)
    requires after.orders.Keys == s.orders.Keys
    requires var rider := m.event.body.riderId;
             after == s.(orders := after.orders,
                         riders := s.riders[rider := s.riders[rider].(count := s.riders[rider].count + 1)],
                         matchInbox := s.matchInbox[e.id := pos],
                         pub := s.pub.(outbox := InsertMessage(s.pub.outbox, m)))
    ensures Inv(after)
  {
    hide RowsInv, CapacityInv;
    var v := ViewOf(s).(matchInbox := s.matchInbox[e.id := pos]);
    ResultKeepsRows(v, e, m);
    assert ViewOf(after) == v.(outbox := v.outbox[m.event.id := m]);
    RowsKeepPubInv(s.pub, after.pub.outbox);
    ReservationKeepsCapacity(s, after, m.event.body.riderId, m);
  }

  lemma MatchedEffect(s: State, step: Step, r: Record, chosen: Candidate)
    requires Takes(s, step, r) && FreshRequest(s, r.event, r.position) && IsPending(s.orders, r.event.body.orderId)
    requires Choose(s.riders, step.candidates, s.maxOrders) == Some(chosen)
    ensures Inv(DoMatchTx(s, step))
  {
    var m := Message(MatchedEvent(r.event, r.event.body.orderId, chosen, step.now), OrderEvents);
    assert r.event.id !in s.matchInbox;
    hide FreshRequest, Takes, Inv;
    MatchedOutcome(s, step, r, chosen, m);
    hide DoMatchTx, InsertMessage, Choose, Reservable, IsPending;
    assert IsResultOf(m, r.event);
    hide IsResultOf, MatchedEvent;
    ReservedKeepsInv(s, DoMatchTx(s, step), r.event, r.position, m);
  }

  /** What processing a new request changes, told apart by the order's status and the reservation. */
  lemma MatchEffect(s: State, step: Step, r: Record)
    requires Takes(s, step, r) && FreshRequest(s, r.event, r.position)
    ensures Inv(DoMatchTx(s, step))
  {
    assert r.event.id !in s.matchInbox && r.event.body.MatchRequested? && r.event.body.orderId in s.orders;
    hide FreshRequest, Inv, DoMatchTx;
    var orderId := r.event.body.orderId;
    if s.orders[orderId].status != MatchPending {
      SkippedKeepsInv(s, step, r);
    } else if Choose(s.riders, step.candidates, s.maxOrders).Some? {
      MatchedEffect(s, step, r, Choose(s.riders, step.candidates, s.maxOrders).value);
    } else {
      var m := Message(MissedEvent(r.event, orderId, step.now), OrderEvents);
      MissedOutcome(s, step, r, m);
      MissedKeepsInv(s, DoMatchTx(s, step), r.event, r.position, m);
    }
  }

  lemma MatchTxKeepsInv(s: State, step: Step)
    requires Inv(s) && step.MatchTx?
    ensures Inv(Do(s, step))
  {
    if step.offset < |RequestLog(s.pub.logs, step.shardId)| {
      RequestIsGenuine(s, step.shardId, step.offset);
      var r := RecordAt(step.shardId, RequestLog(s.pub.logs, step.shardId), step.offset);
      assert r.event == RequestLog(s.pub.logs, step.shardId)[step.offset];
      if r.event.id !in s.matchInbox {
        NotingKeepsRows(ViewOf(s), r.event, r.position);
        MatchEffect(s, step, r);
      }
    }
  }

  lemma InvStep(s: State, step: Step)
    requires Inv(s)
    ensures Inv(Do(s, step))
  {
    match step
    case Publish(inner) => PublishKeepsInv(s, inner);
    case OrderTx(_, _, _, _, _) => OrderTxKeepsInv(s, step);
    case MatchTx(_, _, _, _) => MatchTxKeepsInv(s, step);
  }

  lemma {:induction false} InvRun(riders: map<int, RiderRow>, maxOrders: int, now: nat, lease: nat, steps: seq<Step>)
    ensures Inv(Exec(Init(riders, maxOrders, now, lease), steps))
    ensures Exec(Init(riders, maxOrders, now, lease), steps).loaded == riders
    ensures Exec(Init(riders, maxOrders, now, lease), steps).maxOrders == maxOrders
  {
    if |steps| > 0 {
      InvRun(riders, maxOrders, now, lease, steps[..|steps| - 1]);
      InvStep(Exec(Init(riders, maxOrders, now, lease), steps[..|steps| - 1]), steps[|steps| - 1]);
    } else {
      Pub.InvRun(now, lease, []);
    }
  }

  // ---------------------------------------------------------------------------------------------
  // Theorems over every run
  // ---------------------------------------------------------------------------------------------

  /** Exactly one request per applied created or retry event: its request row and its order exist, and the
      request rows are in one-to-one correspondence with those events. */
  lemma ExactlyOneRequest(riders: map<int, RiderRow>, maxOrders: int, now: nat, lease: nat, steps: seq<Step>,
                          id: string)
    ensures var s := Exec(Init(riders, maxOrders, now, lease), steps);
            && (id in s.orderInbox ==>
                  && AtPosition(s.pub.logs, s.orderInbox[id]) && SourceAt(s.pub.logs, s.orderInbox[id]).id == id
                  && var body := SourceAt(s.pub.logs, s.orderInbox[id]).body;
                     QueuesMatchRequest(body) ==>
                       && body.orderId in s.orders
                       && RequestId(id) in s.pub.outbox
                       && IsRequestFor(s.pub.outbox[RequestId(id)], body.orderId))
            && (forall row :: row in s.pub.outbox && s.pub.outbox[row].topic == MatchRequests ==>
                                && s.pub.outbox[row].event.body.MatchRequested?
                                && EndsWith(row, MATCH_REQUESTED_SUFFIX)
                                && Queued(ViewOf(s), Strip(row, MATCH_REQUESTED_SUFFIX),
                                          s.pub.outbox[row].event.body.orderId)
                                && RequestId(Strip(row, MATCH_REQUESTED_SUFFIX)) == row)
  {
    InvRun(riders, maxOrders, now, lease, steps);
    var s := Exec(Init(riders, maxOrders, now, lease), steps);
    if id in s.orderInbox { assert SourceOk(ViewOf(s), id); }
    forall row | row in s.pub.outbox && s.pub.outbox[row].topic == MatchRequests
      ensures s.pub.outbox[row].event.body.MatchRequested? && EndsWith(row, MATCH_REQUESTED_SUFFIX)
      ensures Queued(ViewOf(s), Strip(row, MATCH_REQUESTED_SUFFIX), s.pub.outbox[row].event.body.orderId)
      ensures RequestId(Strip(row, MATCH_REQUESTED_SUFFIX)) == row
    {
      assert RowOk(ViewOf(s), row);
      StripThenAppend(row, MATCH_REQUESTED_SUFFIX);
    }
  }

  /** The matcher's transaction never fails on what the topic holds, however often a request is repeated and
      whatever candidates it is given: its order is always found and, once read as pending, always marked. */
  lemma MatcherNeverFails(riders: map<int, RiderRow>, maxOrders: int, now: nat, lease: nat, steps: seq<Step>,
                          step: Step)
    requires step.MatchTx?
    requires var s := Exec(Init(riders, maxOrders, now, lease), steps);
             step.offset < |RequestLog(s.pub.logs, step.shardId)|
    ensures RunRequest(Exec(Init(riders, maxOrders, now, lease), steps), step).Ok?
  {
    InvRun(riders, maxOrders, now, lease, steps);
    var s := Exec(Init(riders, maxOrders, now, lease), steps);
    RequestIsGenuine(s, step.shardId, step.offset);
    FailsExactlyWhen(MatchView(s), RecordAt(step.shardId, RequestLog(s.pub.logs, step.shardId), step.offset),
                     step.candidates, s.maxOrders, step.now);
  }

  /** A request has at most one result row, matched or missed, and only once it has been processed. */
  lemma AtMostOneResult(riders: map<int, RiderRow>, maxOrders: int, now: nat, lease: nat, steps: seq<Step>,
                        request: string)
    ensures var s := Exec(Init(riders, maxOrders, now, lease), steps);
            && !(request + MATCHED_SUFFIX in s.pub.outbox && request + MISSED_SUFFIX in s.pub.outbox)
            && (request + MATCHED_SUFFIX in s.pub.outbox || request + MISSED_SUFFIX in s.pub.outbox ==>
                  request in s.matchInbox)
  {
    InvRun(riders, maxOrders, now, lease, steps);
    var s := Exec(Init(riders, maxOrders, now, lease), steps);
    var v := ViewOf(s);
    if request + MATCHED_SUFFIX in v.outbox { ResultRowIsProcessed(v, request, MATCHED_SUFFIX); }
    if request + MISSED_SUFFIX in v.outbox { ResultRowIsProcessed(v, request, MISSED_SUFFIX); }
    if request in v.matchInbox { assert ProcessedOk(v.outbox, request); }
  }

  predicate HasResult(outbox: map<string, Message>, request: string) {
    request + MATCHED_SUFFIX in outbox || request + MISSED_SUFFIX in outbox
  }

  lemma OrderTxAddsNoResult(s: State, step: Step, request: string)
    requires Inv(s) && Inv(Do(s, step)) && step.OrderTx?
    ensures HasResult(Do(s, step).pub.outbox, request) <==> HasResult(s.pub.outbox, request)
  {
    if OrderTxEnabled(s, step) && RunBatch(s, step).Ok?
       && CoversWrites(step.seen, RunBatch(s, step).value.orders, step.written) {
      var start := Tables(s.orderInbox, step.seen, s.pub.outbox);
      assert TxView(s.pub.logs, start, s.matchInbox, s.orders.Keys) == ViewOf(s);
      BatchKeepsRows(s.pub.logs, start, s.matchInbox, s.orders.Keys, step.shardId, step.lo, step.hi);
      var after := ViewOf(Do(s, step));
      forall suffix | suffix in {MATCHED_SUFFIX, MISSED_SUFFIX} && request + suffix in after.outbox
        ensures request + suffix in s.pub.outbox
      {
        ResultRowIsProcessed(after, request, suffix);
      }
    }
  }

  /** A request's transaction gives no other request a result. */
  lemma RequestAddsNoOtherResult(t: MatchTables, r: Record, candidates: seq<Candidate>, maxOrders: int, now: int,
                                 other: string)
    requires ApplyRequest(t, r, candidates, maxOrders, now).Ok? && (r.event.id == other ==> other in t.inbox)
    ensures var after := ApplyRequest(t, r, candidates, maxOrders, now).value;
            && t.inbox.Keys <= after.inbox.Keys
            && (HasResult(after.outbox, other) <==> HasResult(t.outbox, other))
  {
    if r.event.id !in t.inbox {
      var _ := RequestOutcome(t, r, candidates, maxOrders, now);
      DistinctResultIds(r.event.id, other);
      hide ApplyRequest, Choose, Reservable, IsPending;
    }
  }

  lemma MatchTxAddsNoOtherResult(s: State, step: Step, request: string)
    requires step.MatchTx? && request in s.matchInbox
    ensures request in Do(s, step).matchInbox
    ensures HasResult(Do(s, step).pub.outbox, request) <==> HasResult(s.pub.outbox, request)
  {
    if step.offset < |RequestLog(s.pub.logs, step.shardId)| && RunRequest(s, step).Ok? {
      var r := RecordAt(step.shardId, RequestLog(s.pub.logs, step.shardId), step.offset);
      RequestAddsNoOtherResult(MatchView(s), r, step.candidates, s.maxOrders, step.now, request);
      hide ApplyRequest, RecordAt, HasResult, RequestLog;
    }
  }

  /** Once a request is processed no step gives it a result or takes one away. */
  lemma ResultsAreSettled(s: State, step: Step, request: string)
    requires Inv(s) && request in s.matchInbox
    ensures request in Do(s, step).matchInbox
    ensures HasResult(Do(s, step).pub.outbox, request) <==> HasResult(s.pub.outbox, request)
  {
    match step
    case Publish(inner) =>
      Pub.StepExtendsLogs(s.pub, inner, Pub.Partition(OrderEvents, 0));
      hide Inv, Pub.Do, HasResult;
    case OrderTx(_, _, _, _, _) =>
      InvStep(s, step);
      OrderTxAddsNoResult(s, step, request);
      hide Inv, RunBatch, CoversWrites, OrderTxEnabled, HasResult;
    case MatchTx(_, _, _, _) =>
      MatchTxAddsNoOtherResult(s, step, request);
      hide Inv, Do;
  }

  lemma {:induction false} SettledSince(riders: map<int, RiderRow>, maxOrders: int, now: nat, lease: nat,
                                        steps: seq<Step>, n: nat, request: string)
    requires n <= |steps| && request in Exec(Init(riders, maxOrders, now, lease), steps[..n]).matchInbox
    ensures var s := Exec(Init(riders, maxOrders, now, lease), steps);
            && request in s.matchInbox
            && (HasResult(s.pub.outbox, request) <==>
                HasResult(Exec(Init(riders, maxOrders, now, lease), steps[..n]).pub.outbox, request))
  {
    if n == |steps| {
      assert steps[..n] == steps;
    } else {
      var front := steps[..|steps| - 1];
      assert front[..n] == steps[..n];
      SettledSince(riders, maxOrders, now, lease, front, n, request);
      InvRun(riders, maxOrders, now, lease, front);
      ResultsAreSettled(Exec(Init(riders, maxOrders, now, lease), front), steps[|steps| - 1], request);
    }
  }

  /** A new request's transaction gives it a result exactly when it finds the order pending. */
  lemma RequestResult(t: MatchTables, r: Record, candidates: seq<Candidate>, maxOrders: int, now: int)
    requires r.event.id !in t.inbox && ApplyRequest(t, r, candidates, maxOrders, now).Ok?
    requires !HasResult(t.outbox, r.event.id)
    ensures r.event.body.MatchRequested?
    ensures var after := ApplyRequest(t, r, candidates, maxOrders, now).value;
            && r.event.id in after.inbox
            && (HasResult(after.outbox, r.event.id) <==> IsPending(t.orders, r.event.body.orderId))
  {
    var _ := RequestOutcome(t, r, candidates, maxOrders, now);
    assert r.event.body.MatchRequested?;
    hide ApplyRequest, Choose, Reservable;
  }

  lemma NoResultYet(s: State, request: string)
    requires Inv(s) && request !in s.matchInbox
    ensures !HasResult(s.pub.outbox, request)
  {
    if request + MATCHED_SUFFIX in s.pub.outbox { ResultRowIsProcessed(ViewOf(s), request, MATCHED_SUFFIX); }
    if request + MISSED_SUFFIX in s.pub.outbox { ResultRowIsProcessed(ViewOf(s), request, MISSED_SUFFIX); }
  }

  lemma ProcessedNow(s: State, step: Step)
    requires Inv(s) && step.MatchTx? && step.offset < |RequestLog(s.pub.logs, step.shardId)|
    requires RequestLog(s.pub.logs, step.shardId)[step.offset].id !in s.matchInbox
    ensures var e := RequestLog(s.pub.logs, step.shardId)[step.offset];
            && e.body.MatchRequested?
            && e.id in Do(s, step).matchInbox
            && (HasResult(Do(s, step).pub.outbox, e.id) <==> IsPending(s.orders, e.body.orderId))
  {
    var r := RecordAt(step.shardId, RequestLog(s.pub.logs, step.shardId), step.offset);
    assert r.event.id == RequestLog(s.pub.logs, step.shardId)[step.offset].id;
    assert r.event.body == RequestLog(s.pub.logs, step.shardId)[step.offset].body;
    RequestIsGenuine(s, step.shardId, step.offset);
    NoResultYet(s, r.event.id);
    FailsExactlyWhen(MatchView(s), r, step.candidates, s.maxOrders, step.now);
    hide Inv, ApplyRequest, RecordAt, HasResult, RequestLog, IsPending;
    RequestResult(MatchView(s), r, step.candidates, s.maxOrders, step.now);
  }

  /** Exactly one result, at every later moment, for a request that found its order pending; none for any other. */
  lemma ExactlyOneResult(riders: map<int, RiderRow>, maxOrders: int, now: nat, lease: nat, steps: seq<Step>, n: nat)
    requires n < |steps| && steps[n].MatchTx?
    requires var s := Exec(Init(riders, maxOrders, now, lease), steps[..n]);
             && steps[n].offset < |RequestLog(s.pub.logs, steps[n].shardId)|
             && RequestLog(s.pub.logs, steps[n].shardId)[steps[n].offset].id !in s.matchInbox
    ensures var before := Exec(Init(riders, maxOrders, now, lease), steps[..n]);
            var e := RequestLog(before.pub.logs, steps[n].shardId)[steps[n].offset];
            var s := Exec(Init(riders, maxOrders, now, lease), steps);
            && e.body.MatchRequested? && e.id in s.matchInbox
            && (HasResult(s.pub.outbox, e.id) <==> IsPending(before.orders, e.body.orderId))
            && !(e.id + MATCHED_SUFFIX in s.pub.outbox && e.id + MISSED_SUFFIX in s.pub.outbox)
  {
    var before := Exec(Init(riders, maxOrders, now, lease), steps[..n]);
    var e := RequestLog(before.pub.logs, steps[n].shardId)[steps[n].offset];
    InvRun(riders, maxOrders, now, lease, steps[..n]);
    ProcessedNow(before, steps[n]);
    assert steps[..n + 1][..n] == steps[..n];
    assert Exec(Init(riders, maxOrders, now, lease), steps[..n + 1]) == Do(before, steps[n]);
    hide Exec, Do, HasResult;
    SettledSince(riders, maxOrders, now, lease, steps, n + 1, e.id);
    AtMostOneResult(riders, maxOrders, now, lease, steps, e.id);
  }

  /** Capacity is conserved: a rider's count is what it was loaded with plus one for every matched row that
      names it, and it never passes the limit unless it was loaded beyond it. */
  lemma CapacityIsConserved(riders: map<int, RiderRow>, maxOrders: int, now: nat, lease: nat, steps: seq<Step>,
                            riderId: int)
    requires riderId in riders
    ensures var s := Exec(Init(riders, maxOrders, now, lease), steps);
            && riderId in s.riders
            && s.riders[riderId].count == riders[riderId].count + |MatchedRows(s.pub.outbox, riderId)|
            && (riders[riderId].count <= maxOrders ==> s.riders[riderId].count <= maxOrders)
  {
    InvRun(riders, maxOrders, now, lease, steps);
    assert CapacityOk(Exec(Init(riders, maxOrders, now, lease), steps), riderId);
  }

  function MatchedRowsOf(outbox: map<string, Message>, orderId: int): set<string> {
    set id | id in outbox && outbox[id].event.body.OrderMatched? && outbox[id].event.body.orderId == orderId
  }

  /** The created and retry events applied for an order. */
  function QueuedFor(v: View, orderId: int): set<string> {
    set id | id in v.inbox && Queued(v, id, orderId)
  }

  /** The event a matched row goes back to, through its request. */
  function Origin(row: string): string {
    if |row| < |MATCHED_SUFFIX| + |MATCH_REQUESTED_SUFFIX| then row
    else Strip(Strip(row, MATCHED_SUFFIX), MATCH_REQUESTED_SUFFIX)
  }

  lemma MatchedRowHasOrigin(v: View, row: string, orderId: int)
    requires OutboxOk(v) && row in MatchedRowsOf(v.outbox, orderId)
    ensures Origin(row) in QueuedFor(v, orderId)
    ensures Origin(row) + MATCH_REQUESTED_SUFFIX + MATCHED_SUFFIX == row
  {
    assert RowOk(v, row) && ResultRowOk(v, row);
    var request := Strip(row, MATCHED_SUFFIX);
    StripThenAppend(row, MATCHED_SUFFIX);
    assert RowOk(v, request) && RequestRowOk(v, request);
    StripThenAppend(request, MATCH_REQUESTED_SUFFIX);
  }

  /** An injective image is no larger than the set it lands in. */
  lemma {:induction false} OriginsAreEnough(rows: set<string>, events: set<string>)
    requires forall row :: row in rows ==> Origin(row) in events
    requires forall row :: row in rows ==> Origin(row) + MATCH_REQUESTED_SUFFIX + MATCHED_SUFFIX == row
    ensures |rows| <= |events|
    decreases rows
  {
    if rows != {} {
      var row :| row in rows;
      forall other | other in rows - {row} ensures Origin(other) in events - {Origin(row)} {
        assert Origin(other) != Origin(row);
      }
      OriginsAreEnough(rows - {row}, events - {Origin(row)});
    }
  }

  /** An order is reserved at most once per distinct created or retry event applied for it. */
  lemma ReservationsNeedEvents(riders: map<int, RiderRow>, maxOrders: int, now: nat, lease: nat, steps: seq<Step>,
                               orderId: int)
    ensures var s := Exec(Init(riders, maxOrders, now, lease), steps);
            |MatchedRowsOf(s.pub.outbox, orderId)| <= |QueuedFor(ViewOf(s), orderId)|
  {
    InvRun(riders, maxOrders, now, lease, steps);
    var v := ViewOf(Exec(Init(riders, maxOrders, now, lease), steps));
    forall row | row in MatchedRowsOf(v.outbox, orderId)
      ensures Origin(row) in QueuedFor(v, orderId) && Origin(row) + MATCH_REQUESTED_SUFFIX + MATCHED_SUFFIX == row
    {
      MatchedRowHasOrigin(v, row, orderId);
    }
    OriginsAreEnough(MatchedRowsOf(v.outbox, orderId), QueuedFor(v, orderId));
  }
}
