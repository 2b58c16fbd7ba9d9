/** The order consumer: the order state machine and the fenced batch transaction around it. */
module OrderApplier {
  import opened Model

  const MATCH_REQUESTED_SUFFIX := "-match-requested"

  // ---------------------------------------------------------------------------------------------
  // The order state machine
  // ---------------------------------------------------------------------------------------------

  predicate AlreadyQueuedOrFinished(status: Status) {
    status in {Submitted, MatchPending, Matched, Missed, Cancelled}
  }

  function FreshState(shardId: int): OrderState {
    OrderState(shardId, Unset, 0, 0, 0, "", "", "", 0, 0, "", 0)
  }

  function Prepare(current: Option<OrderState>, e: Event): OrderState {
    (if current.Some? then current.value else FreshState(e.shardId))
      .(lastEventId := e.id, updatedAt := e.occurredAt)
  }

  /** What one event does to one order row: fail, leave the row alone (`None`) or write it. */
  function Decide(current: Option<OrderState>, e: Event): Result<Option<OrderState>> {
    var state := Prepare(current, e);
    match e.body
    case OrderCreated(_, x, y) =>
      if current.Some? && AlreadyQueuedOrFinished(state.status) then Ok(None)
      else Ok(Some(state.(status := Created, x := x, y := y)))
    case OrderCancelled(_, reason) =>
      Ok(Some(state.(status := Cancelled, cancelReason := reason)))
    case OrderRetry(_, attempt, reason) =>
      if current.None? then Err(RetryBeforeCreation)
      else if state.status in {Cancelled, Matched} then Ok(None)
      else Ok(Some(state.(status := RetryRequested, attempt := attempt, retryReason := reason)))
    case OrderMatched(_, riderId, score) =>
      Ok(Some(state.(status := Matched, riderId := riderId, score := score)))
    case OrderMissed(_, reason) =>
      if state.status in {Matched, Cancelled} then Ok(None)
      else Ok(Some(state.(status := Missed, missReason := reason)))
    case Undecodable => Err(UndecodablePayload)
    case _ => Err(UnsupportedEvent)
  }

  predicate IsOrderEvent(body: Body) {
    body.OrderCreated? || body.OrderCancelled? || body.OrderRetry? || body.OrderMatched? || body.OrderMissed?
  }

  function Find(orders: Orders, orderId: int): Option<OrderState> {
    if orderId in orders then Some(orders[orderId]) else None
  }

  /** The integer columns of the orders table are 32 bits wide. */
  function Narrow(state: OrderState): OrderState {
    state.(shardId := WrapInt32(state.shardId), x := WrapInt32(state.x), y := WrapInt32(state.y),
           attempt := WrapInt32(state.attempt), score := WrapInt32(state.score))
  }

  function ApplyEvent(orders: Orders, e: Event): Result<Orders> {
    if e.body.Undecodable? then Err(UndecodablePayload)
    else if !IsOrderEvent(e.body) then Err(UnsupportedEvent)
    else match Decide(Find(orders, e.body.orderId), e)
      case Err(error) => Err(error)
      case Ok(None) => Ok(orders)
      case Ok(Some(state)) => Ok(orders[e.body.orderId := Narrow(state)])
  }

  // ---------------------------------------------------------------------------------------------
  // One record inside the transaction
  // ---------------------------------------------------------------------------------------------

  /** The rows the order consumer's transaction reads and writes: its inbox, the orders, the outbox. */
  datatype Tables = Tables(inbox: map<string, Position>, orders: Orders, outbox: map<string, Message>)

  const EMPTY_TABLES := Tables(map[], map[], map[])

  predicate QueuesMatchRequest(body: Body) {
    body.OrderCreated? || body.OrderRetry?
  }

  function InsertMessage(outbox: map<string, Message>, message: Message): map<string, Message> {
    if message.event.id in outbox then outbox else outbox[message.event.id := message]
  }

  function RequestId(eventId: string): string {
    eventId + MATCH_REQUESTED_SUFFIX
  }

  function MatchRequest(source: Event, state: OrderState): Message
    requires QueuesMatchRequest(source.body)
  {
    var attempt := if source.body.OrderRetry? then source.body.attempt else 0;
    Message(Event(RequestId(source.id), MatchRequested(source.body.orderId, state.x, state.y, attempt),
                  source.shardId, source.occurredAt), MatchRequests)
  }

  function QueueMatchRequest(t: Tables, source: Event): Result<Tables>
    requires QueuesMatchRequest(source.body)
  {
    if source.body.orderId !in t.orders then Err(OrderNotFound)
    else
      var state := t.orders[source.body.orderId].(status := MatchPending);
      Ok(t.(orders := t.orders[source.body.orderId := Narrow(state)],
            outbox := InsertMessage(t.outbox, MatchRequest(source, state))))
  }

  /** One record: a known event id changes nothing, a new one is applied and may queue a match request. */
  function ApplyRecord(t: Tables, r: Record): Result<Tables> {
    if r.event.id == "" then Err(MissingEventId)
    else if r.event.id in t.inbox then Ok(t)
    else match ApplyEvent(t.orders, r.event)
      case Err(error) => Err(error)
      case Ok(orders) =>
        var applied := Tables(t.inbox[r.event.id := r.position], orders, t.outbox);
        if QueuesMatchRequest(r.event.body) then QueueMatchRequest(applied, r.event) else Ok(applied)
  }

  /** The fold over a batch, stopping at the first failure. */
  function ApplyBatch(t: Tables, records: seq<Record>): Result<Tables> {
    if |records| == 0 then Ok(t)
    else match ApplyBatch(t, records[..|records| - 1])
      case Err(error) => Err(error)
      case Ok(mid) => ApplyRecord(mid, records[|records| - 1])
  }

  // ---------------------------------------------------------------------------------------------
  // The fenced transaction
  // ---------------------------------------------------------------------------------------------

  function ValidateFrom(records: seq<Record>, own: Ownership, index: nat): Option<Error>
    requires index <= |records|
    decreases |records| - index
  {
    if index == |records| then None
    else if records[index].event.id == "" then Some(MissingEventId)
    else if records[index].position.shardId != own.shardId || records[index].event.shardId != own.shardId then
      Some(ShardMismatch)
    else if index > 0 && records[index].position.offset != records[index - 1].position.offset + 1 then
      Some(OffsetGap)
    else ValidateFrom(records, own, index + 1)
  }

  function ValidateBatch(records: seq<Record>, own: Ownership): Option<Error> {
    if |records| == 0 then Some(EmptyBatch) else ValidateFrom(records, own, 0)
  }

  /** A worker of `nodeId` holding `own` passes the fence when etcd, read now, still says `own`. */
  predicate FencePasses(nodeId: int, own: Ownership, current: Option<Ownership>) {
    && (nodeId == 0 || own.nodeId == nodeId)
    && current.Some?
    && current.value.nodeId == own.nodeId
    && current.value.epoch == own.epoch
  }

  /** The checkpoint upsert: an existing row is kept when its epoch is higher. */
  function UpsertCheckpoint(current: Option<Checkpoint>, next: Checkpoint): Option<Checkpoint> {
    if current.Some? && next.epoch < current.value.epoch then current else Some(next)
  }

  /** The first `n` records are identified, of the owned shard and at consecutive offsets. */
  predicate InOrder(records: seq<Record>, own: Ownership, n: nat)
    requires n <= |records|
  {
    forall i :: 0 <= i < n ==>
                  && records[i].event.id != ""
                  && records[i].position == Position(own.shardId, records[0].position.offset + i)
                  && records[i].event.shardId == own.shardId
  }

  /** What the error of a batch that is in order up to record `i` says of that record. */
  predicate IsDefect(records: seq<Record>, own: Ownership, i: nat, error: Error)
    requires i < |records|
  {
    var r := records[i];
    match error
    case MissingEventId => r.event.id == ""
    case ShardMismatch =>
      r.event.id != "" && !(r.position.shardId == own.shardId == r.event.shardId)
    case OffsetGap =>
      && r.event.id != "" && r.position.shardId == own.shardId == r.event.shardId
      && i > 0 && r.position.offset != records[i - 1].position.offset + 1
    case _ => false
  }

  method ValidateRecordBatch(records: seq<Record>, own: Ownership) returns (failure: Option<Error>)
    ensures failure == ValidateBatch(records, own)
    ensures failure.None? <==> |records| > 0 && InOrder(records, own, |records|)
    ensures failure.Some? ==>
              if |records| == 0 then failure == Some(EmptyBatch)
              else exists i :: && 0 <= i < |records| && InOrder(records, own, i)
                               && IsDefect(records, own, i, failure.value)
  {
    if |records| == 0 { return Some(EmptyBatch); }
    for i := 0 to |records|
      invariant ValidateFrom(records, own, 0) == ValidateFrom(records, own, i)
      invariant InOrder(records, own, i)
    {
      if records[i].event.id == "" { return Some(MissingEventId); }
      if records[i].position.shardId != own.shardId || records[i].event.shardId != own.shardId {
        return Some(ShardMismatch);
      }
      if i > 0 && records[i].position.offset != records[i - 1].position.offset + 1 {
        return Some(OffsetGap);
      }
    }
    return None;
  }

  /** The statements run for one record, in order, on the transaction's own view `tx`. */
  method ApplyRecordInTransaction(tx: Tables, record: Record) returns (result: Result<Tables>)
    requires record.event.id != ""
    ensures result == ApplyRecord(tx, record)
  {
    var e := record.event;
    if e.id in tx.inbox { return Ok(tx); }
    var work := tx.(inbox := tx.inbox[e.id := record.position]);

    if e.body.Undecodable? { return Err(UndecodablePayload); }
    if !IsOrderEvent(e.body) { return Err(UnsupportedEvent); }
    var orderId := e.body.orderId;
    var found := orderId in work.orders;
    var state := if found then work.orders[orderId] else FreshState(e.shardId);
    state := state.(lastEventId := e.id, updatedAt := e.occurredAt);
    var save := true;
    match e.body {
      case OrderCreated(_, x, y) =>
        if found && AlreadyQueuedOrFinished(state.status) {
          save := false;
        } else {
          state := state.(status := Created, x := x, y := y);
        }
      case OrderCancelled(_, reason) =>
        state := state.(status := Cancelled, cancelReason := reason);
      case OrderRetry(_, attempt, reason) =>
        if !found { return Err(RetryBeforeCreation); }
        if state.status == Cancelled || state.status == Matched {
          save := false;
        } else {
          state := state.(status := RetryRequested, attempt := attempt, retryReason := reason);
        }
      case OrderMatched(_, riderId, score) =>
        state := state.(status := Matched, riderId := riderId, score := score);
      case OrderMissed(_, reason) =>
        if state.status == Matched || state.status == Cancelled {
          save := false;
        } else {
          state := state.(status := Missed, missReason := reason);
        }
    }
    if save {
      work := work.(orders := work.orders[orderId := Narrow(state)]);
    }

    if QueuesMatchRequest(e.body) {
      if orderId !in work.orders { return Err(OrderNotFound); }
      var queued := work.orders[orderId].(status := MatchPending);
      work := work.(orders := work.orders[orderId := Narrow(queued)],
                    outbox := InsertMessage(work.outbox, MatchRequest(e, queued)));
    }
    return Ok(work);
  }

  lemma {:induction false} BatchFailsWithPrefix(t: Tables, records: seq<Record>, n: nat)
    requires n <= |records| && ApplyBatch(t, records[..n]).Err?
    ensures ApplyBatch(t, records) == ApplyBatch(t, records[..n])
    decreases |records|
  {
    if n == |records| {
      assert records[..n] == records;
    } else {
      assert records[..|records| - 1][..n] == records[..n];
      BatchFailsWithPrefix(t, records[..|records| - 1], n);
    }
  }

  /** The database as other transactions see it, with the order consumer's one write operation. */
  class OrderDatabase {
    var tables: Tables
    var checkpoint: Option<Checkpoint>

    constructor ()
      ensures tables == EMPTY_TABLES && checkpoint == None
    {
      tables := EMPTY_TABLES;
      checkpoint := None;
    }

    /** `before` and `after` are what etcd answered at the first and at the second fence check. */
    method ApplyRecordsWithFence(nodeId: int, records: seq<Record>, own: Ownership,
                                 before: Option<Ownership>, after: Option<Ownership>)
      returns (failure: Option<Error>)
      modifies this
      ensures failure.None? <==>
              && |records| > 0 && InOrder(records, own, |records|)
              && (nodeId == 0 || nodeId == own.nodeId)
              && before.Some? && before.value.nodeId == own.nodeId && before.value.epoch == own.epoch
              && ApplyBatch(old(tables), records).Ok?
              && after.Some? && after.value.nodeId == own.nodeId && after.value.epoch == own.epoch
      ensures failure.None? <==> ValidateBatch(records, own).None? && FencePasses(nodeId, own, before)
                                 && ApplyBatch(old(tables), records).Ok? && FencePasses(nodeId, own, after)
      ensures failure.Some? ==>
                failure == if ValidateBatch(records, own).Some? then ValidateBatch(records, own)
                           else if FencePasses(nodeId, own, before) && ApplyBatch(old(tables), records).Err?
                           then Some(ApplyBatch(old(tables), records).error)
                           else Some(FenceLost)
      ensures failure.None? ==> tables == ApplyBatch(old(tables), records).value
      ensures failure.None? ==>
                checkpoint == if old(checkpoint).Some? && old(checkpoint).value.epoch > own.epoch then old(checkpoint)
                              else Some(Checkpoint(records[|records| - 1].position.offset + 1, own.epoch, nodeId))
      ensures failure.Some? ==> tables == old(tables) && checkpoint == old(checkpoint)
    {
      failure := ValidateRecordBatch(records, own);
      if failure.Some? { return; }
      if !FencePasses(nodeId, own, before) { return Some(FenceLost); }

      var tx := tables;
      for i := 0 to |records|
        invariant ApplyBatch(tables, records[..i]) == Ok(tx)
        invariant tables == old(tables) && checkpoint == old(checkpoint)
      {
        assert records[..i + 1][..i] == records[..i];
        var next := ApplyRecordInTransaction(tx, records[i]);
        if next.Err? {
          BatchFailsWithPrefix(tables, records, i + 1);
          return Some(next.error);
        }
        tx := next.value;
      }
      assert records[..|records|] == records;

      if !FencePasses(nodeId, own, after) { return Some(FenceLost); }
      tables := tx;
      checkpoint := UpsertCheckpoint(checkpoint,
                                     Checkpoint(records[|records| - 1].position.offset + 1, own.epoch, nodeId));
    }
  }

  // ---------------------------------------------------------------------------------------------
  // Laws of the fold
  // ---------------------------------------------------------------------------------------------

  /** Batching is invisible: a batch equals any division of it into two, failures included. */
  lemma {:induction false} BatchSplits(t: Tables, left: seq<Record>, right: seq<Record>)
    ensures ApplyBatch(t, left + right) ==
            match ApplyBatch(t, left)
            case Err(error) => Err(error)
            case Ok(mid) => ApplyBatch(mid, right)
    decreases |right|
  {
    if |right| == 0 {
      assert left + right == left;
    } else {
      var front := right[..|right| - 1];
      assert (left + right)[..|left + right| - 1] == left + front;
      BatchSplits(t, left, front);
    }
  }

  function Concat(batches: seq<seq<Record>>): seq<Record> {
    if |batches| == 0 then [] else Concat(batches[..|batches| - 1]) + batches[|batches| - 1]
  }

  /** The tables after committing the batches one transaction at a time, if all of them succeed. */
  function ApplyBatches(t: Tables, batches: seq<seq<Record>>): Result<Tables> {
    if |batches| == 0 then Ok(t)
    else match ApplyBatches(t, batches[..|batches| - 1])
      case Err(error) => Err(error)
      case Ok(mid) => ApplyBatch(mid, batches[|batches| - 1])
  }

  /** Every division of a record sequence into batches ends as the one-record-at-a-time pass does. */
  lemma {:induction false} BatchingIsInvisible(t: Tables, batches: seq<seq<Record>>)
    ensures ApplyBatches(t, batches) == ApplyBatch(t, Concat(batches))
  {
    if |batches| > 0 {
      BatchingIsInvisible(t, batches[..|batches| - 1]);
      BatchSplits(t, Concat(batches[..|batches| - 1]), batches[|batches| - 1]);
    }
  }

  function FirstOccurrences(records: seq<Record>, known: map<string, Position>): map<string, Position> {
    if |records| == 0 then known
    else
      var before := FirstOccurrences(records[..|records| - 1], known);
      var last := records[|records| - 1];
      if last.event.id in before then before else before[last.event.id := last.position]
  }

  lemma RecordInbox(t: Tables, r: Record)
    requires ApplyRecord(t, r).Ok?
    ensures r.event.id != ""
    ensures ApplyRecord(t, r).value.inbox ==
            if r.event.id in t.inbox then t.inbox else t.inbox[r.event.id := r.position]
  {
  }

  /** After a successful batch the inbox holds, for each event id, where it occurred first. */
  lemma {:induction false} BatchInbox(t: Tables, records: seq<Record>)
    requires ApplyBatch(t, records).Ok?
    ensures ApplyBatch(t, records).value.inbox == FirstOccurrences(records, t.inbox)
    ensures forall i :: 0 <= i < |records| ==> records[i].event.id != ""
  {
    if |records| > 0 {
      var front, last := records[..|records| - 1], records[|records| - 1];
      hide ApplyRecord;
      BatchInbox(t, front);
      RecordInbox(ApplyBatch(t, front).value, last);
      assert forall i :: 0 <= i < |front| ==> records[i] == front[i];
    }
  }

  lemma {:induction false} FirstOccurrencesCovers(records: seq<Record>, known: map<string, Position>)
    ensures known.Keys <= FirstOccurrences(records, known).Keys
    ensures forall i :: 0 <= i < |records| ==> records[i].event.id in FirstOccurrences(records, known)
  {
    if |records| > 0 {
      FirstOccurrencesCovers(records[..|records| - 1], known);
    }
  }

  /** Records whose event ids are all known already leave the tables as they are. */
  lemma {:induction false} KnownRecordsChangeNothing(t: Tables, records: seq<Record>)
    requires forall i :: 0 <= i < |records| ==> records[i].event.id != "" && records[i].event.id in t.inbox
    ensures ApplyBatch(t, records) == Ok(t)
  {
    if |records| > 0 {
      KnownRecordsChangeNothing(t, records[..|records| - 1]);
    }
  }

  // ---------------------------------------------------------------------------------------------
  // What one fresh record leaves behind
  // ---------------------------------------------------------------------------------------------

  /** A request for an event's order: its place as the order row has it (32 bits wide), the retry's attempt or zero,
      the event's own shard and time. */
  predicate IsRequestOf(m: Message, source: Event, order: OrderState)
    requires source.body.OrderCreated? || source.body.OrderRetry?
  {
    && m.topic == MatchRequests && m.event.id == source.id + "-match-requested"
    && m.event.shardId == source.shardId && m.event.occurredAt == source.occurredAt
    && m.event.body.MatchRequested? && m.event.body.orderId == source.body.orderId
    && WrapInt32(m.event.body.x) == order.x && WrapInt32(m.event.body.y) == order.y
    && m.event.body.attempt == (if source.body.OrderRetry? then source.body.attempt else 0)
  }

  /** The order row after a fresh event: what the event says, with its id and time, on top of the row as it was, or of
      an empty row of the event's shard, with integers cut to 32 bits. A creation is ignored for an order queued or
      finished, a retry for one cancelled or matched, a miss likewise; an ignored event leaves every field, except that
      an ignored creation or retry still makes the order match-pending. */
  predicate IsRowAfter(before: Option<OrderState>, e: Event, row: OrderState) {
    var was := if before.Some? then before.value
               else OrderState(e.shardId, Unset, 0, 0, 0, "", "", "", 0, 0, "", 0);
    var kept := was.(shardId := WrapInt32(was.shardId), x := WrapInt32(was.x), y := WrapInt32(was.y),
                     attempt := WrapInt32(was.attempt), score := WrapInt32(was.score));
    var touched := kept.(lastEventId := e.id, updatedAt := e.occurredAt);
    match e.body
    case OrderCreated(_, x, y) =>
      row == if before.Some? && was.status in {Submitted, MatchPending, Matched, Missed, Cancelled}
             then kept.(status := MatchPending)
             else touched.(status := MatchPending, x := WrapInt32(x), y := WrapInt32(y))
    case OrderRetry(_, attempt, reason) =>
      && before.Some?
      && row == if was.status in {Cancelled, Matched} then kept.(status := MatchPending)
                else touched.(status := MatchPending, attempt := WrapInt32(attempt), retryReason := reason)
    case OrderCancelled(_, reason) =>
      row == touched.(status := Cancelled, cancelReason := reason)
    case OrderMatched(_, riderId, score) =>
      row == touched.(status := Matched, riderId := riderId, score := WrapInt32(score))
    case OrderMissed(_, reason) =>
      row == if before.Some? && was.status in {Matched, Cancelled} then was
             else touched.(status := Missed, missReason := reason)
    case _ => false
  }

  /** The requests after a fresh event: a creation or retry adds its one request unless that is there already. */
  predicate IsOutboxAfter(before: map<string, Message>, e: Event, after: map<string, Message>, row: OrderState) {
    var id := e.id + "-match-requested";
    if !(e.body.OrderCreated? || e.body.OrderRetry?) || id in before then after == before
    else
      && after.Keys == before.Keys + {id}
      && (forall other :: other in before ==> after[other] == before[other])
      && IsRequestOf(after[id], e, row)
  }

  /** What a fresh record leaves behind: its inbox entry, its own order's row and no other order's, and its request. */
  lemma RecordOutcome(t: Tables, r: Record)
    requires r.event.id !in t.inbox && ApplyRecord(t, r).Ok?
    ensures var after := ApplyRecord(t, r).value;
            var body := r.event.body;
            && (|| body.OrderCreated? || body.OrderCancelled? || body.OrderRetry?
                || body.OrderMatched? || body.OrderMissed?)
            && after.inbox == t.inbox[r.event.id := r.position]
            && (forall other :: other != body.orderId ==> (other in after.orders <==> other in t.orders))
            && (forall other :: other != body.orderId && other in t.orders ==> after.orders[other] == t.orders[other])
            && body.orderId in after.orders
            && IsRowAfter(if body.orderId in t.orders then Some(t.orders[body.orderId]) else None,
                          r.event, after.orders[body.orderId])
            && IsOutboxAfter(t.outbox, r.event, after.outbox, after.orders[body.orderId])
  {
  }

  /** A record fails when it has no event id; otherwise, unless its id is known, when its payload does not decode, when
      no order consumer handles its type, or when it retries an order that does not exist; and in no other case. */
  lemma RecordFailsExactlyWhen(t: Tables, r: Record)
    ensures var result := ApplyRecord(t, r);
            if r.event.id == "" then result == Err(MissingEventId)
            else if r.event.id in t.inbox then result == Ok(t)
            else match r.event.body
                 case Undecodable => result == Err(UndecodablePayload)
                 case Unsupported(_) => result == Err(UnsupportedEvent)
                 case MatchRequested(_, _, _, _) => result == Err(UnsupportedEvent)
                 case OrderRetry(id, _, _) =>
                   if id in t.orders then result.Ok? else result == Err(RetryBeforeCreation)
                 case _ => result.Ok?
  {
  }

  // ---------------------------------------------------------------------------------------------
  // Finality of a match
  // ---------------------------------------------------------------------------------------------

  /** The status, the rider and the score of a match. */
  predicate MatchedTo(orders: Orders, orderId: int, riderId: int, score: int) {
    && orderId in orders
    && orders[orderId].status == Matched && orders[orderId].riderId == riderId && orders[orderId].score == score
  }

  /** A fresh event undoes or replaces a match exactly when it cancels the order, creates or retries it again (which is
      ignored by the state machine and yet queues a new match), or matches it to another rider or score. */
  lemma MatchedSurvivesExactlyWhen(t: Tables, r: Record, orderId: int)
    requires orderId in t.orders && t.orders[orderId].status == Matched
    requires r.event.id !in t.inbox && ApplyRecord(t, r).Ok?
    ensures MatchedTo(ApplyRecord(t, r).value.orders, orderId, t.orders[orderId].riderId, t.orders[orderId].score) <==>
            var body := r.event.body;
            !(body.orderId == orderId &&
              (|| body.OrderCancelled? || QueuesMatchRequest(body)
               || (body.OrderMatched? &&
                   (body.riderId != t.orders[orderId].riderId || WrapInt32(body.score) != t.orders[orderId].score))))
  {
  }

  function Reopened(second: Body): seq<Record> {
    [Record(Position(0, 0), Event("a", OrderCreated(7, 1, 2), 0, 10)),
     Record(Position(0, 1), Event("b", OrderMatched(7, 3, 4), 0, 11)),
     Record(Position(0, 2), Event("c", second, 0, 12))]
  }

  /** The tables after the first two of those records. */
  lemma MatchedFirst(second: Body) returns (t: Tables)
    ensures ApplyBatch(EMPTY_TABLES, Reopened(second)[..2]) == Ok(t) && MatchedTo(t.orders, 7, 3, 4)
    ensures t.inbox.Keys == {"a", "b"}
    ensures ApplyBatch(EMPTY_TABLES, Reopened(second)) == ApplyRecord(t, Reopened(second)[2])
  {
    var records := Reopened(second);
    assert records[..2][..1] == records[..1] && records[..1][..0] == [];
    var created := ApplyRecord(EMPTY_TABLES, records[0]).value;
    assert ApplyBatch(EMPTY_TABLES, records[..1]) == Ok(created);
    t := ApplyRecord(created, records[1]).value;
  }

  /** Such orders are reached from empty tables: one created and matched is match-pending again after a retry, and has
      another rider after a second match. */
  lemma MatchesAreReopenedAndReplaced()
    ensures ApplyBatch(EMPTY_TABLES, Reopened(OrderRetry(7, 1, "again"))[..2]).Ok?
    ensures MatchedTo(ApplyBatch(EMPTY_TABLES, Reopened(OrderRetry(7, 1, "again"))[..2]).value.orders, 7, 3, 4)
    ensures ApplyBatch(EMPTY_TABLES, Reopened(OrderRetry(7, 1, "again"))).Ok?
    ensures var orders := ApplyBatch(EMPTY_TABLES, Reopened(OrderRetry(7, 1, "again"))).value.orders;
            7 in orders && orders[7].status == MatchPending
    ensures ApplyBatch(EMPTY_TABLES, Reopened(OrderMatched(7, 5, 6))).Ok?
    ensures MatchedTo(ApplyBatch(EMPTY_TABLES, Reopened(OrderMatched(7, 5, 6))).value.orders, 7, 5, 6)
  {
    var reopened := MatchedFirst(OrderRetry(7, 1, "again"));
    var replaced := MatchedFirst(OrderMatched(7, 5, 6));
  }
}
