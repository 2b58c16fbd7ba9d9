/** The matcher's reservation transaction: inbox dedupe, order lock, rider reservation, result row. */
module MatchWorker {
  import opened Model
  import opened OrderApplier

  const MATCHED_SUFFIX := "-order_matched"
  const MISSED_SUFFIX := "-order_missed"
  const NO_RIDER := "no_available_rider"

  datatype RiderRow = RiderRow(online: bool, count: int)

  /** The rows the matcher's transaction reads and writes. */
  datatype MatchTables = MatchTables(
    inbox: map<string, Position>, orders: Orders, riders: map<int, RiderRow>, outbox: map<string, Message>)

  /** Saturating conversion of a score to 32 bits. */
  function ScoreInt32(value: int): (r: int)
    ensures -INT32_HALF <= r < INT32_HALF
    ensures -INT32_HALF <= value < INT32_HALF ==> r == value
  {
    if value > INT32_HALF - 1 then INT32_HALF - 1 else if value < -INT32_HALF then -INT32_HALF else value
  }

  /** The condition of the reservation statement. */
  predicate Reservable(riders: map<int, RiderRow>, riderId: int, maxOrders: int) {
    riderId in riders && riders[riderId].online && riders[riderId].count < maxOrders
  }

  /** The first candidate the database still lets the matcher reserve. */
  function Choose(riders: map<int, RiderRow>, candidates: seq<Candidate>, maxOrders: int): Option<Candidate> {
    if |candidates| == 0 then None
    else if Reservable(riders, candidates[0].riderId, maxOrders) then Some(candidates[0])
    else Choose(riders, candidates[1..], maxOrders)
  }

  function MatchedEvent(request: Event, orderId: int, chosen: Candidate, now: int): Event {
    Event(request.id + MATCHED_SUFFIX, OrderMatched(orderId, chosen.riderId, ScoreInt32(chosen.score)),
          request.shardId, now)
  }

  function MissedEvent(request: Event, orderId: int, now: int): Event {
    Event(request.id + MISSED_SUFFIX, OrderMissed(orderId, NO_RIDER), request.shardId, now)
  }

  predicate IsPending(orders: Orders, orderId: int) {
    orderId in orders && orders[orderId].status == MatchPending
  }

  function MarkMatched(t: MatchTables, chosen: Candidate, e: Event): MatchTables
    requires e.body.OrderMatched? && e.body.orderId in t.orders && chosen.riderId in t.riders
  {
    var state := t.orders[e.body.orderId].(status := Matched, riderId := chosen.riderId,
                                           score := ScoreInt32(chosen.score),
                                           lastEventId := e.id, updatedAt := e.occurredAt);
    var row := t.riders[chosen.riderId];
    t.(orders := t.orders[e.body.orderId := state],
       riders := t.riders[chosen.riderId := row.(count := row.count + 1)],
       outbox := InsertMessage(t.outbox, Message(e, OrderEvents)))
  }

  function MarkMissed(t: MatchTables, e: Event): MatchTables
    requires e.body.OrderMissed? && e.body.orderId in t.orders
  {
    var state := t.orders[e.body.orderId].(status := Missed, missReason := NO_RIDER,
                                           lastEventId := e.id, updatedAt := e.occurredAt);
    t.(orders := t.orders[e.body.orderId := state], outbox := InsertMessage(t.outbox, Message(e, OrderEvents)))
  }

  lemma ChosenIsReservable(riders: map<int, RiderRow>, candidates: seq<Candidate>, maxOrders: int)
    requires Choose(riders, candidates, maxOrders).Some?
    ensures Choose(riders, candidates, maxOrders).value in candidates
    ensures var u := Choose(riders, candidates, maxOrders).value.riderId;
            u in riders && riders[u].online && riders[u].count < maxOrders
  {
  }

  function MatchOrder(t: MatchTables, request: Event, candidates: seq<Candidate>, maxOrders: int,
                      now: int): Result<MatchTables>
    requires request.body.MatchRequested?
  {
    var orderId := request.body.orderId;
    match Choose(t.riders, candidates, maxOrders)
    case Some(chosen) =>
      ChosenIsReservable(t.riders, candidates, maxOrders);
      if !IsPending(t.orders, orderId) then Err(NoLongerMatchPending)
      else Ok(MarkMatched(t, chosen, MatchedEvent(request, orderId, chosen, now)))
    case None =>
      if IsPending(t.orders, orderId) then Ok(MarkMissed(t, MissedEvent(request, orderId, now))) else Ok(t)
  }

  /** The transaction for one request: a known request or an order no longer pending only moves the inbox. */
  function ApplyRequest(t: MatchTables, r: Record, candidates: seq<Candidate>, maxOrders: int,
                        now: int): Result<MatchTables> {
    if r.event.body.Undecodable? then Err(UndecodablePayload)
    else if !r.event.body.MatchRequested? then Err(UnsupportedEvent)
    else if r.event.id in t.inbox then Ok(t)
    else
      var noted := t.(inbox := t.inbox[r.event.id := r.position]);
      if r.event.body.orderId !in t.orders then Err(OrderNotFound)
      else if t.orders[r.event.body.orderId].status != MatchPending then Ok(noted)
      else MatchOrder(noted, r.event, candidates, maxOrders, now)
  }

  /** The order of the candidates decides: everyone ahead of the chosen one could not be reserved. */
  lemma {:induction false} ChosenIsFirst(riders: map<int, RiderRow>, candidates: seq<Candidate>, maxOrders: int, k: nat)
    requires k <= |candidates|
    requires forall i :: 0 <= i < k ==> !Reservable(riders, candidates[i].riderId, maxOrders)
    ensures k == |candidates| ==> Choose(riders, candidates, maxOrders) == None
    ensures k < |candidates| && Reservable(riders, candidates[k].riderId, maxOrders) ==>
              Choose(riders, candidates, maxOrders) == Some(candidates[k])
  {
    if k > 0 {
      ChosenIsFirst(riders, candidates[1..], maxOrders, k - 1);
    }
  }

  /** Once the locked row has been read as pending, marking it cannot fail: the transaction's only errors are a record
      that is no match request and an order that does not exist. */
  lemma FailsExactlyWhen(t: MatchTables, r: Record, candidates: seq<Candidate>, maxOrders: int, now: int)
    ensures var result := ApplyRequest(t, r, candidates, maxOrders, now);
            match r.event.body
            case Undecodable => result == Err(UndecodablePayload)
            case MatchRequested(orderId, _, _, _) =>
              if r.event.id in t.inbox then result == Ok(t)
              else if orderId !in t.orders then result == Err(OrderNotFound)
              else result.Ok?
            case _ => result == Err(UnsupportedEvent)
  {
  }

  /** One event row is in `after` and nothing else is new. */
  predicate OneRowAdded(before: map<string, Message>, after: map<string, Message>, m: Message) {
    if m.event.id in before then after == before
    else
      && after.Keys == before.Keys + {m.event.id} && after[m.event.id] == m
      && forall id :: id in before ==> after[id] == before[id]
  }

  /** Where the search for a rider stops: at the first candidate that can be reserved, or after the last. */
  lemma {:induction false} ChosenAt(riders: map<int, RiderRow>, candidates: seq<Candidate>, maxOrders: int)
    returns (k: nat)
    ensures k <= |candidates|
    ensures forall i :: 0 <= i < k ==> !Reservable(riders, candidates[i].riderId, maxOrders)
    ensures k < |candidates| ==> Reservable(riders, candidates[k].riderId, maxOrders)
    ensures Choose(riders, candidates, maxOrders) == if k < |candidates| then Some(candidates[k]) else None
  {
    k := 0;
    if |candidates| > 0 && !Reservable(riders, candidates[0].riderId, maxOrders) {
      k := ChosenAt(riders, candidates[1..], maxOrders);
      k := k + 1;
    }
  }

  /** A fresh request for a pending order ends one of two ways. Matched: the first candidate that can be reserved has
      one order more, the order names it with the score cut to 32 bits, and one matched row says so. Missed: no
      candidate can, no rider has changed, and one missed row says so. Either way the order's row says which event
      decided and when, and keeps its place, shard, attempt and reasons; no other order or rider changes. A request for
      an order that is not pending changes nothing but the inbox. */
  lemma RequestOutcome(t: MatchTables, r: Record, candidates: seq<Candidate>, maxOrders: int, now: int)
    returns (k: nat)
    requires r.event.id !in t.inbox && ApplyRequest(t, r, candidates, maxOrders, now).Ok?
    ensures k < |candidates| ==>
              var u := candidates[k].riderId;
              u in t.riders && t.riders[u].online && t.riders[u].count < maxOrders
    ensures k <= |candidates|
            && forall i :: 0 <= i < k ==>
                             var u := candidates[i].riderId;
                             u in t.riders && t.riders[u].online ==> t.riders[u].count >= maxOrders
    ensures var after := ApplyRequest(t, r, candidates, maxOrders, now).value;
            var orderId := r.event.body.orderId;
            && orderId in t.orders && after.inbox == t.inbox[r.event.id := r.position]
            && if t.orders[orderId].status != MatchPending then
                 after.orders == t.orders && after.riders == t.riders && after.outbox == t.outbox
               else if k < |candidates| then
                 var c := candidates[k];
                 var matched := r.event.id + "-order_matched";
                 var score := if c.score > 0x7FFF_FFFF then 0x7FFF_FFFF
                              else if c.score < -0x8000_0000 then -0x8000_0000 else c.score;
                 && after.orders == t.orders[orderId := t.orders[orderId].(
                      status := Matched, riderId := c.riderId, score := score,
                      lastEventId := matched, updatedAt := now)]
                 && after.riders == t.riders[c.riderId := RiderRow(true, t.riders[c.riderId].count + 1)]
                 && OneRowAdded(t.outbox, after.outbox,
                      Message(Event(matched, OrderMatched(orderId, c.riderId, score), r.event.shardId, now),
                              OrderEvents))
               else
                 var missed := r.event.id + "-order_missed";
                 && after.riders == t.riders
                 && after.orders == t.orders[orderId := t.orders[orderId].(
                      status := Missed, missReason := "no_available_rider", lastEventId := missed, updatedAt := now)]
                 && OneRowAdded(t.outbox, after.outbox,
                      Message(Event(missed, OrderMissed(orderId, "no_available_rider"), r.event.shardId, now),
                              OrderEvents))
  {
    k := ChosenAt(t.riders, candidates, maxOrders);
  }

  /** Tries the candidates in order; the first successful reservation ends the search. */
  method ReserveFirst(tx: MatchTables, request: Event, candidates: seq<Candidate>, maxOrders: int, now: int)
    returns (result: Result<MatchTables>)
    requires request.body.MatchRequested?
    ensures result == MatchOrder(tx, request, candidates, maxOrders, now)
  {
    var orderId := request.body.orderId;
    for i := 0 to |candidates|
      invariant forall j :: 0 <= j < i ==> !Reservable(tx.riders, candidates[j].riderId, maxOrders)
    {
      var candidate := candidates[i];
      if !Reservable(tx.riders, candidate.riderId, maxOrders) { continue; }
      ChosenIsFirst(tx.riders, candidates, maxOrders, i);
      if !IsPending(tx.orders, orderId) { return Err(NoLongerMatchPending); }
      return Ok(MarkMatched(tx, candidate, MatchedEvent(request, orderId, candidate, now)));
    }
    ChosenIsFirst(tx.riders, candidates, maxOrders, |candidates|);
    if IsPending(tx.orders, orderId) {
      return Ok(MarkMissed(tx, MissedEvent(request, orderId, now)));
    }
    return Ok(tx);
  }

  /** The tables as other transactions see them, with the matcher's one write operation. */
  class MatchDatabase {
    var tables: MatchTables
    var checkpoint: Option<Checkpoint>

    constructor (tables: MatchTables)
      ensures this.tables == tables && checkpoint == None
    {
      this.tables := tables;
      checkpoint := None;
    }

    method ApplyRecordWithFence(nodeId: int, record: Record, own: Ownership, before: Option<Ownership>,
                                after: Option<Ownership>, candidates: seq<Candidate>, maxOrders: int, now: int)
      returns (failure: Option<Error>)
      modifies this
      ensures failure.None? <==>
              && own.nodeId == nodeId && own.shardId == record.event.shardId
              && before.Some? && before.value.nodeId == own.nodeId && before.value.epoch == own.epoch
              && ApplyRequest(old(tables), record, candidates, maxOrders, now).Ok?
              && after.Some? && after.value.nodeId == own.nodeId && after.value.epoch == own.epoch
      ensures failure.None? ==> tables == ApplyRequest(old(tables), record, candidates, maxOrders, now).value
      ensures failure.None? ==>
                checkpoint == if old(checkpoint).Some? && old(checkpoint).value.epoch > own.epoch then old(checkpoint)
                              else Some(Checkpoint(record.position.offset + 1, own.epoch, nodeId))
      ensures failure.Some? ==> tables == old(tables) && checkpoint == old(checkpoint)
      ensures failure != Some(NoLongerMatchPending)
    {
      if !record.event.body.MatchRequested? && !record.event.body.Undecodable? { return Some(UnsupportedEvent); }
      if own.nodeId != nodeId || own.shardId != record.event.shardId || !FencePasses(nodeId, own, before) {
        return Some(FenceLost);
      }
      if record.event.body.Undecodable? { return Some(UndecodablePayload); }

      failure := None;
      var tx := tables;
      if record.event.id !in tx.inbox {
        tx := tx.(inbox := tx.inbox[record.event.id := record.position]);
        if record.event.body.orderId !in tx.orders { return Some(OrderNotFound); }
        if tx.orders[record.event.body.orderId].status == MatchPending {
          var matched := ReserveFirst(tx, record.event, candidates, maxOrders, now);
          match matched {
            case Err(error) => failure := Some(error);
            case Ok(marked) => tx := marked;
          }
        }
      }

      if failure.None? && !FencePasses(nodeId, own, after) {
        failure := Some(FenceLost);
      }
      if failure.None? {
        tables := tx;
        checkpoint := UpsertCheckpoint(checkpoint, Checkpoint(record.position.offset + 1, own.epoch, nodeId));
      }
    }
  }
}
