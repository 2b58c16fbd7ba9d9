/** How long a match lasts in the pipeline. Order transactions read order rows without a lock and overwrite them whole,
    so what a transaction has seen decides as much as the events it applies. */
module MatchFinality {
  import opened Model
  import opened OrderApplier
  import opened MatchWorker
  import opened Pipeline
  import Pub = OutboxPublisher

  // ---------------------------------------------------------------------------------------------
  // What a batch makes of a match
  // ---------------------------------------------------------------------------------------------

  /** The event decides about the order's match, whatever the row says: every event of the order but a miss does,
      and a miss leaves a match alone and makes none. */
  predicate Decides(body: Body, orderId: int) {
    IsOrderEvent(body) && body.orderId == orderId && !body.OrderMissed?
  }

  predicate IsNew(known: map<string, Position>, records: seq<Record>, i: nat)
    requires i < |records|
  {
    && records[i].event.id !in known
    && forall j :: 0 <= j < i ==> records[j].event.id != records[i].event.id
  }

  /** The last new event of the batch that decides about the order's match. */
  function LastDecision(known: map<string, Position>, records: seq<Record>, orderId: int): Option<Body> {
    if |records| == 0 then None
    else
      var last := |records| - 1;
      if IsNew(known, records, last) && Decides(records[last].event.body, orderId) then Some(records[last].event.body)
      else LastDecision(known, records[..last], orderId)
  }

  /** The match a batch leaves: its last decision's, or the one it found. */
  predicate LeavesMatch(t: Tables, records: seq<Record>, orderId: int, riderId: int, score: int) {
    match LastDecision(t.inbox, records, orderId)
    case None => MatchedTo(t.orders, orderId, riderId, score)
    case Some(body) => body.OrderMatched? && body.riderId == riderId && WrapInt32(body.score) == score
  }

  lemma RecordMatches(t: Tables, r: Record, orderId: int, riderId: int, score: int)
    requires ApplyRecord(t, r).Ok?
    ensures MatchedTo(ApplyRecord(t, r).value.orders, orderId, riderId, score) <==>
            if r.event.id !in t.inbox && Decides(r.event.body, orderId)
            then r.event.body.OrderMatched? && r.event.body.riderId == riderId && WrapInt32(r.event.body.score) == score
            else MatchedTo(t.orders, orderId, riderId, score)
  {
  }

  lemma {:induction false} InboxKnows(records: seq<Record>, known: map<string, Position>, id: string)
    ensures id in FirstOccurrences(records, known) <==>
            id in known || exists i :: 0 <= i < |records| && records[i].event.id == id
  {
    if |records| > 0 {
      InboxKnows(records[..|records| - 1], known, id);
    }
  }

  /** The last record is new to the batch's transaction exactly when its id is neither known nor met before. */
  lemma KnownBefore(t: Tables, records: seq<Record>)
    requires |records| > 0 && ApplyBatch(t, records).Ok?
    ensures ApplyBatch(t, records[..|records| - 1]).Ok?
    ensures IsNew(t.inbox, records, |records| - 1) <==>
            records[|records| - 1].event.id !in ApplyBatch(t, records[..|records| - 1]).value.inbox
  {
    hide ApplyRecord;
    var front := records[..|records| - 1];
    BatchInbox(t, front);
    InboxKnows(front, t.inbox, records[|records| - 1].event.id);
    hide ApplyBatch, FirstOccurrences;
    assert forall i :: 0 <= i < |front| ==> front[i] == records[i];
  }

  lemma {:induction false} BatchLeavesMatch(t: Tables, records: seq<Record>, orderId: int, riderId: int, score: int)
    requires ApplyBatch(t, records).Ok?
    ensures MatchedTo(ApplyBatch(t, records).value.orders, orderId, riderId, score) <==>
            LeavesMatch(t, records, orderId, riderId, score)
  {
    if |records| > 0 {
      var front, last := records[..|records| - 1], records[|records| - 1];
      hide ApplyRecord, MatchedTo, Decides;
      BatchLeavesMatch(t, front, orderId, riderId, score);
      KnownBefore(t, records);
      RecordMatches(ApplyBatch(t, front).value, last, orderId, riderId, score);
      hide IsNew, ApplyBatch;
    }
  }

  // ---------------------------------------------------------------------------------------------
  // The exact condition
  // ---------------------------------------------------------------------------------------------

  predicate Commits(s: State, step: Step)
    requires step.OrderTx?
  {
    && OrderTxEnabled(s, step) && RunBatch(s, step).Ok?
    && CoversWrites(step.seen, RunBatch(s, step).value.orders, step.written)
  }

  /** The rows the transaction works from: the inbox and the outbox as they are, the orders as it has seen them. */
  function Seen(s: State, step: Step): Tables
    requires step.OrderTx?
  {
    Tables(s.orderInbox, step.seen, s.pub.outbox)
  }

  function BatchOf(s: State, step: Step): seq<Record>
    requires step.OrderTx? && OrderTxEnabled(s, step)
  {
    Records(step.shardId, OrderLog(s.pub.logs, step.shardId), step.lo, step.hi)
  }

  /** The matcher writes pending orders only. */
  lemma RequestLeavesMatches(t: MatchTables, r: Record, candidates: seq<Candidate>, maxOrders: int, now: int,
                             orderId: int)
    requires ApplyRequest(t, r, candidates, maxOrders, now).Ok?
    requires orderId in t.orders && t.orders[orderId].status == Matched
    ensures Find(ApplyRequest(t, r, candidates, maxOrders, now).value.orders, orderId) == Find(t.orders, orderId)
  {
  }

  /** A step ends a match exactly when it is an order transaction that commits, writes the order's row, and either has
      a last new decision about the order that is not this match, or has none and did not see the match. */
  lemma MatchSurvivesExactlyWhen(s: State, step: Step, orderId: int, riderId: int, score: int)
    requires MatchedTo(s.orders, orderId, riderId, score)
    ensures MatchedTo(Do(s, step).orders, orderId, riderId, score) <==>
            (step.OrderTx? && Commits(s, step) && orderId in step.written ==>
               LeavesMatch(Seen(s, step), BatchOf(s, step), orderId, riderId, score))
  {
    match step
    case Publish(_) =>
    case OrderTx(_, _, _, _, _) =>
      if Commits(s, step) {
        BatchLeavesMatch(Seen(s, step), BatchOf(s, step), orderId, riderId, score);
        hide ApplyBatch, LeavesMatch, Records;
      }
    case MatchTx(_, _, _, _) =>
      if step.offset < |RequestLog(s.pub.logs, step.shardId)| && RunRequest(s, step).Ok? {
        RequestLeavesMatches(MatchView(s), RecordAt(step.shardId, RequestLog(s.pub.logs, step.shardId), step.offset),
                             step.candidates, s.maxOrders, step.now, orderId);
      }
  }

  /** The same for a transaction over one new record: the match is kept exactly if its row is not written, if the event
      is this very match, or if the transaction saw the match and the event does not cancel, create, retry or match the
      order. */
  lemma OneRecordKeepsMatchExactlyWhen(s: State, step: Step, orderId: int, riderId: int, score: int)
    requires MatchedTo(s.orders, orderId, riderId, score)
    requires step.OrderTx? && Commits(s, step) && step.hi == step.lo + 1
    requires OrderLog(s.pub.logs, step.shardId)[step.lo].id !in s.orderInbox
    ensures var body := OrderLog(s.pub.logs, step.shardId)[step.lo].body;
            var mine := IsOrderEvent(body) && body.orderId == orderId;
            MatchedTo(Do(s, step).orders, orderId, riderId, score) <==>
            || orderId !in step.written
            || (mine && body.OrderMatched? && body.riderId == riderId && WrapInt32(body.score) == score)
            || (MatchedTo(step.seen, orderId, riderId, score)
                && !(mine && (body.OrderCancelled? || QueuesMatchRequest(body) || body.OrderMatched?)))
  {
    MatchSurvivesExactlyWhen(s, step, orderId, riderId, score);
    var records := BatchOf(s, step);
    assert records[0].event.body == OrderLog(s.pub.logs, step.shardId)[step.lo].body;
    assert LastDecision(s.orderInbox, records[..0], orderId) == None;
    hide Do, ApplyBatch, MatchedTo;
  }

  // ---------------------------------------------------------------------------------------------
  // A run that loses a match
  // ---------------------------------------------------------------------------------------------

  lemma {:induction false} ExecConcat(s: State, a: seq<Step>, b: seq<Step>)
    ensures Exec(s, a + b) == Exec(Exec(s, a), b)
    decreases |b|
  {
    if |b| == 0 {
      assert a + b == a;
    } else {
      assert (a + b)[..|a + b| - 1] == a + b[..|b| - 1];
      ExecConcat(s, a, b[..|b| - 1]);
    }
  }

  lemma ExecOne(s: State, step: Step)
    ensures Exec(s, [step]) == Do(s, step)
  {
    assert [step][..0] == [];
  }

  /** A publisher of its own claims one row and appends it. */
  function Delivering(publisher: int, id: string): seq<Step> {
    [Publish(Pub.Spawn(publisher, "p")), Publish(Pub.Claim(publisher, {id})), Publish(Pub.Append(publisher, [id]))]
  }

  lemma AppendOneRow(logs: Pub.Logs, outbox: map<string, Message>, id: string)
    requires id in outbox
    ensures Pub.AppendRows(logs, outbox, [id]) == Pub.AppendMessage(logs, outbox[id])
  {
    assert [id][..0] == [];
  }

  lemma ExecThree(s: State, a: Step, b: Step, c: Step)
    ensures Exec(s, [a, b, c]) == Do(Do(Do(s, a), b), c)
  {
    hide Do;
    ExecOne(s, a);
    ExecConcat(s, [a], [b]);
    ExecOne(Do(s, a), b);
    ExecConcat(s, [a, b], [c]);
    ExecOne(Do(Do(s, a), b), c);
    assert [a] + [b] == [a, b] && [a, b] + [c] == [a, b, c];
  }

  lemma Spawned(s: State, publisher: int)
    requires publisher !in s.pub.publishers
    ensures Do(s, Publish(Pub.Spawn(publisher, "p"))) ==
            s.(pub := s.pub.(publishers := s.pub.publishers[publisher := Pub.Publisher("p", Pub.Idle)]))
  {
  }

  lemma Claimed(s: State, publisher: int, id: string)
    requires publisher in s.pub.publishers && s.pub.publishers[publisher] == Pub.Publisher("p", Pub.Idle)
    requires Pub.Claimable(s.pub, id)
    ensures var after := Do(s, Publish(Pub.Claim(publisher, {id})));
            && after == s.(pub := s.pub.(delivery := after.pub.delivery, publishers := after.pub.publishers))
            && after.pub.delivery.Keys == s.pub.delivery.Keys + {id}
            && after.pub.publishers == s.pub.publishers[publisher := Pub.Publisher("p", Pub.Holding({id}))]
  {
    hide Pub.Claimable;
  }

  lemma AppendedRow(s: State, publisher: int, id: string)
    requires publisher in s.pub.publishers && s.pub.publishers[publisher] == Pub.Publisher("p", Pub.Holding({id}))
    requires id in s.pub.outbox
    ensures var after := Do(s, Publish(Pub.Append(publisher, [id])));
            && after == s.(pub := s.pub.(logs := after.pub.logs, publishers := after.pub.publishers))
            && after.pub.logs == Pub.AppendMessage(s.pub.logs, s.pub.outbox[id])
            && after.pub.publishers.Keys == s.pub.publishers.Keys
  {
    AppendOneRow(s.pub.logs, s.pub.outbox, id);
    assert Pub.AsSet([id]) == {id};
    hide Pub.AppendRows, Pub.AppendMessage;
  }

  lemma Delivered(s: State, publisher: int, id: string)
    requires publisher !in s.pub.publishers && id in s.pub.outbox && id !in s.pub.delivery && s.pub.now > 0
    ensures var after := Exec(s, Delivering(publisher, id));
            && after == s.(pub := after.pub)
            && after.pub.logs == Pub.AppendMessage(s.pub.logs, s.pub.outbox[id])
            && after.pub.outbox == s.pub.outbox && after.pub.now == s.pub.now
            && after.pub.publishers.Keys == s.pub.publishers.Keys + {publisher}
            && after.pub.delivery.Keys == s.pub.delivery.Keys + {id}
  {
    var steps := Delivering(publisher, id);
    ExecThree(s, steps[0], steps[1], steps[2]);
    var spawned, claimed := Do(s, steps[0]), Do(Do(s, steps[0]), steps[1]);
    hide Exec;
    Spawned(s, publisher);
    Claimed(spawned, publisher, id);
    AppendedRow(claimed, publisher, id);
  }

  const CREATED := Event("a", OrderCreated(7, 1, 2), 0, 10)
  const RETRIED := Event("b", OrderRetry(7, 1, "again"), 0, 11)
  const REQUEST_1 := Event(RequestId("a"), MatchRequested(7, 1, 2, 0), 0, 10)
  const REQUEST_2 := Event(RequestId("b"), MatchRequested(7, 1, 2, 1), 0, 11)
  const LATE_MISS := Event(RequestId("a") + MISSED_SUFFIX, OrderMissed(7, NO_RIDER), 0, 20)

  const ORDERS := Pub.Partition(OrderEvents, 0)
  const REQUESTS := Pub.Partition(MatchRequests, 0)

  const START := Init(map[3 := RiderRow(true, 0)], 1, 1, 10)

  /** The order as the transaction that retries it leaves it. */
  const PENDING := OrderState(0, MatchPending, 1, 2, 1, "", "again", NO_RIDER, 0, 0, "b", 11)

  lemma IdsDiffer()
    ensures REQUEST_1.id != REQUEST_2.id && LATE_MISS.id != REQUEST_1.id && LATE_MISS.id != REQUEST_2.id
    ensures RETRIED.id != CREATED.id && LATE_MISS.id != CREATED.id && LATE_MISS.id != RETRIED.id
  {
    assert REQUEST_1.id[0] == 'a' && REQUEST_2.id[0] == 'b';
    assert |"-match-requested"| == 16 && |"-order_missed"| == 13;
  }

  function OneTx(offset: nat, seen: Orders): Step {
    OrderTx(0, offset, offset + 1, seen, {7})
  }

  lemma OneRecordBatch(s: State, offset: nat, seen: Orders)
    requires offset < |OrderLog(s.pub.logs, 0)| && seen.Keys <= s.orders.Keys
    ensures RunBatch(s, OneTx(offset, seen)) ==
            ApplyRecord(Seen(s, OneTx(offset, seen)), RecordAt(0, OrderLog(s.pub.logs, 0), offset))
  {
    hide ApplyRecord;
    var records := BatchOf(s, OneTx(offset, seen));
    assert records == [RecordAt(0, OrderLog(s.pub.logs, 0), offset)];
    assert records[..0] == [];
    assert ApplyBatch(Seen(s, OneTx(offset, seen)), []) == Ok(Seen(s, OneTx(offset, seen)));
  }

  lemma WritesOne(orders: Orders, after: Orders)
    requires 7 in after
    ensures orders + map[7 := after[7]] == orders[7 := after[7]]
  {
  }

  lemma Committed(s: State, step: Step, t: Tables)
    requires step.OrderTx? && Commits(s, step) && RunBatch(s, step) == Ok(t) && step.written == {7} && 7 in t.orders
    ensures Do(s, step) ==
            s.(orders := s.orders[7 := t.orders[7]], orderInbox := t.inbox, pub := s.pub.(outbox := t.outbox))
  {
    hide RunBatch, CoversWrites, OrderLog;
    WritesOne(s.orders, t.orders);
    assert (map orderId | orderId in step.written :: t.orders[orderId]) == map[7 := t.orders[7]];
  }

  lemma CoversOne(seen: Orders, after: Orders)
    requires 7 in after && forall id :: id in after && id != 7 ==> id in seen && seen[id] == after[id]
    ensures CoversWrites(seen, after, {7})
  {
  }

  /** A transaction over one event of order 7 that has seen these rows. */
  lemma OneEvent(s: State, offset: nat, seen: Orders, t: Tables)
    requires offset < |OrderLog(s.pub.logs, 0)| && seen.Keys <= s.orders.Keys
    requires ApplyRecord(Seen(s, OneTx(offset, seen)), RecordAt(0, OrderLog(s.pub.logs, 0), offset)) == Ok(t)
    requires 7 in t.orders && forall id :: id in t.orders && id != 7 ==> id in seen && seen[id] == t.orders[id]
    ensures Exec(s, [OneTx(offset, seen)]) ==
            s.(orders := s.orders[7 := t.orders[7]], orderInbox := t.inbox, pub := s.pub.(outbox := t.outbox))
  {
    var step := OneTx(offset, seen);
    OneRecordBatch(s, offset, seen);
    ExecOne(s, step);
    CoversOne(seen, t.orders);
    hide ApplyRecord, RunBatch, Exec, Records, CoversWrites, Do;
    Committed(s, step, t);
    hide Commits, OneTx, OrderLog;
  }

  /** What a state of the run looks like: order 7, the applied and the processed events, the two topics of shard 0, the
      rows claimed so far and the publishers that did it. */
  ghost predicate Looks(s: State, order: OrderState, applied: set<string>, processed: set<string>,
                        events: seq<Event>, requests: seq<Event>, claimed: set<string>, publishers: set<int>) {
    && s.orders.Keys == {7} && s.orders[7] == order
    && s.orderInbox.Keys == applied && s.matchInbox.Keys == processed
    && OrderLog(s.pub.logs, 0) == events && RequestLog(s.pub.logs, 0) == requests
    && s.pub.delivery.Keys == claimed && s.pub.publishers.Keys == publishers
    && s.pub.now == 1 && s.maxOrders == 1 && s.riders == map[3 := RiderRow(true, 0)]
  }

  lemma Append(steps: seq<Step>, step: Step)
    ensures Exec(START, steps + [step]) == Do(Exec(START, steps), step)
  {
    ExecConcat(START, steps, [step]);
    ExecOne(Exec(START, steps), step);
  }

  const CREATED_ORDER := OrderState(0, MatchPending, 1, 2, 0, "", "", "", 0, 0, "a", 10)

  const MISSED_ORDER := OrderState(0, Missed, 1, 2, 0, "", "", NO_RIDER, 0, 0, LATE_MISS.id, 20)

  function Row1(): map<string, Message> {
    map[REQUEST_1.id := Message(REQUEST_1, MatchRequests)]
  }

  function Row2(): map<string, Message> {
    Row1()[LATE_MISS.id := Message(LATE_MISS, OrderEvents)]
  }

  function Row3(): map<string, Message> {
    Row2()[REQUEST_2.id := Message(REQUEST_2, MatchRequests)]
  }

  /** The order is created and its request queued. */
  lemma CreatedRun() returns (steps: seq<Step>)
    ensures Looks(Exec(START, steps), CREATED_ORDER, {"a"}, {}, [CREATED], [], {}, {})
    ensures Exec(START, steps).pub.outbox == Row1()
  {
    var first := [Publish(Pub.Produce(CREATED))];
    ExecOne(START, first[0]);
    var s := Exec(START, first);
    steps := first + [OneTx(0, map[])];
    ExecConcat(START, first, [OneTx(0, map[])]);
    var t := ApplyRecord(Seen(s, OneTx(0, map[])), RecordAt(0, OrderLog(s.pub.logs, 0), 0)).value;
    OneEvent(s, 0, map[], t);
  }

  lemma AppendLooks(logs: Pub.Logs, m: Message)
    requires m.event.shardId == 0
    ensures var after := Pub.AppendMessage(logs, m);
            && OrderLog(after, 0) == OrderLog(logs, 0) + (if m.topic == OrderEvents then [m.event] else [])
            && RequestLog(after, 0) == RequestLog(logs, 0) + (if m.topic == MatchRequests then [m.event] else [])
  {
  }

  /** A row is delivered by a publisher of its own. */
  lemma DeliveredRun(steps: seq<Step>, publisher: int, m: Message, order: OrderState, applied: set<string>,
                     processed: set<string>, events: seq<Event>, requests: seq<Event>, claimed: set<string>,
                     publishers: set<int>)
    requires Looks(Exec(START, steps), order, applied, processed, events, requests, claimed, publishers)
    requires m.event.id in Exec(START, steps).pub.outbox && Exec(START, steps).pub.outbox[m.event.id] == m
    requires m.event.shardId == 0 && publisher !in publishers && m.event.id !in claimed
    ensures var more := steps + Delivering(publisher, m.event.id);
            && Exec(START, more).pub.outbox == Exec(START, steps).pub.outbox
            && Exec(START, more).orders == Exec(START, steps).orders
            && Looks(Exec(START, more), order, applied, processed,
                     events + (if m.topic == OrderEvents then [m.event] else []),
                     requests + (if m.topic == MatchRequests then [m.event] else []),
                     claimed + {m.event.id}, publishers + {publisher})
  {
    var s := Exec(START, steps);
    ExecConcat(START, steps, Delivering(publisher, m.event.id));
    Delivered(s, publisher, m.event.id);
    AppendLooks(s.pub.logs, m);
    hide Exec, Delivering, OrderLog, RequestLog, Pub.AppendMessage;
  }

  lemma FirstMiss(s: State)
    requires Looks(s, CREATED_ORDER, {"a"}, {}, [CREATED], [REQUEST_1], {REQUEST_1.id}, {1}) && s.pub.outbox == Row1()
    ensures var after := Do(s, MatchTx(0, 0, [], 20));
            && Looks(after, MISSED_ORDER, {"a"}, {REQUEST_1.id}, [CREATED], [REQUEST_1], {REQUEST_1.id}, {1})
            && after.pub.outbox == Row2()
  {
    IdsDiffer();
    hide OrderLog, RequestLog;
    assert RecordAt(0, RequestLog(s.pub.logs, 0), 0) == Record(Position(0, 0), REQUEST_1);
  }

  /** Nobody can be reserved for the first request: the order is missed. */
  lemma MissedRun() returns (steps: seq<Step>)
    ensures Looks(Exec(START, steps), MISSED_ORDER, {"a"}, {REQUEST_1.id}, [CREATED], [REQUEST_1], {REQUEST_1.id}, {1})
    ensures Exec(START, steps).pub.outbox == Row2()
  {
    var created := CreatedRun();
    IdsDiffer();
    DeliveredRun(created, 1, Message(REQUEST_1, MatchRequests), CREATED_ORDER, {"a"}, {}, [CREATED], [], {}, {});
    var requested := created + Delivering(1, REQUEST_1.id);
    var s := Exec(START, requested);
    steps := requested + [MatchTx(0, 0, [], 20)];
    Append(requested, MatchTx(0, 0, [], 20));
    hide Exec, Delivering;
    FirstMiss(s);
  }

  /** What the retry's transaction makes of the rows. */
  lemma RetryApplied(s: State) returns (t: Tables)
    requires Looks(s, MISSED_ORDER, {"a"}, {REQUEST_1.id}, [CREATED, RETRIED], [REQUEST_1], {REQUEST_1.id}, {1})
    requires s.pub.outbox == Row2()
    ensures ApplyRecord(Seen(s, OneTx(1, s.orders)), RecordAt(0, OrderLog(s.pub.logs, 0), 1)) == Ok(t)
    ensures t.orders.Keys == {7} && t.orders[7] == PENDING && t.inbox.Keys == {"a", "b"} && t.outbox == Row3()
  {
    IdsDiffer();
    hide OrderLog, RequestLog;
    assert RecordAt(0, OrderLog(s.pub.logs, 0), 1) == Record(Position(0, 1), RETRIED);
    t := ApplyRecord(Seen(s, OneTx(1, s.orders)), Record(Position(0, 1), RETRIED)).value;
  }

  /** A retry queues a second request, and the order is pending again. */
  lemma RetriedRun() returns (steps: seq<Step>)
    ensures Looks(Exec(START, steps), PENDING, {"a", "b"}, {REQUEST_1.id}, [CREATED, RETRIED], [REQUEST_1],
                  {REQUEST_1.id}, {1})
    ensures Exec(START, steps).pub.outbox == Row3()
  {
    var missed := MissedRun();
    var s := Exec(START, missed);
    Append(missed, Publish(Pub.Produce(RETRIED)));
    AppendLooks(s.pub.logs, Message(RETRIED, OrderEvents));
    var produced := missed + [Publish(Pub.Produce(RETRIED))];
    var now := Exec(START, produced);
    steps := produced + [OneTx(1, now.orders)];
    ExecConcat(START, produced, [OneTx(1, now.orders)]);
    hide Exec, Row2, Row3;
    var t := RetryApplied(now);
    hide ApplyRecord, Seen, RecordAt;
    OneEvent(now, 1, now.orders, t);
  }

  /** Both the first request's miss and the second request reach their topics. */
  lemma DeliveredBoth() returns (steps: seq<Step>, n: nat)
    ensures n <= |steps| && Exec(START, steps[..n]).orders == Exec(START, steps).orders
    ensures Looks(Exec(START, steps), PENDING, {"a", "b"}, {REQUEST_1.id}, [CREATED, RETRIED, LATE_MISS],
                  [REQUEST_1, REQUEST_2], {REQUEST_1.id, LATE_MISS.id, REQUEST_2.id}, {1, 2, 3})
    ensures Exec(START, steps).pub.outbox == Row3()
  {
    var retried := RetriedRun();
    IdsDiffer();
    hide Exec;
    n := |retried|;
    DeliveredRun(retried, 2, Message(LATE_MISS, OrderEvents), PENDING, {"a", "b"}, {REQUEST_1.id}, [CREATED, RETRIED],
                 [REQUEST_1], {REQUEST_1.id}, {1});
    var returned := retried + Delivering(2, LATE_MISS.id);
    DeliveredRun(returned, 3, Message(REQUEST_2, MatchRequests), PENDING, {"a", "b"}, {REQUEST_1.id},
                 [CREATED, RETRIED, LATE_MISS], [REQUEST_1], {REQUEST_1.id, LATE_MISS.id}, {1, 2});
    steps := returned + Delivering(3, REQUEST_2.id);
    assert steps[..n] == retried;
  }

  lemma SecondMatch(s: State)
    requires Looks(s, PENDING, {"a", "b"}, {REQUEST_1.id}, [CREATED, RETRIED, LATE_MISS], [REQUEST_1, REQUEST_2],
                   {REQUEST_1.id, LATE_MISS.id, REQUEST_2.id}, {1, 2, 3})
    ensures var after := Do(s, MatchTx(0, 1, [Candidate(3, 5)], 21));
            && MatchedTo(after.orders, 7, 3, 5) && after.orders.Keys == {7}
            && after.orderInbox == s.orderInbox && after.pub.logs == s.pub.logs
  {
    IdsDiffer();
    var step := MatchTx(0, 1, [Candidate(3, 5)], 21);
    hide OrderLog, RequestLog;
    assert RecordAt(0, RequestLog(s.pub.logs, 0), 1) == Record(Position(0, 1), REQUEST_2);
    assert Choose(s.riders, [Candidate(3, 5)], s.maxOrders) == Some(Candidate(3, 5));
  }

  lemma LateMissRow(s: State, seen: Orders)
    requires seen.Keys == {7} && seen[7] == PENDING && s.orderInbox.Keys == {"a", "b"}
    requires OrderLog(s.pub.logs, 0) == [CREATED, RETRIED, LATE_MISS]
    ensures var r := ApplyRecord(Seen(s, OneTx(2, seen)), RecordAt(0, OrderLog(s.pub.logs, 0), 2));
            && r.Ok? && r.value.orders.Keys == {7} && r.value.orders[7].status == Missed
  {
    IdsDiffer();
    hide OrderLog;
    assert RecordAt(0, OrderLog(s.pub.logs, 0), 2) == Record(Position(0, 2), LATE_MISS);
  }

  lemma LateMissApplied(s: State, seen: Orders)
    requires s.orders.Keys == {7} && seen.Keys == {7} && seen[7] == PENDING && s.orderInbox.Keys == {"a", "b"}
    requires OrderLog(s.pub.logs, 0) == [CREATED, RETRIED, LATE_MISS]
    ensures Commits(s, OneTx(2, seen)) && Do(s, OneTx(2, seen)).orders[7].status == Missed
  {
    LateMissRow(s, seen);
    OneRecordBatch(s, 2, seen);
    hide ApplyRecord, Seen, RecordAt, OrderLog, Records, RunBatch;
    var t := RunBatch(s, OneTx(2, seen)).value;
    CoversOne(seen, t.orders);
    hide CoversWrites, Do;
    Committed(s, OneTx(2, seen), t);
  }

  /** A match is lost to an event that neither cancels, creates, retries nor matches the order. The first request
      misses, a retry queues a second one, and the miss of the first is then applied by a transaction that has read the
      order while it was pending; before it writes, the matcher commits the second request's match. */
  lemma LateMissEndsMatch() returns (steps: seq<Step>, n: nat, late: Step)
    ensures n <= |steps| && late.OrderTx? && late.seen == Exec(START, steps[..n]).orders
    ensures var s := Exec(START, steps);
            && MatchedTo(s.orders, 7, 3, 5)
            && Commits(s, late) && late.hi == late.lo + 1
            && OrderLog(s.pub.logs, late.shardId)[late.lo].body.OrderMissed?
            && 7 in Do(s, late).orders && Do(s, late).orders[7].status == Missed
  {
    var pending, m := DeliveredBoth();
    var step := MatchTx(0, 1, [Candidate(3, 5)], 21);
    var seen := Exec(START, pending).orders;
    Append(pending, step);
    hide Exec;
    SecondMatch(Exec(START, pending));
    steps, n, late := pending + [step], m, OneTx(2, seen);
    assert steps[..m] == pending[..m];
    hide Do;
    LateMissApplied(Exec(START, steps), seen);
  }
}
