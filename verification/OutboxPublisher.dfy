/** Leased at-least-once publishing: any number of publishers claim outbox rows, append their events to
    the topics, and mark the rows, with crashes, failed appends and expiring leases in between. */
module OutboxPublisher {
  import opened Model
  import opened OrderApplier

  /** The columns of an outbox row that publishing changes. */
  datatype Delivery = Delivery(publishedAt: Option<int>, claimedBy: string, claimedUntil: int)

  const UNCLAIMED := Delivery(None, "", 0)

  datatype Partition = Partition(topic: Topic, shardId: int)

  type Logs = map<Partition, seq<Event>>

  /** `held`: claimed and not yet handled. `appended`, `failed`: one topic's group after its append. */
  datatype Stage =
    | Idle
    | Holding(held: set<string>)
    | Appended(group: set<string>, held: set<string>)
    | Failed(group: set<string>, held: set<string>)

  datatype Publisher = Publisher(workerId: string, stage: Stage)

  datatype State = State(
    outbox: map<string, Message>, delivery: map<string, Delivery>, logs: Logs,
    now: int, lease: nat, publishers: map<int, Publisher>)

  datatype Step =
    | Tick(elapsed: nat)
    | Insert(message: Message)
    | Produce(event: Event)
    | Spawn(publisher: int, workerId: string)
    | Claim(publisher: int, ids: set<string>)
    | Append(publisher: int, order: seq<string>)
    | FailAppend(publisher: int, order: seq<string>, written: seq<string>)
    | MarkPublished(publisher: int)
    | MarkFailed(publisher: int, id: string)
    | Finish(publisher: int)
    | Crash(publisher: int)

  function Init(now: nat, lease: nat): State {
    State(map[], map[], map[], now, lease, map[])
  }

  function LogOf(logs: Logs, p: Partition): seq<Event> {
    if p in logs then logs[p] else []
  }

  function DeliveryOf(s: State, id: string): Delivery {
    if id in s.delivery then s.delivery[id] else UNCLAIMED
  }

  predicate InLog(logs: Logs, m: Message) {
    m.event in LogOf(logs, Partition(m.topic, m.event.shardId))
  }

  predicate Claimable(s: State, id: string) {
    id in s.outbox && DeliveryOf(s, id).publishedAt.None? && DeliveryOf(s, id).claimedUntil < s.now
  }

  function AppendMessage(logs: Logs, m: Message): Logs {
    var p := Partition(m.topic, m.event.shardId);
    logs[p := LogOf(logs, p) + [m.event]]
  }

  /** Appends the rows named by `order`, one after the other; a row may be named more than once. */
  function AppendRows(logs: Logs, outbox: map<string, Message>, order: seq<string>): Logs
    requires forall id :: id in order ==> id in outbox
  {
    if |order| == 0 then logs
    else AppendMessage(AppendRows(logs, outbox, order[..|order| - 1]), outbox[order[|order| - 1]])
  }

  predicate OneTopic(outbox: map<string, Message>, order: seq<string>) {
    && (forall id :: id in order ==> id in outbox)
    && (forall i, j :: 0 <= i < j < |order| ==> outbox[order[i]].topic == outbox[order[j]].topic)
  }

  function AsSet(order: seq<string>): set<string> {
    set id | id in order
  }

  /** The rows of `group` the update statement touches: those `workerId` still holds the claim of. */
  function StillClaimed(s: State, group: set<string>, workerId: string): set<string> {
    set id | id in group && id in s.outbox && DeliveryOf(s, id).claimedBy == workerId
  }

  function Put(s: State, publisher: int, stage: Stage): map<int, Publisher>
    requires publisher in s.publishers
  {
    s.publishers[publisher := s.publishers[publisher].(stage := stage)]
  }

  /** The claim statement takes some of the claimable rows, which ones depending on order and locks. */
  function DoClaim(s: State, publisher: int, ids: set<string>): State
    requires publisher in s.publishers
  {
    if s.publishers[publisher].stage != Idle || !(forall id :: id in ids ==> Claimable(s, id)) then s
    else
      var row := Delivery(None, s.publishers[publisher].workerId, s.now + s.lease);
      s.(delivery := s.delivery + map id | id in ids :: row, publishers := Put(s, publisher, Holding(ids)))
  }

  function DoAppend(s: State, publisher: int, order: seq<string>): State
    requires publisher in s.publishers
  {
    var stage := s.publishers[publisher].stage;
    if !stage.Holding? || !(AsSet(order) <= stage.held) || !OneTopic(s.outbox, order) then s
    else s.(logs := AppendRows(s.logs, s.outbox, order),
            publishers := Put(s, publisher, Appended(AsSet(order), stage.held - AsSet(order))))
  }

  /** An append that reports an error (or a topic without a target) may still have written anything. */
  function DoFailAppend(s: State, publisher: int, order: seq<string>, written: seq<string>): State
    requires publisher in s.publishers
  {
    var stage := s.publishers[publisher].stage;
    if !stage.Holding? || !(AsSet(order) <= stage.held) || !OneTopic(s.outbox, order)
       || !(forall id :: id in written ==> id in order) then s
    else s.(logs := AppendRows(s.logs, s.outbox, written),
            publishers := Put(s, publisher, Failed(AsSet(order), stage.held - AsSet(order))))
  }

  /** One update statement; when it touched fewer rows than were appended the publisher gives up. */
  function DoMarkPublished(s: State, publisher: int): State
    requires publisher in s.publishers
  {
    var p := s.publishers[publisher];
    if !p.stage.Appended? then s
    else
      var touched := StillClaimed(s, p.stage.group, p.workerId);
      var row := Delivery(Some(s.now), "", 0);
      s.(delivery := s.delivery + map id | id in touched :: row,
         publishers := if |touched| == |p.stage.group| then Put(s, publisher, Holding(p.stage.held))
         else s.publishers - {publisher})
  }

  function DoMarkFailed(s: State, publisher: int, id: string): State
    requires publisher in s.publishers
  {
    var p := s.publishers[publisher];
    if !p.stage.Failed? then s
    else
      var rest := p.stage.group - {id};
      var next := if rest == {} then Holding(p.stage.held) else Failed(rest, p.stage.held);
      var moved := s.(publishers := Put(s, publisher, next));
      if id in p.stage.group && id in s.outbox && DeliveryOf(s, id).claimedBy == p.workerId
      then moved.(delivery := s.delivery[id := DeliveryOf(s, id).(claimedBy := "", claimedUntil := 0)])
      else moved
  }

  function Do(s: State, step: Step): State {
    match step
    case Tick(elapsed) => s.(now := s.now + elapsed)
    case Insert(message) => s.(outbox := InsertMessage(s.outbox, message))
    case Produce(event) => s.(logs := AppendMessage(s.logs, Message(event, OrderEvents)))
    case Spawn(publisher, workerId) =>
      if publisher in s.publishers || workerId == "" then s
      else s.(publishers := s.publishers[publisher := Publisher(workerId, Idle)])
    case Crash(publisher) => s.(publishers := s.publishers - {publisher})
    case Claim(publisher, ids) =>
      if publisher in s.publishers then DoClaim(s, publisher, ids) else s
    case Append(publisher, order) =>
      if publisher in s.publishers then DoAppend(s, publisher, order) else s
    case FailAppend(publisher, order, written) =>
      if publisher in s.publishers then DoFailAppend(s, publisher, order, written) else s
    case MarkPublished(publisher) =>
      if publisher in s.publishers then DoMarkPublished(s, publisher) else s
    case MarkFailed(publisher, id) =>
      if publisher in s.publishers then DoMarkFailed(s, publisher, id) else s
    case Finish(publisher) =>
      if publisher in s.publishers && s.publishers[publisher].stage == Holding({})
      then s.(publishers := Put(s, publisher, Idle)) else s
  }

  function Exec(s: State, steps: seq<Step>): State {
    if |steps| == 0 then s else Do(Exec(s, steps[..|steps| - 1]), steps[|steps| - 1])
  }

  // ---------------------------------------------------------------------------------------------
  // The invariant
  // ---------------------------------------------------------------------------------------------

  /** A published row is unclaimed and its event is in its topic; a claim ends within one lease. */
  predicate RowOk(s: State, id: string) {
    var d := DeliveryOf(s, id);
    && d.claimedUntil <= s.now + s.lease
    && (d.publishedAt.Some? ==> d.claimedBy == "" && id in s.outbox && InLog(s.logs, s.outbox[id]))
  }

  predicate PublisherOk(s: State, p: Publisher) {
    && p.workerId != ""
    && (p.stage.Holding? ==> p.stage.held <= s.outbox.Keys)
    && (p.stage.Failed? ==> p.stage.held <= s.outbox.Keys && p.stage.group <= s.outbox.Keys)
    && (p.stage.Appended? ==>
          && p.stage.held <= s.outbox.Keys && p.stage.group <= s.outbox.Keys
          && forall id :: id in p.stage.group ==> InLog(s.logs, s.outbox[id]))
  }

  predicate FromOutbox(outbox: map<string, Message>, e: Event, shardId: int) {
    e.shardId == shardId && e.id in outbox && outbox[e.id] == Message(e, MatchRequests)
  }

  /** Only publishers write to the match-request topic, so everything in it is an outbox row. */
  ghost predicate RequestsComeFromOutbox(s: State) {
    forall shardId, i :: 0 <= i < |LogOf(s.logs, Partition(MatchRequests, shardId))| ==>
                           FromOutbox(s.outbox, LogOf(s.logs, Partition(MatchRequests, shardId))[i], shardId)
  }

  ghost predicate Inv(s: State) {
    && 0 <= s.now
    && (forall id :: id in s.outbox ==> s.outbox[id].event.id == id)
    && (forall id :: RowOk(s, id))
    && (forall p :: p in s.publishers ==> PublisherOk(s, s.publishers[p]))
    && RequestsComeFromOutbox(s)
  }

  /** What an append may do to the logs: existing entries stay, and match-request entries are rows. */
  ghost predicate LogsGrow(s: State, after: State) {
    && s.outbox.Keys <= after.outbox.Keys
    && (forall id :: id in s.outbox ==> after.outbox[id] == s.outbox[id])
    && (forall m :: InLog(s.logs, m) ==> InLog(after.logs, m))
  }

  lemma AppendMessageGrows(logs: Logs, m: Message)
    ensures InLog(AppendMessage(logs, m), m)
    ensures forall other :: InLog(logs, other) ==> InLog(AppendMessage(logs, m), other)
  {
  }

  lemma {:induction false} AppendRowsGrows(logs: Logs, outbox: map<string, Message>, order: seq<string>)
    requires forall id :: id in order ==> id in outbox
    ensures forall other :: InLog(logs, other) ==> InLog(AppendRows(logs, outbox, order), other)
    ensures forall id :: id in order ==> InLog(AppendRows(logs, outbox, order), outbox[id])
  {
    if |order| > 0 {
      var front := order[..|order| - 1];
      AppendRowsGrows(logs, outbox, front);
      AppendMessageGrows(AppendRows(logs, outbox, front), outbox[order[|order| - 1]]);
      forall id | id in order ensures InLog(AppendRows(logs, outbox, order), outbox[id]) {
        assert id in front || id == order[|order| - 1];
      }
    }
  }

  lemma {:induction false} AppendRowsKeepsRequests(s: State, order: seq<string>)
    requires RequestsComeFromOutbox(s) && forall id :: id in s.outbox ==> s.outbox[id].event.id == id
    requires forall id :: id in order ==> id in s.outbox
    ensures RequestsComeFromOutbox(s.(logs := AppendRows(s.logs, s.outbox, order)))
    decreases |order|
  {
    if |order| > 0 {
      var front := order[..|order| - 1];
      AppendRowsKeepsRequests(s, front);
      var mid := s.(logs := AppendRows(s.logs, s.outbox, front));
      var after := s.(logs := AppendRows(s.logs, s.outbox, order));
      var m := s.outbox[order[|order| - 1]];
      forall shardId, i | 0 <= i < |LogOf(after.logs, Partition(MatchRequests, shardId))|
        ensures FromOutbox(s.outbox, LogOf(after.logs, Partition(MatchRequests, shardId))[i], shardId)
      {
        if i < |LogOf(mid.logs, Partition(MatchRequests, shardId))| {
          assert FromOutbox(mid.outbox, LogOf(mid.logs, Partition(MatchRequests, shardId))[i], shardId);
        }
      }
    }
  }

  /** A step that lets the logs grow, keeps the rows and leaves publishers well formed keeps `Inv`. */
  lemma GrowthKeepsInv(s: State, after: State)
    requires Inv(s) && LogsGrow(s, after) && s.now <= after.now && s.lease == after.lease
    requires forall id :: id in after.outbox ==> after.outbox[id].event.id == id
    requires forall id :: DeliveryOf(after, id) == DeliveryOf(s, id)
    requires forall p :: p in after.publishers ==>
                           (p in s.publishers && s.publishers[p] == after.publishers[p])
                           || PublisherOk(after, after.publishers[p])
    requires RequestsComeFromOutbox(after)
    ensures Inv(after)
  {
    forall id ensures RowOk(after, id) {
      assert RowOk(s, id);
    }
    forall p | p in after.publishers ensures PublisherOk(after, after.publishers[p]) {
      if p in s.publishers && s.publishers[p] == after.publishers[p] { assert PublisherOk(s, s.publishers[p]); }
    }
  }

  lemma InsertKeepsInv(s: State, message: Message)
    requires Inv(s)
    ensures Inv(Do(s, Insert(message)))
  {
    var after := Do(s, Insert(message));
    forall shardId, i | 0 <= i < |LogOf(after.logs, Partition(MatchRequests, shardId))|
      ensures FromOutbox(after.outbox, LogOf(after.logs, Partition(MatchRequests, shardId))[i], shardId)
    {
      assert FromOutbox(s.outbox, LogOf(s.logs, Partition(MatchRequests, shardId))[i], shardId);
    }
    GrowthKeepsInv(s, after);
  }

  lemma ProduceKeepsInv(s: State, event: Event)
    requires Inv(s)
    ensures Inv(Do(s, Produce(event)))
  {
    var after := Do(s, Produce(event));
    AppendMessageGrows(s.logs, Message(event, OrderEvents));
    forall shardId
      ensures LogOf(after.logs, Partition(MatchRequests, shardId)) == LogOf(s.logs, Partition(MatchRequests, shardId))
    {
    }
    GrowthKeepsInv(s, after);
  }

  lemma AppendKeepsInv(s: State, publisher: int, order: seq<string>)
    requires Inv(s) && publisher in s.publishers
    ensures Inv(DoAppend(s, publisher, order))
  {
    var after := DoAppend(s, publisher, order);
    if after != s {
      assert PublisherOk(s, s.publishers[publisher]);
      AppendRowsGrows(s.logs, s.outbox, order);
      AppendRowsKeepsRequests(s, order);
      assert PublisherOk(after, after.publishers[publisher]);
      GrowthKeepsInv(s, after);
    }
  }

  lemma FailAppendKeepsInv(s: State, publisher: int, order: seq<string>, written: seq<string>)
    requires Inv(s) && publisher in s.publishers
    ensures Inv(DoFailAppend(s, publisher, order, written))
  {
    var after := DoFailAppend(s, publisher, order, written);
    if after != s {
      assert PublisherOk(s, s.publishers[publisher]);
      AppendRowsGrows(s.logs, s.outbox, written);
      AppendRowsKeepsRequests(s, written);
      assert PublisherOk(after, after.publishers[publisher]);
      GrowthKeepsInv(s, after);
    }
  }

  /** A step that changes delivery columns and one publisher, and neither rows nor logs. */
  lemma DeliveryKeepsInv(s: State, after: State)
    requires Inv(s)
    requires after == s.(delivery := after.delivery, publishers := after.publishers)
    requires forall id :: DeliveryOf(after, id) == DeliveryOf(s, id) || RowOk(after, id)
    requires forall p :: p in after.publishers ==>
                           (p in s.publishers && s.publishers[p] == after.publishers[p])
                           || PublisherOk(after, after.publishers[p])
    ensures Inv(after)
  {
    forall id ensures RowOk(after, id) {
      assert RowOk(s, id);
    }
    forall p | p in after.publishers ensures PublisherOk(after, after.publishers[p]) {
      if p in s.publishers && s.publishers[p] == after.publishers[p] { assert PublisherOk(s, s.publishers[p]); }
    }
  }

  lemma ClaimKeepsInv(s: State, publisher: int, ids: set<string>)
    requires Inv(s) && publisher in s.publishers
    ensures Inv(DoClaim(s, publisher, ids))
  {
    var after := DoClaim(s, publisher, ids);
    if after != s {
      assert PublisherOk(s, s.publishers[publisher]);
      forall id | id in ids ensures id in s.outbox { assert Claimable(s, id); }
      assert PublisherOk(after, after.publishers[publisher]);
      DeliveryKeepsInv(s, after);
    }
  }

  lemma MarkPublishedKeepsInv(s: State, publisher: int)
    requires Inv(s) && publisher in s.publishers
    ensures Inv(DoMarkPublished(s, publisher))
  {
    var after := DoMarkPublished(s, publisher);
    var p := s.publishers[publisher];
    if p.stage.Appended? {
      assert PublisherOk(s, p);
      var touched := StillClaimed(s, p.stage.group, p.workerId);
      forall id ensures DeliveryOf(after, id) == DeliveryOf(s, id) || RowOk(after, id) {
        if id in touched { assert RowOk(after, id); }
      }
      DeliveryKeepsInv(s, after);
    }
  }

  lemma MarkFailedKeepsInv(s: State, publisher: int, id: string)
    requires Inv(s) && publisher in s.publishers
    ensures Inv(DoMarkFailed(s, publisher, id))
  {
    var after := DoMarkFailed(s, publisher, id);
    var p := s.publishers[publisher];
    if p.stage.Failed? {
      assert PublisherOk(s, p) && RowOk(s, id);
      assert PublisherOk(after, after.publishers[publisher]);
      DeliveryKeepsInv(s, after);
    }
  }

  lemma InvStep(s: State, step: Step)
    requires Inv(s)
    ensures Inv(Do(s, step))
  {
    match step
    case Tick(_) => GrowthKeepsInv(s, Do(s, step));
    case Insert(message) => InsertKeepsInv(s, message);
    case Produce(event) => ProduceKeepsInv(s, event);
    case Spawn(_, _) => DeliveryKeepsInv(s, Do(s, step));
    case Crash(_) => DeliveryKeepsInv(s, Do(s, step));
    case Claim(publisher, ids) => if publisher in s.publishers { ClaimKeepsInv(s, publisher, ids); }
    case Append(publisher, order) => if publisher in s.publishers { AppendKeepsInv(s, publisher, order); }
    case FailAppend(publisher, order, written) =>
      if publisher in s.publishers { FailAppendKeepsInv(s, publisher, order, written); }
    case MarkPublished(publisher) => if publisher in s.publishers { MarkPublishedKeepsInv(s, publisher); }
    case MarkFailed(publisher, id) => if publisher in s.publishers { MarkFailedKeepsInv(s, publisher, id); }
    case Finish(publisher) =>
      if publisher in s.publishers && s.publishers[publisher].stage == Holding({}) {
        assert PublisherOk(s, s.publishers[publisher]);
        DeliveryKeepsInv(s, Do(s, step));
      }
  }

  lemma {:induction false} InvRun(now: nat, lease: nat, steps: seq<Step>)
    ensures Inv(Exec(Init(now, lease), steps))
  {
    if |steps| > 0 {
      InvRun(now, lease, steps[..|steps| - 1]);
      InvStep(Exec(Init(now, lease), steps[..|steps| - 1]), steps[|steps| - 1]);
    }
  }

  lemma {:induction false} AppendRowsExtends(logs: Logs, outbox: map<string, Message>, order: seq<string>, p: Partition)
    requires forall id :: id in order ==> id in outbox
    ensures LogOf(logs, p) <= LogOf(AppendRows(logs, outbox, order), p)
  {
    if |order| > 0 {
      AppendRowsExtends(logs, outbox, order[..|order| - 1], p);
    }
  }

  lemma AppendExtendsLogs(s: State, publisher: int, order: seq<string>, p: Partition)
    requires publisher in s.publishers
    ensures LogOf(s.logs, p) <= LogOf(DoAppend(s, publisher, order).logs, p)
  {
    if OneTopic(s.outbox, order) { AppendRowsExtends(s.logs, s.outbox, order, p); }
    hide AppendRows, LogOf;
  }

  lemma FailAppendExtendsLogs(s: State, publisher: int, order: seq<string>, written: seq<string>, p: Partition)
    requires publisher in s.publishers
    ensures LogOf(s.logs, p) <= LogOf(DoFailAppend(s, publisher, order, written).logs, p)
  {
    if OneTopic(s.outbox, order) && forall id :: id in written ==> id in order {
      AppendRowsExtends(s.logs, s.outbox, written, p);
    }
    hide AppendRows, LogOf;
  }

  /** Topics are append-only, and only an insert changes the rows. */
  lemma StepExtendsLogs(s: State, step: Step, p: Partition)
    ensures LogOf(s.logs, p) <= LogOf(Do(s, step).logs, p)
    ensures !step.Insert? ==> Do(s, step).outbox == s.outbox
  {
    match step
    case Append(publisher, order) =>
      if publisher in s.publishers { AppendExtendsLogs(s, publisher, order, p); }
      hide AppendRows, LogOf, OneTopic;
    case FailAppend(publisher, order, written) =>
      if publisher in s.publishers { FailAppendExtendsLogs(s, publisher, order, written, p); }
      hide AppendRows, LogOf, OneTopic;
    case Produce(event) =>
    case _ =>
      hide LogOf;
  }

  // ---------------------------------------------------------------------------------------------
  // Theorems over every run
  // ---------------------------------------------------------------------------------------------

  predicate IsPublished(s: State, id: string) {
    DeliveryOf(s, id).publishedAt.Some?
  }

  /** A row marked published has its event in its topic's partition. */
  lemma PublishedIsInTopic(now: nat, lease: nat, steps: seq<Step>, id: string)
    requires IsPublished(Exec(Init(now, lease), steps), id)
    ensures var s := Exec(Init(now, lease), steps);
            && id in s.outbox
            && s.outbox[id].event in LogOf(s.logs, Partition(s.outbox[id].topic, s.outbox[id].event.shardId))
  {
    InvRun(now, lease, steps);
    assert RowOk(Exec(Init(now, lease), steps), id);
  }

  /** No step changes a published row again: it is not re-claimed, not reset, and its time not rewritten. */
  lemma PublishedIsFinal(s: State, step: Step, id: string)
    requires Inv(s) && IsPublished(s, id)
    ensures DeliveryOf(Do(s, step), id) == DeliveryOf(s, id)
  {
    assert RowOk(s, id);
    match step
    case Claim(publisher, ids) =>
      if id in ids { assert !Claimable(s, id); }
    case MarkPublished(publisher) =>
      if publisher in s.publishers { assert PublisherOk(s, s.publishers[publisher]); }
    case MarkFailed(publisher, other) =>
      if publisher in s.publishers { assert PublisherOk(s, s.publishers[publisher]); }
    case _ =>
  }

  /** From its first publication on, a row reads the same at every later moment of every run. */
  lemma {:induction false} PublishedOnce(now: nat, lease: nat, steps: seq<Step>, n: nat, id: string)
    requires n <= |steps| && IsPublished(Exec(Init(now, lease), steps[..n]), id)
    ensures DeliveryOf(Exec(Init(now, lease), steps), id) == DeliveryOf(Exec(Init(now, lease), steps[..n]), id)
    decreases |steps|
  {
    if n == |steps| {
      assert steps[..n] == steps;
    } else {
      var front := steps[..|steps| - 1];
      assert front[..n] == steps[..n];
      PublishedOnce(now, lease, front, n, id);
      InvRun(now, lease, front);
      PublishedIsFinal(Exec(Init(now, lease), front), steps[|steps| - 1], id);
    }
  }

  /** While a claim on an unpublished row runs, no step hands the row to anybody else: it stays as it is until a
      publisher under the claim's own worker id publishes it or gives it back. */
  lemma RunningClaimIsRespected(s: State, step: Step, id: string)
    requires DeliveryOf(s, id).publishedAt.None? && DeliveryOf(s, id).claimedUntil >= s.now
    ensures var before, after := DeliveryOf(s, id), DeliveryOf(Do(s, step), id);
            after == before
            || ((step.MarkPublished? || step.MarkFailed?)
                && step.publisher in s.publishers && s.publishers[step.publisher].workerId == before.claimedBy
                && after == if step.MarkPublished? then Delivery(Some(s.now), "", 0) else Delivery(None, "", 0))
  {
    match step
    case Claim(publisher, ids) =>
      if id in ids { assert !Claimable(s, id); }
    case _ =>
  }

  lemma ClaimsOneRow(s: State, publisher: int, id: string)
    requires publisher in s.publishers && s.publishers[publisher].stage == Idle && Claimable(s, id)
    ensures Do(s, Claim(publisher, {id})) ==
            s.(delivery := s.delivery[id := Delivery(None, s.publishers[publisher].workerId, s.now + s.lease)],
               publishers := Put(s, publisher, Holding({id})))
  {
  }

  lemma MarksOneRow(s: State, publisher: int, id: string)
    requires publisher in s.publishers && s.publishers[publisher].stage == Appended({id}, {}) && id in s.outbox
    requires DeliveryOf(s, id).claimedBy == s.publishers[publisher].workerId
    ensures Do(s, MarkPublished(publisher)) ==
            s.(delivery := s.delivery[id := Delivery(Some(s.now), "", 0)], publishers := Put(s, publisher, Holding({})))
  {
    assert StillClaimed(s, {id}, s.publishers[publisher].workerId) == {id};
  }

  lemma AppendsOneRow(s: State, publisher: int, id: string)
    requires publisher in s.publishers && s.publishers[publisher].stage == Holding({id}) && id in s.outbox
    ensures Do(s, Append(publisher, [id])) ==
            s.(logs := AppendMessage(s.logs, s.outbox[id]), publishers := Put(s, publisher, Appended({id}, {})))
    ensures var p := Partition(s.outbox[id].topic, s.outbox[id].event.shardId);
            var logs := AppendMessage(s.logs, s.outbox[id]);
            && LogOf(logs, p) == LogOf(s.logs, p) + [s.outbox[id].event]
            && forall q :: q != p ==> LogOf(logs, q) == LogOf(s.logs, q)
  {
    assert AsSet([id]) == {id} && [id][..0] == [];
    assert {id} - {id} == {};
    assert OneTopic(s.outbox, [id]);
    assert AppendRows(s.logs, s.outbox, []) == s.logs;
    assert AppendRows(s.logs, s.outbox, [id]) == AppendMessage(s.logs, s.outbox[id]);
  }

  lemma FailsOneRow(s: State, publisher: int, id: string)
    requires publisher in s.publishers && s.publishers[publisher].stage == Holding({id}) && id in s.outbox
    ensures Do(s, FailAppend(publisher, [id], [])) == s.(publishers := Put(s, publisher, Failed({id}, {})))
  {
    assert AsSet([id]) == {id} && {id} - {id} == {};
    assert OneTopic(s.outbox, [id]) && AppendRows(s.logs, s.outbox, []) == s.logs;
  }

  lemma ReleasesOneRow(s: State, publisher: int, id: string)
    requires publisher in s.publishers && s.publishers[publisher].stage == Failed({id}, {}) && id in s.outbox
    requires DeliveryOf(s, id).claimedBy == s.publishers[publisher].workerId && DeliveryOf(s, id).publishedAt.None?
    ensures Do(s, MarkFailed(publisher, id)) ==
            s.(delivery := s.delivery[id := Delivery(None, "", 0)], publishers := Put(s, publisher, Holding({})))
  {
    assert {id} - {id} == {};
  }

  lemma FinishesRound(s: State, publisher: int)
    requires publisher in s.publishers && s.publishers[publisher].stage == Holding({})
    ensures Do(s, Finish(publisher)) == s.(publishers := Put(s, publisher, Idle))
  {
  }

  /** An idle publisher that claims a row, appends it and marks it gets it published: in every state in which the row is
      unpublished and no claim on it runs, its event is the next in its topic's partition, no other row has changed, and
      the publisher is idle again. */
  lemma ClaimableRowGetsPublished(s: State, publisher: int, id: string)
    requires publisher in s.publishers && s.publishers[publisher].stage == Idle
    requires id in s.outbox && DeliveryOf(s, id).publishedAt.None? && DeliveryOf(s, id).claimedUntil < s.now
    ensures var appended := Do(Do(s, Claim(publisher, {id})), Append(publisher, [id]));
            var after := Do(Do(appended, MarkPublished(publisher)), Finish(publisher));
            var p := Partition(s.outbox[id].topic, s.outbox[id].event.shardId);
            && DeliveryOf(after, id) == Delivery(Some(s.now), "", 0)
            && LogOf(after.logs, p) == LogOf(s.logs, p) + [s.outbox[id].event]
            && (forall other :: other != id ==> DeliveryOf(after, other) == DeliveryOf(s, other))
            && (forall q :: q != p ==> LogOf(after.logs, q) == LogOf(s.logs, q))
            && publisher in after.publishers && after.publishers[publisher].stage == Idle
  {
    ClaimsOneRow(s, publisher, id);
    var claimed := Do(s, Claim(publisher, {id}));
    hide Do, AppendMessage;
    AppendsOneRow(claimed, publisher, id);
    var appended := Do(claimed, Append(publisher, [id]));
    MarksOneRow(appended, publisher, id);
    FinishesRound(Do(appended, MarkPublished(publisher)), publisher);
  }

  /** One whose append fails is given back: nobody holds it any more, and whoever comes next can claim it. */
  lemma FailedRowIsReleased(s: State, publisher: int, id: string)
    requires publisher in s.publishers && s.publishers[publisher].stage == Idle
    requires id in s.outbox && DeliveryOf(s, id).publishedAt.None? && DeliveryOf(s, id).claimedUntil < s.now
    ensures var failed := Do(Do(s, Claim(publisher, {id})), FailAppend(publisher, [id], []));
            var after := Do(Do(failed, MarkFailed(publisher, id)), Finish(publisher));
            && DeliveryOf(after, id) == Delivery(None, "", 0) && after.logs == s.logs
            && (forall other :: other != id ==> DeliveryOf(after, other) == DeliveryOf(s, other))
            && publisher in after.publishers && after.publishers[publisher].stage == Idle
  {
    ClaimsOneRow(s, publisher, id);
    var claimed := Do(s, Claim(publisher, {id}));
    hide Do;
    FailsOneRow(claimed, publisher, id);
    var failed := Do(claimed, FailAppend(publisher, [id], []));
    ReleasesOneRow(failed, publisher, id);
    FinishesRound(Do(failed, MarkFailed(publisher, id)), publisher);
  }

  /** No claim from step `n` on takes the row. */
  predicate Unclaimed(steps: seq<Step>, n: nat, id: string) {
    forall i :: n <= i < |steps| ==> !(steps[i].Claim? && id in steps[i].ids)
  }

  lemma ClaimIsNotExtended(s: State, step: Step, id: string)
    requires Inv(s) && !(step.Claim? && id in step.ids)
    ensures DeliveryOf(Do(s, step), id).claimedUntil == DeliveryOf(s, id).claimedUntil
            || DeliveryOf(Do(s, step), id).claimedUntil == 0
  {
  }

  lemma {:induction false} LeaseStays(now: nat, lease: nat, steps: seq<Step>)
    ensures Exec(Init(now, lease), steps).lease == lease
  {
    if |steps| > 0 {
      LeaseStays(now, lease, steps[..|steps| - 1]);
    }
  }

  lemma {:induction false} ClaimRunsOut(now: nat, lease: nat, steps: seq<Step>, n: nat, id: string)
    requires n <= |steps| && Unclaimed(steps, n, id)
    ensures DeliveryOf(Exec(Init(now, lease), steps), id).claimedUntil <= Exec(Init(now, lease), steps[..n]).now + lease
    decreases |steps|
  {
    if n == |steps| {
      assert steps[..n] == steps;
      InvRun(now, lease, steps);
      LeaseStays(now, lease, steps);
      assert RowOk(Exec(Init(now, lease), steps), id);
    } else {
      var front := steps[..|steps| - 1];
      assert front[..n] == steps[..n];
      ClaimRunsOut(now, lease, front, n, id);
      InvRun(now, lease, front);
      ClaimIsNotExtended(Exec(Init(now, lease), front), steps[|steps| - 1], id);
      InvRun(now, lease, steps[..n]);
    }
  }

  /** Nothing is stuck: once one lease has passed since step `n` without a claim taking the row, an unpublished row is
      claimable, whoever claimed it before, however that publisher ended and whatever else has happened since. */
  lemma UnpublishedBecomesClaimable(now: nat, lease: nat, steps: seq<Step>, n: nat, id: string)
    requires n <= |steps| && Unclaimed(steps, n, id)
    requires Exec(Init(now, lease), steps).now > Exec(Init(now, lease), steps[..n]).now + lease
    requires id in Exec(Init(now, lease), steps).outbox && !IsPublished(Exec(Init(now, lease), steps), id)
    ensures Claimable(Exec(Init(now, lease), steps), id)
  {
    ClaimRunsOut(now, lease, steps, n, id);
  }
}
