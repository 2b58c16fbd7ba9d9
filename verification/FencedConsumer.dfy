/** The fenced order consumer on one shard, as a system of steps: assigners move the ownership, producers
    append to the log, any number of workers start, load the checkpoint, check the fence, check it again,
    commit, and crash, and the matcher rewrites order rows and adds result rows, interleaved in every way. A
    database transaction is one step, its commit. */
module FencedConsumer {
  import opened Model
  import opened OrderApplier
  import Own = OwnershipStore

  /** Where a worker is in its loop; `hi` is the end of the batch it is working on. */
  datatype Phase = Loading | Ready | CheckedOnce(hi: nat) | CheckedTwice(hi: nat)

  datatype Worker = Worker(own: Ownership, next: nat, phase: Phase)

  /** `cached` is each node's in-memory next offset, consulted when no checkpoint row exists. No step reads the last
      two: `applied` says how much of the log the tables account for, `rewritten` whether the matcher has written. */
  datatype State = State(
    shardId: int, etcd: Own.State, log: seq<Event>, tables: Tables, checkpoint: Option<Checkpoint>,
    workers: map<int, Worker>, cached: map<int, nat>, applied: nat, rewritten: bool)

  datatype Step =
    | Assigner(step: Own.Step)
    | Produce(event: Event)
    | Start(worker: int, nodeId: int)
    | Load(worker: int)
    | FirstCheck(worker: int, count: nat)
    | SecondCheck(worker: int)
    | CommitBatch(worker: int)
    | Crash(worker: int)
    | Restart(nodeId: int)
    | Rewrite(orders: Orders, results: map<string, Message>)

  function Init(shardId: int): State {
    State(shardId, Own.INIT, [], EMPTY_TABLES, None, map[], map[], 0, false)
  }

  predicate Passes(s: State, w: Worker) {
    FencePasses(w.own.nodeId, w.own, Own.OwnerOf(s.etcd, s.shardId))
  }

  function Cached(s: State, nodeId: int): nat {
    if nodeId in s.cached then s.cached[nodeId] else 0
  }

  /** More than the matcher does: it may change any order row in any way, but neither adds nor drops one, and what it
      adds to the outbox are new rows that are no requests. */
  ghost predicate MayRewrite(t: Tables, orders: Orders, results: map<string, Message>) {
    && (forall orderId :: orderId in orders <==> orderId in t.orders)
    && (forall id :: id in results ==> id !in t.outbox && !EndsWith(id, MATCH_REQUESTED_SUFFIX))
  }

  function DoLoad(s: State, worker: int, w: Worker): State {
    var offset := if s.checkpoint.None? then Cached(s, w.own.nodeId) else s.checkpoint.value.offset;
    if offset < 0 || offset > |s.log| then s.(workers := s.workers - {worker})
    else s.(workers := s.workers[worker := w.(next := offset, phase := Ready)],
            cached := s.cached[w.own.nodeId := offset])
  }

  /** A batch is the next `count` records; a failed check ends the worker. */
  function DoFirstCheck(s: State, worker: int, w: Worker, count: nat): State {
    if count == 0 || w.next + count > |s.log| then s
    else if !Passes(s, w) then s.(workers := s.workers - {worker})
    else s.(workers := s.workers[worker := w.(phase := CheckedOnce(w.next + count))])
  }

  /** The transaction: all of it takes effect, or a failing record rolls it back and ends the worker. */
  function DoCommit(s: State, worker: int, w: Worker): State
    requires w.phase.CheckedTwice?
  {
    if !(w.next < w.phase.hi <= |s.log|) then s
    else match ApplyBatch(s.tables, Records(s.shardId, s.log, w.next, w.phase.hi))
      case Err(_) => s.(workers := s.workers - {worker})
      case Ok(tables) =>
        s.(tables := tables,
           checkpoint := UpsertCheckpoint(s.checkpoint, Checkpoint(w.phase.hi, w.own.epoch, w.own.nodeId)),
           workers := s.workers[worker := w.(next := w.phase.hi, phase := Ready)],
           cached := s.cached[w.own.nodeId := w.phase.hi],
           applied := if w.phase.hi > s.applied then w.phase.hi else s.applied)
  }

  ghost function Do(s: State, step: Step): State {
    match step
    case Assigner(inner) => s.(etcd := Own.Do(s.etcd, inner))
    case Produce(event) => s.(log := s.log + [event])
    case Start(worker, nodeId) =>
      var owner := Own.OwnerOf(s.etcd, s.shardId);
      if worker in s.workers || owner.None? || owner.value.nodeId != nodeId then s
      else s.(workers := s.workers[worker := Worker(owner.value, 0, Loading)])
    case Load(worker) =>
      if worker !in s.workers || s.workers[worker].phase != Loading then s
      else DoLoad(s, worker, s.workers[worker])
    case FirstCheck(worker, count) =>
      if worker !in s.workers || s.workers[worker].phase != Ready then s
      else DoFirstCheck(s, worker, s.workers[worker], count)
    case SecondCheck(worker) =>
      if worker !in s.workers || !s.workers[worker].phase.CheckedOnce? then s
      else if !Passes(s, s.workers[worker]) then s.(workers := s.workers - {worker})
      else
        var w := s.workers[worker];
        s.(workers := s.workers[worker := w.(phase := CheckedTwice(w.phase.hi))])
    case CommitBatch(worker) =>
      if worker !in s.workers || !s.workers[worker].phase.CheckedTwice? then s
      else DoCommit(s, worker, s.workers[worker])
    case Crash(worker) => s.(workers := s.workers - {worker})
    case Restart(nodeId) => s.(cached := s.cached - {nodeId})
    case Rewrite(orders, results) =>
      if !MayRewrite(s.tables, orders, results) then s
      else s.(tables := s.tables.(orders := orders, outbox := s.tables.outbox + results), rewritten := true)
  }

  ghost function Exec(s: State, steps: seq<Step>): State {
    if |steps| == 0 then s else Do(Exec(s, steps[..|steps| - 1]), steps[|steps| - 1])
  }

  // ---------------------------------------------------------------------------------------------
  // The fold of a prefix of the log
  // ---------------------------------------------------------------------------------------------

  function FoldPrefix(shardId: int, log: seq<Event>, n: nat): Result<Tables>
    requires n <= |log|
  {
    ApplyBatch(EMPTY_TABLES, Records(shardId, log, 0, n))
  }

  lemma RecordsConcat(shardId: int, log: seq<Event>, lo: nat, mid: nat, hi: nat)
    requires lo <= mid <= hi <= |log|
    ensures Records(shardId, log, lo, hi) == Records(shardId, log, lo, mid) + Records(shardId, log, mid, hi)
  {
  }

  /** Every event of a folded prefix is in the inbox, so replaying any part of it does nothing. */
  lemma ReplayIsNoOp(shardId: int, log: seq<Event>, lo: nat, hi: nat, n: nat)
    requires lo <= hi <= n <= |log| && FoldPrefix(shardId, log, n).Ok?
    ensures var t := FoldPrefix(shardId, log, n).value;
            ApplyBatch(t, Records(shardId, log, lo, hi)) == Ok(t)
  {
    var t := FoldPrefix(shardId, log, n).value;
    var all := Records(shardId, log, 0, n);
    BatchInbox(EMPTY_TABLES, all);
    FirstOccurrencesCovers(all, map[]);
    var replay := Records(shardId, log, lo, hi);
    forall i | 0 <= i < |replay| ensures replay[i].event.id != "" && replay[i].event.id in t.inbox {
      assert replay[i] == all[lo + i];
    }
    KnownRecordsChangeNothing(t, replay);
  }

  /** A batch that starts inside the applied prefix moves the tables to the fold of the longer prefix. */
  lemma BatchExtendsPrefix(shardId: int, log: seq<Event>, n: nat, lo: nat, hi: nat)
    requires lo <= n <= |log| && lo <= hi <= |log| && FoldPrefix(shardId, log, n).Ok?
    ensures ApplyBatch(FoldPrefix(shardId, log, n).value, Records(shardId, log, lo, hi))
            == FoldPrefix(shardId, log, if hi > n then hi else n)
  {
    var t := FoldPrefix(shardId, log, n).value;
    if hi <= n {
      ReplayIsNoOp(shardId, log, lo, hi, n);
    } else {
      ReplayIsNoOp(shardId, log, lo, n, n);
      RecordsConcat(shardId, log, lo, n, hi);
      BatchSplits(t, Records(shardId, log, lo, n), Records(shardId, log, n, hi));
      RecordsConcat(shardId, log, 0, n, hi);
      BatchSplits(EMPTY_TABLES, Records(shardId, log, 0, n), Records(shardId, log, n, hi));
    }
  }

  /** A request without the place it was made for. */
  function WithoutPlace(m: Message): Message {
    if m.event.body.MatchRequested? then m.(event := m.event.(body := m.event.body.(x := 0, y := 0))) else m
  }

  /** The same inbox, the same orders whatever their rows say, and the same requests but for the place. */
  ghost predicate SameShape(t: Tables, u: Tables) {
    && t.inbox == u.inbox
    && (forall orderId :: orderId in t.orders <==> orderId in u.orders)
    && (forall id :: EndsWith(id, MATCH_REQUESTED_SUFFIX) ==> (id in t.outbox <==> id in u.outbox))
    && (forall id :: EndsWith(id, MATCH_REQUESTED_SUFFIX) && id in t.outbox ==>
                       WithoutPlace(t.outbox[id]) == WithoutPlace(u.outbox[id]))
  }

  lemma RequestIdIsOne(eventId: string)
    ensures EndsWith(RequestId(eventId), MATCH_REQUESTED_SUFFIX)
  {
  }

  /** Whether an event applies, and which order it creates, depends on which orders exist alone. */
  lemma EventKeepsKeys(o: Orders, p: Orders, e: Event)
    requires forall orderId :: orderId in o <==> orderId in p
    ensures ApplyEvent(o, e).Ok? <==> ApplyEvent(p, e).Ok?
    ensures ApplyEvent(o, e).Ok? ==>
              forall orderId :: orderId in ApplyEvent(o, e).value <==> orderId in ApplyEvent(p, e).value
  {
  }

  lemma QueueKeepsShape(t: Tables, u: Tables, e: Event)
    requires SameShape(t, u) && QueuesMatchRequest(e.body)
    ensures QueueMatchRequest(t, e).Ok? <==> QueueMatchRequest(u, e).Ok?
    ensures QueueMatchRequest(t, e).Ok? ==> SameShape(QueueMatchRequest(t, e).value, QueueMatchRequest(u, e).value)
  {
    RequestIdIsOne(e.id);
    hide EndsWith, Narrow;
  }

  /** Whether a record applies, and what it adds, depends on the tables' shape alone. */
  lemma RecordKeepsShape(t: Tables, u: Tables, r: Record)
    requires SameShape(t, u)
    ensures ApplyRecord(t, r).Ok? <==> ApplyRecord(u, r).Ok?
    ensures ApplyRecord(t, r).Ok? ==> SameShape(ApplyRecord(t, r).value, ApplyRecord(u, r).value)
  {
    EventKeepsKeys(t.orders, u.orders, r.event);
    hide ApplyEvent, QueueMatchRequest, EndsWith;
    if r.event.id !in t.inbox && ApplyEvent(t.orders, r.event).Ok? && QueuesMatchRequest(r.event.body) {
      var noted := t.inbox[r.event.id := r.position];
      QueueKeepsShape(Tables(noted, ApplyEvent(t.orders, r.event).value, t.outbox),
                      Tables(noted, ApplyEvent(u.orders, r.event).value, u.outbox), r.event);
    }
  }

  lemma {:induction false} BatchKeepsShape(t: Tables, u: Tables, records: seq<Record>)
    requires SameShape(t, u)
    ensures ApplyBatch(t, records).Ok? <==> ApplyBatch(u, records).Ok?
    ensures ApplyBatch(t, records).Ok? ==> SameShape(ApplyBatch(t, records).value, ApplyBatch(u, records).value)
  {
    if |records| > 0 {
      var front := records[..|records| - 1];
      BatchKeepsShape(t, u, front);
      if ApplyBatch(t, front).Ok? {
        RecordKeepsShape(ApplyBatch(t, front).value, ApplyBatch(u, front).value, records[|records| - 1]);
      }
    }
  }

  lemma PrefixSurvivesAppend(shardId: int, log: seq<Event>, event: Event, n: nat)
    requires n <= |log|
    ensures FoldPrefix(shardId, log + [event], n) == FoldPrefix(shardId, log, n)
  {
    assert Records(shardId, log + [event], 0, n) == Records(shardId, log, 0, n);
  }

  // ---------------------------------------------------------------------------------------------
  // The invariant
  // ---------------------------------------------------------------------------------------------

  /** The ownership a worker holds was granted to its node under its epoch. */
  predicate WasGranted(s: State, own: Ownership) {
    var nodes := Own.Granted(s.etcd, s.shardId);
    && own.shardId == s.shardId
    && 1 <= own.epoch <= |nodes|
    && nodes[own.epoch - 1] == own.nodeId
  }

  predicate WorkerOk(s: State, w: Worker) {
    && WasGranted(s, w.own)
    && w.next <= s.applied
    && (w.phase.CheckedOnce? ==> w.next < w.phase.hi <= |s.log|)
    && (w.phase.CheckedTwice? ==> w.next < w.phase.hi <= |s.log|)
  }

  predicate CheckpointOk(s: State) {
    match s.checkpoint
    case None => s.applied == 0
    case Some(row) =>
      && 0 <= row.offset <= s.applied
      && WasGranted(s, Ownership(s.shardId, row.nodeId, row.epoch))
  }

  /** The committed tables have the shape of the fold of the first `n` records of the log, and are that fold if the
      matcher has not written. */
  ghost predicate IsPrefix(s: State, n: nat) {
    && n <= |s.log|
    && FoldPrefix(s.shardId, s.log, n).Ok?
    && SameShape(s.tables, FoldPrefix(s.shardId, s.log, n).value)
    && (!s.rewritten ==> s.tables == FoldPrefix(s.shardId, s.log, n).value)
  }

  ghost predicate PrefixHolds(s: State) {
    IsPrefix(s, s.applied)
  }

  ghost predicate Inv(s: State) {
    && Own.Inv(s.etcd)
    && PrefixHolds(s)
    && CheckpointOk(s)
    && (forall worker :: worker in s.workers ==> WorkerOk(s, s.workers[worker]))
    && (forall nodeId :: nodeId in s.cached ==> s.cached[nodeId] <= s.applied)
  }

  lemma GrantsSurvive(s: State, inner: Own.Step, own: Ownership)
    requires Own.Inv(s.etcd) && WasGranted(s, own)
    ensures WasGranted(Do(s, Assigner(inner)), own)
  {
    Own.InvStep(s.etcd, inner);
    assert Own.Granted(s.etcd, s.shardId) <= Own.Granted(Own.Do(s.etcd, inner), s.shardId);
  }

  lemma AssignerKeepsInv(s: State, inner: Own.Step)
    requires Inv(s)
    ensures Inv(Do(s, Assigner(inner)))
  {
    var after := Do(s, Assigner(inner));
    Own.InvStep(s.etcd, inner);
    forall worker | worker in after.workers ensures WorkerOk(after, after.workers[worker]) {
      assert WorkerOk(s, s.workers[worker]);
      GrantsSurvive(s, inner, s.workers[worker].own);
    }
    if s.checkpoint.Some? {
      GrantsSurvive(s, inner, Ownership(s.shardId, s.checkpoint.value.nodeId, s.checkpoint.value.epoch));
    }
  }

  lemma ProduceKeepsInv(s: State, event: Event)
    requires Inv(s)
    ensures Inv(Do(s, Produce(event)))
  {
    var after := Do(s, Produce(event));
    PrefixSurvivesAppend(s.shardId, s.log, event, s.applied);
    forall worker | worker in after.workers ensures WorkerOk(after, after.workers[worker]) {
      assert WorkerOk(s, s.workers[worker]);
    }
  }

  lemma CommitKeepsPrefix(s: State, worker: int, w: Worker)
    requires PrefixHolds(s) && WorkerOk(s, w) && w.phase.CheckedTwice?
    ensures var after := DoCommit(s, worker, w);
            && PrefixHolds(after)
            && s.applied <= after.applied
            && (after.checkpoint != s.checkpoint ==> w.phase.hi <= after.applied)
            && after.etcd == s.etcd && after.log == s.log && after.shardId == s.shardId
  {
    BatchExtendsPrefix(s.shardId, s.log, s.applied, w.next, w.phase.hi);
    BatchKeepsShape(s.tables, FoldPrefix(s.shardId, s.log, s.applied).value,
                    Records(s.shardId, s.log, w.next, w.phase.hi));
  }

  lemma CommitKeepsWorkers(s: State, worker: int, w: Worker)
    requires Inv(s) && worker in s.workers && s.workers[worker] == w && w.phase.CheckedTwice?
    ensures var after := DoCommit(s, worker, w);
            && (forall other :: other in after.workers ==> WorkerOk(after, after.workers[other]))
            && (forall nodeId :: nodeId in after.cached ==> after.cached[nodeId] <= after.applied)
  {
    hide SameShape, FoldPrefix, ApplyBatch;
    assert WorkerOk(s, w);
    var after := DoCommit(s, worker, w);
    assert s.applied <= after.applied;
    forall other | other in after.workers ensures WorkerOk(after, after.workers[other]) {
      assert WorkerOk(s, s.workers[other]);
    }
  }

  lemma CommitKeepsInv(s: State, worker: int)
    requires Inv(s) && worker in s.workers && s.workers[worker].phase.CheckedTwice?
    ensures Inv(Do(s, CommitBatch(worker)))
  {
    var w := s.workers[worker];
    assert WorkerOk(s, w);
    CommitKeepsPrefix(s, worker, w);
    CommitKeepsWorkers(s, worker, w);
    var after := DoCommit(s, worker, w);
    assert CheckpointOk(after);
  }

  /** Steps that touch nothing but the workers and the nodes' caches. */
  lemma LocalStepKeepsInv(s: State, after: State)
    requires Inv(s) && after == s.(workers := after.workers, cached := after.cached)
    requires forall other :: other in after.workers ==> WorkerOk(s, after.workers[other])
    requires forall nodeId :: nodeId in after.cached ==> after.cached[nodeId] <= s.applied
    ensures Inv(after)
  {
    hide SameShape, FoldPrefix, ApplyBatch;
    forall other | other in after.workers ensures WorkerOk(after, after.workers[other]) {
      assert WorkerOk(s, after.workers[other]);
    }
  }

  lemma StartKeepsInv(s: State, worker: int, nodeId: int)
    requires Inv(s)
    ensures Inv(Do(s, Start(worker, nodeId)))
  {
    hide SameShape, FoldPrefix, ApplyBatch;
    assert Own.EpochCounts(s.etcd, s.shardId);
    LocalStepKeepsInv(s, Do(s, Start(worker, nodeId)));
  }

  lemma LoadKeepsInv(s: State, worker: int)
    requires Inv(s)
    ensures Inv(Do(s, Load(worker)))
  {
    hide SameShape, FoldPrefix, ApplyBatch;
    if worker in s.workers {
      assert WorkerOk(s, s.workers[worker]);
      assert Cached(s, s.workers[worker].own.nodeId) <= s.applied;
    }
    LocalStepKeepsInv(s, Do(s, Load(worker)));
  }

  lemma CheckKeepsInv(s: State, step: Step)
    requires Inv(s) && (step.FirstCheck? || step.SecondCheck?)
    ensures Inv(Do(s, step))
  {
    hide SameShape, FoldPrefix, ApplyBatch;
    if step.worker in s.workers {
      assert WorkerOk(s, s.workers[step.worker]);
    }
    LocalStepKeepsInv(s, Do(s, step));
  }

  lemma RewriteKeepsInv(s: State, orders: Orders, results: map<string, Message>)
    requires Inv(s)
    ensures Inv(Do(s, Rewrite(orders, results)))
  {
    var after := Do(s, Rewrite(orders, results));
    forall worker | worker in after.workers ensures WorkerOk(after, after.workers[worker]) {
      assert WorkerOk(s, s.workers[worker]);
    }
  }

  lemma InvStep(s: State, step: Step)
    requires Inv(s)
    ensures Inv(Do(s, step))
  {
    match step
    case Assigner(inner) => AssignerKeepsInv(s, inner);
    case Produce(event) => ProduceKeepsInv(s, event);
    case CommitBatch(worker) =>
      if worker in s.workers && s.workers[worker].phase.CheckedTwice? { CommitKeepsInv(s, worker); }
    case Start(worker, nodeId) => StartKeepsInv(s, worker, nodeId);
    case Load(worker) => LoadKeepsInv(s, worker);
    case FirstCheck(_, _) => CheckKeepsInv(s, step);
    case SecondCheck(_) => CheckKeepsInv(s, step);
    case Crash(_) => LocalStepKeepsInv(s, Do(s, step));
    case Restart(_) => LocalStepKeepsInv(s, Do(s, step));
    case Rewrite(orders, results) => RewriteKeepsInv(s, orders, results);
  }

  lemma ShardStays(s: State, step: Step)
    ensures Do(s, step).shardId == s.shardId
  {
  }

  lemma {:induction false} InvRun(shardId: int, steps: seq<Step>)
    ensures Inv(Exec(Init(shardId), steps))
    ensures Exec(Init(shardId), steps).shardId == shardId
  {
    if |steps| == 0 {
      assert Inv(Init(shardId));
    } else {
      hide Inv, Do;
      InvRun(shardId, steps[..|steps| - 1]);
      ShardStays(Exec(Init(shardId), steps[..|steps| - 1]), steps[|steps| - 1]);
      InvStep(Exec(Init(shardId), steps[..|steps| - 1]), steps[|steps| - 1]);
    }
  }

  // ---------------------------------------------------------------------------------------------
  // Theorems over every run
  // ---------------------------------------------------------------------------------------------

  predicate NoRewrites(steps: seq<Step>) {
    forall i :: 0 <= i < |steps| ==> !steps[i].Rewrite?
  }

  lemma OnlyRewritesRewrite(s: State, step: Step)
    requires !s.rewritten && !step.Rewrite?
    ensures !Do(s, step).rewritten
  {
  }

  lemma {:induction false} NoRewritesRun(shardId: int, steps: seq<Step>)
    requires NoRewrites(steps)
    ensures !Exec(Init(shardId), steps).rewritten
  {
    if |steps| > 0 {
      NoRewritesRun(shardId, steps[..|steps| - 1]);
      OnlyRewritesRewrite(Exec(Init(shardId), steps[..|steps| - 1]), steps[|steps| - 1]);
    }
  }

  /** Prefix refinement. However fresh, restarted, crashed and stale workers interleave, with each other and with the
      matcher, there is a prefix of the log, repeated event ids skipped, such that the inbox is that prefix's, the
      orders that exist are those it creates, the requests are those it queues, and the stored checkpoint lies inside
      it. As long as the matcher writes nothing, the tables are its fold, order rows and places included. */
  lemma PrefixRefinement(shardId: int, steps: seq<Step>)
    ensures var s := Exec(Init(shardId), steps);
            exists n: nat :: n <= |s.log|
                             && FoldPrefix(shardId, s.log, n).Ok?
                             && SameShape(s.tables, FoldPrefix(shardId, s.log, n).value)
                             && (NoRewrites(steps) ==> FoldPrefix(shardId, s.log, n) == Ok(s.tables))
                             && s.tables.inbox == FirstOccurrences(Records(shardId, s.log, 0, n), map[])
                             && (s.checkpoint.Some? ==> 0 <= s.checkpoint.value.offset <= n)
  {
    InvRun(shardId, steps);
    if NoRewrites(steps) { NoRewritesRun(shardId, steps); }
    var s := Exec(Init(shardId), steps);
    BatchInbox(EMPTY_TABLES, Records(shardId, s.log, 0, s.applied));
    hide ApplyBatch, Exec, Do;
    assert IsPrefix(s, s.applied);
  }

  lemma AppliedGrows(s: State, step: Step)
    ensures s.applied <= Do(s, step).applied && s.log <= Do(s, step).log
  {
  }

  /** The prefix never shrinks: whatever a step does, the tables after it are, in the same sense, those of a prefix at
      least as long of a log that only grew. */
  lemma CommittedPrefixOnlyGrows(shardId: int, steps: seq<Step>, step: Step)
    ensures var before := Exec(Init(shardId), steps);
            var after := Do(before, step);
            before.log <= after.log
            && exists n: nat, m: nat :: n <= m && IsPrefix(before, n) && IsPrefix(after, m)
  {
    InvRun(shardId, steps);
    var s := Exec(Init(shardId), steps);
    InvStep(s, step);
    AppliedGrows(s, step);
    hide IsPrefix, Do, Exec;
    assert IsPrefix(s, s.applied) && IsPrefix(Do(s, step), Do(s, step).applied);
  }

  /** A checkpoint row stays, its epoch does not fall, and it is no epoch that was never granted. */
  ghost predicate CheckpointMoves(before: State, after: State) {
    && (before.checkpoint.Some? ==>
          after.checkpoint.Some? && before.checkpoint.value.epoch <= after.checkpoint.value.epoch)
    && (after.checkpoint.Some? ==>
          1 <= after.checkpoint.value.epoch <= Own.Epoch(after.etcd, after.shardId))
  }

  lemma OnlyAssignersWriteEtcd(s: State, step: Step)
    ensures Do(s, step).etcd == if step.Assigner? then Own.Do(s.etcd, step.step) else s.etcd
    ensures Do(s, step).shardId == s.shardId
  {
    hide ApplyBatch, Own.Do;
  }

  lemma CheckpointEpochStep(s: State, step: Step)
    requires Inv(s) && Inv(Do(s, step)) && Do(s, step).shardId == s.shardId
    ensures CheckpointMoves(s, Do(s, step))
  {
    hide SameShape, FoldPrefix, ApplyBatch, IsPrefix, WorkerOk, Own.SeenIsOld;
    assert Own.EpochCounts(Do(s, step).etcd, s.shardId);
    OnlyAssignersWriteEtcd(s, step);
  }

  /** The checkpoint row never goes, its epoch never falls, and never runs ahead of the ownership epoch. */
  lemma CheckpointEpochIsBounded(shardId: int, steps: seq<Step>, step: Step)
    ensures var before := Exec(Init(shardId), steps).checkpoint;
            var after := Do(Exec(Init(shardId), steps), step);
            && (before.Some? ==> after.checkpoint.Some? && before.value.epoch <= after.checkpoint.value.epoch)
            && (after.checkpoint.Some? ==> 1 <= after.checkpoint.value.epoch <= Own.Epoch(after.etcd, shardId))
  {
    hide Inv, Exec, Do;
    InvRun(shardId, steps);
    InvStep(Exec(Init(shardId), steps), step);
    ShardStays(Exec(Init(shardId), steps), step);
    CheckpointEpochStep(Exec(Init(shardId), steps), step);
  }

  /** A worker that still passes the fence and whose batch goes through leaves the checkpoint at the end of the batch,
      under its own epoch: nobody's later checkpoint is in its way. */
  lemma CommitMovesCheckpoint(shardId: int, steps: seq<Step>, worker: int)
    requires var s := Exec(Init(shardId), steps);
             worker in s.workers && s.workers[worker].phase.CheckedTwice? && Passes(s, s.workers[worker])
    ensures var s := Exec(Init(shardId), steps);
            var w := s.workers[worker];
            var after := Do(s, CommitBatch(worker));
            && w.next < w.phase.hi <= |s.log|
            && match ApplyBatch(s.tables, Records(shardId, s.log, w.next, w.phase.hi))
               case Err(_) => worker !in after.workers && after.checkpoint == s.checkpoint && after.tables == s.tables
               case Ok(tables) =>
                 && after.tables == tables && worker in after.workers && after.workers[worker].next == w.phase.hi
                 && after.checkpoint == Some(Checkpoint(w.phase.hi, w.own.epoch, w.own.nodeId))
  {
    InvRun(shardId, steps);
    hide Exec, ApplyBatch, SameShape, FoldPrefix;
    var s := Exec(Init(shardId), steps);
    assert WorkerOk(s, s.workers[worker]) && Own.EpochCounts(s.etcd, shardId);
  }

  lemma GrantedFenceIsTheEpoch(s: State, w: Worker)
    requires Own.EpochCounts(s.etcd, s.shardId) && WasGranted(s, w.own)
    ensures Passes(s, w) <==> Own.Epoch(s.etcd, s.shardId) == w.own.epoch
  {
  }

  /** The fence is decided by the epoch alone: in every reachable state a worker passes it exactly when no
      assignment has been made since the one it was started under. */
  lemma FenceIsTheEpoch(shardId: int, steps: seq<Step>, worker: int)
    requires worker in Exec(Init(shardId), steps).workers
    ensures var s := Exec(Init(shardId), steps);
            Passes(s, s.workers[worker]) <==> Own.Epoch(s.etcd, shardId) == s.workers[worker].own.epoch
  {
    InvRun(shardId, steps);
    var s := Exec(Init(shardId), steps);
    assert WorkerOk(s, s.workers[worker]);
    GrantedFenceIsTheEpoch(s, s.workers[worker]);
  }

  /** The assigners' part of a run. */
  function EtcdSteps(steps: seq<Step>): seq<Own.Step> {
    if |steps| == 0 then []
    else
      var before := EtcdSteps(steps[..|steps| - 1]);
      if steps[|steps| - 1].Assigner? then before + [steps[|steps| - 1].step] else before
  }

  lemma {:induction false} EtcdProjection(shardId: int, steps: seq<Step>)
    ensures Exec(Init(shardId), steps).etcd == Own.Exec(Own.INIT, EtcdSteps(steps))
    ensures Exec(Init(shardId), steps).shardId == shardId
  {
    if |steps| > 0 {
      var front := steps[..|steps| - 1];
      EtcdProjection(shardId, front);
      var last := steps[|steps| - 1];
      OnlyAssignersWriteEtcd(Exec(Init(shardId), front), last);
      hide Do, Own.Do;
      if last.Assigner? {
        assert (EtcdSteps(front) + [last.step])[..|EtcdSteps(front)|] == EtcdSteps(front);
      }
    }
  }

  lemma {:induction false} EtcdStepsOfPrefix(steps: seq<Step>, n: nat)
    requires n <= |steps|
    ensures EtcdSteps(steps[..n]) <= EtcdSteps(steps)
    decreases |steps|
  {
    if n == |steps| {
      assert steps[..n] == steps;
    } else {
      assert steps[..|steps| - 1][..n] == steps[..n];
      EtcdStepsOfPrefix(steps[..|steps| - 1], n);
    }
  }

  /** Two passed fence checks of one worker bound a window in which its ownership was never lost: at every moment
      of the run between them the check would have passed too. */
  lemma TwoPassedChecksBoundAWindow(shardId: int, steps: seq<Step>, i: nat, j: nat, k: nat, w: Worker)
    requires i <= j <= k <= |steps|
    requires Passes(Exec(Init(shardId), steps[..i]), w) && Passes(Exec(Init(shardId), steps[..k]), w)
    ensures Passes(Exec(Init(shardId), steps[..j]), w)
  {
    var etcd := EtcdSteps(steps[..k]);
    var a, b := |EtcdSteps(steps[..i])|, |EtcdSteps(steps[..j])|;
    assert steps[..k][..i] == steps[..i] && steps[..k][..j] == steps[..j] && steps[..j][..i] == steps[..i];
    EtcdStepsOfPrefix(steps[..k], i);
    EtcdStepsOfPrefix(steps[..k], j);
    EtcdStepsOfPrefix(steps[..j], i);
    EtcdProjection(shardId, steps[..i]);
    EtcdProjection(shardId, steps[..j]);
    EtcdProjection(shardId, steps[..k]);
    assert etcd[..a] == EtcdSteps(steps[..i]) && etcd[..b] == EtcdSteps(steps[..j]) && etcd[..|etcd|] == etcd;
    Own.FenceWindow(etcd, a, b, |etcd|, shardId);
  }

  /** What the assigners did up to a moment is a prefix of what they did up to a later one. */
  lemma EtcdAt(shardId: int, steps: seq<Step>, i: nat, k: nat)
    requires i <= k <= |steps|
    ensures var etcd := EtcdSteps(steps[..k]);
            && |EtcdSteps(steps[..i])| <= |etcd|
            && Exec(Init(shardId), steps[..i]).etcd == Own.Exec(Own.INIT, etcd[..|EtcdSteps(steps[..i])|])
            && Exec(Init(shardId), steps[..k]).etcd == Own.Exec(Own.INIT, etcd[..|etcd|])
  {
    var etcd := EtcdSteps(steps[..k]);
    assert steps[..k][..i] == steps[..i];
    EtcdStepsOfPrefix(steps[..k], i);
    EtcdProjection(shardId, steps[..i]);
    EtcdProjection(shardId, steps[..k]);
    assert etcd[..|EtcdSteps(steps[..i])|] == EtcdSteps(steps[..i]) && etcd[..|etcd|] == etcd;
  }

  /** Exactly when a passed check still tells the truth: after passing the fence at one moment, a worker would pass
      it at a later moment if and only if no assignment of the shard was granted in between. */
  lemma FenceHoldsExactlyWhen(shardId: int, steps: seq<Step>, i: nat, k: nat, w: Worker)
    requires i <= k <= |steps| && Passes(Exec(Init(shardId), steps[..i]), w)
    ensures Passes(Exec(Init(shardId), steps[..k]), w) <==>
            Own.Granted(Exec(Init(shardId), steps[..i]).etcd, shardId) ==
            Own.Granted(Exec(Init(shardId), steps[..k]).etcd, shardId)
  {
    var etcd := EtcdSteps(steps[..k]);
    var a := |EtcdSteps(steps[..i])|;
    EtcdAt(shardId, steps, i, k);
    EtcdProjection(shardId, steps[..i]);
    EtcdProjection(shardId, steps[..k]);
    Own.GrantedOnlyGrows(etcd, a, |etcd|, shardId);
    Own.InvRun(etcd[..a]);
    Own.InvRun(etcd[..|etcd|]);
    hide Exec, Own.Exec, EtcdSteps;
    assert Own.EpochCounts(Exec(Init(shardId), steps[..i]).etcd, shardId);
    assert Own.EpochCounts(Exec(Init(shardId), steps[..k]).etcd, shardId);
  }

  /** The second check a worker about to commit has passed: since that step it has done nothing else. */
  ghost predicate PassedAt(shardId: int, steps: seq<Step>, m: nat, worker: int)
    requires m < |steps|
  {
    && steps[m] == SecondCheck(worker)
    && worker in Exec(Init(shardId), steps[..m]).workers
    && Exec(Init(shardId), steps[..m]).workers[worker].phase.CheckedOnce?
    && Passes(Exec(Init(shardId), steps[..m]), Exec(Init(shardId), steps[..m]).workers[worker])
    && worker in Exec(Init(shardId), steps).workers
    && Exec(Init(shardId), steps[..m]).workers[worker].own == Exec(Init(shardId), steps).workers[worker].own
    && worker in Exec(Init(shardId), steps[..m + 1]).workers
    && Exec(Init(shardId), steps[..m + 1]).workers[worker] == Exec(Init(shardId), steps).workers[worker]
  }

  /** A step leaves a worker that has passed both checks as it is, unless it is that second check. */
  lemma CheckedTwiceComesFrom(s: State, step: Step, worker: int)
    requires worker in Do(s, step).workers && Do(s, step).workers[worker].phase.CheckedTwice?
    ensures worker in s.workers && s.workers[worker].own == Do(s, step).workers[worker].own
    ensures (step == SecondCheck(worker) && s.workers[worker].phase.CheckedOnce? && Passes(s, s.workers[worker]))
            || s.workers[worker] == Do(s, step).workers[worker]
  {
    hide ApplyBatch;
  }

  lemma {:induction false} SecondCheckOf(shardId: int, steps: seq<Step>, worker: int) returns (m: nat)
    requires worker in Exec(Init(shardId), steps).workers
    requires Exec(Init(shardId), steps).workers[worker].phase.CheckedTwice?
    ensures m < |steps| && PassedAt(shardId, steps, m, worker)
  {
    assert |steps| > 0;
    var front := steps[..|steps| - 1];
    var last := steps[|steps| - 1];
    CheckedTwiceComesFrom(Exec(Init(shardId), front), last, worker);
    hide Do;
    var before := Exec(Init(shardId), front);
    if last == SecondCheck(worker) && before.workers[worker].phase.CheckedOnce?
       && Passes(before, before.workers[worker]) {
      m := |steps| - 1;
      assert steps[..m + 1] == steps;
    } else {
      m := SecondCheckOf(shardId, front, worker);
      assert front[..m] == steps[..m] && front[m] == steps[m] && front[..m + 1] == steps[..m + 1];
    }
  }

  /** So does a worker that has passed one check, unless the step is that check. */
  lemma CheckedOnceComesFrom(s: State, step: Step, worker: int)
    requires worker in Do(s, step).workers && Do(s, step).workers[worker].phase.CheckedOnce?
    ensures worker in s.workers && s.workers[worker].own == Do(s, step).workers[worker].own
    ensures (step.FirstCheck? && step.worker == worker && Passes(s, s.workers[worker]))
            || s.workers[worker] == Do(s, step).workers[worker]
  {
    hide ApplyBatch;
  }

  /** The first check of a worker that has passed one. */
  ghost predicate FirstPassedAt(shardId: int, steps: seq<Step>, m: nat, worker: int, own: Ownership)
    requires m < |steps|
  {
    && steps[m].FirstCheck? && steps[m].worker == worker
    && worker in Exec(Init(shardId), steps[..m]).workers
    && Exec(Init(shardId), steps[..m]).workers[worker].own == own
    && Passes(Exec(Init(shardId), steps[..m]), Exec(Init(shardId), steps[..m]).workers[worker])
  }

  lemma {:induction false} FirstCheckOf(shardId: int, steps: seq<Step>, worker: int) returns (m: nat)
    requires worker in Exec(Init(shardId), steps).workers
    requires Exec(Init(shardId), steps).workers[worker].phase.CheckedOnce?
    ensures m < |steps| && FirstPassedAt(shardId, steps, m, worker, Exec(Init(shardId), steps).workers[worker].own)
  {
    assert |steps| > 0;
    var front := steps[..|steps| - 1];
    var last := steps[|steps| - 1];
    CheckedOnceComesFrom(Exec(Init(shardId), front), last, worker);
    hide Do;
    var before := Exec(Init(shardId), front);
    if last.FirstCheck? && last.worker == worker && Passes(before, before.workers[worker]) {
      m := |steps| - 1;
    } else {
      m := FirstCheckOf(shardId, front, worker);
      assert front[..m] == steps[..m] && front[m] == steps[m];
    }
  }

  lemma PassesByOwnership(s: State, v: Worker, w: Worker)
    requires v.own == w.own
    ensures Passes(s, v) <==> Passes(s, w)
  {
  }

  /** Nothing is committed unchecked: a worker about to commit has passed two checks, one after the other, and would
      have passed at every moment between them. */
  lemma CommitFollowsTwoChecks(shardId: int, steps: seq<Step>, worker: int) returns (first: nat, second: nat)
    requires worker in Exec(Init(shardId), steps).workers
    requires Exec(Init(shardId), steps).workers[worker].phase.CheckedTwice?
    ensures first < second < |steps|
    ensures steps[first].FirstCheck? && steps[first].worker == worker && steps[second] == SecondCheck(worker)
    ensures forall j :: first <= j <= second ==>
                          Passes(Exec(Init(shardId), steps[..j]), Exec(Init(shardId), steps).workers[worker])
  {
    second := SecondCheckOf(shardId, steps, worker);
    var w := Exec(Init(shardId), steps).workers[worker];
    first := FirstCheckOf(shardId, steps[..second], worker);
    assert steps[..second][..first] == steps[..first];
    hide Exec, Do, Passes;
    PassesByOwnership(Exec(Init(shardId), steps[..first]), Exec(Init(shardId), steps[..first]).workers[worker], w);
    PassesByOwnership(Exec(Init(shardId), steps[..second]), Exec(Init(shardId), steps[..second]).workers[worker], w);
    forall j | first <= j <= second ensures Passes(Exec(Init(shardId), steps[..j]), w) {
      TwoPassedChecksBoundAWindow(shardId, steps, first, j, second, w);
    }
  }

  /** Exactly when an old owner writes: a worker about to commit has passed a second check, and it has lost the shard if
      and only if an assignment was granted after that check. */
  lemma CommitIsStaleExactlyWhen(shardId: int, steps: seq<Step>, worker: int) returns (m: nat)
    requires worker in Exec(Init(shardId), steps).workers
    requires Exec(Init(shardId), steps).workers[worker].phase.CheckedTwice?
    ensures m < |steps| && PassedAt(shardId, steps, m, worker)
    ensures !Passes(Exec(Init(shardId), steps), Exec(Init(shardId), steps).workers[worker]) <==>
            Own.Granted(Exec(Init(shardId), steps[..m]).etcd, shardId) !=
            Own.Granted(Exec(Init(shardId), steps).etcd, shardId)
  {
    m := SecondCheckOf(shardId, steps, worker);
    hide Exec;
    var w := Exec(Init(shardId), steps).workers[worker];
    assert steps[..|steps|] == steps;
    FenceHoldsExactlyWhen(shardId, steps, m, |steps|, w);
  }

  lemma ExecSnoc(s: State, steps: seq<Step>, step: Step)
    ensures Exec(s, steps + [step]) == Do(Exec(s, steps), step)
  {
    assert (steps + [step])[..|steps|] == steps;
  }

  // ---------------------------------------------------------------------------------------------
  // The owner gets through the log
  // ---------------------------------------------------------------------------------------------

  /** A new worker that is started, loads, takes all that is left of the log as its batch, and commits it. */
  function CatchingUp(s: State, worker: int, nodeId: int): seq<Step> {
    var offset := if s.checkpoint.Some? then s.checkpoint.value.offset
                  else if nodeId in s.cached then s.cached[nodeId] else 0;
    [Start(worker, nodeId), Load(worker), FirstCheck(worker, if offset < |s.log| then |s.log| - offset else 0),
     SecondCheck(worker), CommitBatch(worker)]
  }

  lemma ExecFive(s: State, steps: seq<Step>, five: seq<Step>)
    requires |five| == 5
    ensures Exec(s, steps + five) ==
            Do(Do(Do(Do(Do(Exec(s, steps), five[0]), five[1]), five[2]), five[3]), five[4])
  {
    hide Do;
    ExecSnoc(s, steps, five[0]);
    ExecSnoc(s, steps + [five[0]], five[1]);
    ExecSnoc(s, steps + [five[0]] + [five[1]], five[2]);
    ExecSnoc(s, steps + [five[0]] + [five[1]] + [five[2]], five[3]);
    ExecSnoc(s, steps + [five[0]] + [five[1]] + [five[2]] + [five[3]], five[4]);
    assert steps + [five[0]] + [five[1]] + [five[2]] + [five[3]] + [five[4]] == steps + five;
  }

  /** The batch that takes the rest of a log whose fold exists goes through. */
  lemma RestApplies(s: State, next: nat)
    requires PrefixHolds(s) && next <= s.applied && FoldPrefix(s.shardId, s.log, |s.log|).Ok?
    ensures ApplyBatch(s.tables, Records(s.shardId, s.log, next, |s.log|)).Ok?
  {
    BatchExtendsPrefix(s.shardId, s.log, s.applied, next, |s.log|);
    BatchKeepsShape(s.tables, FoldPrefix(s.shardId, s.log, s.applied).value,
                    Records(s.shardId, s.log, next, |s.log|));
  }

  lemma StartsAndLoads(s: State, worker: int, own: Ownership, offset: nat)
    requires Own.OwnerOf(s.etcd, s.shardId) == Some(own) && worker !in s.workers && offset <= |s.log|
    requires offset == if s.checkpoint.None? then Cached(s, own.nodeId) else s.checkpoint.value.offset
    ensures Do(Do(s, Start(worker, own.nodeId)), Load(worker)) ==
            s.(workers := s.workers[worker := Worker(own, offset, Ready)], cached := s.cached[own.nodeId := offset])
  {
    var started := s.(workers := s.workers[worker := Worker(own, 0, Loading)]);
    assert Do(s, Start(worker, own.nodeId)) == started;
    assert started.workers[worker := Worker(own, offset, Ready)] == s.workers[worker := Worker(own, offset, Ready)];
  }

  lemma CommitsTheRest(s: State, worker: int, own: Ownership, offset: nat)
    requires worker in s.workers && s.workers[worker] == Worker(own, offset, Ready) && offset <= s.applied <= |s.log|
    requires Passes(s, s.workers[worker]) && ApplyBatch(s.tables, Records(s.shardId, s.log, offset, |s.log|)).Ok?
    ensures var checked := Do(Do(s, FirstCheck(worker, |s.log| - offset)), SecondCheck(worker));
            var end := Do(checked, CommitBatch(worker));
            end.log == s.log && end.applied == |s.log| && worker in end.workers
            && end.workers[worker] == Worker(own, |s.log|, Ready)
  {
    hide ApplyBatch;
    if offset < |s.log| {
      var once := Worker(own, offset, CheckedOnce(|s.log|));
      var twice := Worker(own, offset, CheckedTwice(|s.log|));
      assert Do(s, FirstCheck(worker, |s.log| - offset)) == s.(workers := s.workers[worker := once]);
      assert s.workers[worker := once][worker := twice] == s.workers[worker := twice];
      assert Do(s.(workers := s.workers[worker := once]), SecondCheck(worker)) ==
             s.(workers := s.workers[worker := twice]);
    }
  }

  lemma LoadsWithin(s: State, nodeId: int) returns (offset: nat)
    requires Inv(s) && FoldPrefix(s.shardId, s.log, |s.log|).Ok?
    ensures offset <= s.applied <= |s.log|
    ensures offset == if s.checkpoint.None? then Cached(s, nodeId) else s.checkpoint.value.offset
    ensures ApplyBatch(s.tables, Records(s.shardId, s.log, offset, |s.log|)).Ok?
  {
    offset := if s.checkpoint.None? then Cached(s, nodeId) else s.checkpoint.value.offset;
    hide ApplyBatch, SameShape, FoldPrefix;
    RestApplies(s, offset);
  }

  lemma CatchesUp(s: State, worker: int, own: Ownership)
    requires Inv(s) && FoldPrefix(s.shardId, s.log, |s.log|).Ok?
    requires Own.OwnerOf(s.etcd, s.shardId) == Some(own) && worker !in s.workers
    ensures var five := CatchingUp(s, worker, own.nodeId);
            var end := Do(Do(Do(Do(Do(s, five[0]), five[1]), five[2]), five[3]), five[4]);
            end.log == s.log && end.applied == |s.log| && worker in end.workers
            && end.workers[worker] == Worker(own, |s.log|, Ready)
  {
    hide ApplyBatch, SameShape, FoldPrefix, Inv, Do;
    var offset := LoadsWithin(s, own.nodeId);
    StartsAndLoads(s, worker, own, offset);
    var loaded := s.(workers := s.workers[worker := Worker(own, offset, Ready)],
                     cached := s.cached[own.nodeId := offset]);
    CommitsTheRest(loaded, worker, own, offset);
    assert CatchingUp(s, worker, own.nodeId) == [Start(worker, own.nodeId), Load(worker),
        FirstCheck(worker, |s.log| - offset), SecondCheck(worker), CommitBatch(worker)];
  }

  /** The protocol is not safe by doing nothing. In every reachable state a node that owns the shard gets through the
      log, whatever workers are about and wherever they are, if the log's records apply at all: it ends with the tables
      of the whole log. */
  lemma OwnerCatchesUp(shardId: int, steps: seq<Step>, worker: int, own: Ownership)
    requires var s := Exec(Init(shardId), steps);
             && Own.OwnerOf(s.etcd, shardId) == Some(own) && worker !in s.workers
             && FoldPrefix(shardId, s.log, |s.log|).Ok?
    ensures var s := Exec(Init(shardId), steps);
            var end := Exec(Init(shardId), steps + CatchingUp(s, worker, own.nodeId));
            && end.log == s.log && IsPrefix(end, |s.log|)
            && worker in end.workers && end.workers[worker] == Worker(own, |s.log|, Ready)
  {
    var s := Exec(Init(shardId), steps);
    InvRun(shardId, steps);
    CatchesUp(s, worker, own);
    ExecFive(Init(shardId), steps, CatchingUp(s, worker, own.nodeId));
    InvRun(shardId, steps + CatchingUp(s, worker, own.nodeId));
    hide Exec, Do, CatchingUp, SameShape, FoldPrefix;
  }

  lemma OwnedByNode1() returns (steps: seq<Step>)
    ensures Exec(Init(0), steps) ==
            Init(0).(etcd := Own.State(map[0 := Own.KeyValue(Ownership(0, 1, 1), 1)], 1, map[], map[0 := [1]]))
  {
    var read := [Assigner(Own.Read(1, 0, 1))];
    ExecSnoc(Init(0), [], read[0]);
    assert [] + [read[0]] == read;
    ExecSnoc(Init(0), read, Assigner(Own.Commit(1)));
    var etcd := Own.Do(Own.Do(Own.INIT, Own.Read(1, 0, 1)), Own.Commit(1));
    assert etcd.attempts == map[];
    assert etcd.granted[0] == [1];
    steps := read + [Assigner(Own.Commit(1))];
  }

  lemma CheckedTwiceRun(event: Event) returns (steps: seq<Step>)
    ensures var s := Exec(Init(0), steps);
            && s.workers == map[7 := Worker(Ownership(0, 1, 1), 0, CheckedTwice(1))]
            && s.shardId == 0 && s.log == [event] && s.tables == EMPTY_TABLES && s.applied == 0 && s.checkpoint == None
            && s.etcd == Own.State(map[0 := Own.KeyValue(Ownership(0, 1, 1), 1)], 1, map[], map[0 := [1]])
  {
    var run0 := OwnedByNode1();
    ExecSnoc(Init(0), run0, Produce(event));
    var run1 := run0 + [Produce(event)];
    ExecSnoc(Init(0), run1, Start(7, 1));
    var run2 := run1 + [Start(7, 1)];
    ExecSnoc(Init(0), run2, Load(7));
    var run3 := run2 + [Load(7)];
    ExecSnoc(Init(0), run3, FirstCheck(7, 1));
    var run4 := run3 + [FirstCheck(7, 1)];
    ExecSnoc(Init(0), run4, SecondCheck(7));
    steps := run4 + [SecondCheck(7)];
    assert Exec(Init(0), steps).workers == map[7 := Worker(Ownership(0, 1, 1), 0, CheckedTwice(1))];
  }

  /** A worker may still commit after losing the shard: the second check and the commit are two steps, and
      an assignment fits in between. What it commits is, by `PrefixRefinement`, still a prefix. */
  lemma StaleWorkerCanCommit(event: Event)
    requires event.body.OrderCancelled? && event.id != ""
    ensures exists steps: seq<Step>, worker: int ::
              && worker in Exec(Init(0), steps).workers
              && !Passes(Exec(Init(0), steps), Exec(Init(0), steps).workers[worker])
              && Exec(Init(0), steps).tables == EMPTY_TABLES
              && var tables := Do(Exec(Init(0), steps), CommitBatch(worker)).tables;
                 && tables.inbox == map[event.id := Position(0, 0)]
                 && tables.orders.Keys == {event.body.orderId}
                 && tables.orders[event.body.orderId].status == Cancelled
  {
    var checked := CheckedTwiceRun(event);
    ExecSnoc(Init(0), checked, Assigner(Own.Read(1, 0, 2)));
    var reading := checked + [Assigner(Own.Read(1, 0, 2))];
    ExecSnoc(Init(0), reading, Assigner(Own.Commit(1)));
    var lost := reading + [Assigner(Own.Commit(1))];
    var s := Exec(Init(0), lost);
    assert Own.OwnerOf(s.etcd, 0) == Some(Ownership(0, 2, 2));
    var batch := Records(0, [event], 0, 1);
    assert batch[..0] == [] && batch[0].event.id == event.id;
    assert ApplyBatch(EMPTY_TABLES, batch) == ApplyRecord(EMPTY_TABLES, batch[0]);
    assert Do(s, CommitBatch(7)).tables == ApplyRecord(EMPTY_TABLES, batch[0]).value;
  }
}
