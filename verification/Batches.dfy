/** The batched shard worker: records taken from a channel in batches, each batch one fenced transaction. */
module Batches {
  import opened Model
  import opened OrderApplier

  /** What a `select` on the channel, the timer and the context can deliver. */
  datatype Tick = Delivered(record: Record) | ChannelClosed | TimerFired | ContextDone

  /** How collecting one batch ends. `Waiting`: everything delivered so far has been looked at. */
  datatype Collection = Batch(records: seq<Record>) | Closed | Stopped | Waiting(held: seq<Record>)

  /** The records delivered, in order. */
  function Stream(ticks: seq<Tick>): seq<Record> {
    if |ticks| == 0 then []
    else
      var before := Stream(ticks[..|ticks| - 1]);
      match ticks[|ticks| - 1]
      case Delivered(record) => before + [record]
      case _ => before
  }

  lemma {:induction false} StreamConcat(a: seq<Tick>, b: seq<Tick>)
    ensures Stream(a + b) == Stream(a) + Stream(b)
    decreases |b|
  {
    if |b| == 0 {
      assert a + b == a;
    } else {
      assert (a + b)[..|a + b| - 1] == a + b[..|b| - 1];
      StreamConcat(a, b[..|b| - 1]);
    }
  }

  lemma OneTick(ticks: seq<Tick>, from: nat, next: nat)
    requires from <= next < |ticks|
    ensures Stream(ticks[from..next + 1]) == Stream(ticks[from..next]) + Stream([ticks[next]])
    ensures Stream([ticks[next]]) == if ticks[next].Delivered? then [ticks[next].record] else []
  {
    assert ticks[from..next + 1] == ticks[from..next] + [ticks[next]];
    StreamConcat(ticks[from..next], [ticks[next]]);
    assert [ticks[next]][..0] == [];
  }

  /** How collecting goes on from a tick, with the records collected so far. */
  function Collecting(ticks: seq<Tick>, from: nat, batchSize: int, held: seq<Record>): (r: (Collection, nat))
    requires from <= |ticks|
    ensures from <= r.1 <= |ticks|
    decreases |ticks| - from
  {
    if from == |ticks| then (Waiting(held), from)
    else match ticks[from]
      case ContextDone => (Stopped, from + 1)
      case ChannelClosed => (if held == [] then Closed else Batch(held), from + 1)
      case TimerFired => if held == [] then Collecting(ticks, from + 1, batchSize, held) else (Batch(held), from + 1)
      case Delivered(record) =>
        if |held| + 1 >= batchSize then (Batch(held + [record]), from + 1)
        else Collecting(ticks, from + 1, batchSize, held + [record])
  }

  /** Tick `i` does not end the collection that started at `from`: the context and the channel are fine, a timer that
      fires finds nothing collected, and the batch is not full yet. */
  predicate GoesOn(ticks: seq<Tick>, from: nat, i: nat, batchSize: int)
    requires from <= i < |ticks|
  {
    && !ticks[i].ContextDone? && !ticks[i].ChannelClosed?
    && (ticks[i].TimerFired? ==> Stream(ticks[from..i]) == [])
    && |Stream(ticks[from..i + 1])| < batchSize
  }

  /** A batch is the records delivered since the last one, in order, none left out: at least one, at most
      `batchSize`. The timer runs from the first record on; a closed channel still yields what was collected. The first
      tick that can end a collection does: a batch that is not full ends at a timer or a closed channel. */
  method CollectRecordBatch(ticks: seq<Tick>, from: nat, batchSize: int) returns (c: Collection, next: nat)
    requires from <= |ticks| && batchSize >= 1
    ensures (c, next) == Collecting(ticks, from, batchSize, [])
    ensures c.Batch? ==> c.records == Stream(ticks[from..next]) && 1 <= |c.records| <= batchSize && from < next
    ensures c.Closed? ==> Stream(ticks[from..next]) == [] && next > from && ticks[next - 1] == ChannelClosed
    ensures c.Stopped? ==> next > from && ticks[next - 1] == ContextDone
    ensures c.Waiting? ==> next == |ticks| && c.held == Stream(ticks[from..next]) && |c.held| < batchSize
    ensures forall i :: from <= i < next && (i + 1 < next || c.Waiting?) ==> GoesOn(ticks, from, i, batchSize)
    ensures c.Batch? ==>
              if |c.records| == batchSize then ticks[next - 1].Delivered?
              else ticks[next - 1].TimerFired? || ticks[next - 1].ChannelClosed?
  {
    var records := [];
    next := from;
    while next < |ticks|
      invariant from <= next <= |ticks|
      invariant records == Stream(ticks[from..next])
      invariant |records| < batchSize
      invariant forall i :: from <= i < next ==> GoesOn(ticks, from, i, batchSize)
      invariant Collecting(ticks, from, batchSize, []) == Collecting(ticks, next, batchSize, records)
    {
      OneTick(ticks, from, next);
      var tick := ticks[next];
      next := next + 1;
      match tick {
        case ContextDone => return Stopped, next;
        case ChannelClosed =>
          if records == [] { return Closed, next; }
          return Batch(records), next;
        case TimerFired =>
          if records != [] { return Batch(records), next; }
        case Delivered(record) =>
          records := records + [record];
          if |records| == batchSize { return Batch(records), next; }
      }
    }
    c := Waiting(records);
  }

  ghost predicate SizesWithin(batches: seq<seq<Record>>, batchSize: int) {
    forall i :: 0 <= i < |batches| ==> 1 <= |batches[i]| <= batchSize
  }

  /** The step to go on with after these records. */
  function NextStep(start: int, taken: seq<Record>): int {
    if taken == [] then start else taken[|taken| - 1].position.offset + 1
  }

  /** The batches committed so far are what was taken from the stream, and the tables say so. */
  ghost predicate Progress(first: Tables, now: Tables, batches: seq<seq<Record>>, taken: seq<Record>, batchSize: int) {
    && SizesWithin(batches, batchSize)
    && Concat(batches) == taken
    && ApplyBatch(first, taken) == Ok(now)
  }

  lemma ProgressOne(first: Tables, mid: Tables, now: Tables, batches: seq<seq<Record>>, taken: seq<Record>,
                    batchSize: int, records: seq<Record>)
    requires Progress(first, mid, batches, taken, batchSize)
    requires 1 <= |records| <= batchSize && ApplyBatch(mid, records) == Ok(now)
    ensures Progress(first, now, batches + [records], taken + records, batchSize)
  {
    BatchSplits(first, taken, records);
    assert (batches + [records])[..|batches|] == batches;
  }

  lemma Advance(ticks: seq<Tick>, next: nat, after: nat)
    requires next <= after <= |ticks|
    ensures Stream(ticks[..after]) == Stream(ticks[..next]) + Stream(ticks[next..after])
  {
    assert ticks[..after] == ticks[..next] + ticks[next..after];
    StreamConcat(ticks[..next], ticks[next..after]);
  }

  /** What has to go right for a batch to be committed; the two answers are etcd's at the two fence checks. */
  predicate Commits(t: Tables, nodeId: int, own: Ownership, records: seq<Record>, before: Option<Ownership>,
                    after: Option<Ownership>) {
    && ValidateBatch(records, own).None? && FencePasses(nodeId, own, before)
    && ApplyBatch(t, records).Ok? && FencePasses(nodeId, own, after)
  }

  /** The error of one turn: a cancelled context has its own, a batch that cannot be committed has one, a closed
      stream has none. */
  predicate Outcome(t: Tables, nodeId: int, own: Ownership, c: Collection, before: Option<Ownership>,
                    after: Option<Ownership>, failure: Option<Error>) {
    match c
    case Batch(records) => failure.None? <==> Commits(t, nodeId, own, records, before, after)
    case Stopped => failure == Some(ContextCancelled)
    case _ => failure.None?
  }

  /** One turn of the worker's loop: a batch is collected and committed, or the loop ends. */
  method CommitOne(db: OrderDatabase, nodeId: int, own: Ownership, ticks: seq<Tick>, from: nat, batchSize: int,
                   before: Option<Ownership>, after: Option<Ownership>)
    returns (records: seq<Record>, next: nat, failure: Option<Error>)
    requires from <= |ticks| && batchSize >= 1
    modifies db
    ensures var c := Collecting(ticks, from, batchSize, []);
            && next == c.1
            && Outcome(old(db.tables), nodeId, own, c.0, before, after, failure)
            && records == (if c.0.Batch? && failure.None? then c.0.records else [])
            && (c.0.Batch? ==> c.0.records != [])
    ensures records == [] ==> db.tables == old(db.tables)
    ensures records != [] ==>
              && from < next <= |ticks| && records == Stream(ticks[from..next]) && |records| <= batchSize
              && ApplyBatch(old(db.tables), records) == Ok(db.tables)
  {
    var c: Collection;
    c, next := CollectRecordBatch(ticks, from, batchSize);
    if c.Stopped? { return [], next, Some(ContextCancelled); }
    if !c.Batch? { return [], next, None; }
    hide ApplyBatch, ValidateBatch, Stream, Collecting;
    failure := db.ApplyRecordsWithFence(nodeId, c.records, own, before, after);
    records := if failure.Some? then [] else c.records;
  }

  /** The loop ends only when no batch comes next, or when the next one cannot be committed. */
  predicate EndsHere(t: Tables, nodeId: int, own: Ownership, c: Collection, before: Option<Ownership>,
                     after: Option<Ownership>, failure: Option<Error>) {
    Outcome(t, nodeId, own, c, before, after, failure) && (c.Batch? ==> failure.Some?)
  }

  lemma EndsNow(t: Tables, nodeId: int, own: Ownership, c: Collection, before: Option<Ownership>,
                after: Option<Ownership>, failure: Option<Error>)
    requires Outcome(t, nodeId, own, c, before, after, failure) && (c.Batch? ==> failure.Some?)
    ensures EndsHere(t, nodeId, own, c, before, after, failure)
  {
  }

  lemma NextStepIs(start: int, taken: seq<Record>, records: seq<Record>)
    ensures NextStep(start, []) == start
    ensures records != [] ==> NextStep(start, taken + records) == records[|records| - 1].position.offset + 1
  {
  }

  /** The worker's loop; `etcd(i)` is the answer to the i-th fence check. */
  method RunLoop(db: OrderDatabase, nodeId: int, own: Ownership, ticks: seq<Tick>, batchSize: int,
                 etcd: nat -> Option<Ownership>, start: int)
    returns (nextStep: int, failure: Option<Error>, ghost batches: seq<seq<Record>>, ghost end: nat)
    requires batchSize >= 1
    modifies db
    ensures end <= |ticks| && Progress(old(db.tables), db.tables, batches, Stream(ticks[..end]), batchSize)
    ensures nextStep == NextStep(start, Stream(ticks[..end]))
    ensures EndsHere(db.tables, nodeId, own, Collecting(ticks, end, batchSize, []).0,
                     etcd(2 * |batches|), etcd(2 * |batches| + 1), failure)
  {
    batches, end := [], 0;
    nextStep := start;
    var next := 0;
    var checks := 0;
    assert ticks[..0] == [];
    assert Progress(db.tables, db.tables, batches, [], batchSize);
    assert [] == Stream(ticks[..next]);
    hide Progress, Stream, Collecting, Commits, NextStep, EndsHere, ApplyBatch;
    assert nextStep == NextStep(start, []) by { NextStepIs(start, [], []); }
    while true
      invariant 0 <= next <= |ticks| && checks == 2 * |batches|
      invariant Progress(old(db.tables), db.tables, batches, Stream(ticks[..next]), batchSize)
      invariant nextStep == NextStep(start, Stream(ticks[..next]))
      decreases |ticks| - next
    {
      ghost var mid := db.tables;
      var before, after := etcd(checks), etcd(checks + 1);
      var records, reached, problem := CommitOne(db, nodeId, own, ticks, next, batchSize, before, after);
      failure := problem;
      if records == [] {
        EndsNow(db.tables, nodeId, own, Collecting(ticks, next, batchSize, []).0, before, after, failure);
        break;
      }
      Advance(ticks, next, reached);
      ProgressOne(old(db.tables), mid, db.tables, batches, Stream(ticks[..next]), batchSize, records);
      NextStepIs(start, Stream(ticks[..next]), records);
      batches := batches + [records];
      nextStep := records[|records| - 1].position.offset + 1;
      next, checks := reached, checks + 2;
    }
    end := next;
  }

  lemma Finished(first: Tables, now: Tables, batches: seq<seq<Record>>, taken: seq<Record>, batchSize: int,
                 ticks: seq<Tick>, next: nat)
    requires next <= |ticks| && taken == Stream(ticks[..next]) && Progress(first, now, batches, taken, batchSize)
    ensures SizesWithin(batches, batchSize) && Concat(batches) == taken && taken <= Stream(ticks)
    ensures ApplyBatch(first, taken) == Ok(now) && ApplyBatches(first, batches) == Ok(now)
  {
    Advance(ticks, next, |ticks|);
    assert ticks[..|ticks|] == ticks;
    BatchingIsInvisible(first, batches);
  }

  /** The tables end as if the records of the committed batches had been applied in one go; those records are the
      stream's, from its start, in order, nothing lost or repeated; and the next step remembered is the one after
      the last of them. */
  method RunBatchedShard(db: OrderDatabase, nodeId: int, own: Ownership, ticks: seq<Tick>, batchSize: int,
                         etcd: nat -> Option<Ownership>, start: int)
    returns (nextStep: int, failure: Option<Error>, ghost batches: seq<seq<Record>>, ghost end: nat)
    requires batchSize >= 1
    modifies db
    ensures SizesWithin(batches, batchSize)
    ensures end <= |ticks| && Concat(batches) == Stream(ticks[..end]) <= Stream(ticks)
    ensures ApplyBatch(old(db.tables), Concat(batches)) == Ok(db.tables)
    ensures ApplyBatches(old(db.tables), batches) == Ok(db.tables)
    ensures nextStep == NextStep(start, Concat(batches))
    ensures EndsHere(db.tables, nodeId, own, Collecting(ticks, end, batchSize, []).0,
                     etcd(2 * |batches|), etcd(2 * |batches| + 1), failure)
  {
    hide Progress, Stream, ApplyBatch, ApplyBatches, Concat, SizesWithin, Collecting, EndsHere, NextStep;
    nextStep, failure, batches, end := RunLoop(db, nodeId, own, ticks, batchSize, etcd, start);
    Finished(old(db.tables), db.tables, batches, Stream(ticks[..end]), batchSize, ticks, end);
  }
}
