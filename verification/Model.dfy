/** The values every component exchanges: events, order rows, log records and ownership. */
module Model {

  datatype Option<+T> = None | Some(value: T)

  datatype Error =
    | FenceLost
    | EmptyBatch
    | MissingEventId
    | ShardMismatch
    | OffsetGap
    | UnsupportedEvent
    | UndecodablePayload
    | RetryBeforeCreation
    | OrderNotFound
    | NoLongerMatchPending
    | NoNodes
    | InvalidShardId
    | InvalidNodeId
    | DuplicateNode
    | InvalidShardCount
    | InvalidMove
    | ShardNotFound
    | OffsetOutOfRange
    | ClaimLost
    | OutOfRetries
    | ContextCancelled

  datatype Result<+T> = Ok(value: T) | Err(error: Error)

  /** An event's type together with its decoded payload. `Undecodable` stands for a payload the
      codec rejects, `Unsupported` for an event type no order consumer handles. */
  datatype Body =
    | OrderCreated(orderId: int, x: int, y: int)
    | OrderCancelled(orderId: int, reason: string)
    | OrderRetry(orderId: int, attempt: int, reason: string)
    | OrderMatched(orderId: int, riderId: int, score: int)
    | OrderMissed(orderId: int, reason: string)
    | MatchRequested(orderId: int, x: int, y: int, attempt: int)
    | Unsupported(eventType: string)
    | Undecodable

  datatype Event = Event(id: string, body: Body, shardId: int, occurredAt: int)

  datatype Status = Unset | Created | Submitted | Cancelled | RetryRequested | MatchPending | Matched | Missed

  datatype OrderState = OrderState(
    shardId: int, status: Status, x: int, y: int, attempt: int,
    cancelReason: string, retryReason: string, missReason: string,
    riderId: int, score: int, lastEventId: string, updatedAt: int)

  type Orders = map<int, OrderState>

  datatype Position = Position(shardId: int, offset: int)

  datatype Record = Record(position: Position, event: Event)

  datatype Ownership = Ownership(shardId: int, nodeId: int, epoch: int)

  datatype Topic = OrderEvents | MatchRequests

  /** The columns of an outbox row that are fixed when the row is inserted. */
  datatype Message = Message(event: Event, topic: Topic)

  datatype Checkpoint = Checkpoint(offset: int, epoch: int, nodeId: int)

  ghost predicate IsLeast(s: set<nat>, x: nat) {
    x in s && forall y :: y in s ==> x <= y
  }

  ghost function Least(s: set<nat>): (x: nat)
    requires s != {}
    ensures IsLeast(s, x)
  {
    var y :| y in s;
    if s == {y} then y
    else
      var z := Least(s - {y});
      assert s == (s - {y}) + {y};
      if y < z then y else z
  }

  predicate EndsWith(s: string, suffix: string) {
    |s| >= |suffix| && s[|s| - |suffix|..] == suffix
  }

  /** No value twice. */
  predicate Distinct<T(==)>(s: seq<T>) {
    forall i, j :: 0 <= i < j < |s| ==> s[i] != s[j]
  }

  lemma DistinctConcat<T>(a: seq<T>, b: seq<T>)
    requires Distinct(a) && Distinct(b) && forall c :: c in a ==> c !in b
    ensures Distinct(a + b)
  {
    forall i, j | 0 <= i < j < |a + b| ensures (a + b)[i] != (a + b)[j] {
      if i < |a| <= j {
        assert a[i] in a && b[j - |a|] in b;
      }
    }
  }

  lemma DistinctInit<T>(s: seq<T>, last: T)
    requires Distinct(s + [last])
    ensures Distinct(s) && last !in s
  {
    var more := s + [last];
    forall i | 0 <= i < |s| ensures s[i] != last {
      assert more[i] != more[|s|];
    }
    forall i, j | 0 <= i < j < |s| ensures s[i] != s[j] {
      assert more[i] != more[j];
    }
  }

  /** Go's 64-bit integers, where a value is used as a key. */
  type Int64 = v: int | -0x8000_0000_0000_0000 <= v < 0x8000_0000_0000_0000

  /** A rider proposed for an order, and how good a match it would be; less is better. */
  datatype Candidate = Candidate(riderId: Int64, score: int)

  const INT32_SPAN := 0x1_0000_0000
  const INT32_HALF := 0x8000_0000

  /** Go's conversion to int32: keep the low 32 bits, read as two's complement. */
  function WrapInt32(v: int): (r: int)
    ensures -INT32_HALF <= r < INT32_HALF
    ensures -INT32_HALF <= v < INT32_HALF ==> r == v
  {
    (v + INT32_HALF) % INT32_SPAN - INT32_HALF
  }

  /** The event a partition hands out carries the partition's own shard number. */
  function RecordAt(shardId: int, log: seq<Event>, offset: nat): Record
    requires offset < |log|
  {
    Record(Position(shardId, offset), log[offset].(shardId := shardId))
  }

  function Records(shardId: int, log: seq<Event>, lo: nat, hi: nat): (rs: seq<Record>)
    requires lo <= hi <= |log|
    ensures |rs| == hi - lo
    ensures forall i :: 0 <= i < hi - lo ==> rs[i] == RecordAt(shardId, log, lo + i)
  {
    seq(hi - lo, i requires 0 <= i < hi - lo => RecordAt(shardId, log, lo + i))
  }
}
