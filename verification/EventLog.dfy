/** The in-memory event log: one append-only sequence of records per shard. */
module EventLog {
  import opened Model

  type Shards = map<int, seq<Record>>

  /** A record's position is where it stands. */
  ghost predicate WellFormed(records: Shards) {
    forall s, i :: s in records && 0 <= i < |records[s]| ==> records[s][i].position == Position(s, i)
  }

  function AppendOne(records: Shards, e: Event): Shards
    requires e.shardId in records
  {
    records[e.shardId := records[e.shardId] + [Record(Position(e.shardId, |records[e.shardId]|), e)]]
  }

  predicate KnowsAll(records: Shards, events: seq<Event>) {
    forall i :: 0 <= i < |events| ==> events[i].shardId in records
  }

  function AppendAll(records: Shards, events: seq<Event>): (after: Shards)
    requires KnowsAll(records, events)
    ensures after.Keys == records.Keys
  {
    if |events| == 0 then records else AppendOne(AppendAll(records, events[..|events| - 1]), events[|events| - 1])
  }

  /** How many events precede the first one of an unknown shard. */
  function KnownPrefix(records: Shards, events: seq<Event>): (n: nat)
    ensures n <= |events| && KnowsAll(records, events[..n])
    ensures n < |events| ==> events[n].shardId !in records
  {
    if |events| == 0 then 0
    else
      var n := KnownPrefix(records, events[..|events| - 1]);
      assert events[..|events| - 1][..n] == events[..n];
      if n < |events| - 1 || events[|events| - 1].shardId !in records then n else |events|
  }

  function OfShard(events: seq<Event>, s: int): seq<Event> {
    if |events| == 0 then []
    else
      var before := OfShard(events[..|events| - 1], s);
      if events[|events| - 1].shardId == s then before + [events[|events| - 1]] else before
  }

  function Stamped(events: seq<Event>, s: int, first: nat): (records: seq<Record>)
    ensures |records| == |events|
    ensures forall i :: 0 <= i < |events| ==> records[i] == Record(Position(s, first + i), events[i])
  {
    seq(|events|, i requires 0 <= i < |events| => Record(Position(s, first + i), events[i]))
  }

  /** Reading a shard from where it ended yields what a batch put there: its events of that shard, in order, at
      consecutive offsets. Other shards' events do not show. */
  lemma {:induction false} ReadBackWhatWasAppended(records: Shards, events: seq<Event>, s: int)
    requires KnowsAll(records, events) && s in records
    ensures AppendAll(records, events)[s] == records[s] + Stamped(OfShard(events, s), s, |records[s]|)
  {
    if |events| > 0 {
      var front := events[..|events| - 1];
      ReadBackWhatWasAppended(records, front, s);
    }
  }

  lemma {:induction false} AppendKeepsPositions(records: Shards, events: seq<Event>)
    requires KnowsAll(records, events) && WellFormed(records)
    ensures WellFormed(AppendAll(records, events))
  {
    if |events| > 0 {
      AppendKeepsPositions(records, events[..|events| - 1]);
    }
  }

  /** The event is in its shard's log, at this position. */
  predicate StandsAt(records: Shards, e: Event, p: Position) {
    && p.shardId == e.shardId && p.shardId in records && 0 <= p.offset < |records[p.shardId]|
    && records[p.shardId][p.offset] == Record(p, e)
  }

  lemma StaysAt(records: Shards, e: Event, p: Position, next: Event)
    requires StandsAt(records, e, p) && next.shardId in records
    ensures StandsAt(AppendOne(records, next), e, p)
  {
  }

  lemma StandsNow(records: Shards, e: Event)
    requires e.shardId in records
    ensures StandsAt(AppendOne(records, e), e, Position(e.shardId, |records[e.shardId]|))
  {
  }

  lemma StopsHere(records: Shards, events: seq<Event>, n: nat)
    requires n <= |events| && KnowsAll(records, events[..n])
    requires n < |events| ==> events[n].shardId !in records
    ensures KnownPrefix(records, events) == n && (KnowsAll(records, events) <==> n == |events|)
  {
    var k := KnownPrefix(records, events);
    forall j | 0 <= j < n ensures events[j].shardId in records {
      assert events[..n][j] == events[j];
    }
    forall j | 0 <= j < k ensures events[j].shardId in records {
      assert events[..k][j] == events[j];
    }
    assert events[..|events|] == events;
  }

  class MemoryEventLog {
    var records: Shards

    constructor (records: Shards)
      requires WellFormed(records)
      ensures this.records == records
    {
      this.records := records;
    }

    /** An unknown shard ends the batch with an error; what came before it in the batch stays appended. */
    method AppendBatch(events: seq<Event>) returns (positions: seq<Position>, failure: Option<Error>)
      modifies this
      ensures failure.None? <==> KnowsAll(old(records), events)
      ensures records == AppendAll(old(records), events[..KnownPrefix(old(records), events)])
      ensures failure.Some? ==> positions == []
      ensures failure.None? ==>
                |positions| == |events| && forall i :: 0 <= i < |events| ==> StandsAt(records, events[i], positions[i])
    {
      positions := [];
      for i := 0 to |events|
        invariant |positions| == i && KnowsAll(old(records), events[..i])
        invariant records == AppendAll(old(records), events[..i])
        invariant forall j :: 0 <= j < i ==> StandsAt(records, events[j], positions[j])
      {
        var e := events[i];
        if e.shardId !in records {
          StopsHere(old(records), events, i);
          return [], Some(ShardNotFound);
        }
        assert events[..i + 1][..i] == events[..i];
        var position := Position(e.shardId, |records[e.shardId]|);
        forall j | 0 <= j < i {
          StaysAt(records, events[j], positions[j], e);
        }
        StandsNow(records, e);
        hide StandsAt, AppendOne;
        records := AppendOne(records, e);
        positions := positions + [position];
      }
      assert events[..|events|] == events;
      StopsHere(old(records), events, |events|);
      failure := None;
    }

    /** The suffix from an offset on; reading exactly at the end yields nothing. */
    method ReadFrom(position: Position) returns (found: seq<Record>, failure: Option<Error>)
      requires position.offset >= 0
      ensures failure.None? <==> position.shardId in records && position.offset <= |records[position.shardId]|
      ensures failure.None? ==> found == records[position.shardId][position.offset..]
      ensures failure.Some? ==> found == []
    {
      if position.shardId !in records { return [], Some(ShardNotFound); }
      if position.offset > |records[position.shardId]| { return [], Some(OffsetOutOfRange); }
      return records[position.shardId][position.offset..], None;
    }
  }
}
