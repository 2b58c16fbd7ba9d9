/** One shard's checkpoint in etcd: any number of savers, each reading the key and then committing a
    compare-and-swap on its revision, with every interleaving of the two steps allowed. */
module EtcdCheckpoint {
  import opened Model

  datatype Row = Row(saved: Checkpoint, modRevision: nat)

  /** A saver that has read the key and not yet committed. */
  datatype Attempt = Attempt(next: Checkpoint, seen: Option<Row>)

  datatype State = State(row: Option<Row>, revision: nat, attempts: map<nat, Attempt>)

  datatype Step =
    | Get(saver: nat, shardId: int, next: Checkpoint)
    | Commit(saver: nat)
    | Abandon(saver: nat)

  const INIT := State(None, 0, map[])

  /** What a saver refuses before it reads anything. */
  predicate IsWellFormed(shardId: int, c: Checkpoint) {
    shardId >= 0 && c.offset >= 0 && c.epoch > 0 && c.nodeId > 0
  }

  predicate ShouldSave(current: Option<Row>, next: Checkpoint) {
    current.Some? ==> next.offset >= current.value.saved.offset && next.epoch >= current.value.saved.epoch
  }

  predicate CompareHolds(s: State, a: Attempt) {
    match a.seen
    case None => s.row.None?
    case Some(row) => s.row.Some? && s.row.value.modRevision == row.modRevision
  }

  /** A saver whose read shows it to be stale gives up at once; one whose compare fails may get again. */
  function Do(s: State, step: Step): State {
    match step
    case Get(saver, shardId, next) =>
      if !IsWellFormed(shardId, next) then s
      else if ShouldSave(s.row, next) then s.(attempts := s.attempts[saver := Attempt(next, s.row)])
      else s.(attempts := s.attempts - {saver})
    case Commit(saver) =>
      if saver !in s.attempts then s
      else
        var a := s.attempts[saver];
        if CompareHolds(s, a) then State(Some(Row(a.next, s.revision + 1)), s.revision + 1, s.attempts - {saver})
        else s.(attempts := s.attempts - {saver})
    case Abandon(saver) => s.(attempts := s.attempts - {saver})
  }

  function Exec(s: State, steps: seq<Step>): State {
    if |steps| == 0 then s else Do(Exec(s, steps[..|steps| - 1]), steps[|steps| - 1])
  }

  /** What was read is old, or is still there; either way it is no later than the key, and a saver's value
      is no earlier than what it read. */
  predicate SeenIsOld(s: State, a: Attempt) {
    && ShouldSave(a.seen, a.next)
    && a.next.offset >= 0 && a.next.epoch > 0 && a.next.nodeId > 0
    && (a.seen.Some? ==>
          && s.row.Some?
          && a.seen.value.modRevision <= s.row.value.modRevision
          && (a.seen.value.modRevision == s.row.value.modRevision ==> a.seen == s.row))
  }

  ghost predicate Inv(s: State) {
    && (s.row.Some? ==> s.row.value.modRevision <= s.revision)
    && (s.row.Some? ==> s.row.value.saved.offset >= 0 && s.row.value.saved.epoch > 0 && s.row.value.saved.nodeId > 0)
    && (forall saver :: saver in s.attempts ==> SeenIsOld(s, s.attempts[saver]))
  }

  /** The second state's checkpoint is not behind the first's. */
  predicate NotBehind(before: Option<Row>, after: Option<Row>) {
    before.Some? ==>
      && after.Some?
      && before.value.saved.offset <= after.value.saved.offset
      && before.value.saved.epoch <= after.value.saved.epoch
  }

  lemma InvStep(s: State, step: Step)
    requires Inv(s)
    ensures Inv(Do(s, step))
    ensures NotBehind(s.row, Do(s, step).row)
  {
    if step.Commit? && step.saver in s.attempts {
      assert SeenIsOld(s, s.attempts[step.saver]);
    }
    forall other | other in Do(s, step).attempts ensures SeenIsOld(Do(s, step), Do(s, step).attempts[other]) {
      if other in s.attempts { assert SeenIsOld(s, s.attempts[other]); }
    }
  }

  lemma {:induction false} InvRun(steps: seq<Step>)
    ensures Inv(Exec(INIT, steps))
  {
    if |steps| > 0 {
      InvRun(steps[..|steps| - 1]);
      InvStep(Exec(INIT, steps[..|steps| - 1]), steps[|steps| - 1]);
    }
  }

  /** The checkpoint only moves forward, however many savers race: no later state of a run has a lower offset
      or a lower epoch, or has lost the row. */
  lemma {:induction false} CheckpointOnlyMovesForward(steps: seq<Step>, n: nat)
    requires n <= |steps|
    ensures NotBehind(Exec(INIT, steps[..n]).row, Exec(INIT, steps).row)
    decreases |steps|
  {
    if n == |steps| {
      assert steps[..n] == steps;
    } else {
      var front := steps[..|steps| - 1];
      assert front[..n] == steps[..n];
      CheckpointOnlyMovesForward(front, n);
      InvRun(front);
      InvStep(Exec(INIT, front), steps[|steps| - 1]);
    }
  }

  /** A save that reports success is durable: from then on the stored checkpoint is at least the saved one. */
  lemma SavedIsNeverLost(steps: seq<Step>, n: nat, saver: nat)
    requires n < |steps| && steps[n] == Commit(saver)
    requires saver in Exec(INIT, steps[..n]).attempts
    requires CompareHolds(Exec(INIT, steps[..n]), Exec(INIT, steps[..n]).attempts[saver])
    ensures var next := Exec(INIT, steps[..n]).attempts[saver].next;
            var row := Exec(INIT, steps).row;
            row.Some? && row.value.saved.offset >= next.offset && row.value.saved.epoch >= next.epoch
  {
    assert steps[..n + 1][..n] == steps[..n];
    CheckpointOnlyMovesForward(steps, n + 1);
  }

  /** A save commits exactly when nobody has written since its read; nothing else it could have seen differs. */
  lemma CommitsExactlyWhenUnwritten(steps: seq<Step>, saver: nat)
    requires saver in Exec(INIT, steps).attempts
    ensures var s := Exec(INIT, steps);
            CompareHolds(s, s.attempts[saver]) <==> s.row == s.attempts[saver].seen
  {
    InvRun(steps);
    assert SeenIsOld(Exec(INIT, steps), Exec(INIT, steps).attempts[saver]);
  }

  /** A saver that is let get and commit without anybody else in between stores its checkpoint exactly when it is well
      formed and neither its offset nor its epoch is below the stored one; otherwise nothing changes. */
  lemma UndisturbedSave(steps: seq<Step>, saver: nat, shardId: int, next: Checkpoint)
    requires saver !in Exec(INIT, steps).attempts
    ensures var row := Exec(INIT, steps).row;
            var after := Do(Do(Exec(INIT, steps), Get(saver, shardId, next)), Commit(saver)).row;
            if && shardId >= 0 && next.offset >= 0 && next.epoch > 0 && next.nodeId > 0
               && (row.None? || (next.offset >= row.value.saved.offset && next.epoch >= row.value.saved.epoch))
            then after.Some? && after.value.saved == next
            else after == row
  {
  }

  // ---------------------------------------------------------------------------------------------
  // One saver's retry loop
  // ---------------------------------------------------------------------------------------------

  const MAX_RETRIES := 8

  datatype Outcome = Saved | Malformed | Stale | OutOfRetries

  class EtcdKey {
    var row: Option<Row>
    var revision: nat

    constructor ()
      ensures row == None && revision == 0
    {
      row := None;
      revision := 0;
    }

    ghost predicate Valid()
      reads this
    {
      row.Some? ==> row.value.modRevision <= revision
    }

    method Put(c: Checkpoint)
      requires Valid()
      modifies this
      ensures Valid() && revision == old(revision) + 1 && row == Some(Row(c, revision))
    {
      revision := revision + 1;
      row := Some(Row(c, revision));
    }

    /** What other savers get through while this one is between its read and its commit. */
    method Interfere(others: seq<Checkpoint>)
      requires Valid()
      modifies this
      ensures Valid() && NotBehind(old(row), row) && revision >= old(revision)
      ensures row == old(row) || (row.Some? && row.value.modRevision > old(revision))
      ensures others == [] ==> row == old(row)
    {
      for n := 0 to |others|
        invariant Valid() && NotBehind(old(row), row) && revision >= old(revision)
        invariant row == old(row) || (row.Some? && row.value.modRevision > old(revision))
        invariant n == 0 ==> row == old(row)
      {
        if ShouldSave(row, others[n]) {
          Put(others[n]);
        }
      }
    }

    /** `others(n)` are the writes that race with the n-th attempt. The stored checkpoint does not go back whatever
        the outcome; a success stored `next` itself, staleness means the key is ahead of `next`, running out of retries
        that all eight attempts were raced, and with nobody else about the save succeeds exactly when neither offset nor
        epoch is below the stored ones. */
    method SaveShardCheckpoint(shardId: int, next: Checkpoint, others: nat -> seq<Checkpoint>)
      returns (outcome: Outcome, ghost raced: nat)
      requires Valid()
      modifies this
      ensures Valid() && NotBehind(old(row), row)
      ensures outcome.Malformed? <==> !(shardId >= 0 && next.offset >= 0 && next.epoch > 0 && next.nodeId > 0)
      ensures outcome.Malformed? ==> row == old(row)
      ensures outcome.Saved? ==> row.Some? && row.value.saved == next
      ensures outcome.Stale? ==>
                row.Some? && (next.offset < row.value.saved.offset || next.epoch < row.value.saved.epoch)
      ensures raced <= 8 && (outcome.OutOfRetries? <==> raced == 8) && forall n :: 0 <= n < raced ==> others(n) != []
      ensures !outcome.Malformed? && (forall n :: others(n) == []) ==>
                if old(row).None? || (next.offset >= old(row).value.saved.offset
                                      && next.epoch >= old(row).value.saved.epoch)
                then outcome == Saved
                else outcome == Stale && row == old(row)
    {
      raced := 0;
      if !IsWellFormed(shardId, next) { return Malformed, 0; }
      for attempt := 0 to MAX_RETRIES
        invariant Valid() && NotBehind(old(row), row)
        invariant raced == attempt && forall n :: 0 <= n < raced ==> others(n) != []
        invariant if attempt == 0 then row == old(row) else others(0) != []
      {
        var seen := row;
        if !ShouldSave(seen, next) { return Stale, raced; }
        Interfere(others(attempt));
        if (if seen.Some? then row.Some? && row.value.modRevision == seen.value.modRevision else row.None?) {
          Put(next);
          return Saved, raced;
        }
        raced := attempt + 1;
      }
      outcome := Outcome.OutOfRetries;
    }
  }
}
