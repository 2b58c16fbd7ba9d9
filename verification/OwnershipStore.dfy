/** Shard ownership in etcd: any number of assigners, each reading a key and then committing a
    compare-and-swap on its revision, with every interleaving of the two steps allowed. */
module OwnershipStore {
  import opened Model

  datatype KeyValue = KeyValue(own: Ownership, modRevision: nat)

  /** An assigner that has read the key and not yet committed its transaction. */
  datatype Attempt = Attempt(shardId: int, nodeId: int, seen: Option<KeyValue>)

  /** `granted[shard]` records the node of every successful assignment, oldest first; no step reads it. */
  datatype State = State(
    kvs: map<int, KeyValue>, revision: nat, attempts: map<int, Attempt>, granted: map<int, seq<int>>)

  datatype Step =
    | Read(assigner: int, shardId: int, nodeId: int)
    | Commit(assigner: int)
    | Abandon(assigner: int)

  const INIT := State(map[], 0, map[], map[])

  function Key(s: State, shardId: int): Option<KeyValue> {
    if shardId in s.kvs then Some(s.kvs[shardId]) else None
  }

  function OwnerOf(s: State, shardId: int): Option<Ownership> {
    if shardId in s.kvs then Some(s.kvs[shardId].own) else None
  }

  function Granted(s: State, shardId: int): seq<int> {
    if shardId in s.granted then s.granted[shardId] else []
  }

  /** The compare of the transaction: the key is as absent, or as unmodified, as it was when read. */
  predicate CompareHolds(s: State, a: Attempt) {
    match a.seen
    case None => a.shardId !in s.kvs
    case Some(kv) => a.shardId in s.kvs && s.kvs[a.shardId].modRevision == kv.modRevision
  }

  function Do(s: State, step: Step): State {
    match step
    case Read(assigner, shardId, nodeId) =>
      if shardId < 0 || nodeId <= 0 then s
      else s.(attempts := s.attempts[assigner := Attempt(shardId, nodeId, Key(s, shardId))])
    case Commit(assigner) =>
      if assigner !in s.attempts then s
      else
        var a := s.attempts[assigner];
        var rest := s.attempts - {assigner};
        if !CompareHolds(s, a) then s.(attempts := rest)
        else
          var epoch := if a.seen.Some? then a.seen.value.own.epoch + 1 else 1;
          State(s.kvs[a.shardId := KeyValue(Ownership(a.shardId, a.nodeId, epoch), s.revision + 1)],
                s.revision + 1, rest, s.granted[a.shardId := Granted(s, a.shardId) + [a.nodeId]])
    case Abandon(assigner) => s.(attempts := s.attempts - {assigner})
  }

  function Exec(s: State, steps: seq<Step>): State {
    if |steps| == 0 then s else Do(Exec(s, steps[..|steps| - 1]), steps[|steps| - 1])
  }

  // ---------------------------------------------------------------------------------------------
  // The invariant
  // ---------------------------------------------------------------------------------------------

  /** The epoch of a key counts the assignments made to it and names the latest of them. */
  predicate EpochCounts(s: State, shardId: int) {
    if shardId in s.kvs then
      var own := s.kvs[shardId].own;
      var nodes := Granted(s, shardId);
      && own.shardId == shardId
      && own.epoch == |nodes| >= 1
      && own.nodeId == nodes[|nodes| - 1]
    else Granted(s, shardId) == []
  }

  /** A revision names one version of a key for ever. */
  predicate SeenIsOld(s: State, a: Attempt) {
    a.seen.Some? ==>
      && a.shardId in s.kvs
      && a.seen.value.modRevision <= s.kvs[a.shardId].modRevision
      && (a.seen.value.modRevision == s.kvs[a.shardId].modRevision ==> a.seen.value == s.kvs[a.shardId])
  }

  ghost predicate Inv(s: State) {
    && (forall shardId :: EpochCounts(s, shardId))
    && (forall shardId :: shardId in s.kvs ==> s.kvs[shardId].modRevision <= s.revision)
    && (forall assigner :: assigner in s.attempts ==> SeenIsOld(s, s.attempts[assigner]))
  }

  lemma InvCommit(s: State, assigner: int)
    requires Inv(s) && assigner in s.attempts && CompareHolds(s, s.attempts[assigner])
    ensures Inv(Do(s, Commit(assigner)))
    ensures Granted(Do(s, Commit(assigner)), s.attempts[assigner].shardId)
            == Granted(s, s.attempts[assigner].shardId) + [s.attempts[assigner].nodeId]
  {
    var after := Do(s, Commit(assigner));
    var target := s.attempts[assigner].shardId;
    assert SeenIsOld(s, s.attempts[assigner]) && EpochCounts(s, target);
    forall shardId ensures EpochCounts(after, shardId) {
      assert EpochCounts(s, shardId);
    }
    forall other | other in after.attempts ensures SeenIsOld(after, after.attempts[other]) {
      assert SeenIsOld(s, s.attempts[other]);
    }
  }

  lemma InvStep(s: State, step: Step)
    requires Inv(s)
    ensures Inv(Do(s, step))
    ensures forall shardId :: Granted(s, shardId) <= Granted(Do(s, step), shardId)
    ensures forall shardId :: |Granted(Do(s, step), shardId)| <= |Granted(s, shardId)| + 1
    ensures forall shardId :: Granted(Do(s, step), shardId) == Granted(s, shardId) ==>
                                OwnerOf(Do(s, step), shardId) == OwnerOf(s, shardId)
  {
    var after := Do(s, step);
    if step.Commit? && step.assigner in s.attempts && CompareHolds(s, s.attempts[step.assigner]) {
      InvCommit(s, step.assigner);
      var a := s.attempts[step.assigner];
      forall shardId
        ensures Granted(s, shardId) <= Granted(after, shardId)
        ensures |Granted(after, shardId)| <= |Granted(s, shardId)| + 1
        ensures Granted(after, shardId) == Granted(s, shardId) ==> OwnerOf(after, shardId) == OwnerOf(s, shardId)
      {
        if shardId == a.shardId {
          assert |Granted(after, shardId)| == |Granted(s, shardId)| + 1;
        }
      }
    } else {
      assert after.kvs == s.kvs && after.granted == s.granted && after.revision == s.revision;
      forall shardId ensures EpochCounts(after, shardId) {
        assert EpochCounts(s, shardId);
      }
      forall other | other in after.attempts ensures SeenIsOld(after, after.attempts[other]) {
        if other in s.attempts {
          assert SeenIsOld(s, s.attempts[other]);
        }
      }
    }
  }

  // ---------------------------------------------------------------------------------------------
  // Whole runs
  // ---------------------------------------------------------------------------------------------

  function Epoch(s: State, shardId: int): int {
    if shardId in s.kvs then s.kvs[shardId].own.epoch else 0
  }

  lemma {:induction false} InvRun(steps: seq<Step>)
    ensures Inv(Exec(INIT, steps))
  {
    if |steps| > 0 {
      InvRun(steps[..|steps| - 1]);
      InvStep(Exec(INIT, steps[..|steps| - 1]), steps[|steps| - 1]);
    }
  }

  /** Each step leaves a shard's ownership alone or replaces it under the next epoch. */
  lemma EpochsRiseByOne(steps: seq<Step>, step: Step, shardId: int)
    ensures var before := Exec(INIT, steps);
            var after := Do(before, step);
            || OwnerOf(after, shardId) == OwnerOf(before, shardId)
            || Epoch(after, shardId) == Epoch(before, shardId) + 1
  {
    var before := Exec(INIT, steps);
    InvRun(steps);
    InvStep(before, step);
    assert EpochCounts(before, shardId) && EpochCounts(Do(before, step), shardId);
    assert Granted(before, shardId) <= Granted(Do(before, step), shardId);
    if Granted(Do(before, step), shardId) == Granted(before, shardId) {
      assert OwnerOf(Do(before, step), shardId) == OwnerOf(before, shardId);
    } else {
      assert |Granted(Do(before, step), shardId)| == |Granted(before, shardId)| + 1;
    }
  }

  lemma {:induction false} GrantedOnlyGrows(steps: seq<Step>, i: nat, j: nat, shardId: int)
    requires i <= j <= |steps|
    ensures Granted(Exec(INIT, steps[..i]), shardId) <= Granted(Exec(INIT, steps[..j]), shardId)
    ensures Granted(Exec(INIT, steps[..i]), shardId) == Granted(Exec(INIT, steps[..j]), shardId) ==>
              OwnerOf(Exec(INIT, steps[..i]), shardId) == OwnerOf(Exec(INIT, steps[..j]), shardId)
    decreases j
  {
    if i < j {
      GrantedOnlyGrows(steps, i, j - 1, shardId);
      InvRun(steps[..j - 1]);
      assert steps[..j][..j - 1] == steps[..j - 1];
      InvStep(Exec(INIT, steps[..j - 1]), steps[j - 1]);
      assert Granted(Exec(INIT, steps[..j - 1]), shardId) <= Granted(Exec(INIT, steps[..j]), shardId);
    }
  }

  /** (shard, epoch) names one node for ever, and between two moments at which a shard has the same
      epoch its ownership was that one all along: a fence passed twice was never lost in between. */
  lemma FenceWindow(steps: seq<Step>, i: nat, j: nat, k: nat, shardId: int)
    requires i <= j <= k <= |steps|
    requires Epoch(Exec(INIT, steps[..i]), shardId) == Epoch(Exec(INIT, steps[..k]), shardId)
    ensures OwnerOf(Exec(INIT, steps[..i]), shardId) == OwnerOf(Exec(INIT, steps[..j]), shardId)
            == OwnerOf(Exec(INIT, steps[..k]), shardId)
  {
    InvRun(steps[..i]);
    InvRun(steps[..k]);
    assert EpochCounts(Exec(INIT, steps[..i]), shardId) && EpochCounts(Exec(INIT, steps[..k]), shardId);
    GrantedOnlyGrows(steps, i, j, shardId);
    GrantedOnlyGrows(steps, j, k, shardId);
  }

  lemma EpochsNeverFall(steps: seq<Step>, i: nat, j: nat, shardId: int)
    requires i <= j <= |steps|
    ensures Epoch(Exec(INIT, steps[..i]), shardId) <= Epoch(Exec(INIT, steps[..j]), shardId)
  {
    InvRun(steps[..i]);
    InvRun(steps[..j]);
    GrantedOnlyGrows(steps, i, j, shardId);
    assert EpochCounts(Exec(INIT, steps[..i]), shardId) && EpochCounts(Exec(INIT, steps[..j]), shardId);
  }

  /** Two windows, each from a passed fence check to a later passed check for the same ownership: if the
      epochs differ then the windows are disjoint in time, the lower epoch's coming first. */
  lemma FenceWindowsAreDisjoint(steps: seq<Step>, a: nat, b: nat, c: nat, d: nat, shardId: int)
    requires a <= b <= |steps| && c <= d <= |steps|
    requires Epoch(Exec(INIT, steps[..a]), shardId) == Epoch(Exec(INIT, steps[..b]), shardId)
             < Epoch(Exec(INIT, steps[..c]), shardId) == Epoch(Exec(INIT, steps[..d]), shardId)
    ensures b < c
  {
    if c <= b {
      EpochsNeverFall(steps, c, b, shardId);
    }
  }

  /** An assigner that is let read and commit without anybody else in between makes its node the owner under the next
      epoch exactly when its ids are valid, and changes no other shard's ownership. */
  lemma UncontendedAssignment(steps: seq<Step>, assigner: int, shardId: int, nodeId: int)
    requires assigner !in Exec(INIT, steps).attempts
    ensures var before := Exec(INIT, steps);
            var after := Do(Do(before, Read(assigner, shardId, nodeId)), Commit(assigner));
            && OwnerOf(after, shardId) ==
               (if shardId >= 0 && nodeId > 0 then Some(Ownership(shardId, nodeId, Epoch(before, shardId) + 1))
                else OwnerOf(before, shardId))
            && forall other :: other != shardId ==> OwnerOf(after, other) == OwnerOf(before, other)
  {
    InvRun(steps);
    assert EpochCounts(Exec(INIT, steps), shardId);
  }

  // ---------------------------------------------------------------------------------------------
  // One assigner's retry loop
  // ---------------------------------------------------------------------------------------------

  const MAX_RETRIES := 8

  function KeyEpoch(key: Option<KeyValue>): int {
    if key.Some? then key.value.own.epoch else 0
  }

  /** The assignments made by others during the first `n` attempts. */
  function Assigned(others: nat -> seq<int>, n: nat): nat {
    if n == 0 then 0 else Assigned(others, n - 1) + |others(n - 1)|
  }

  class OwnershipKey {
    const shardId: int
    var key: Option<KeyValue>
    var revision: nat

    constructor (shardId: int)
      ensures this.shardId == shardId && key == None && revision == 0
    {
      this.shardId := shardId;
      key := None;
      revision := 0;
    }

    ghost predicate Valid()
      reads this
    {
      key.Some? ==> key.value.modRevision <= revision && key.value.own.epoch >= 1 && key.value.own.shardId == shardId
    }

    /** The transaction of an assigner that saw the key as it is: the next epoch, under a new revision. */
    method Put(nodeId: int)
      requires Valid()
      modifies this`key, this`revision
      ensures Valid() && revision == old(revision) + 1
      ensures key == Some(KeyValue(Ownership(shardId, nodeId, KeyEpoch(old(key)) + 1), revision))
    {
      revision := revision + 1;
      key := Some(KeyValue(Ownership(shardId, nodeId, KeyEpoch(key) + 1), revision));
    }

    /** Assignments other assigners get through in between. */
    method Interfere(nodes: seq<int>)
      requires Valid()
      modifies this`key, this`revision
      ensures Valid() && KeyEpoch(key) == KeyEpoch(old(key)) + |nodes|
      ensures nodes == [] ==> key == old(key)
      ensures nodes != [] ==>
                key.Some? && key.value.modRevision > old(revision) && key.value.own.nodeId == nodes[|nodes| - 1]
    {
      for n := 0 to |nodes|
        invariant Valid() && revision == old(revision) + n && KeyEpoch(key) == KeyEpoch(old(key)) + n
        invariant n == 0 ==> key == old(key)
        invariant n > 0 ==> key.Some? && key.value.modRevision == revision && key.value.own.nodeId == nodes[n - 1]
      {
        Put(nodes[n]);
      }
    }

    /** `others(n)` are the assignments that race with the n-th attempt. Every assignment, this one's and the others',
        counts one epoch: the final epoch says exactly how many there were. A success leaves this node as the owner,
        and but for ids that name no shard or node it fails only when all eight of its attempts were overtaken. */
    method Assign(nodeId: int, others: nat -> seq<int>) returns (failure: Option<Error>, ghost overtaken: nat)
      requires Valid()
      modifies this`key, this`revision
      ensures Valid() && overtaken <= 8
      ensures shardId < 0 ==> failure == Some(InvalidShardId) && key == old(key)
      ensures shardId >= 0 && nodeId <= 0 ==> failure == Some(InvalidNodeId) && key == old(key)
      ensures shardId < 0 || nodeId <= 0 ==> overtaken == 0
      ensures failure.None? ==>
                overtaken < 8 && key.Some? && key.value.own == Ownership(shardId, nodeId, KeyEpoch(key))
      ensures KeyEpoch(key) == KeyEpoch(old(key)) + Assigned(others, overtaken) + (if failure.None? then 1 else 0)
      ensures forall n :: 0 <= n < overtaken ==> others(n) != []
      ensures shardId >= 0 && nodeId > 0 && failure.Some? ==> failure == Some(OutOfRetries) && overtaken == 8
    {
      overtaken := 0;
      if shardId < 0 { return Some(InvalidShardId), 0; }
      if nodeId <= 0 { return Some(InvalidNodeId), 0; }
      for attempt := 0 to MAX_RETRIES
        invariant Valid() && overtaken == attempt
        invariant KeyEpoch(key) == KeyEpoch(old(key)) + Assigned(others, attempt)
        invariant forall n :: 0 <= n < attempt ==> others(n) != []
      {
        var seen := key;
        Interfere(others(attempt));
        if (if seen.Some? then key.Some? && key.value.modRevision == seen.value.modRevision else key.None?) {
          Put(nodeId);
          return None, attempt;
        }
        overtaken := attempt + 1;
      }
      failure := Some(OutOfRetries);
    }
  }
}
