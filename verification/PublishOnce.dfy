/** One round of one publisher that nothing interrupts: claim, append topic by topic, mark. */
module PublishOnce {
  import opened Model
  import opened OutboxPublisher

  /** How a topic's appends go: no target is configured, one batch append succeeds or fails after writing a part,
      or events are appended singly and some of them fail. */
  datatype Target = Missing | Batching(ok: bool, written: nat) | Single(fails: set<string>)

  predicate Succeeds(target: Target, id: string) {
    match target
    case Missing => false
    case Batching(ok, _) => ok
    case Single(fails) => id !in fails
  }

  function Successes(target: Target, items: seq<string>): (ids: seq<string>)
    ensures forall id :: id in ids <==> id in items && Succeeds(target, id)
  {
    if |items| == 0 then []
    else
      var before := Successes(target, items[..|items| - 1]);
      if Succeeds(target, items[|items| - 1]) then before + [items[|items| - 1]] else before
  }

  function Failures(target: Target, items: seq<string>): set<string> {
    set id | id in items && !Succeeds(target, id)
  }

  function TopicRows(outbox: map<string, Message>, items: seq<string>, topic: Topic): (ids: seq<string>)
    requires forall id :: id in items ==> id in outbox
    ensures forall id :: id in ids <==> id in items && outbox[id].topic == topic
  {
    if |items| == 0 then []
    else
      var before := TopicRows(outbox, items[..|items| - 1], topic);
      if outbox[items[|items| - 1]].topic == topic then before + [items[|items| - 1]] else before
  }

  const RELEASED := Delivery(None, "", 0)

  type Deliveries = map<string, Delivery>

  /** The rows of `ids` read `row`, all others as before. */
  function Marked(delivery: Deliveries, ids: set<string>, row: Delivery): Deliveries {
    delivery + map id | id in ids :: row
  }

  ghost predicate Extends(before: Logs, after: Logs) {
    forall p :: LogOf(before, p) <= LogOf(after, p)
  }

  lemma InLogStays(before: Logs, after: Logs, m: Message)
    requires Extends(before, after) && InLog(before, m)
    ensures InLog(after, m)
  {
  }

  lemma ExtendsTwice(a: Logs, b: Logs, c: Logs)
    requires Extends(a, b) && Extends(b, c)
    ensures Extends(a, c)
  {
    forall p ensures LogOf(a, p) <= LogOf(c, p) {
      assert LogOf(a, p) <= LogOf(b, p) && LogOf(b, p) <= LogOf(c, p);
    }
  }

  lemma {:induction false} RowsAreAppended(logs: Logs, outbox: map<string, Message>, order: seq<string>)
    requires forall id :: id in order ==> id in outbox
    ensures Extends(logs, AppendRows(logs, outbox, order))
    ensures forall id :: id in order ==> InLog(AppendRows(logs, outbox, order), outbox[id])
  {
    if |order| > 0 {
      var front := order[..|order| - 1];
      assert order == front + [order[|order| - 1]];
      RowsAreAppended(logs, outbox, front);
      var mid := AppendRows(logs, outbox, front);
      assert Extends(mid, AppendRows(logs, outbox, order));
      ExtendsTwice(logs, mid, AppendRows(logs, outbox, order));
      forall id | id in front {
        InLogStays(mid, AppendRows(logs, outbox, order), outbox[id]);
      }
    }
  }

  /** The events of these rows that belong in a partition, in order, but for some rows to skip. */
  function EventsAt(outbox: map<string, Message>, ids: seq<string>, skip: set<string>, p: Partition): seq<Event> {
    if |ids| == 0 then []
    else
      var before, id := EventsAt(outbox, ids[..|ids| - 1], skip, p), ids[|ids| - 1];
      if id in outbox && id !in skip && p == Partition(outbox[id].topic, outbox[id].event.shardId)
      then before + [outbox[id].event] else before
  }

  /** Every partition has been extended by the events of these rows, once each and in order. */
  ghost predicate ExtendedBy(outbox: map<string, Message>, before: Logs, after: Logs, ids: seq<string>) {
    forall p :: LogOf(after, p) == LogOf(before, p) + EventsAt(outbox, ids, {}, p)
  }

  lemma {:induction false} RowsExtend(logs: Logs, outbox: map<string, Message>, order: seq<string>)
    requires forall id :: id in order ==> id in outbox
    ensures ExtendedBy(outbox, logs, AppendRows(logs, outbox, order), order)
  {
    if |order| > 0 {
      RowsExtend(logs, outbox, order[..|order| - 1]);
      var mid := AppendRows(logs, outbox, order[..|order| - 1]);
      forall p ensures LogOf(AppendRows(logs, outbox, order), p) == LogOf(logs, p) + EventsAt(outbox, order, {}, p) {
        assert LogOf(mid, p) == LogOf(logs, p) + EventsAt(outbox, order[..|order| - 1], {}, p);
      }
    }
  }

  lemma EventsSnoc(outbox: map<string, Message>, ids: seq<string>, id: string, skip: set<string>, p: Partition)
    ensures EventsAt(outbox, ids + [id], skip, p) == EventsAt(outbox, ids, skip, p) + EventsAt(outbox, [id], skip, p)
  {
    assert (ids + [id])[..|ids|] == ids && [id][..0] == [];
    assert EventsAt(outbox, [], skip, p) == [];
  }

  lemma ExtendedByOneMore(outbox: map<string, Message>, a: Logs, b: Logs, c: Logs, ids: seq<string>, id: string)
    requires ExtendedBy(outbox, a, b, ids) && ExtendedBy(outbox, b, c, [id])
    ensures ExtendedBy(outbox, a, c, ids + [id])
  {
    forall p ensures LogOf(c, p) == LogOf(a, p) + EventsAt(outbox, ids + [id], {}, p) {
      EventsSnoc(outbox, ids, id, {}, p);
      assert LogOf(b, p) == LogOf(a, p) + EventsAt(outbox, ids, {}, p);
      assert LogOf(c, p) == LogOf(b, p) + EventsAt(outbox, [id], {}, p);
    }
  }

  lemma {:induction false} NoEventsElsewhere(outbox: map<string, Message>, ids: seq<string>, p: Partition)
    requires forall id :: id in ids && id in outbox ==> outbox[id].topic != p.topic
    ensures EventsAt(outbox, ids, {}, p) == []
  {
    if |ids| > 0 {
      NoEventsElsewhere(outbox, ids[..|ids| - 1], p);
    }
  }

  /** The rows of a group whose events its append has written. */
  function Written(target: Target, items: seq<string>): (ids: seq<string>)
    ensures forall id :: id in ids ==> id in items
  {
    match target
    case Missing => []
    case Batching(ok, written) => if ok || written >= |items| then items else items[..written]
    case Single(_) => Successes(target, items)
  }

  /** A partition after a round: without a target it is as it was; a batch append adds all the claimed events that
      belong in it, or, failing, those among the first few claimed; single appends add all but those that failed. Always
      once each and in the order of the claim. */
  ghost predicate IsLogAfter(outbox: map<string, Message>, before: seq<Event>, after: seq<Event>, chosen: seq<string>,
                             target: Target, p: Partition) {
    match target
    case Missing => after == before
    case Batching(ok, _) =>
      if ok then after == before + EventsAt(outbox, chosen, {}, p)
      else exists n :: 0 <= n <= |chosen| && after == before + EventsAt(outbox, chosen[..n], {}, p)
    case Single(fails) => after == before + EventsAt(outbox, chosen, fails, p)
  }

  lemma {:induction false} TopicRowsKeepEvents(outbox: map<string, Message>, items: seq<string>, skip: set<string>,
                                               p: Partition)
    requires forall id :: id in items ==> id in outbox
    ensures EventsAt(outbox, TopicRows(outbox, items, p.topic), skip, p) == EventsAt(outbox, items, skip, p)
  {
    if |items| > 0 {
      TopicRowsKeepEvents(outbox, items[..|items| - 1], skip, p);
      var before := TopicRows(outbox, items[..|items| - 1], p.topic);
      assert (before + [items[|items| - 1]])[..|before|] == before;
    }
  }

  lemma {:induction false} SuccessesSkipFailures(outbox: map<string, Message>, items: seq<string>, fails: set<string>,
                                                 p: Partition)
    ensures EventsAt(outbox, Successes(Single(fails), items), {}, p) == EventsAt(outbox, items, fails, p)
  {
    if |items| > 0 {
      SuccessesSkipFailures(outbox, items[..|items| - 1], fails, p);
      var before := Successes(Single(fails), items[..|items| - 1]);
      assert (before + [items[|items| - 1]])[..|before|] == before;
    }
  }

  /** The first few rows of a topic are the topic's rows among the first few. */
  lemma {:induction false} TopicRowsPrefix(outbox: map<string, Message>, items: seq<string>, topic: Topic, written: nat)
    returns (n: nat)
    requires (forall id :: id in items ==> id in outbox) && written <= |TopicRows(outbox, items, topic)|
    ensures n <= |items| && TopicRows(outbox, items[..n], topic) == TopicRows(outbox, items, topic)[..written]
  {
    n := |items|;
    assert items[..n] == items;
    if written < |TopicRows(outbox, items, topic)| {
      n := TopicRowsPrefix(outbox, items[..|items| - 1], topic, written);
      assert items[..|items| - 1][..n] == items[..n];
    }
  }

  lemma AppendedIsLogAfter(outbox: map<string, Message>, before: seq<Event>, chosen: seq<string>, target: Target,
                           p: Partition)
    requires forall id :: id in chosen ==> id in outbox
    ensures IsLogAfter(outbox, before,
                       before + EventsAt(outbox, Written(target, TopicRows(outbox, chosen, p.topic)), {}, p),
                       chosen, target, p)
  {
    var rows := TopicRows(outbox, chosen, p.topic);
    hide TopicRows, Successes;
    match target
    case Missing =>
    case Batching(ok, written) =>
      TopicRowsKeepEvents(outbox, chosen, {}, p);
      assert chosen[..|chosen|] == chosen;
      if !ok && written < |rows| {
        var n := TopicRowsPrefix(outbox, chosen, p.topic, written);
        TopicRowsKeepEvents(outbox, chosen[..n], {}, p);
      }
    case Single(fails) =>
      SuccessesSkipFailures(outbox, rows, fails, p);
      TopicRowsKeepEvents(outbox, chosen, fails, p);
  }

  /** What has been appended for the topics gone through so far. */
  ghost predicate LogsFollow(outbox: map<string, Message>, first: Logs, logs: Logs, chosen: seq<string>,
                             targets: Topic -> Target, done: set<Topic>)
    requires forall id :: id in chosen ==> id in outbox
  {
    forall p :: LogOf(logs, p) ==
                if p.topic in done then
                  LogOf(first, p)
                  + EventsAt(outbox, Written(targets(p.topic), TopicRows(outbox, chosen, p.topic)), {}, p)
                else LogOf(first, p)
  }

  lemma LogsFollowOne(outbox: map<string, Message>, first: Logs, log: Logs, logs: Logs, chosen: seq<string>,
                      targets: Topic -> Target, done: set<Topic>, topic: Topic)
    requires topic !in done && forall id :: id in chosen ==> id in outbox
    requires LogsFollow(outbox, first, log, chosen, targets, done)
    requires ExtendedBy(outbox, log, logs, Written(targets(topic), TopicRows(outbox, chosen, topic)))
    ensures LogsFollow(outbox, first, logs, chosen, targets, done + {topic})
  {
    var ids := Written(targets(topic), TopicRows(outbox, chosen, topic));
    forall p ensures LogOf(logs, p) ==
                     if p.topic in done + {topic} then
                       LogOf(first, p)
                       + EventsAt(outbox, Written(targets(p.topic), TopicRows(outbox, chosen, p.topic)), {}, p)
                     else LogOf(first, p)
    {
      assert LogOf(logs, p) == LogOf(log, p) + EventsAt(outbox, ids, {}, p);
      if p.topic != topic { NoEventsElsewhere(outbox, ids, p); }
    }
  }

  lemma NothingAppended(outbox: map<string, Message>, logs: Logs, chosen: seq<string>, targets: Topic -> Target)
    requires forall id :: id in chosen ==> id in outbox
    ensures LogsFollow(outbox, logs, logs, chosen, targets, {})
  {
  }

  const BOTH_TOPICS := {OrderEvents, MatchRequests}

  lemma LogsAfterRound(outbox: map<string, Message>, first: Logs, logs: Logs, chosen: seq<string>,
                       targets: Topic -> Target)
    requires forall id :: id in chosen ==> id in outbox
    requires LogsFollow(outbox, first, logs, chosen, targets, BOTH_TOPICS)
    ensures forall p :: IsLogAfter(outbox, LogOf(first, p), LogOf(logs, p), chosen, targets(p.topic), p)
  {
    forall p ensures IsLogAfter(outbox, LogOf(first, p), LogOf(logs, p), chosen, targets(p.topic), p) {
      AppendedIsLogAfter(outbox, LogOf(first, p), chosen, targets(p.topic), p);
      match p.topic
      case OrderEvents =>
      case MatchRequests =>
    }
  }

  /** The row exists, is unpublished, and this worker's claim is on it. */
  predicate Held(outbox: map<string, Message>, delivery: Deliveries, id: string, workerId: string) {
    id in outbox && id in delivery && delivery[id].claimedBy == workerId && delivery[id].publishedAt.None?
  }

  predicate AllHeld(outbox: map<string, Message>, delivery: Deliveries, items: seq<string>, workerId: string) {
    forall i :: 0 <= i < |items| ==> Held(outbox, delivery, items[i], workerId)
  }

  /** The statement that gives one row back: only the worker whose claim is on it can. */
  function Release(outbox: map<string, Message>, delivery: Deliveries, id: string, workerId: string): Deliveries {
    if id in outbox && id in delivery && delivery[id].claimedBy == workerId then
      delivery[id := delivery[id].(claimedBy := "", claimedUntil := 0)]
    else delivery
  }

  lemma ReleaseOne(outbox: map<string, Message>, delivery: Deliveries, done: set<string>, id: string, workerId: string)
    requires Held(outbox, delivery, id, workerId)
    ensures Release(outbox, Marked(delivery, done, RELEASED), id, workerId) == Marked(delivery, done + {id}, RELEASED)
  {
  }

  lemma OneMoreItem(target: Target, items: seq<string>, i: nat)
    requires i < |items|
    ensures AsSet(items[..i + 1]) == AsSet(items[..i]) + {items[i]}
    ensures Successes(target, items[..i + 1]) ==
            if Succeeds(target, items[i]) then Successes(target, items[..i]) + [items[i]]
            else Successes(target, items[..i])
    ensures Failures(target, items[..i + 1]) ==
            if Succeeds(target, items[i]) then Failures(target, items[..i])
            else Failures(target, items[..i]) + {items[i]}
  {
    assert items[..i + 1][..i] == items[..i] && items[..i + 1] == items[..i] + [items[i]];
  }

  /** Unpublished, and not under a claim that still runs. */
  predicate IsFree(outbox: map<string, Message>, delivery: Deliveries, now: int, id: string) {
    var row := if id in delivery then delivery[id] else UNCLAIMED;
    id in outbox && row.publishedAt.None? && row.claimedUntil < now
  }

  function Age(outbox: map<string, Message>, id: string): int {
    if id in outbox then outbox[id].event.occurredAt else 0
  }

  /** Unpublished rows under no claim that still runs and locked by nobody, oldest first, as many as the batch takes;
      rows left out are no older. */
  ghost predicate IsClaim(outbox: map<string, Message>, delivery: Deliveries, now: int, batchSize: nat,
                          locked: set<string>, chosen: seq<string>) {
    && Distinct(chosen) && |chosen| <= batchSize
    && (forall id :: id in chosen ==>
                       && id in outbox && id !in locked
                       && if id in delivery then delivery[id].publishedAt.None? && delivery[id].claimedUntil < now
                          else 0 < now)
    && (forall i, j :: 0 <= i < j < |chosen| ==>
                         outbox[chosen[i]].event.occurredAt <= outbox[chosen[j]].event.occurredAt)
    && (forall id :: id in outbox && id !in locked && id !in chosen
                     && (if id in delivery then delivery[id].publishedAt.None? && delivery[id].claimedUntil < now
                         else 0 < now) ==>
                       && |chosen| == batchSize
                       && forall i :: 0 <= i < |chosen| ==>
                                        outbox[chosen[i]].event.occurredAt <= outbox[id].event.occurredAt)
  }

  lemma OldestExists(outbox: map<string, Message>, ids: set<string>)
    requires ids != {}
    ensures exists id :: id in ids && forall other :: other in ids ==> Age(outbox, id) <= Age(outbox, other)
    decreases ids
  {
    var id :| id in ids;
    if ids != {id} {
      var rest := ids - {id};
      OldestExists(outbox, rest);
      var eldest :| eldest in rest && forall other :: other in rest ==> Age(outbox, eldest) <= Age(outbox, other);
      var oldest := if Age(outbox, id) <= Age(outbox, eldest) then id else eldest;
      assert forall other :: other in ids ==> Age(outbox, oldest) <= Age(outbox, other);
    }
  }

  /** The selection in progress: what is left is free and no older than what is chosen. */
  ghost predicate Choosing(outbox: map<string, Message>, delivery: Deliveries, now: int, locked: set<string>,
                           chosen: seq<string>, rest: set<string>) {
    && Distinct(chosen)
    && (forall id :: id in rest || id in chosen <==> id in outbox && id !in locked && IsFree(outbox, delivery, now, id))
    && (forall id :: id in rest ==> id !in chosen)
    && (forall i, j :: 0 <= i < j < |chosen| ==> Age(outbox, chosen[i]) <= Age(outbox, chosen[j]))
    && (forall i, id :: 0 <= i < |chosen| && id in rest ==> Age(outbox, chosen[i]) <= Age(outbox, id))
  }

  lemma ChooseOne(outbox: map<string, Message>, delivery: Deliveries, now: int, locked: set<string>,
                  chosen: seq<string>, rest: set<string>, id: string)
    requires Choosing(outbox, delivery, now, locked, chosen, rest)
    requires id in rest && forall other :: other in rest ==> Age(outbox, id) <= Age(outbox, other)
    ensures Choosing(outbox, delivery, now, locked, chosen + [id], rest - {id})
  {
    forall other ensures other in rest - {id} || other in chosen + [id] <==> other in rest || other in chosen {
    }
    hide IsFree, Age;
  }

  lemma ChosenIsClaim(outbox: map<string, Message>, delivery: Deliveries, now: int, batchSize: nat,
                      locked: set<string>, chosen: seq<string>, rest: set<string>)
    requires Choosing(outbox, delivery, now, locked, chosen, rest) && |chosen| <= batchSize
    requires |chosen| == batchSize || rest == {}
    ensures IsClaim(outbox, delivery, now, batchSize, locked, chosen)
  {
    forall i | 0 <= i < |chosen| ensures chosen[i] in outbox {
      assert chosen[i] in chosen;
    }
  }

  method OldestFree(outbox: map<string, Message>, delivery: Deliveries, now: int, batchSize: nat, locked: set<string>)
    returns (chosen: seq<string>)
    ensures IsClaim(outbox, delivery, now, batchSize, locked, chosen)
  {
    chosen := [];
    var rest := set id | id in outbox && id !in locked && IsFree(outbox, delivery, now, id);
    while |chosen| < batchSize && rest != {}
      invariant |chosen| <= batchSize && Choosing(outbox, delivery, now, locked, chosen, rest)
      decreases |rest|
    {
      hide Choosing, IsFree;
      OldestExists(outbox, rest);
      var id :| id in rest && forall other :: other in rest ==> Age(outbox, id) <= Age(outbox, other);
      ChooseOne(outbox, delivery, now, locked, chosen, rest, id);
      rest := rest - {id};
      chosen := chosen + [id];
    }
    ChosenIsClaim(outbox, delivery, now, batchSize, locked, chosen, rest);
  }

  function RowAfter(target: Target, id: string, now: int): Delivery {
    if Succeeds(target, id) then Delivery(Some(now), "", 0) else RELEASED
  }

  /** How each chosen row ends. */
  function RowsAfter(outbox: map<string, Message>, chosen: seq<string>, targets: Topic -> Target, now: int): Deliveries
    requires forall id :: id in chosen ==> id in outbox
  {
    map id | id in chosen :: RowAfter(targets(outbox[id].topic), id, now)
  }

  /** The rows of these topics. */
  function Only(outbox: map<string, Message>, rows: Deliveries, topics: set<Topic>): Deliveries {
    map id | id in rows && id in outbox && outbox[id].topic in topics :: rows[id]
  }

  /** The chosen rows of these topics have been dealt with, each as its append went. */
  function Settled(outbox: map<string, Message>, delivery: Deliveries, chosen: seq<string>, targets: Topic -> Target,
                   topics: set<Topic>, now: int): Deliveries
    requires forall id :: id in chosen ==> id in outbox
  {
    delivery + Only(outbox, RowsAfter(outbox, chosen, targets, now), topics)
  }

  function Published(outbox: map<string, Message>, chosen: seq<string>, targets: Topic -> Target,
                     topics: set<Topic>): set<string>
    requires forall id :: id in chosen ==> id in outbox
  {
    set id | id in chosen && outbox[id].topic in topics && Succeeds(targets(outbox[id].topic), id)
  }

  lemma {:induction false} TopicRowsDistinct(outbox: map<string, Message>, items: seq<string>, topic: Topic)
    requires (forall id :: id in items ==> id in outbox) && Distinct(items)
    ensures Distinct(TopicRows(outbox, items, topic))
  {
    if |items| > 0 {
      var last := |items| - 1;
      TopicRowsDistinct(outbox, items[..last], topic);
      assert items[last] !in items[..last];
    }
  }

  lemma GroupIsHeld(outbox: map<string, Message>, claimed: Deliveries, chosen: seq<string>, targets: Topic -> Target,
                    done: set<Topic>, topic: Topic, now: int, workerId: string)
    requires AllHeld(outbox, claimed, chosen, workerId) && topic !in done && Distinct(chosen)
    requires forall id :: id in chosen ==> id in outbox
    ensures AllHeld(outbox, Settled(outbox, claimed, chosen, targets, done, now),
                    TopicRows(outbox, chosen, topic), workerId)
    ensures Distinct(TopicRows(outbox, chosen, topic))
  {
    TopicRowsDistinct(outbox, chosen, topic);
    var items := TopicRows(outbox, chosen, topic);
    forall i | 0 <= i < |items|
      ensures Held(outbox, Settled(outbox, claimed, chosen, targets, done, now), items[i], workerId) {
      assert items[i] in items;
      var j :| 0 <= j < |chosen| && chosen[j] == items[i];
      assert Held(outbox, claimed, chosen[j], workerId);
    }
  }

  function Restrict(rows: Deliveries, ids: set<string>): Deliveries {
    map id | id in rows && id in ids :: rows[id]
  }

  lemma OnlyMore(outbox: map<string, Message>, rows: Deliveries, done: set<Topic>, topic: Topic, ids: set<string>)
    requires forall id :: id in ids <==> id in rows && id in outbox && outbox[id].topic == topic
    ensures Only(outbox, rows, done + {topic}) == Only(outbox, rows, done) + Restrict(rows, ids)
  {
  }

  lemma AddInTwo(a: Deliveries, b: Deliveries, c: Deliveries)
    ensures a + b + c == a + (b + c)
  {
  }

  lemma MarkAsRows(delivery: Deliveries, rows: Deliveries, bad: set<string>, good: set<string>, row: Delivery)
    requires bad + good <= rows.Keys
    requires (forall id :: id in bad ==> rows[id] == RELEASED) && (forall id :: id in good ==> rows[id] == row)
    ensures Marked(Marked(delivery, bad, RELEASED), good, row) == delivery + Restrict(rows, bad + good)
  {
  }

  lemma MarkBoth(outbox: map<string, Message>, claimed: Deliveries, rows: Deliveries, done: set<Topic>, topic: Topic,
                 bad: set<string>, good: set<string>, row: Delivery)
    requires forall id :: id in bad + good <==> id in rows && id in outbox && outbox[id].topic == topic
    requires (forall id :: id in bad ==> rows[id] == RELEASED) && (forall id :: id in good ==> rows[id] == row)
    ensures Marked(Marked(claimed + Only(outbox, rows, done), bad, RELEASED), good, row)
            == claimed + Only(outbox, rows, done + {topic})
  {
    hide Only, Marked, Restrict;
    OnlyMore(outbox, rows, done, topic, bad + good);
    MarkAsRows(claimed + Only(outbox, rows, done), rows, bad, good, row);
    AddInTwo(claimed, Only(outbox, rows, done), Restrict(rows, bad + good));
  }

  lemma GroupSettled(outbox: map<string, Message>, claimed: Deliveries, chosen: seq<string>, targets: Topic -> Target,
                     done: set<Topic>, topic: Topic, now: int)
    requires topic !in done && forall id :: id in chosen ==> id in outbox
    ensures var items := TopicRows(outbox, chosen, topic);
            Marked(Marked(Settled(outbox, claimed, chosen, targets, done, now),
                          Failures(targets(topic), items), RELEASED),
                   AsSet(Successes(targets(topic), items)), Delivery(Some(now), "", 0))
            == Settled(outbox, claimed, chosen, targets, done + {topic}, now)
  {
    var items := TopicRows(outbox, chosen, topic);
    var target := targets(topic);
    var bad, good := Failures(target, items), AsSet(Successes(target, items));
    var rows := RowsAfter(outbox, chosen, targets, now);
    assert forall id :: id in bad <==> id in chosen && outbox[id].topic == topic && !Succeeds(target, id);
    assert forall id :: id in good <==> id in chosen && outbox[id].topic == topic && Succeeds(target, id);
    hide Successes, Failures, TopicRows, AsSet;
    assert forall id :: id in bad ==> id in rows && rows[id] == RELEASED;
    assert forall id :: id in good ==> id in rows && rows[id] == Delivery(Some(now), "", 0);
    MarkBoth(outbox, claimed, rows, done, topic, bad, good, Delivery(Some(now), "", 0));
  }

  lemma GroupPublished(outbox: map<string, Message>, chosen: seq<string>, targets: Topic -> Target, done: set<Topic>,
                       topic: Topic)
    requires topic !in done && forall id :: id in chosen ==> id in outbox
    ensures var good := AsSet(Successes(targets(topic), TopicRows(outbox, chosen, topic)));
            && Published(outbox, chosen, targets, done + {topic}) == Published(outbox, chosen, targets, done) + good
            && |Published(outbox, chosen, targets, done + {topic})| ==
               |Published(outbox, chosen, targets, done)| + |good|
  {
    var good := AsSet(Successes(targets(topic), TopicRows(outbox, chosen, topic)));
    assert forall id :: id in good <==> id in chosen && outbox[id].topic == topic && Succeeds(targets(topic), id);
    hide Successes, TopicRows, AsSet, Succeeds;
    assert Published(outbox, chosen, targets, done + {topic}) == Published(outbox, chosen, targets, done) + good;
    assert Published(outbox, chosen, targets, done) !! good;
  }

  lemma StillInLog(outbox: map<string, Message>, before: Logs, after: Logs, published: set<string>, good: seq<string>)
    requires Extends(before, after) && forall id :: id in published ==> id in outbox && InLog(before, outbox[id])
    requires forall i :: 0 <= i < |good| ==> good[i] in outbox && InLog(after, outbox[good[i]])
    ensures forall id :: id in published + AsSet(good) ==> id in outbox && InLog(after, outbox[id])
  {
    forall id | id in published {
      InLogStays(before, after, outbox[id]);
    }
  }

  lemma ClaimIsSettled(outbox: map<string, Message>, delivery: Deliveries, chosen: seq<string>,
                       targets: Topic -> Target, now: int, claim: Delivery)
    requires forall id :: id in chosen ==> id in outbox
    ensures Settled(outbox, Marked(delivery, AsSet(chosen), claim), chosen, targets, BOTH_TOPICS, now)
            == Settled(outbox, delivery, chosen, targets, BOTH_TOPICS, now)
  {
    forall id | id in chosen ensures outbox[id].topic in BOTH_TOPICS {
      match outbox[id].topic
      case OrderEvents =>
      case MatchRequests =>
    }
  }

  ghost predicate AllInLog(outbox: map<string, Message>, logs: Logs, ids: seq<string>) {
    forall i :: 0 <= i < |ids| ==> ids[i] in outbox && InLog(logs, outbox[ids[i]])
  }

  /** What has been done about the chosen rows of the topics gone through so far. */
  ghost predicate Progress(outbox: map<string, Message>, first: Logs, logs: Logs, claimed: Deliveries,
                           delivery: Deliveries,
                           chosen: seq<string>, targets: Topic -> Target, done: set<Topic>, now: int, count: nat)
    requires forall id :: id in chosen ==> id in outbox
  {
    && delivery == Settled(outbox, claimed, chosen, targets, done, now)
    && count == |Published(outbox, chosen, targets, done)|
    && Extends(first, logs)
    && forall id :: id in Published(outbox, chosen, targets, done) ==> id in outbox && InLog(logs, outbox[id])
  }

  lemma NothingPublished(outbox: map<string, Message>, logs: Logs, delivery: Deliveries, chosen: seq<string>,
                         targets: Topic -> Target, now: int)
    requires forall id :: id in chosen ==> id in outbox
    ensures Progress(outbox, logs, logs, delivery, delivery, chosen, targets, {}, now, 0)
  {
    assert Published(outbox, chosen, targets, {}) == {};
    assert delivery == Settled(outbox, delivery, chosen, targets, {}, now);
  }

  lemma GroupIsReady(outbox: map<string, Message>, first: Logs, logs: Logs, claimed: Deliveries, rows: Deliveries,
                     chosen: seq<string>, targets: Topic -> Target, done: set<Topic>, topic: Topic, now: int,
                     count: nat, workerId: string)
    requires topic !in done && forall id :: id in chosen ==> id in outbox
    requires Distinct(chosen) && AllHeld(outbox, claimed, chosen, workerId)
    requires Progress(outbox, first, logs, claimed, rows, chosen, targets, done, now, count)
    ensures AllHeld(outbox, rows, TopicRows(outbox, chosen, topic), workerId)
    ensures Distinct(TopicRows(outbox, chosen, topic))
  {
    GroupIsHeld(outbox, claimed, chosen, targets, done, topic, now, workerId);
    hide Settled, Published, AllHeld, Distinct, TopicRows, Extends;
  }

  lemma ProgressOne(outbox: map<string, Message>, first: Logs, log: Logs, logs: Logs, claimed: Deliveries,
                    rows: Deliveries, delivery: Deliveries, chosen: seq<string>, targets: Topic -> Target,
                    done: set<Topic>, topic: Topic, now: int, before: nat, published: nat)
    requires topic !in done && forall id :: id in chosen ==> id in outbox
    requires Progress(outbox, first, log, claimed, rows, chosen, targets, done, now, before)
    requires Extends(log, logs)
    requires var good := Successes(targets(topic), TopicRows(outbox, chosen, topic));
             && delivery == Marked(Marked(rows, Failures(targets(topic), TopicRows(outbox, chosen, topic)), RELEASED),
                                   AsSet(good), Delivery(Some(now), "", 0))
             && published == |AsSet(good)| && AllInLog(outbox, logs, good)
    ensures Progress(outbox, first, logs, claimed, delivery, chosen, targets, done + {topic}, now, before + published)
  {
    hide Settled, Published, Marked, Successes, Failures, TopicRows, AsSet, Extends, InLog, Succeeds;
    var good := Successes(targets(topic), TopicRows(outbox, chosen, topic));
    GroupSettled(outbox, claimed, chosen, targets, done, topic, now);
    GroupPublished(outbox, chosen, targets, done, topic);
    StillInLog(outbox, log, logs, Published(outbox, chosen, targets, done), good);
    ExtendsTwice(first, log, logs);
  }

  lemma {:induction false} DistinctCount(ids: seq<string>)
    requires Distinct(ids)
    ensures |AsSet(ids)| == |ids|
  {
    if |ids| > 0 {
      var last := |ids| - 1;
      DistinctCount(ids[..last]);
      assert ids == ids[..last] + [ids[last]];
      assert AsSet(ids) == AsSet(ids[..last]) + {ids[last]};
      assert ids[last] !in ids[..last];
    }
  }

  lemma SmallerSet(a: set<string>, b: set<string>)
    requires a < b
    ensures |a| < |b|
  {
    assert b == a + (b - a);
  }

  lemma {:induction false} SuccessesDistinct(target: Target, items: seq<string>)
    requires Distinct(items)
    ensures Distinct(Successes(target, items))
  {
    if |items| > 0 {
      var last := |items| - 1;
      SuccessesDistinct(target, items[..last]);
      assert items[last] !in items[..last];
    }
  }

  lemma SuccessesAreHeld(outbox: map<string, Message>, delivery: Deliveries, target: Target, items: seq<string>,
                         workerId: string)
    requires AllHeld(outbox, delivery, items, workerId)
    ensures AllHeld(outbox, Marked(delivery, Failures(target, items), RELEASED), Successes(target, items), workerId)
  {
    var ids := Successes(target, items);
    forall i | 0 <= i < |ids|
      ensures Held(outbox, Marked(delivery, Failures(target, items), RELEASED), ids[i], workerId) {
      assert ids[i] in ids;
      var j :| 0 <= j < |items| && items[j] == ids[i];
    }
  }

  lemma {:induction false} NothingSucceeds(target: Target, items: seq<string>)
    requires forall id :: id in items ==> !Succeeds(target, id)
    ensures Successes(target, items) == [] && Failures(target, items) == AsSet(items)
  {
    if |items| > 0 {
      NothingSucceeds(target, items[..|items| - 1]);
      assert items[|items| - 1] in items;
    }
  }

  lemma {:induction false} EverythingSucceeds(target: Target, items: seq<string>)
    requires forall id :: id in items ==> Succeeds(target, id)
    ensures Successes(target, items) == items && Failures(target, items) == {}
  {
    if |items| > 0 {
      EverythingSucceeds(target, items[..|items| - 1]);
      assert items[|items| - 1] in items;
      assert items == items[..|items| - 1] + [items[|items| - 1]];
    }
  }

  lemma RoundSettles(outbox: map<string, Message>, delivery: Deliveries, chosen: seq<string>,
                     targets: Topic -> Target, now: int)
    requires forall id :: id in chosen ==> id in outbox
    ensures var after := Settled(outbox, delivery, chosen, targets, BOTH_TOPICS, now);
            && (forall id :: id in chosen ==>
                               && id in after
                               && after[id] ==
                                  if Succeeds(targets(outbox[id].topic), id) then Delivery(Some(now), "", 0)
                                  else Delivery(None, "", 0))
            && (forall id :: id !in chosen ==> (id in after <==> id in delivery))
            && (forall id :: id !in chosen && id in delivery ==> after[id] == delivery[id])
    ensures Published(outbox, chosen, targets, BOTH_TOPICS) ==
            set id | id in chosen && Succeeds(targets(outbox[id].topic), id)
  {
    hide Succeeds;
    forall id | id in chosen ensures outbox[id].topic in BOTH_TOPICS {
      match outbox[id].topic
      case OrderEvents =>
      case MatchRequests =>
    }
  }

  lemma OneRowAppended(logs: Logs, outbox: map<string, Message>, id: string, before: seq<string>)
    requires id in outbox && AllInLog(outbox, logs, before)
    ensures var after := AppendMessage(logs, outbox[id]);
            && Extends(logs, after) && ExtendedBy(outbox, logs, after, [id])
            && AllInLog(outbox, after, before + [id])
  {
    var after := AppendMessage(logs, outbox[id]);
    assert AppendRows(logs, outbox, [id]) == after by { assert [id][..0] == []; }
    RowsAreAppended(logs, outbox, [id]);
    RowsExtend(logs, outbox, [id]);
    hide AppendMessage, ExtendedBy, AppendRows;
    assert id in [id] && InLog(after, outbox[id]);
    forall i | 0 <= i < |before| ensures InLog(after, outbox[before[i]]) {
      InLogStays(logs, after, outbox[before[i]]);
    }
  }

  class OutboxStore {
    const outbox: map<string, Message>
    var delivery: Deliveries
    var logs: Logs

    constructor (outbox: map<string, Message>, delivery: Deliveries, logs: Logs)
      ensures this.outbox == outbox && this.delivery == delivery && this.logs == logs
    {
      this.outbox := outbox;
      this.delivery := delivery;
      this.logs := logs;
    }

    method MarkFailed(id: string, workerId: string)
      modifies this`delivery
      ensures delivery == Release(outbox, old(delivery), id, workerId)
    {
      if id in outbox && id in delivery && delivery[id].claimedBy == workerId {
        delivery := delivery[id := delivery[id].(claimedBy := "", claimedUntil := 0)];
      }
    }

    method ReleaseAll(items: seq<string>, workerId: string)
      requires AllHeld(outbox, delivery, items, workerId)
      modifies this`delivery
      ensures delivery == Marked(old(delivery), AsSet(items), RELEASED)
    {
      for i := 0 to |items|
        invariant delivery == Marked(old(delivery), AsSet(items[..i]), RELEASED)
      {
        OneMoreItem(Missing, items, i);
        ReleaseOne(outbox, old(delivery), AsSet(items[..i]), items[i], workerId);
        hide Marked, AsSet, Release;
        MarkFailed(items[i], workerId);
      }
      assert items[..|items|] == items;
    }

    method AppendOne(id: string, ghost before: seq<string>)
      requires id in outbox && AllInLog(outbox, logs, before)
      modifies this`logs
      ensures Extends(old(logs), logs) && ExtendedBy(outbox, old(logs), logs, [id])
      ensures AllInLog(outbox, logs, before + [id])
    {
      OneRowAppended(logs, outbox, id, before);
      hide Extends, ExtendedBy, AllInLog, AppendMessage;
      logs := AppendMessage(logs, outbox[id]);
    }

    method AppendSingly(target: Target, items: seq<string>, workerId: string) returns (published: seq<string>)
      requires target.Single? && AllHeld(outbox, delivery, items, workerId)
      modifies this
      ensures published == Successes(target, items)
      ensures delivery == Marked(old(delivery), Failures(target, items), RELEASED)
      ensures Extends(old(logs), logs) && AllInLog(outbox, logs, published)
      ensures ExtendedBy(outbox, old(logs), logs, published)
    {
      published := [];
      for i := 0 to |items|
        invariant published == Successes(target, items[..i])
        invariant delivery == Marked(old(delivery), Failures(target, items[..i]), RELEASED)
        invariant Extends(old(logs), logs) && AllInLog(outbox, logs, published)
        invariant ExtendedBy(outbox, old(logs), logs, published)
      {
        OneMoreItem(target, items, i);
        ReleaseOne(outbox, old(delivery), Failures(target, items[..i]), items[i], workerId);
        assert Held(outbox, old(delivery), items[i], workerId);
        hide Marked, Release, Successes, Failures, AllHeld, ExtendedBy, Extends, AllInLog;
        if items[i] in target.fails {
          MarkFailed(items[i], workerId);
        } else {
          ghost var mid := logs;
          AppendOne(items[i], published);
          ExtendsTwice(old(logs), mid, logs);
          ExtendedByOneMore(outbox, old(logs), mid, logs, published, items[i]);
          published := published + [items[i]];
        }
      }
      assert items[..|items|] == items;
    }

    method AppendTogether(items: seq<string>)
      requires forall i :: 0 <= i < |items| ==> items[i] in outbox
      modifies this`logs
      ensures Extends(old(logs), logs) && AllInLog(outbox, logs, items) && ExtendedBy(outbox, old(logs), logs, items)
    {
      assert forall id :: id in items ==> id in outbox;
      RowsAreAppended(logs, outbox, items);
      RowsExtend(logs, outbox, items);
      logs := AppendRows(logs, outbox, items);
      assert forall i :: 0 <= i < |items| ==> items[i] in items;
    }

    /** One group's appends. What failed is released at once; what succeeded is in its topic and still claimed. */
    method PublishTopic(target: Target, items: seq<string>, workerId: string) returns (published: seq<string>)
      requires AllHeld(outbox, delivery, items, workerId)
      modifies this
      ensures published == Successes(target, items)
      ensures delivery == Marked(old(delivery), Failures(target, items), RELEASED)
      ensures Extends(old(logs), logs) && AllInLog(outbox, logs, published)
      ensures ExtendedBy(outbox, old(logs), logs, Written(target, items))
    {
      match target {
        case Missing =>
          NothingSucceeds(target, items);
          ReleaseAll(items, workerId);
          published := [];
        case Batching(ok, written) =>
          if ok {
            EverythingSucceeds(target, items);
            assert delivery == Marked(delivery, {}, RELEASED);
            AppendTogether(items);
            published := items;
          } else {
            NothingSucceeds(target, items);
            AppendTogether(if written < |items| then items[..written] else items);
            ReleaseAll(items, workerId);
            published := [];
          }
        case Single(_) => published := AppendSingly(target, items, workerId);
      }
    }

    /** The claim statement: of the free rows nobody else has locked, the oldest, up to the batch size. */
    method Claim(workerId: string, now: int, lease: nat, batchSize: nat, locked: set<string>)
      returns (chosen: seq<string>)
      modifies this`delivery
      ensures IsClaim(outbox, old(delivery), now, batchSize, locked, chosen)
      ensures delivery == Marked(old(delivery), AsSet(chosen), Delivery(None, workerId, now + lease))
      ensures forall id :: id in chosen ==> id in delivery && delivery[id] == Delivery(None, workerId, now + lease)
      ensures forall id :: id !in chosen ==> (id in delivery <==> id in old(delivery))
      ensures forall id :: id !in chosen && id in old(delivery) ==> delivery[id] == old(delivery)[id]
      ensures AllHeld(outbox, delivery, chosen, workerId)
    {
      chosen := OldestFree(outbox, delivery, now, batchSize, locked);
      delivery := Marked(delivery, AsSet(chosen), Delivery(None, workerId, now + lease));
    }

    /** One statement for a group; fewer rows touched than asked for means a claim was lost. */
    method MarkPublished(ids: seq<string>, workerId: string, now: int) returns (failure: Option<Error>)
      requires Distinct(ids)
      modifies this`delivery
      ensures var touched := set id | id in ids && id in outbox
                                              && id in old(delivery) && old(delivery)[id].claimedBy == workerId;
              && delivery == Marked(old(delivery), touched, Delivery(Some(now), "", 0))
              && (failure.None? <==> touched == AsSet(ids))
    {
      var touched := set id | id in ids && id in outbox && id in delivery && delivery[id].claimedBy == workerId;
      DistinctCount(ids);
      if touched != AsSet(ids) { SmallerSet(touched, AsSet(ids)); }
      delivery := Marked(delivery, touched, Delivery(Some(now), "", 0));
      failure := if |touched| == |ids| then None else Some(ClaimLost);
    }

    method PublishGroup(target: Target, items: seq<string>, workerId: string, now: int)
      returns (count: nat, failure: Option<Error>)
      requires AllHeld(outbox, delivery, items, workerId) && Distinct(items)
      modifies this
      ensures failure.None? && count == |AsSet(Successes(target, items))|
      ensures delivery ==
              Marked(Marked(old(delivery), Failures(target, items), RELEASED),
                     AsSet(Successes(target, items)), Delivery(Some(now), "", 0))
      ensures Extends(old(logs), logs) && AllInLog(outbox, logs, Successes(target, items))
      ensures ExtendedBy(outbox, old(logs), logs, Written(target, items))
    {
      SuccessesDistinct(target, items);
      DistinctCount(Successes(target, items));
      var published := PublishTopic(target, items, workerId);
      SuccessesAreHeld(outbox, old(delivery), target, items, workerId);
      failure := MarkPublished(published, workerId, now);
      count := |published|;
    }

    method PublishRows(topic: Topic, chosen: seq<string>, workerId: string, now: int, targets: Topic -> Target,
                       before: nat, ghost first: Logs, ghost claimed: Deliveries, ghost done: set<Topic>)
      returns (count: nat, failure: Option<Error>)
      requires forall id :: id in chosen ==> id in outbox
      requires Distinct(chosen) && AllHeld(outbox, claimed, chosen, workerId) && topic !in done
      requires Progress(outbox, first, logs, claimed, delivery, chosen, targets, done, now, before)
      requires LogsFollow(outbox, first, logs, chosen, targets, done)
      modifies this
      ensures failure.None?
      ensures Progress(outbox, first, logs, claimed, delivery, chosen, targets, done + {topic}, now, count)
      ensures LogsFollow(outbox, first, logs, chosen, targets, done + {topic})
    {
      hide *;
      var items := TopicRows(outbox, chosen, topic);
      var target := targets(topic);
      ghost var rows, log := delivery, logs;
      GroupIsReady(outbox, first, log, claimed, rows, chosen, targets, done, topic, now, before, workerId);
      var published, lost := PublishGroup(target, items, workerId, now);
      ProgressOne(outbox, first, log, logs, claimed, rows, delivery, chosen, targets,
                  done, topic, now, before, published);
      LogsFollowOne(outbox, first, log, logs, chosen, targets, done, topic);
      count, failure := before + published, lost;
    }

    /** The claimed rows' groups, one after the other. */
    method PublishClaimed(chosen: seq<string>, workerId: string, now: int, targets: Topic -> Target, eventsFirst: bool,
                          ghost before: Logs)
      returns (count: nat, failure: Option<Error>)
      requires forall id :: id in chosen ==> id in outbox
      requires Distinct(chosen) && AllHeld(outbox, delivery, chosen, workerId)
      requires Progress(outbox, before, logs, delivery, delivery, chosen, targets, {}, now, 0)
      requires LogsFollow(outbox, before, logs, chosen, targets, {})
      modifies this
      ensures failure.None?
      ensures Progress(outbox, before, logs, old(delivery), delivery, chosen, targets, BOTH_TOPICS, now, count)
      ensures LogsFollow(outbox, before, logs, chosen, targets, BOTH_TOPICS)
    {
      hide Progress, AllHeld, Distinct, LogsFollow;
      ghost var claimed := delivery;
      var first := if eventsFirst then OrderEvents else MatchRequests;
      var second := if eventsFirst then MatchRequests else OrderEvents;
      count, failure := PublishRows(first, chosen, workerId, now, targets, 0, before, claimed, {});
      if failure.Some? { return; }
      assert {} + {first} == {first};
      count, failure := PublishRows(second, chosen, workerId, now, targets, count, before, claimed, {first});
      assert {first} + {second} == BOTH_TOPICS;
    }

    /** A whole round: every claimed row ends either published, its event in its topic once and in the claim's order, or
        released for the next claim; all others are untouched, and the count is the number published. The groups come in
        either order. */
    method PublishOnce(workerId: string, now: int, lease: nat, batchSize: nat, locked: set<string>,
                       targets: Topic -> Target, eventsFirst: bool)
      returns (count: nat, failure: Option<Error>, chosen: seq<string>)
      modifies this
      ensures IsClaim(outbox, old(delivery), now, batchSize, locked, chosen) && failure.None?
      ensures count == |set id | id in chosen && Succeeds(targets(outbox[id].topic), id)|
      ensures forall id :: id in chosen ==>
                             && id in delivery
                             && delivery[id] ==
                                if Succeeds(targets(outbox[id].topic), id) then Delivery(Some(now), "", 0)
                                else Delivery(None, "", 0)
      ensures forall id :: id !in chosen ==> (id in delivery <==> id in old(delivery))
      ensures forall id :: id !in chosen && id in old(delivery) ==> delivery[id] == old(delivery)[id]
      ensures forall p :: IsLogAfter(outbox, LogOf(old(logs), p), LogOf(logs, p), chosen, targets(p.topic), p)
      ensures Extends(old(logs), logs)
      ensures forall id :: id in chosen && Succeeds(targets(outbox[id].topic), id) ==> InLog(logs, outbox[id])
    {
      chosen := Claim(workerId, now, lease, batchSize, locked);
      NothingPublished(outbox, logs, delivery, chosen, targets, now);
      NothingAppended(outbox, logs, chosen, targets);
      ghost var claimed := delivery;
      ClaimIsSettled(outbox, old(delivery), chosen, targets, now, Delivery(None, workerId, now + lease));
      RoundSettles(outbox, old(delivery), chosen, targets, now);
      hide IsClaim, Settled, Published, Marked, AllHeld, Distinct, LogsFollow, IsLogAfter, Succeeds;
      count, failure := PublishClaimed(chosen, workerId, now, targets, eventsFirst, logs);
      LogsAfterRound(outbox, old(logs), logs, chosen, targets);
    }
  }
}
