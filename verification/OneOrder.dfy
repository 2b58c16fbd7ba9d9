/** One order's row while a log is applied, and while parts of the log are applied to it once more. */
module OneOrder {
  import opened Model
  import opened OrderApplier

  predicate Concerns(e: Event, id: int) {
    IsOrderEvent(e.body) && e.body.orderId == id
  }

  /** The order's row after an event; another order's event, and one that fails, leave it alone. */
  function Step(row: Option<OrderState>, e: Event, id: int): Option<OrderState> {
    if !Concerns(e, id) then row
    else match Decide(row, e)
      case Ok(Some(state)) => Some(state)
      case _ => row
  }

  /** The order's row after one pass over the first `n` events. */
  function Row(log: seq<Event>, id: int, n: nat): Option<OrderState>
    requires n <= |log|
  {
    if n == 0 then None else Step(Row(log, id, n - 1), log[n - 1], id)
  }

  // ---------------------------------------------------------------------------------------------
  // What a stretch of the log holds for the order
  // ---------------------------------------------------------------------------------------------

  datatype Kind = Creates | Retries | Misses | Cancels | Matches

  predicate Is(e: Event, id: int, kind: Kind) {
    && Concerns(e, id)
    && match kind
       case Creates => e.body.OrderCreated?
       case Retries => e.body.OrderRetry?
       case Misses => e.body.OrderMissed?
       case Cancels => e.body.OrderCancelled?
       case Matches => e.body.OrderMatched?
  }

  predicate Absent(log: seq<Event>, id: int, kind: Kind, lo: nat, hi: nat)
    requires hi <= |log|
  {
    forall i :: lo <= i < hi ==> !Is(log[i], id, kind)
  }

  /** In a single pass the event at `i` writes the row. */
  predicate Writes(log: seq<Event>, id: int, i: nat)
    requires i < |log|
  {
    Concerns(log[i], id) && Decide(Row(log, id, i), log[i]).Ok? && Decide(Row(log, id, i), log[i]).value.Some?
  }

  predicate Quiet(log: seq<Event>, id: int, lo: nat, hi: nat)
    requires hi <= |log|
  {
    forall i :: lo <= i < hi ==> !Writes(log, id, i)
  }

  /** In a single pass the event at `i` is a creation that writes the row's place. */
  predicate Places(log: seq<Event>, id: int, i: nat)
    requires i < |log|
  {
    Is(log[i], id, Creates) && Writes(log, id, i)
  }

  predicate NoPlace(log: seq<Event>, id: int, lo: nat, hi: nat)
    requires hi <= |log|
  {
    forall i :: lo <= i < hi ==> !Places(log, id, i)
  }

  /** A retry or a miss has come. */
  predicate Moved(log: seq<Event>, id: int, n: nat)
    requires n <= |log|
  {
    !Absent(log, id, Retries, 0, n) || !Absent(log, id, Misses, 0, n)
  }

  /** No creation that writes comes after a retry or a miss. */
  predicate PlacedAtOnce(log: seq<Event>, id: int, n: nat)
    requires n <= |log|
  {
    forall i :: 0 <= i < n && Moved(log, id, i) ==> !Places(log, id, i)
  }

  /** Every retry finds the order, as it does in a log that applies. */
  predicate Fine(log: seq<Event>, id: int, n: nat)
    requires n <= |log|
  {
    forall i :: 0 <= i < n && Is(log[i], id, Retries) ==> Row(log, id, i).Some?
  }

  predicate Ended(s: OrderState) {
    s.status in {Matched, Cancelled}
  }

  predicate SamePlace(s: OrderState, z: OrderState) {
    s.x == z.x && s.y == z.y
  }

  predicate SameRetry(s: OrderState, z: OrderState) {
    s.attempt == z.attempt && s.retryReason == z.retryReason
  }

  predicate SameRider(s: OrderState, z: OrderState) {
    s.riderId == z.riderId && s.score == z.score
  }

  predicate SameStamp(s: OrderState, z: OrderState) {
    s.lastEventId == z.lastEventId && s.updatedAt == z.updatedAt
  }

  // ---------------------------------------------------------------------------------------------
  // A single pass
  // ---------------------------------------------------------------------------------------------

  /** A row that is not ended is created, retried or missed; created unless a retry or miss has come; and it has
      no rider and no cancel reason yet. */
  predicate Shaped(s: OrderState, moved: bool) {
    !Ended(s) ==>
      && s.status in {Created, RetryRequested, Missed}
      && (!moved ==> s.status == Created)
      && s.riderId == 0 && s.score == 0 && s.cancelReason == ""
  }

  lemma {:induction false} RowIsShaped(log: seq<Event>, id: int, n: nat)
    requires n <= |log| && Fine(log, id, n)
    ensures Row(log, id, n).Some? ==> Shaped(Row(log, id, n).value, Moved(log, id, n))
    ensures Row(log, id, n).None? ==> !Moved(log, id, n)
    ensures Row(log, id, n).Some? && Ended(Row(log, id, n).value) <==>
            !Absent(log, id, Cancels, 0, n) || !Absent(log, id, Matches, 0, n)
  {
    if n > 0 {
      RowIsShaped(log, id, n - 1);
    }
  }

  /** What a stretch without events of a kind leaves as it was. */
  predicate Kept(log: seq<Event>, id: int, s: OrderState, z: OrderState, lo: nat, hi: nat)
    requires hi <= |log|
  {
    && s.shardId == z.shardId
    && (NoPlace(log, id, lo, hi) ==> SamePlace(s, z))
    && (Absent(log, id, Retries, lo, hi) ==> SameRetry(s, z))
    && (Absent(log, id, Misses, lo, hi) ==> s.missReason == z.missReason)
    && (Absent(log, id, Cancels, lo, hi) ==> s.cancelReason == z.cancelReason)
    && (Absent(log, id, Matches, lo, hi) ==> SameRider(s, z))
    && (Quiet(log, id, lo, hi) ==> SameStamp(s, z) && s.status == z.status)
    && (Ended(s) && Absent(log, id, Cancels, lo, hi) && Absent(log, id, Matches, lo, hi) ==> s == z)
  }

  lemma StepIsKept(log: seq<Event>, id: int, n: nat)
    requires n < |log| && Row(log, id, n).Some?
    ensures Row(log, id, n + 1).Some?
    ensures Kept(log, id, Row(log, id, n).value, Row(log, id, n + 1).value, n, n + 1)
  {
    assert Places(log, id, n) <==> Is(log[n], id, Creates) && Writes(log, id, n);
    assert Writes(log, id, n) || Row(log, id, n + 1) == Row(log, id, n);
  }

  lemma KeptTwice(log: seq<Event>, id: int, s: OrderState, t: OrderState, z: OrderState, lo: nat, mid: nat, hi: nat)
    requires lo <= mid <= hi <= |log| && Kept(log, id, s, t, lo, mid) && Kept(log, id, t, z, mid, hi)
    ensures Kept(log, id, s, z, lo, hi)
  {
  }

  lemma {:induction false} RowIsKept(log: seq<Event>, id: int, lo: nat, hi: nat)
    requires lo <= hi <= |log| && Row(log, id, lo).Some?
    ensures Row(log, id, hi).Some? && Kept(log, id, Row(log, id, lo).value, Row(log, id, hi).value, lo, hi)
    decreases hi
  {
    if lo < hi {
      RowIsKept(log, id, lo, hi - 1);
      StepIsKept(log, id, hi - 1);
      var s, t, z := Row(log, id, lo).value, Row(log, id, hi - 1).value, Row(log, id, hi).value;
      KeptTwice(log, id, s, t, z, lo, hi - 1, hi);
    }
  }

  // ---------------------------------------------------------------------------------------------
  // Applying part of the log again
  // ---------------------------------------------------------------------------------------------

  /** An ended row: the fields an ended order no longer takes are final, and what later ends will write over need not
      be. */
  predicate EndedOk(log: seq<Event>, id: int, s: OrderState, z: OrderState, at: nat, top: nat)
    requires top <= |log|
  {
    && Ended(s) && SamePlace(s, z) && SameRetry(s, z) && s.missReason == z.missReason
    && (Absent(log, id, Matches, at, top) ==> SameRider(s, z))
    && (Absent(log, id, Cancels, at, top) ==> s.cancelReason == z.cancelReason)
    && (Absent(log, id, Matches, at, top) && Absent(log, id, Cancels, at, top) ==> s == z)
  }

  /** A row that has not ended: what the rest of the pass will write over need not be right yet. Once the pass has met a
      retry or a miss the status is that of a single pass; before that a missed row refuses creations, so then its
      place must be right already, unless a later creation will write it anyway. */
  predicate OpenOk(log: seq<Event>, id: int, s: OrderState, z: OrderState, at: nat, top: nat)
    requires at <= top <= |log|
  {
    && Shaped(s, Moved(log, id, top)) && !Ended(s)
    && SameRider(s, z) && s.cancelReason == z.cancelReason
    && (Absent(log, id, Retries, at, top) ==> SameRetry(s, z))
    && (Absent(log, id, Misses, at, top) ==> s.missReason == z.missReason)
    && (Quiet(log, id, at, top) ==> SameStamp(s, z))
    && (NoPlace(log, id, at, top) ==> SamePlace(s, z))
    && (s.status == Missed && PlacedAtOnce(log, id, top) ==> SamePlace(s, z))
    && (Moved(log, id, at) ==> Row(log, id, at).Some? && s.status == Row(log, id, at).value.status)
  }

  /** How a row may look when the first `top` events have all been applied at some time and the pass in progress has
      got to `at`. */
  predicate Recovering(log: seq<Event>, id: int, row: Option<OrderState>, at: nat, top: nat)
    requires at <= top <= |log|
  {
    var last := Row(log, id, top);
    && (row.Some? <==> last.Some?)
    && (row.Some? ==>
          && row.value.shardId == last.value.shardId
          && if Ended(last.value) then EndedOk(log, id, row.value, last.value, at, top)
             else OpenOk(log, id, row.value, last.value, at, top))
  }

  /** A pass may start over. */
  lemma StartOver(log: seq<Event>, id: int, row: Option<OrderState>, at: nat, top: nat)
    requires at <= top <= |log| && Recovering(log, id, row, at, top)
    ensures Recovering(log, id, row, 0, top)
  {
  }

  /** When a pass has caught up, the row is that of a single pass. */
  lemma CaughtUp(log: seq<Event>, id: int, row: Option<OrderState>, top: nat)
    requires top <= |log| && Fine(log, id, top) && Recovering(log, id, row, top, top)
    ensures row == Row(log, id, top)
  {
    RowIsShaped(log, id, top);
  }

  lemma SinglePassRecovers(log: seq<Event>, id: int, top: nat)
    requires top <= |log| && Fine(log, id, top)
    ensures Recovering(log, id, Row(log, id, top), top, top)
  {
    RowIsShaped(log, id, top);
  }

  /** Another order's event: both windows hold the same events of this order. */
  lemma PassOver(log: seq<Event>, id: int, row: Option<OrderState>, at: nat, top: nat)
    requires at < top <= |log| && Recovering(log, id, row, at, top) && !Concerns(log[at], id)
    ensures Recovering(log, id, row, at + 1, top)
  {
    assert Row(log, id, at + 1) == Row(log, id, at);
    assert !Writes(log, id, at) && !Places(log, id, at);
  }

  lemma ConcernedRowExists(log: seq<Event>, id: int, at: nat, top: nat)
    requires at < top <= |log| && Fine(log, id, top) && Concerns(log[at], id)
    ensures Row(log, id, at + 1).Some? && Row(log, id, top).Some?
    ensures Kept(log, id, Row(log, id, at + 1).value, Row(log, id, top).value, at + 1, top)
  {
    assert Is(log[at], id, Retries) ==> Row(log, id, at).Some?;
    RowIsKept(log, id, at + 1, top);
  }

  /** The rest of the pass, with and without the event at its head. */
  lemma WindowsShrink(log: seq<Event>, id: int, at: nat, top: nat)
    requires at < top <= |log|
    ensures forall kind :: Absent(log, id, kind, at, top) <==>
            !Is(log[at], id, kind) && Absent(log, id, kind, at + 1, top)
    ensures NoPlace(log, id, at, top) <==> !Places(log, id, at) && NoPlace(log, id, at + 1, top)
    ensures Quiet(log, id, at, top) <==> !Writes(log, id, at) && Quiet(log, id, at + 1, top)
    ensures Moved(log, id, at + 1) <==> Moved(log, id, at) || Is(log[at], id, Retries) || Is(log[at], id, Misses)
  {
  }

  function Stamped(s: OrderState, e: Event): OrderState {
    s.(lastEventId := e.id, updatedAt := e.occurredAt)
  }

  function Retried(s: OrderState, e: Event): OrderState
    requires e.body.OrderRetry?
  {
    Stamped(s, e).(status := RetryRequested, attempt := e.body.attempt, retryReason := e.body.reason)
  }

  function MarkedMissed(s: OrderState, e: Event): OrderState
    requires e.body.OrderMissed?
  {
    Stamped(s, e).(status := Missed, missReason := e.body.reason)
  }

  function Placed(s: OrderState, e: Event): OrderState
    requires e.body.OrderCreated?
  {
    Stamped(s, e).(status := Created, x := e.body.x, y := e.body.y)
  }

  /** What an event does to a row that has not ended. */
  lemma OpenEffect(s: OrderState, e: Event, id: int)
    requires Concerns(e, id) && !Ended(s) && s.status in {Created, RetryRequested, Missed}
    ensures e.body.OrderRetry? ==> Step(Some(s), e, id) == Some(Retried(s, e))
    ensures e.body.OrderMissed? ==> Step(Some(s), e, id) == Some(MarkedMissed(s, e))
    ensures e.body.OrderCreated? ==> Step(Some(s), e, id) == Some(if s.status == Missed then s else Placed(s, e))
  {
  }

  /** What an event does to a row that has ended. */
  lemma EndedEffect(s: OrderState, e: Event, id: int)
    requires Concerns(e, id) && Ended(s)
    ensures Step(Some(s), e, id) == Some(
        if e.body.OrderCancelled? then Stamped(s, e).(status := Cancelled, cancelReason := e.body.reason)
        else if e.body.OrderMatched? then
          Stamped(s, e).(status := Matched, riderId := e.body.riderId, score := e.body.score)
        else s)
  {
  }

  /** An end of either kind writes the row of a single pass, whatever it was. */
  lemma RowAfterEnd(log: seq<Event>, id: int, at: nat)
    requires at < |log| && Concerns(log[at], id)
    ensures var e := log[at];
            var row := Row(log, id, at + 1);
            && (e.body.OrderCancelled? ==>
                  && row.Some? && row.value.status == Cancelled && row.value.cancelReason == e.body.reason
                  && row.value.lastEventId == e.id && row.value.updatedAt == e.occurredAt)
            && (e.body.OrderMatched? ==>
                  && row.Some? && row.value.status == Matched && row.value.riderId == e.body.riderId
                  && row.value.score == e.body.score && row.value.lastEventId == e.id
                  && row.value.updatedAt == e.occurredAt)
  {
  }

  lemma EndedStep(log: seq<Event>, id: int, s: OrderState, at: nat, top: nat)
    requires at < top <= |log| && Fine(log, id, top) && Concerns(log[at], id)
    requires Row(log, id, top).Some? && Ended(Row(log, id, top).value)
    requires s.shardId == Row(log, id, top).value.shardId && EndedOk(log, id, s, Row(log, id, top).value, at, top)
    ensures var next := Step(Some(s), log[at], id);
            && next.Some? && next.value.shardId == s.shardId
            && EndedOk(log, id, next.value, Row(log, id, top).value, at + 1, top)
  {
    hide Absent, Quiet, NoPlace, Moved, PlacedAtOnce, Decide, Step, Row, Fine, Writes, Places;
    ConcernedRowExists(log, id, at, top);
    WindowsShrink(log, id, at, top);
    EndedEffect(s, log[at], id);
    RowAfterEnd(log, id, at);
  }

  lemma OpenHasNoEnd(log: seq<Event>, id: int, at: nat, top: nat)
    requires at < top <= |log| && Fine(log, id, top) && Row(log, id, top).Some? && !Ended(Row(log, id, top).value)
    ensures !Is(log[at], id, Cancels) && !Is(log[at], id, Matches)
    ensures Row(log, id, at).Some? ==>
              !Ended(Row(log, id, at).value) && Shaped(Row(log, id, at).value, Moved(log, id, at))
    ensures Row(log, id, at).None? ==> !Moved(log, id, at)
  {
    RowIsShaped(log, id, top);
    RowIsShaped(log, id, at);
  }

  predicate OpenAt(log: seq<Event>, id: int, s: OrderState, at: nat, top: nat) {
    && at < top <= |log| && Fine(log, id, top) && Row(log, id, top).Some? && !Ended(Row(log, id, top).value)
    && s.shardId == Row(log, id, top).value.shardId && OpenOk(log, id, s, Row(log, id, top).value, at, top)
  }

  /** What an event does in a single pass that does not end. */
  lemma RowAfterOpen(log: seq<Event>, id: int, at: nat, top: nat)
    requires at < top <= |log| && Fine(log, id, top) && Row(log, id, top).Some? && !Ended(Row(log, id, top).value)
    requires Concerns(log[at], id)
    ensures Row(log, id, at + 1).Some?
    ensures var e := log[at];
            var row := Row(log, id, at + 1).value;
            && (e.body.OrderRetry? ==>
                  Writes(log, id, at) && row == Retried(row, e))
            && (e.body.OrderMissed? ==>
                  Writes(log, id, at) && row == MarkedMissed(row, e))
            && (e.body.OrderCreated? ==>
                  if Row(log, id, at).Some? && Row(log, id, at).value.status == Missed
                  then !Writes(log, id, at) && !Places(log, id, at) && Row(log, id, at + 1) == Row(log, id, at)
                  else Places(log, id, at) && row == Placed(row, e))
            && (!e.body.OrderCreated? ==> !Places(log, id, at))
  {
    OpenHasNoEnd(log, id, at, top);
  }

  lemma MovedStays(log: seq<Event>, id: int, n: nat, top: nat)
    requires n <= top <= |log|
    ensures Moved(log, id, n) ==> Moved(log, id, top)
  {
  }

  lemma RetryStep(log: seq<Event>, id: int, s: OrderState, at: nat, top: nat)
    requires OpenAt(log, id, s, at, top) && Is(log[at], id, Retries)
    ensures var next := Step(Some(s), log[at], id);
            && next.Some? && next.value.shardId == s.shardId
            && OpenOk(log, id, next.value, Row(log, id, top).value, at + 1, top)
  {
    hide Absent, Quiet, NoPlace, Moved, PlacedAtOnce, Decide, Step, Row, Fine, Writes, Places;
    ConcernedRowExists(log, id, at, top);
    WindowsShrink(log, id, at, top);
    OpenEffect(s, log[at], id);
    RowAfterOpen(log, id, at, top);
    MovedStays(log, id, at + 1, top);
  }

  /** A pass about to take a miss has its place right already, unless a later creation writes it. */
  lemma NothingPlacedLater(log: seq<Event>, id: int, at: nat, top: nat)
    requires at < top <= |log| && Is(log[at], id, Misses) && PlacedAtOnce(log, id, top)
    ensures NoPlace(log, id, at, top)
  {
    forall i | at <= i < top ensures !Places(log, id, i) {
      if i > at { assert Moved(log, id, i); }
    }
  }

  lemma MissStep(log: seq<Event>, id: int, s: OrderState, at: nat, top: nat)
    requires OpenAt(log, id, s, at, top) && Is(log[at], id, Misses)
    ensures var next := Step(Some(s), log[at], id);
            && next.Some? && next.value.shardId == s.shardId
            && OpenOk(log, id, next.value, Row(log, id, top).value, at + 1, top)
  {
    hide Absent, Quiet, NoPlace, Moved, PlacedAtOnce, Decide, Step, Row, Fine, Writes, Places;
    ConcernedRowExists(log, id, at, top);
    WindowsShrink(log, id, at, top);
    OpenEffect(s, log[at], id);
    RowAfterOpen(log, id, at, top);
    MovedStays(log, id, at + 1, top);
    if PlacedAtOnce(log, id, top) { NothingPlacedLater(log, id, at, top); }
  }

  /** In a pass that does not end, a retry and a miss always write. */
  lemma MovesWrite(log: seq<Event>, id: int, i: nat, top: nat)
    requires i < top <= |log| && Fine(log, id, top) && Row(log, id, top).Some? && !Ended(Row(log, id, top).value)
    requires Is(log[i], id, Retries) || Is(log[i], id, Misses)
    ensures Writes(log, id, i)
  {
    OpenHasNoEnd(log, id, i, top);
  }

  /** A missed row at the start of a pass means a retry or miss is still to come, and it will write. */
  lemma MissedRowIsNotQuiet(log: seq<Event>, id: int, s: OrderState, at: nat, top: nat)
    requires OpenAt(log, id, s, at, top) && s.status == Missed && !Moved(log, id, at)
    ensures !Quiet(log, id, at, top)
    ensures Is(log[at], id, Creates) ==> !Quiet(log, id, at + 1, top)
  {
    var i :| 0 <= i < top && (Is(log[i], id, Retries) || Is(log[i], id, Misses));
    assert i >= at;
    MovesWrite(log, id, i, top);
  }

  /** A creation the row takes is one that writes in a single pass, too. */
  lemma CreateTaken(log: seq<Event>, id: int, s: OrderState, at: nat, top: nat)
    requires OpenAt(log, id, s, at, top) && Is(log[at], id, Creates) && s.status != Missed
    ensures var next := Step(Some(s), log[at], id);
            && next.Some? && next.value.shardId == s.shardId
            && OpenOk(log, id, next.value, Row(log, id, top).value, at + 1, top)
  {
    hide Absent, Quiet, NoPlace, Moved, PlacedAtOnce, Decide, Step, Row, Fine, Writes, Places;
    ConcernedRowExists(log, id, at, top);
    WindowsShrink(log, id, at, top);
    OpenEffect(s, log[at], id);
    RowAfterOpen(log, id, at, top);
    OpenHasNoEnd(log, id, at, top);
  }

  /** Nothing placed after this creation and nothing placed after a retry or miss: nothing placed too late. */
  lemma PlacedBefore(log: seq<Event>, id: int, at: nat, top: nat)
    requires at < top <= |log| && !Moved(log, id, at) && NoPlace(log, id, at + 1, top)
    ensures PlacedAtOnce(log, id, top)
  {
    forall i | 0 <= i < top && Moved(log, id, i) ensures !Places(log, id, i) {
      if i <= at { MovedStays(log, id, i, at); }
    }
  }

  /** A creation the row refuses: in a single pass it is refused too, or a later event writes what it would have. */
  lemma CreateRefused(log: seq<Event>, id: int, s: OrderState, at: nat, top: nat)
    requires OpenAt(log, id, s, at, top) && Is(log[at], id, Creates) && s.status == Missed
    ensures Step(Some(s), log[at], id) == Some(s)
    ensures OpenOk(log, id, s, Row(log, id, top).value, at + 1, top)
  {
    hide Absent, Quiet, NoPlace, Moved, PlacedAtOnce, Decide, Step, Row, Fine, Writes, Places;
    WindowsShrink(log, id, at, top);
    OpenEffect(s, log[at], id);
    RowAfterOpen(log, id, at, top);
    if !Moved(log, id, at) {
      MissedRowIsNotQuiet(log, id, s, at, top);
      if NoPlace(log, id, at + 1, top) { PlacedBefore(log, id, at, top); }
    }
  }

  /** The pass in progress takes one more event. */
  lemma StepRecovers(log: seq<Event>, id: int, row: Option<OrderState>, at: nat, top: nat)
    requires at < top <= |log| && Fine(log, id, top) && Recovering(log, id, row, at, top)
    ensures Recovering(log, id, Step(row, log[at], id), at + 1, top)
  {
    var e := log[at];
    if !Concerns(e, id) {
      PassOver(log, id, row, at, top);
    } else {
      ConcernedRowExists(log, id, at, top);
      hide EndedOk, OpenOk, Decide, Row, Fine, Kept;
      if Ended(Row(log, id, top).value) {
        EndedStep(log, id, row.value, at, top);
      } else {
        OpenHasNoEnd(log, id, at, top);
        if Is(e, id, Retries) {
          RetryStep(log, id, row.value, at, top);
        } else if Is(e, id, Misses) {
          MissStep(log, id, row.value, at, top);
        } else if row.value.status != Missed {
          CreateTaken(log, id, row.value, at, top);
        } else {
          CreateRefused(log, id, row.value, at, top);
        }
      }
    }
  }
}
