/** The single-record shard worker without a transaction: apply one event, then save the checkpoint, with a crash
    or a stop possible between any two steps. One node owns the shard throughout, and a stopped worker has finished
    before the next one starts. */
module Replay {
  import opened Model
  import opened OneOrder
  import OrderApplier

  // ---------------------------------------------------------------------------------------------
  // Applying an event to the order store
  // ---------------------------------------------------------------------------------------------

  /** The order store keeps whole integers, so nothing is narrowed here. */
  function Apply(orders: Orders, e: Event): Result<Orders> {
    if e.body.Undecodable? then Err(UndecodablePayload)
    else if !OrderApplier.IsOrderEvent(e.body) then Err(UnsupportedEvent)
    else match OrderApplier.Decide(OrderApplier.Find(orders, e.body.orderId), e)
      case Err(error) => Err(error)
      case Ok(None) => Ok(orders)
      case Ok(Some(state)) => Ok(orders[e.body.orderId := state])
  }

  /** An event fails when its payload does not decode, when no order consumer handles its type, or when it retries an
      order that does not exist, and in no other case. */
  lemma EventFailsExactlyWhen(orders: Orders, e: Event)
    ensures match e.body
            case Undecodable => Apply(orders, e) == Err(UndecodablePayload)
            case Unsupported(_) => Apply(orders, e) == Err(UnsupportedEvent)
            case MatchRequested(_, _, _, _) => Apply(orders, e) == Err(UnsupportedEvent)
            case OrderRetry(id, _, _) =>
              if id in orders then Apply(orders, e).Ok? else Apply(orders, e) == Err(RetryBeforeCreation)
            case _ => Apply(orders, e).Ok?
  {
  }

  /** An event that has just been applied changes nothing when it is applied again. */
  lemma ApplyIsIdempotent(orders: Orders, e: Event)
    requires Apply(orders, e).Ok?
    ensures Apply(Apply(orders, e).value, e) == Apply(orders, e)
  {
    var after := Apply(orders, e).value;
    var id := e.body.orderId;
    if after != orders {
      assert after[id := after[id]] == after;
    } else if OrderApplier.Decide(OrderApplier.Find(orders, id), e).value.Some? {
      assert orders[id := after[id]] == orders;
    }
  }

  /** One uninterrupted pass over the first `n` events. */
  function Fold(log: seq<Event>, n: nat): Result<Orders>
    requires n <= |log|
  {
    if n == 0 then Ok(map[])
    else match Fold(log, n - 1)
      case Err(error) => Err(error)
      case Ok(orders) => Apply(orders, log[n - 1])
  }

  const TWICE_PLACED := [
    Event("a", OrderCreated(7, 1, 0), 0, 0), Event("b", OrderMissed(7, ""), 0, 0),
    Event("c", OrderCreated(7, 2, 0), 0, 0), Event("d", OrderRetry(7, 1, ""), 0, 0)]

  /** That is a property of the last event alone. After this log, applying its last two events again moves the order:
      the creation that was ignored after the miss is not ignored after the retry. */
  lemma GoingBackTwoCanDiffer()
    ensures Fold(TWICE_PLACED, 4).Ok?
    ensures var once := Fold(TWICE_PLACED, 4).value;
            && Apply(once, TWICE_PLACED[2]).Ok?
            && Apply(Apply(once, TWICE_PLACED[2]).value, TWICE_PLACED[3]).Ok?
            && Apply(Apply(once, TWICE_PLACED[2]).value, TWICE_PLACED[3]).value != once
  {
    var one := Fold(TWICE_PLACED, 1).value;
    var two := Fold(TWICE_PLACED, 2).value;
    assert Fold(TWICE_PLACED, 3).value == two && two[7].x == 1;
    var once := Fold(TWICE_PLACED, 4).value;
    assert once[7].x == 1;
    assert Apply(Apply(once, TWICE_PLACED[2]).value, TWICE_PLACED[3]).value[7].x == 2;
  }

  /** Nor does the argument below cover a worker that outlives its stop: had one taken the third event off its stream
      earlier and applied it only after its successor got through the log, the orders would not be those of one pass. */
  lemma LingeringWorkerCanSpoil()
    ensures Fold(TWICE_PLACED, |TWICE_PLACED|).Ok?
    ensures var once := Fold(TWICE_PLACED, |TWICE_PLACED|).value;
            Apply(once, TWICE_PLACED[2]).Ok? && Apply(once, TWICE_PLACED[2]).value != once
  {
    GoingBackTwoCanDiffer();
    var two := Fold(TWICE_PLACED, 2).value;
    assert Fold(TWICE_PLACED, 3).value == two && two[7].x == 1;
    var once := Fold(TWICE_PLACED, 4).value;
    assert Apply(once, TWICE_PLACED[2]).value[7].x == 2;
  }

  /** One order's share of an applied event. */
  lemma ApplyIsAStep(orders: Orders, e: Event, id: int)
    requires Apply(orders, e).Ok?
    ensures OrderApplier.Find(Apply(orders, e).value, id) == OneOrder.Step(OrderApplier.Find(orders, id), e, id)
  {
  }

  /** One order's share of a pass. */
  lemma {:induction false} FoldIsRow(log: seq<Event>, n: nat, id: int)
    requires n <= |log| && Fold(log, n).Ok?
    ensures OrderApplier.Find(Fold(log, n).value, id) == Row(log, id, n) && Fine(log, id, n)
  {
    if n > 0 {
      FoldIsRow(log, n - 1, id);
      ApplyIsAStep(Fold(log, n - 1).value, log[n - 1], id);
    }
  }

  // ---------------------------------------------------------------------------------------------
  // The state machine
  // ---------------------------------------------------------------------------------------------

  datatype Worker = Stopped | Ready(next: nat) | Applied(next: nat) | Remembered(next: nat)

  /** `cache` is the next step the process remembers, lost in a crash. No step reads the last two: `applied` counts the
      events that have reached the store at some time, `reached` those the pass in progress has been through. */
  datatype State = State(orders: Orders, store: Option<nat>, cache: nat, worker: Worker, applied: nat, reached: nat)

  datatype Step = Start | ApplyNext | Remember | Save | Stop | Crash

  const INIT := State(map[], None, 0, Stopped, 0, 0)

  /** Where a worker starting now would resume. */
  function Resume(s: State): nat {
    if s.store.Some? then s.store.value else s.cache
  }

  function Do(log: seq<Event>, s: State, step: Step): State {
    match step
    case Start => if s.worker.Stopped? then s.(worker := Ready(Resume(s))) else s
    case ApplyNext =>
      if !s.worker.Ready? || s.worker.next >= |log| then s
      else (
        var n := s.worker.next;
        match Apply(s.orders, log[n])
        case Err(_) => s.(worker := Stopped)
        case Ok(orders) =>
          s.(orders := orders, worker := Applied(n),
             applied := if s.applied > n then s.applied else n + 1, reached := n + 1))
    case Remember =>
      if s.worker.Applied? then s.(cache := s.worker.next + 1, worker := Remembered(s.worker.next)) else s
    case Save =>
      if s.worker.Remembered? then s.(store := Some(s.worker.next + 1), worker := Ready(s.worker.next + 1)) else s
    case Stop => s.(worker := Stopped)
    case Crash => s.(worker := Stopped, cache := 0, reached := if s.store.None? then 0 else s.reached)
  }

  function Exec(log: seq<Event>, s: State, steps: seq<Step>): State {
    if |steps| == 0 then s else Do(log, Exec(log, s, steps[..|steps| - 1]), steps[|steps| - 1])
  }

  // ---------------------------------------------------------------------------------------------
  // Every run recovers
  // ---------------------------------------------------------------------------------------------

  /** Where the worker is in the pass in progress: at its end, or about to apply its last event again. */
  predicate WorkerAt(s: State) {
    && s.reached - 1 <= Resume(s) <= s.reached
    && match s.worker
       case Stopped => true
       case Ready(n) => n == Resume(s)
       case Applied(n) => n == Resume(s) && s.reached == n + 1
       case Remembered(n) => s.reached == n + 1 == s.cache && (s.store.Some? ==> s.store.value == n)
  }

  /** Every order is as it may be when this much of the log is being applied again. */
  ghost predicate AllRecovering(log: seq<Event>, orders: Orders, reached: nat, applied: nat)
    requires reached <= applied <= |log|
  {
    forall id: int :: Recovering(log, id, OrderApplier.Find(orders, id), reached, applied)
  }

  ghost predicate Inv(log: seq<Event>, s: State) {
    && s.reached <= s.applied <= |log| && Fold(log, s.applied).Ok?
    && WorkerAt(s)
    && AllRecovering(log, s.orders, s.reached, s.applied)
    && (s.reached > 0 ==> Apply(s.orders, log[s.reached - 1]) == Ok(s.orders))
  }

  /** A pass that has caught up holds the orders of a single pass. */
  lemma CaughtUpOrders(log: seq<Event>, orders: Orders, n: nat)
    requires n <= |log| && Fold(log, n).Ok? && AllRecovering(log, orders, n, n)
    ensures forall id: int :: OrderApplier.Find(orders, id) == OrderApplier.Find(Fold(log, n).value, id)
  {
    forall id: int ensures OrderApplier.Find(orders, id) == OrderApplier.Find(Fold(log, n).value, id) {
      FoldIsRow(log, n, id);
      CaughtUp(log, id, OrderApplier.Find(orders, id), n);
    }
  }

  lemma SameOrders(a: Orders, b: Orders)
    requires forall id: int :: OrderApplier.Find(a, id) == OrderApplier.Find(b, id)
    ensures a == b
  {
    forall id: int ensures id in a <==> id in b {
      assert OrderApplier.Find(a, id) == OrderApplier.Find(b, id);
    }
    forall id | id in a ensures a[id] == b[id] {
      assert OrderApplier.Find(a, id) == OrderApplier.Find(b, id);
    }
  }

  lemma CaughtUpIsFold(log: seq<Event>, orders: Orders, n: nat)
    requires n <= |log| && Fold(log, n).Ok? && AllRecovering(log, orders, n, n)
    ensures orders == Fold(log, n).value
  {
    CaughtUpOrders(log, orders, n);
    SameOrders(orders, Fold(log, n).value);
  }

  lemma {:induction false} FoldHasPrefix(log: seq<Event>, n: nat, m: nat)
    requires n <= m <= |log| && Fold(log, m).Ok?
    ensures Fold(log, n).Ok?
    decreases m
  {
    if n < m {
      FoldHasPrefix(log, n, m - 1);
    }
  }

  lemma RetriedRowExists(log: seq<Event>, orders: Orders, reached: nat, applied: nat)
    requires reached < applied <= |log| && Fold(log, applied).Ok? && AllRecovering(log, orders, reached, applied)
    requires log[reached].body.OrderRetry?
    ensures OrderApplier.Find(orders, log[reached].body.orderId).Some?
  {
    var id := log[reached].body.orderId;
    FoldIsRow(log, applied, id);
    assert Is(log[reached], id, Retries);
    RowIsKept(log, id, reached, applied);
    assert Recovering(log, id, OrderApplier.Find(orders, id), reached, applied);
  }

  /** An event that applied once applies again to orders that are recovering. */
  lemma AppliesAgain(log: seq<Event>, orders: Orders, reached: nat, applied: nat)
    requires reached < applied <= |log| && Fold(log, applied).Ok? && AllRecovering(log, orders, reached, applied)
    ensures Apply(orders, log[reached]).Ok?
  {
    FoldHasPrefix(log, reached + 1, applied);
    var e := log[reached];
    assert Apply(Fold(log, reached).value, e).Ok?;
    if e.body.OrderRetry? {
      RetriedRowExists(log, orders, reached, applied);
    }
    hide AllRecovering, Fold;
  }

  /** The pass in progress applies its next event once more. */
  lemma NextRecovers(log: seq<Event>, orders: Orders, reached: nat, applied: nat)
    requires reached < applied <= |log| && Fold(log, applied).Ok? && AllRecovering(log, orders, reached, applied)
    requires Apply(orders, log[reached]).Ok?
    ensures AllRecovering(log, Apply(orders, log[reached]).value, reached + 1, applied)
  {
    var after := Apply(orders, log[reached]).value;
    forall id: int ensures Recovering(log, id, OrderApplier.Find(after, id), reached + 1, applied) {
      FoldIsRow(log, applied, id);
      ApplyIsAStep(orders, log[reached], id);
      StepRecovers(log, id, OrderApplier.Find(orders, id), reached, applied);
    }
  }

  /** A pass that has caught up applies an event for the first time. */
  lemma FirstTimeRecovers(log: seq<Event>, orders: Orders, n: nat)
    requires n < |log| && Fold(log, n).Ok? && AllRecovering(log, orders, n, n) && Apply(orders, log[n]).Ok?
    ensures Fold(log, n + 1) == Apply(orders, log[n])
    ensures AllRecovering(log, Apply(orders, log[n]).value, n + 1, n + 1)
  {
    CaughtUpIsFold(log, orders, n);
    forall id: int ensures Recovering(log, id, OrderApplier.Find(Apply(orders, log[n]).value, id), n + 1, n + 1) {
      FoldIsRow(log, n + 1, id);
      SinglePassRecovers(log, id, n + 1);
    }
  }

  /** The last event once more, the next one again, or one for the first time. */
  lemma AppliedOrders(log: seq<Event>, orders: Orders, n: nat, reached: nat, applied: nat)
    requires n < |log| && reached <= applied <= |log| && reached - 1 <= n <= reached && Fold(log, applied).Ok?
    requires AllRecovering(log, orders, reached, applied) && Apply(orders, log[n]).Ok?
    requires reached > 0 ==> Apply(orders, log[reached - 1]) == Ok(orders)
    ensures var top := if applied > n then applied else n + 1;
            Fold(log, top).Ok? && AllRecovering(log, Apply(orders, log[n]).value, n + 1, top)
  {
    hide AllRecovering, Fold, Apply;
    if n == reached && reached < applied {
      NextRecovers(log, orders, reached, applied);
    } else if n == reached {
      FirstTimeRecovers(log, orders, n);
    }
  }

  lemma ApplyKeepsInv(log: seq<Event>, s: State)
    requires Inv(log, s)
    ensures Inv(log, Do(log, s, ApplyNext))
  {
    hide AllRecovering, Fold, Apply;
    if s.worker.Ready? && s.worker.next < |log| && Apply(s.orders, log[s.worker.next]).Ok? {
      AppliedOrders(log, s.orders, s.worker.next, s.reached, s.applied);
      ApplyIsIdempotent(s.orders, log[s.worker.next]);
    }
  }

  lemma AllStartOver(log: seq<Event>, orders: Orders, reached: nat, applied: nat)
    requires reached <= applied <= |log| && AllRecovering(log, orders, reached, applied)
    ensures AllRecovering(log, orders, 0, applied)
  {
    forall id: int ensures Recovering(log, id, OrderApplier.Find(orders, id), 0, applied) {
      StartOver(log, id, OrderApplier.Find(orders, id), reached, applied);
    }
  }

  lemma CrashKeepsInv(log: seq<Event>, s: State)
    requires Inv(log, s)
    ensures Inv(log, Do(log, s, Crash))
  {
    hide AllRecovering, Fold, Apply;
    AllStartOver(log, s.orders, s.reached, s.applied);
  }

  lemma LocalStepKeepsInv(log: seq<Event>, s: State, step: Step)
    requires Inv(log, s) && !step.ApplyNext? && !step.Crash?
    ensures Inv(log, Do(log, s, step))
  {
    hide AllRecovering, Fold, Apply;
    var after := Do(log, s, step);
    assert after == s.(store := after.store, cache := after.cache, worker := after.worker) && WorkerAt(after);
  }

  lemma InvStep(log: seq<Event>, s: State, step: Step)
    requires Inv(log, s)
    ensures Inv(log, Do(log, s, step))
  {
    hide Inv, Do;
    match step
    case ApplyNext => ApplyKeepsInv(log, s);
    case Crash => CrashKeepsInv(log, s);
    case _ => LocalStepKeepsInv(log, s, step);
  }

  lemma NothingApplied(log: seq<Event>)
    ensures Inv(log, INIT)
  {
  }

  lemma {:induction false} InvRun(log: seq<Event>, steps: seq<Step>)
    ensures Inv(log, Exec(log, INIT, steps))
  {
    NothingApplied(log);
    hide Inv;
    if |steps| > 0 {
      InvRun(log, steps[..|steps| - 1]);
      InvStep(log, Exec(log, INIT, steps[..|steps| - 1]), steps[|steps| - 1]);
    }
  }

  /** However often and whenever the worker stops and the process crashes, with the checkpoint kept, behind or never
      saved: a worker that has got through the log leaves the orders of one uninterrupted pass. */
  lemma RestartsEndAsOnePass(log: seq<Event>, steps: seq<Step>)
    requires Exec(log, INIT, steps).worker == Ready(|log|)
    ensures Fold(log, |log|) == Ok(Exec(log, INIT, steps).orders)
  {
    InvRun(log, steps);
    hide AllRecovering, Fold, Apply;
    CaughtUpIsFold(log, Exec(log, INIT, steps).orders, |log|);
  }

  lemma ExecOne(log: seq<Event>, steps: seq<Step>, step: Step)
    ensures Exec(log, INIT, steps + [step]) == Do(log, Exec(log, INIT, steps), step)
  {
    assert (steps + [step])[..|steps|] == steps;
  }

  // ---------------------------------------------------------------------------------------------
  // A worker left alone gets through the log
  // ---------------------------------------------------------------------------------------------

  /** The steps of a worker through its next `k` events. */
  function Pass(k: nat): seq<Step> {
    if k == 0 then [] else Pass(k - 1) + [ApplyNext] + [Remember] + [Save]
  }

  lemma FoldSnoc(log: seq<Event>, orders: Orders, n: nat)
    requires n < |log| && Fold(log, n) == Ok(orders)
    ensures Fold(log, n + 1) == Apply(orders, log[n])
  {
    hide Apply;
  }

  lemma FirstTimeApplies(log: seq<Event>, orders: Orders, n: nat)
    requires n < |log| && Fold(log, |log|).Ok? && Fold(log, n) == Ok(orders)
    ensures Apply(orders, log[n]).Ok?
  {
    hide Apply, Fold;
    FoldHasPrefix(log, n + 1, |log|);
    FoldSnoc(log, orders, n);
  }

  /** Whether it is the last event once more, the next one again, or one for the first time. */
  lemma NextApplies(log: seq<Event>, orders: Orders, n: nat, reached: nat, applied: nat)
    requires n < |log| && reached <= applied <= |log| && reached - 1 <= n <= reached
    requires Fold(log, applied).Ok? && Fold(log, |log|).Ok? && AllRecovering(log, orders, reached, applied)
    requires reached > 0 ==> Apply(orders, log[reached - 1]) == Ok(orders)
    ensures Apply(orders, log[n]).Ok?
  {
    hide AllRecovering, Fold, Apply;
    if n == reached && reached < applied {
      AppliesAgain(log, orders, reached, applied);
    } else if n == reached {
      CaughtUpIsFold(log, orders, n);
      FirstTimeApplies(log, orders, n);
    }
  }

  lemma OneEventOn(log: seq<Event>, s: State)
    requires Inv(log, s) && s.worker.Ready? && s.worker.next < |log| && Fold(log, |log|).Ok?
    ensures var after := Do(log, Do(log, Do(log, s, ApplyNext), Remember), Save);
            after.worker == Ready(s.worker.next + 1) && after.store == Some(s.worker.next + 1)
  {
    hide AllRecovering, Fold, Apply;
    NextApplies(log, s.orders, s.worker.next, s.reached, s.applied);
  }

  lemma {:induction false} PassGoesOn(log: seq<Event>, steps: seq<Step>, k: nat)
    requires Exec(log, INIT, steps).worker.Ready? && Exec(log, INIT, steps).worker.next + k <= |log|
    requires Fold(log, |log|).Ok?
    ensures var n := Exec(log, INIT, steps).worker.next;
            var after := Exec(log, INIT, steps + Pass(k));
            after.worker == Ready(n + k) && (k > 0 ==> after.store == Some(n + k))
  {
    hide Exec, Fold, Inv, Do;
    if k == 0 {
      assert steps + Pass(k) == steps;
    } else {
      PassGoesOn(log, steps, k - 1);
      var front := steps + Pass(k - 1);
      InvRun(log, front);
      OneEventOn(log, Exec(log, INIT, front));
      ExecOne(log, front, ApplyNext);
      ExecOne(log, front + [ApplyNext], Remember);
      ExecOne(log, front + [ApplyNext] + [Remember], Save);
      assert front + [ApplyNext] + [Remember] + [Save] == steps + Pass(k);
    }
  }

  lemma ResumesWithin(log: seq<Event>, steps: seq<Step>)
    ensures Resume(Exec(log, INIT, steps)) <= |log|
  {
    InvRun(log, steps);
    hide AllRecovering, Fold, Apply;
  }

  /** From every reachable state, whatever has happened to it: if the log's events apply at all, a worker that is
      started and left alone gets through the log, the checkpoint says so, and the orders are those of one pass. */
  lemma RestartGetsThrough(log: seq<Event>, steps: seq<Step>)
    requires Fold(log, |log|).Ok?
    ensures var from := Resume(Exec(log, INIT, steps));
            && from <= |log|
            && var end := Exec(log, INIT, steps + [Stop] + [Start] + Pass(|log| - from));
               && end.worker == Ready(|log|) && Ok(end.orders) == Fold(log, |log|)
               && (from < |log| ==> end.store == Some(|log|))
  {
    ResumesWithin(log, steps);
    hide Exec, Fold, Pass;
    ExecOne(log, steps, Stop);
    ExecOne(log, steps + [Stop], Start);
    var from := Resume(Exec(log, INIT, steps));
    assert Exec(log, INIT, steps + [Stop] + [Start]).worker == Ready(from);
    PassGoesOn(log, steps + [Stop] + [Start], |log| - from);
    RestartsEndAsOnePass(log, steps + [Stop] + [Start] + Pass(|log| - from));
  }

  function ApplyFrom(log: seq<Event>, orders: Orders, lo: nat, hi: nat): Result<Orders>
    requires lo <= hi <= |log|
    decreases hi - lo
  {
    if lo == hi then Ok(orders)
    else match Apply(orders, log[lo])
      case Err(error) => Err(error)
      case Ok(next) => ApplyFrom(log, next, lo + 1, hi)
  }

  lemma {:induction false} RestRepairs(log: seq<Event>, orders: Orders, reached: nat, applied: nat)
    requires reached <= applied <= |log| && Fold(log, applied).Ok? && AllRecovering(log, orders, reached, applied)
    ensures ApplyFrom(log, orders, reached, applied) == Fold(log, applied)
    decreases applied - reached
  {
    hide AllRecovering, Fold, Apply;
    if reached == applied {
      CaughtUpIsFold(log, orders, applied);
    } else {
      AppliesAgain(log, orders, reached, applied);
      NextRecovers(log, orders, reached, applied);
      RestRepairs(log, Apply(orders, log[reached]).value, reached + 1, applied);
    }
  }

  /** At every moment of every run the rest of the pass repairs the orders: applying the events the pass has not reached
      to what the store holds ends in the orders of one pass over everything that was ever applied. */
  lemma EveryMomentRecovers(log: seq<Event>, steps: seq<Step>)
    ensures var s := Exec(log, INIT, steps);
            && s.reached <= s.applied <= |log|
            && ApplyFrom(log, s.orders, s.reached, s.applied) == Fold(log, s.applied)
  {
    InvRun(log, steps);
    RestRepairs(log, Exec(log, INIT, steps).orders, Exec(log, INIT, steps).reached, Exec(log, INIT, steps).applied);
  }

  // ---------------------------------------------------------------------------------------------
  // How far ahead of its checkpoint the store can be
  // ---------------------------------------------------------------------------------------------

  /** The store is at the place a worker would resume from, or one event after it. */
  predicate Bounded(s: State) {
    Resume(s) <= s.applied <= Resume(s) + 1
  }

  /** A crash that finds no checkpoint saved and more than one event applied. */
  predicate LosesTwo(s: State, step: Step) {
    step.Crash? && s.store.None? && s.applied >= 2
  }

  ghost predicate NeverLosesTwo(log: seq<Event>, steps: seq<Step>) {
    forall n :: 0 <= n < |steps| ==> !LosesTwo(Exec(log, INIT, steps[..n]), steps[n])
  }

  predicate BoundInv(s: State) {
    && Bounded(s)
    && match s.worker
       case Stopped => true
       case Ready(n) => n == Resume(s)
       case Applied(n) => n == Resume(s) && s.applied == n + 1
       case Remembered(n) => s.applied == n + 1 == s.cache && (s.store.Some? ==> s.store.value == n)
  }

  lemma BoundStep(log: seq<Event>, s: State, step: Step)
    requires BoundInv(s)
    ensures BoundInv(Do(log, s, step)) <==> Bounded(Do(log, s, step))
    ensures Bounded(Do(log, s, step)) <==> !LosesTwo(s, step)
  {
    hide Apply;
  }

  lemma NeverLosesTwoBefore(log: seq<Event>, steps: seq<Step>)
    requires |steps| > 0 && NeverLosesTwo(log, steps)
    ensures NeverLosesTwo(log, steps[..|steps| - 1])
    ensures !LosesTwo(Exec(log, INIT, steps[..|steps| - 1]), steps[|steps| - 1])
  {
    var front := steps[..|steps| - 1];
    forall n | 0 <= n < |front| ensures !LosesTwo(Exec(log, INIT, front[..n]), front[n]) {
      assert front[..n] == steps[..n] && front[n] == steps[n];
    }
  }

  lemma {:induction false} BoundRun(log: seq<Event>, steps: seq<Step>)
    requires NeverLosesTwo(log, steps)
    ensures BoundInv(Exec(log, INIT, steps))
  {
    if |steps| > 0 {
      NeverLosesTwoBefore(log, steps);
      BoundRun(log, steps[..|steps| - 1]);
      BoundStep(log, Exec(log, INIT, steps[..|steps| - 1]), steps[|steps| - 1]);
    }
  }

  /** The exact condition. As long as it has never been broken, the store ends at the checkpoint or one event after it,
      and the next step breaks this if and only if it is a crash that finds no checkpoint saved and more than one event
      applied. */
  lemma BoundBreaksExactlyWhen(log: seq<Event>, steps: seq<Step>, step: Step)
    requires NeverLosesTwo(log, steps)
    ensures var s := Exec(log, INIT, steps);
            Bounded(s) && (!Bounded(Do(log, s, step)) <==> LosesTwo(s, step))
  {
    BoundRun(log, steps);
    BoundStep(log, Exec(log, INIT, steps), step);
  }

  predicate NoStops(steps: seq<Step>) {
    forall i :: 0 <= i < |steps| ==> !steps[i].Stop?
  }

  /** Before the first save only the first event can have been applied. */
  predicate AtFirstEvent(s: State) {
    s.store.None? ==> match s.worker
      case Stopped => s.cache == 0
      case Ready(n) => s.cache == 0
      case Applied(n) => n == 0 && s.cache == 0
      case Remembered(n) => n == 0
  }

  lemma {:induction false} CrashRun(log: seq<Event>, steps: seq<Step>)
    requires NoStops(steps)
    ensures BoundInv(Exec(log, INIT, steps)) && AtFirstEvent(Exec(log, INIT, steps))
  {
    if |steps| > 0 {
      var front := steps[..|steps| - 1];
      CrashRun(log, front);
      hide Apply;
      BoundStep(log, Exec(log, INIT, front), steps[|steps| - 1]);
    }
  }

  // ---------------------------------------------------------------------------------------------
  // While the bound holds the store is a prefix's fold
  // ---------------------------------------------------------------------------------------------

  lemma PrefixApplied(log: seq<Event>, orders: Orders, n: nat, applied: nat)
    requires n < |log| && n <= applied <= n + 1 && applied <= |log|
    requires Fold(log, applied) == Ok(orders) && Apply(orders, log[n]).Ok?
    ensures Fold(log, n + 1) == Apply(orders, log[n])
  {
    if applied == n + 1 {
      hide Apply;
      ApplyIsIdempotent(Fold(log, n).value, log[n]);
    }
  }

  lemma PrefixStep(log: seq<Event>, s: State, step: Step)
    requires BoundInv(s) && s.applied <= |log| && Fold(log, s.applied) == Ok(s.orders) && !LosesTwo(s, step)
    ensures Do(log, s, step).applied <= |log|
    ensures Fold(log, Do(log, s, step).applied) == Ok(Do(log, s, step).orders)
  {
    hide Apply, Fold;
    if step.ApplyNext? && s.worker.Ready? && s.worker.next < |log| && Apply(s.orders, log[s.worker.next]).Ok? {
      PrefixApplied(log, s.orders, s.worker.next, s.applied);
    }
  }

  lemma {:induction false} PrefixRun(log: seq<Event>, steps: seq<Step>)
    requires NeverLosesTwo(log, steps)
    ensures Exec(log, INIT, steps).applied <= |log|
    ensures Fold(log, Exec(log, INIT, steps).applied) == Ok(Exec(log, INIT, steps).orders)
  {
    if |steps| > 0 {
      var front := steps[..|steps| - 1];
      NeverLosesTwoBefore(log, steps);
      PrefixRun(log, front);
      BoundRun(log, front);
      PrefixStep(log, Exec(log, INIT, front), steps[|steps| - 1]);
    }
  }

  /** With stops as well, until a crash loses two: the store is one pass over a prefix that ends at the checkpoint or
      one event after it. */
  lemma PrefixEndsAtTheCheckpointOrOneAfter(log: seq<Event>, steps: seq<Step>)
    requires NeverLosesTwo(log, steps)
    ensures var s := Exec(log, INIT, steps);
            && s.applied <= |log| && Fold(log, s.applied) == Ok(s.orders)
            && Resume(s) <= s.applied <= Resume(s) + 1
            && (s.store.Some? ==> s.store.value <= s.applied <= s.store.value + 1)
  {
    PrefixRun(log, steps);
    BoundRun(log, steps);
  }

  /** Crashes and restarts alone, any number of them at any moments, never break the bound: the store holds one
      uninterrupted pass over a prefix of the log that ends at the checkpoint or one event after it. */
  lemma CrashesKeepTheBound(log: seq<Event>, steps: seq<Step>)
    requires NoStops(steps)
    ensures var s := Exec(log, INIT, steps);
            && s.applied <= |log| && Fold(log, s.applied) == Ok(s.orders)
            && Resume(s) <= s.applied <= Resume(s) + 1
  {
    forall n | 0 <= n < |steps| ensures !LosesTwo(Exec(log, INIT, steps[..n]), steps[n]) {
      CrashRun(log, steps[..n]);
    }
    PrefixEndsAtTheCheckpointOrOneAfter(log, steps);
  }

  // ---------------------------------------------------------------------------------------------
  // A run that loses two
  // ---------------------------------------------------------------------------------------------

  const FIRST_UNSAVED := [Start, ApplyNext, Remember]

  const DROPPING := FIRST_UNSAVED + [Stop] + [Start] + [ApplyNext] + [Crash]

  lemma FirstUnsaved(log: seq<Event>)
    requires |log| >= 1 && Fold(log, 1).Ok?
    ensures Exec(log, INIT, FIRST_UNSAVED) == State(Fold(log, 1).value, None, 1, Remembered(0), 1, 1)
  {
    assert Fold(log, 0) == Ok(map[]);
    assert Exec(log, INIT, []) == INIT;
    ExecOne(log, [], Start);
    ExecOne(log, [Start], ApplyNext);
    ExecOne(log, [Start, ApplyNext], Remember);
    assert [] + [Start] == [Start] && [Start] + [ApplyNext] == [Start, ApplyNext];
    assert [Start, ApplyNext] + [Remember] == FIRST_UNSAVED;
  }

  lemma SecondApplied(log: seq<Event>)
    requires |log| >= 2 && Fold(log, 2).Ok?
    ensures Fold(log, 1).Ok? && Apply(Fold(log, 1).value, log[1]) == Fold(log, 2)
  {
  }

  /** On every log whose first two events apply the bound does break: a stop that drops the first save, a restart in the
      same process and then a crash leave the store two events ahead of the next start. */
  lemma DroppedFirstSaveFallsBehind(log: seq<Event>)
    requires |log| >= 2 && Fold(log, 2).Ok?
    ensures !NeverLosesTwo(log, DROPPING)
    ensures var s := Exec(log, INIT, DROPPING);
            s.applied == 2 && Resume(s) == 0 && Fold(log, 2) == Ok(s.orders)
  {
    assert Fold(log, 1).Ok?;
    FirstUnsaved(log);
    hide Exec, Fold, Apply;
    ExecOne(log, FIRST_UNSAVED, Stop);
    ExecOne(log, FIRST_UNSAVED + [Stop], Start);
    var restarted := FIRST_UNSAVED + [Stop] + [Start];
    assert Exec(log, INIT, restarted) == State(Fold(log, 1).value, None, 1, Ready(1), 1, 1);
    SecondApplied(log);
    ExecOne(log, restarted, ApplyNext);
    ExecOne(log, restarted + [ApplyNext], Crash);
    assert DROPPING[..6] == restarted + [ApplyNext] && DROPPING[6] == Crash;
  }
}
