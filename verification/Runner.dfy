/** The node runner's reconciliation of running shard workers with the shards it owns: one refresh goroutine,
    any number of workers that may lose their fence and exit between any two of its steps. */
module Runner {
  import opened Model

  /** The epoch of each shard's worker, and of each shard's ownership. */
  type Epochs = map<nat, int>

  type Counts = map<nat, int>

  function Count(counts: Counts, k: nat): int {
    if k in counts then counts[k] else 0
  }

  function Bump(counts: Counts, k: nat, delta: int): Counts {
    counts[k := Count(counts, k) + delta]
  }

  // ---------------------------------------------------------------------------------------------
  // The state machine
  // ---------------------------------------------------------------------------------------------

  /** Which loop the refresh goroutine is in: over what it should run, over what it runs, or over everything
      after an error. */
  datatype Loop =
    | Examining(desired: Epochs, todo: set<nat>)
    | Sweeping(desired: Epochs, left: set<nat>)
    | Draining

  /** Where in its loop it is. */
  datatype Phase =
    | Idle
    | Down
    | At(loop: Loop)
    | ToStop(loop: Loop, shard: nat)
    | StopHook(loop: Loop, shard: nat)
    | ToStart(loop: Loop, shard: nat)
    | Opening(loop: Loop, shard: nat)

  /** `hooks` is start hooks minus stop hooks run; `exiting` counts workers that have removed themselves and not
      yet run their stop hook; `ended` are the shards whose worker returned when its stream closed, which leaves its
      entry. `lost` are the shards whose workers removed themselves since the last refresh began, and `settled` is
      what the last refresh wanted, once it has succeeded; no step reads these two. */
  datatype State = State(
    active: Epochs, phase: Phase, hooks: Counts, exiting: Counts, ended: set<nat>,
    lost: set<nat>, settled: Option<Epochs>)

  datatype Step =
    | BeginRefresh(owned: Epochs)
    | Examine(k: nat)
    | TakeOut
    | RunStopHook
    | RunStartHook(ok: bool)
    | Open(ok: bool)
    | EndExamine
    | Sweep(k: nat)
    | EndSweep
    | BeginDrain
    | Drain(k: nat)
    | EndDrain
    | Leave
    | Exit(k: nat, epoch: int)
    | ExitHook(k: nat)
    | StreamCloses(k: nat)

  const INIT := State(map[], Idle, map[], map[], {}, {}, None)

  /** A worker that lost its fence removes the entry only if the entry is its own. */
  function Evicted(active: Epochs, k: nat, epoch: int): Epochs {
    if k in active && active[k] == epoch then active - {k} else active
  }

  function Refresh(s: State, step: Step): State {
    match step
    case BeginRefresh(owned) =>
      if s.phase.Idle? then s.(phase := At(Examining(owned, owned.Keys)), lost := {}, settled := None) else s
    case Examine(k) =>
      if !(s.phase.At? && s.phase.loop.Examining? && k in s.phase.loop.todo && k in s.phase.loop.desired) then s
      else
        var rest := s.phase.loop.(todo := s.phase.loop.todo - {k});
        if k !in s.active then s.(phase := ToStart(rest, k))
        else if s.active[k] == rest.desired[k] then s.(phase := At(rest))
        else s.(phase := ToStop(rest, k))
    case EndExamine =>
      if s.phase.At? && s.phase.loop.Examining? && s.phase.loop.todo == {} then
        s.(phase := At(Sweeping(s.phase.loop.desired, s.active.Keys)))
      else s
    case Sweep(k) =>
      if !(s.phase.At? && s.phase.loop.Sweeping? && k in s.phase.loop.left) then s
      else
        var rest := s.phase.loop.(left := s.phase.loop.left - {k});
        s.(phase := if k in rest.desired then At(rest) else ToStop(rest, k))
    case EndSweep =>
      if s.phase.At? && s.phase.loop.Sweeping? && s.phase.loop.left == {} then
        s.(phase := Idle, settled := Some(s.phase.loop.desired))
      else s
    case BeginDrain => if s.phase.Idle? then s.(phase := At(Draining)) else s
    case Drain(k) =>
      if s.phase.At? && s.phase.loop.Draining? then s.(phase := ToStop(Draining, k)) else s
    case EndDrain =>
      if s.phase.At? && s.phase.loop.Draining? && s.active == map[] then s.(phase := Down) else s
    case Leave =>
      // A node whose very first refresh fails returns without stopping what it has started.
      if s.phase.At? && s.phase.loop.Draining? then s.(phase := Down) else s
    case _ => s
  }

  /** In the first loop a stopped shard is started again under its new epoch. */
  function AfterStop(loop: Loop, k: nat): Phase {
    if loop.Examining? then ToStart(loop, k) else At(loop)
  }

  function StartOrStop(s: State, step: Step): State {
    match step
    case TakeOut =>
      if !s.phase.ToStop? then s
      else if s.phase.shard in s.active then
        s.(active := s.active - {s.phase.shard}, ended := s.ended - {s.phase.shard},
           phase := StopHook(s.phase.loop, s.phase.shard))
      else s.(phase := AfterStop(s.phase.loop, s.phase.shard))
    case RunStopHook =>
      if !s.phase.StopHook? then s
      else s.(hooks := Bump(s.hooks, s.phase.shard, -1), phase := AfterStop(s.phase.loop, s.phase.shard))
    case RunStartHook(ok) =>
      // A checkpoint that cannot be loaded or a failing hook ends the refresh and the node.
      if !s.phase.ToStart? then s
      else if !ok then s.(phase := At(Draining))
      else s.(hooks := Bump(s.hooks, s.phase.shard, 1), phase := Opening(s.phase.loop, s.phase.shard))
    case Open(ok) =>
      if !(s.phase.Opening? && s.phase.loop.Examining? && s.phase.shard in s.phase.loop.desired) then s
      else if !ok then s.(hooks := Bump(s.hooks, s.phase.shard, -1), phase := At(Draining))
      else s.(active := s.active[s.phase.shard := s.phase.loop.desired[s.phase.shard]], phase := At(s.phase.loop))
    case _ => s
  }

  /** The shard has an entry and a worker behind it. */
  predicate Runs(s: State, k: nat) {
    k in s.active && k !in s.ended
  }

  function Do(s: State, step: Step): State {
    match step
    case Exit(k, epoch) =>
      if Runs(s, k) && s.active[k] == epoch then
        s.(active := Evicted(s.active, k, epoch), exiting := Bump(s.exiting, k, 1), lost := s.lost + {k})
      else s
    case ExitHook(k) =>
      if Count(s.exiting, k) > 0 then s.(exiting := Bump(s.exiting, k, -1), hooks := Bump(s.hooks, k, -1)) else s
    case StreamCloses(k) => if k in s.active then s.(ended := s.ended + {k}) else s
    case TakeOut => StartOrStop(s, step)
    case RunStopHook => StartOrStop(s, step)
    case RunStartHook(_) => StartOrStop(s, step)
    case Open(_) => StartOrStop(s, step)
    case _ => Refresh(s, step)
  }

  function Exec(s: State, steps: seq<Step>): State {
    if |steps| == 0 then s else Do(Exec(s, steps[..|steps| - 1]), steps[|steps| - 1])
  }

  // ---------------------------------------------------------------------------------------------
  // The invariant
  // ---------------------------------------------------------------------------------------------

  function One(b: bool): int {
    if b then 1 else 0
  }

  /** The refresh goroutine has this shard between a hook and the entry in `active`. */
  predicate InHand(s: State, k: nat) {
    (s.phase.StopHook? || s.phase.Opening?) && s.phase.shard == k
  }

  predicate Balanced(s: State, k: nat) {
    && Count(s.exiting, k) >= 0
    && Count(s.hooks, k) == One(k in s.active) + Count(s.exiting, k) + One(InHand(s, k))
  }

  predicate Matches(s: State, desired: Epochs, k: nat) {
    k in desired && k in s.active && s.active[k] == desired[k]
  }

  /** A shard the first loop is done with runs as desired, or has lost its worker meanwhile. */
  predicate Handled(s: State, desired: Epochs, k: nat) {
    k in desired && (Matches(s, desired, k) || (k !in s.active && k in s.lost))
  }

  /** The shard the phase is about, if it is about one. */
  predicate About(phase: Phase, k: nat) {
    !phase.Idle? && !phase.Down? && !phase.At? && phase.shard == k
  }

  predicate LoopInv(s: State, loop: Loop, k: nat) {
    match loop
    case Examining(desired, todo) =>
      && (k in todo ==> k in desired && !About(s.phase, k))
      && (k in desired && k !in todo && !About(s.phase, k) ==> Handled(s, desired, k))
    case Sweeping(desired, left) =>
      && (k in desired ==> Handled(s, desired, k) && !About(s.phase, k))
      && (k in s.active && k !in desired ==> k in left || About(s.phase, k))
    case Draining => true
  }

  predicate PhaseInv(s: State, k: nat) {
    match s.phase
    case Idle => s.settled.Some? ==>
        && (k in s.active ==> Matches(s, s.settled.value, k))
        && (k in s.settled.value ==> Handled(s, s.settled.value, k))
    case Down => true
    case At(loop) => LoopInv(s, loop, k)
    case ToStop(loop, shard) =>
      && LoopInv(s, loop, k)
      && (loop.Examining? ==> shard in loop.desired && !Matches(s, loop.desired, shard))
      && (loop.Sweeping? ==> shard !in loop.desired)
    case StopHook(loop, shard) =>
      LoopInv(s, loop, k) && shard !in s.active && (loop.Examining? ==> shard in loop.desired)
    case ToStart(loop, shard) =>
      LoopInv(s, loop, k) && shard !in s.active && loop.Examining? && shard in loop.desired
    case Opening(loop, shard) =>
      LoopInv(s, loop, k) && shard !in s.active && loop.Examining? && shard in loop.desired
  }

  ghost predicate Inv(s: State) {
    (forall k: nat :: Balanced(s, k)) && (forall k: nat :: PhaseInv(s, k)) && forall k :: k in s.ended ==> k in s.active
  }

  lemma RefreshKeepsBalance(s: State, step: Step, k: nat)
    requires Balanced(s, k)
    ensures Balanced(Refresh(s, step), k)
  {
  }

  lemma StartOrStopKeepsBalance(s: State, step: Step, k: nat)
    requires Balanced(s, k) && (s.phase.StopHook? || s.phase.Opening? ==> s.phase.shard !in s.active)
    ensures Balanced(StartOrStop(s, step), k)
  {
  }

  lemma BalancedStep(s: State, step: Step, k: nat)
    requires Inv(s)
    ensures Balanced(Do(s, step), k)
  {
    assert Balanced(s, k) && PhaseInv(s, k);
    RefreshKeepsBalance(s, step, k);
    StartOrStopKeepsBalance(s, step, k);
    hide Inv, PhaseInv, Refresh, StartOrStop;
  }

  lemma PhaseStep(s: State, step: Step, k: nat)
    requires Inv(s)
    ensures PhaseInv(Do(s, step), k)
  {
    assert PhaseInv(s, k);
    hide Inv, Count, Bump, Balanced;
  }

  lemma EndedStep(s: State, step: Step)
    requires Inv(s)
    ensures forall k :: k in Do(s, step).ended ==> k in Do(s, step).active
  {
    if s.phase.Opening? { assert PhaseInv(s, s.phase.shard); }
  }

  lemma InvStep(s: State, step: Step)
    requires Inv(s)
    ensures Inv(Do(s, step))
  {
    var after := Do(s, step);
    forall k: nat ensures Balanced(after, k) {
      BalancedStep(s, step, k);
    }
    forall k: nat ensures PhaseInv(after, k) {
      PhaseStep(s, step, k);
    }
    EndedStep(s, step);
  }

  lemma {:induction false} InvRun(steps: seq<Step>)
    ensures Inv(Exec(INIT, steps))
  {
    if |steps| > 0 {
      InvRun(steps[..|steps| - 1]);
      InvStep(Exec(INIT, steps[..|steps| - 1]), steps[|steps| - 1]);
    }
  }

  // ---------------------------------------------------------------------------------------------
  // Theorems
  // ---------------------------------------------------------------------------------------------

  /** Nothing is under way for the shard: the refresh goroutine is not between its hook and its entry, and every worker
      that left it has run its hook. At rest, after an error and while another shard is dealt with, this is so. */
  predicate Quiet(s: State, k: nat) {
    !InHand(s, k) && Count(s.exiting, k) == 0
  }

  /** At quiescence start hooks minus stop hooks is one for an active shard and zero for any other. */
  lemma HooksBalance(steps: seq<Step>, k: nat)
    requires Quiet(Exec(INIT, steps), k)
    ensures Count(Exec(INIT, steps).hooks, k) == if k in Exec(INIT, steps).active then 1 else 0
  {
    InvRun(steps);
    assert Balanced(Exec(INIT, steps), k);
  }

  /** The shard's worker lost its fence and left at this step, and no refresh has begun since. */
  predicate LeftAt(steps: seq<Step>, m: nat, k: nat)
    requires m < |steps|
  {
    && steps[m].Exit? && steps[m].k == k && Runs(Exec(INIT, steps[..m]), k)
    && Exec(INIT, steps[..m]).active[k] == steps[m].epoch
    && forall n :: m < n < |steps| && steps[n].BeginRefresh? ==> !Exec(INIT, steps[..n]).phase.Idle?
  }

  lemma LostStep(s: State, step: Step, k: nat)
    requires k in Do(s, step).lost
    ensures (step.Exit? && step.k == k && Runs(s, k) && s.active[k] == step.epoch)
            || (k in s.lost && (step.BeginRefresh? ==> !s.phase.Idle?))
  {
  }

  /** A shard counts as lost exactly for such a step since the refresh at work, or the last one, began. */
  lemma {:induction false} LostLeft(steps: seq<Step>, k: nat) returns (m: nat)
    requires k in Exec(INIT, steps).lost
    ensures m < |steps| && LeftAt(steps, m, k)
  {
    assert |steps| > 0;
    var front, last := steps[..|steps| - 1], steps[|steps| - 1];
    LostStep(Exec(INIT, front), last, k);
    hide Exec, Do;
    if k in Exec(INIT, front).lost && (last.BeginRefresh? ==> !Exec(INIT, front).phase.Idle?) {
      m := LostLeft(front, k);
      assert front[..m] == steps[..m] && front[m] == steps[m];
      forall n | m < n < |steps| && steps[n].BeginRefresh? ensures !Exec(INIT, steps[..n]).phase.Idle? {
        if n < |front| { assert front[..n] == steps[..n] && front[n] == steps[n]; }
      }
    } else {
      m := |steps| - 1;
    }
  }

  /** After a successful refresh every entry is of a desired shard under its epoch, and every desired shard has a
      running worker, unless its stream has closed or its worker lost the fence after the refresh began. */
  lemma RefreshSettles(steps: seq<Step>, k: nat)
    requires Exec(INIT, steps).phase.Idle? && Exec(INIT, steps).settled.Some?
    ensures var s := Exec(INIT, steps);
            var desired := s.settled.value;
            && (k in s.active ==> k in desired && s.active[k] == desired[k])
            && (k in desired ==> Runs(s, k) || k in s.ended || exists m :: 0 <= m < |steps| && LeftAt(steps, m, k))
  {
    InvRun(steps);
    assert PhaseInv(Exec(INIT, steps), k);
    hide Exec;
    if k in Exec(INIT, steps).lost { var m := LostLeft(steps, k); }
  }

  /** A worker leaves `active` only by its own exit, under its own epoch, or because the refresh found that its
      shard and epoch are not desired, or because the node is going down. In particular the exit of a worker of
      an older epoch never evicts a newer one, and a refresh never stops a worker it wants. */
  lemma OnlyItsOwnExitEvicts(steps: seq<Step>, step: Step, k: nat)
    requires k in Exec(INIT, steps).active && k !in Do(Exec(INIT, steps), step).active
    ensures var s := Exec(INIT, steps);
            || step == Exit(k, s.active[k])
            || (step == TakeOut && s.phase.ToStop? && s.phase.shard == k
                && (s.phase.loop.Draining? || !Matches(s, s.phase.loop.desired, k)))
  {
    InvRun(steps);
    assert PhaseInv(Exec(INIT, steps), k);
  }

  /** A running worker that finds its fence lost leaves: its entry goes and its stop hook runs, whatever the refresh is
      in the middle of. The exit of one that is not the entry's does nothing. */
  lemma LostWorkerLeaves(steps: seq<Step>, k: nat, epoch: int)
    requires Runs(Exec(INIT, steps), k)
    ensures var s := Exec(INIT, steps);
            var after := Do(Do(s, Exit(k, epoch)), ExitHook(k));
            if epoch == s.active[k] then
              && after.active == s.active - {k} && after.phase == s.phase
              && Count(after.hooks, k) == Count(s.hooks, k) - 1 && Count(after.exiting, k) == Count(s.exiting, k)
            else Do(s, Exit(k, epoch)) == s
  {
    InvRun(steps);
    assert Balanced(Exec(INIT, steps), k);
  }

  /** The refresh stops the shard's worker at this step: the node is going down, or does not want it as it is. */
  predicate StoppedAt(steps: seq<Step>, m: nat, k: nat)
    requires m < |steps|
  {
    var s := Exec(INIT, steps[..m]);
    && steps[m].TakeOut? && s.phase.ToStop? && s.phase.shard == k
    && (s.phase.loop.Draining? || !Matches(s, s.phase.loop.desired, k))
  }

  lemma EndedLeavesByStop(steps: seq<Step>, step: Step, k: nat)
    requires k in Exec(INIT, steps).ended && k !in Do(Exec(INIT, steps), step).ended
    ensures StoppedAt(steps + [step], |steps|, k)
  {
    InvRun(steps);
    var s := Exec(INIT, steps);
    assert (steps + [step])[..|steps|] == steps;
    assert PhaseInv(s, k);
  }

  /** A shard whose stream has closed keeps its entry and is not served again until a refresh stops it, which no refresh
      does that wants the shard under the same epoch. */
  lemma {:induction false} ClosedStreamIsNotReopened(steps: seq<Step>, n: nat, k: nat)
    requires n <= |steps| && k in Exec(INIT, steps[..n]).ended
    ensures (k in Exec(INIT, steps).ended && !Runs(Exec(INIT, steps), k))
            || exists m :: n <= m < |steps| && StoppedAt(steps, m, k)
  {
    if n == |steps| {
      assert steps[..n] == steps;
    } else {
      var front := steps[..|steps| - 1];
      assert front[..n] == steps[..n] && front + [steps[|steps| - 1]] == steps;
      ClosedStreamIsNotReopened(front, n, k);
      if m :| n <= m < |front| && StoppedAt(front, m, k) {
        assert front[..m] == steps[..m] && StoppedAt(steps, m, k);
      } else if k !in Exec(INIT, steps).ended {
        EndedLeavesByStop(front, steps[|steps| - 1], k);
        assert StoppedAt(steps, |front|, k);
      }
    }
  }

  // ---------------------------------------------------------------------------------------------
  // A refresh and a shutdown can always get through
  // ---------------------------------------------------------------------------------------------

  lemma Then(steps: seq<Step>, step: Step) returns (more: seq<Step>)
    ensures more == steps + [step] && Exec(INIT, more) == Do(Exec(INIT, steps), step)
  {
    more := steps + [step];
    assert more[..|steps|] == steps;
  }

  /** Out with the shard's worker: the entry goes, and the stop hook runs. */
  lemma TakesOut(steps: seq<Step>, loop: Loop, k: nat) returns (more: seq<Step>)
    requires Exec(INIT, steps).phase == ToStop(loop, k) && k in Exec(INIT, steps).active
    ensures steps <= more && Exec(INIT, more).active == Exec(INIT, steps).active - {k}
    ensures Exec(INIT, more).phase == AfterStop(loop, k)
    ensures Exec(INIT, more).hooks == Bump(Exec(INIT, steps).hooks, k, -1)
  {
    more := Then(steps, TakeOut);
    more := Then(more, RunStopHook);
  }

  lemma Starts(steps: seq<Step>, loop: Loop, k: nat) returns (more: seq<Step>)
    requires Exec(INIT, steps).phase == ToStart(loop, k) && loop.Examining? && k in loop.desired
    ensures steps <= more && Exec(INIT, more).active == Exec(INIT, steps).active[k := loop.desired[k]]
    ensures Exec(INIT, more).phase == At(loop)
  {
    more := Then(steps, RunStartHook(true));
    more := Then(more, Open(true));
  }

  lemma ExaminesOne(steps: seq<Step>, desired: Epochs, todo: set<nat>, k: nat) returns (more: seq<Step>)
    requires Exec(INIT, steps).phase == At(Examining(desired, todo)) && k in todo && k in desired
    ensures steps <= more && Exec(INIT, more).active == Exec(INIT, steps).active[k := desired[k]]
    ensures Exec(INIT, more).phase == At(Examining(desired, todo - {k}))
  {
    more := Then(steps, Examine(k));
    var rest := Examining(desired, todo - {k});
    var active := Exec(INIT, steps).active;
    assert Exec(INIT, more).active == active;
    hide Exec, Do;
    if k !in active {
      more := Starts(more, rest, k);
    } else if active[k] != desired[k] {
      more := TakesOut(more, rest, k);
      more := Starts(more, rest, k);
      assert (active - {k})[k := desired[k]] == active[k := desired[k]];
    } else {
      assert active[k := desired[k]] == active;
    }
  }

  lemma {:induction false} ExaminesAll(steps: seq<Step>, desired: Epochs, todo: set<nat>) returns (more: seq<Step>)
    requires Exec(INIT, steps).phase == At(Examining(desired, todo)) && todo <= desired.Keys
    ensures steps <= more && Exec(INIT, more).phase == At(Examining(desired, {}))
    ensures forall k :: k in desired && (k in todo || Matches(Exec(INIT, steps), desired, k)) ==>
                          Matches(Exec(INIT, more), desired, k)
    decreases |todo|
  {
    hide Exec, Do;
    more := steps;
    if todo != {} {
      var k :| k in todo;
      more := ExaminesOne(steps, desired, todo, k);
      more := ExaminesAll(more, desired, todo - {k});
    }
  }

  lemma SweepsOne(steps: seq<Step>, desired: Epochs, left: set<nat>, k: nat) returns (more: seq<Step>)
    requires Exec(INIT, steps).phase == At(Sweeping(desired, left)) && k in left && k in Exec(INIT, steps).active
    ensures steps <= more && Exec(INIT, more).phase == At(Sweeping(desired, left - {k}))
    ensures Exec(INIT, more).active ==
            if k in desired then Exec(INIT, steps).active else Exec(INIT, steps).active - {k}
  {
    more := Then(steps, Sweep(k));
    assert Exec(INIT, more).active == Exec(INIT, steps).active;
    hide Exec, Do;
    if k !in desired {
      more := TakesOut(more, Sweeping(desired, left - {k}), k);
    }
  }

  lemma SweepEnds(steps: seq<Step>, desired: Epochs) returns (more: seq<Step>)
    requires Exec(INIT, steps).phase == At(Sweeping(desired, {}))
    ensures steps <= more && Exec(INIT, more) == Exec(INIT, steps).(phase := Idle, settled := Some(desired))
  {
    more := Then(steps, EndSweep);
  }

  lemma {:induction false} SweepsAll(steps: seq<Step>, desired: Epochs, left: set<nat>) returns (more: seq<Step>)
    requires Exec(INIT, steps).phase == At(Sweeping(desired, left)) && left <= Exec(INIT, steps).active.Keys
    requires forall k :: k in desired ==> Matches(Exec(INIT, steps), desired, k)
    requires forall k :: k in Exec(INIT, steps).active && k !in desired ==> k in left
    ensures steps <= more && Exec(INIT, more).phase == Idle && Exec(INIT, more).settled == Some(desired)
    ensures Exec(INIT, more).active == desired
    decreases |left|
  {
    hide Exec, Do;
    if left == {} {
      more := SweepEnds(steps, desired);
    } else {
      var k :| k in left;
      more := SweepsOne(steps, desired, left, k);
      more := SweepsAll(more, desired, left - {k});
    }
  }

  /** The reconciliation is not balanced by doing nothing: from every reachable state at rest a refresh whose hooks
      and streams succeed gets through, whatever it finds and whatever is desired, and leaves exactly the desired
      entries. */
  lemma RefreshGetsThrough(steps: seq<Step>, desired: Epochs) returns (more: seq<Step>)
    requires Exec(INIT, steps).phase == Idle
    ensures steps <= more
    ensures var s := Exec(INIT, more);
            s.phase == Idle && s.settled == Some(desired) && s.active == desired
  {
    more := Then(steps, BeginRefresh(desired));
    more := ExaminesAll(more, desired, desired.Keys);
    var examined := more;
    more := Then(more, EndExamine);
    assert Exec(INIT, more) ==
           Exec(INIT, examined).(phase := At(Sweeping(desired, Exec(INIT, examined).active.Keys)));
    hide Exec, Do;
    more := SweepsAll(more, desired, Exec(INIT, more).active.Keys);
  }

  lemma ReachesStart(steps: seq<Step>, desired: Epochs, k: nat) returns (more: seq<Step>)
    requires Exec(INIT, steps).phase == Idle && k in desired && k !in Exec(INIT, steps).active
    ensures steps <= more
    ensures Exec(INIT, more) == Exec(INIT, steps).(phase := ToStart(Examining(desired, desired.Keys - {k}), k),
                                                   lost := {}, settled := None)
  {
    more := Then(steps, BeginRefresh(desired));
    more := Then(more, Examine(k));
  }

  lemma FailsToStart(steps: seq<Step>, loop: Loop, k: nat, hookOk: bool) returns (more: seq<Step>)
    requires Exec(INIT, steps).phase == ToStart(loop, k) && loop.Examining? && k in loop.desired
    ensures steps <= more && Exec(INIT, more).phase == At(Draining)
    ensures Exec(INIT, more).active == Exec(INIT, steps).active
    ensures forall j: nat :: Count(Exec(INIT, more).hooks, j) == Count(Exec(INIT, steps).hooks, j)
  {
    more := Then(steps, RunStartHook(hookOk));
    if hookOk { more := Then(more, Open(false)); }
  }

  /** One whose hook or stream fails ends with the shard not started and its hooks as they were, and the node goes down:
      at once, if this was its first refresh. */
  lemma FailedStartEndsRefresh(steps: seq<Step>, desired: Epochs, k: nat, hookOk: bool) returns (more: seq<Step>)
    requires Exec(INIT, steps).phase == Idle && k in desired && k !in Exec(INIT, steps).active
    ensures var s, failed := Exec(INIT, steps), Exec(INIT, more);
            && steps <= more && failed.phase == At(Draining) && failed.active == s.active
            && (forall j: nat :: Count(failed.hooks, j) == Count(s.hooks, j))
            && Do(failed, Leave) == failed.(phase := Down)
  {
    more := ReachesStart(steps, desired, k);
    more := FailsToStart(more, Examining(desired, desired.Keys - {k}), k, hookOk);
    hide Exec, Count;
  }

  lemma DrainsOne(steps: seq<Step>, k: nat) returns (more: seq<Step>)
    requires Exec(INIT, steps).phase == At(Draining) && k in Exec(INIT, steps).active
    ensures steps <= more && Exec(INIT, more).phase == At(Draining)
    ensures Exec(INIT, more).active == Exec(INIT, steps).active - {k}
  {
    more := Then(steps, Drain(k));
    assert Exec(INIT, more) == Exec(INIT, steps).(phase := ToStop(Draining, k));
    hide Exec, Do;
    more := TakesOut(more, Draining, k);
  }

  lemma DrainEnds(steps: seq<Step>) returns (more: seq<Step>)
    requires Exec(INIT, steps).phase == At(Draining) && Exec(INIT, steps).active == map[]
    ensures steps <= more && Exec(INIT, more) == Exec(INIT, steps).(phase := Down)
  {
    more := Then(steps, EndDrain);
  }

  lemma {:induction false} DrainsAll(steps: seq<Step>) returns (more: seq<Step>)
    requires Exec(INIT, steps).phase == At(Draining)
    ensures steps <= more && Exec(INIT, more).phase == Down && Exec(INIT, more).active == map[]
    decreases |Exec(INIT, steps).active|
  {
    hide Exec, Do;
    var active := Exec(INIT, steps).active;
    if active == map[] {
      more := DrainEnds(steps);
    } else {
      var k :| k in active;
      more := DrainsOne(steps, k);
      assert active.Keys == (active - {k}).Keys + {k};
      more := DrainsAll(more);
    }
  }

  /** And a shutdown from rest stops every worker. */
  lemma ShutdownGetsThrough(steps: seq<Step>) returns (more: seq<Step>)
    requires Exec(INIT, steps).phase == Idle
    ensures steps <= more && Exec(INIT, more).phase == Down && Exec(INIT, more).active == map[]
  {
    more := Then(steps, BeginDrain);
    assert Exec(INIT, more).phase == At(Draining);
    hide Exec, Do;
    more := DrainsAll(more);
  }

  // ---------------------------------------------------------------------------------------------
  // A shard left unserved
  // ---------------------------------------------------------------------------------------------

  const OWNED: Epochs := map[0 := 1]

  /** Once the first loop is done with the only shard, the second finds nothing to stop. */
  lemma SweepsThrough(steps: seq<Step>) returns (more: seq<Step>)
    requires Exec(INIT, steps).phase == At(Examining(OWNED, {})) && Exec(INIT, steps).active == OWNED
    ensures |more| > |steps| && more[..|steps|] == steps
    ensures Exec(INIT, more) == Exec(INIT, steps).(phase := Idle, settled := Some(OWNED))
  {
    more := Then(steps, EndExamine);
    more := Then(more, Sweep(0));
    assert OWNED.Keys - {0} == {};
    assert Exec(INIT, more).phase == At(Sweeping(OWNED, {}));
    more := Then(more, EndSweep);
  }

  lemma Served() returns (steps: seq<Step>)
    ensures Exec(INIT, steps) == State(OWNED, Idle, map[0 := 1], map[], {}, {}, Some(OWNED))
  {
    steps := Then([], BeginRefresh(OWNED));
    steps := Then(steps, Examine(0));
    assert OWNED.Keys - {0} == {};
    assert Exec(INIT, steps).phase == ToStart(Examining(OWNED, {}), 0);
    steps := Then(steps, RunStartHook(true));
    steps := Then(steps, Open(true));
    assert Exec(INIT, steps) == State(OWNED, At(Examining(OWNED, {})), map[0 := 1], map[], {}, {}, None);
    hide Exec, Do;
    steps := SweepsThrough(steps);
  }

  /** A shard starts, its stream closes, and a later refresh that wants it succeeds without serving it. */
  lemma ClosedStreamStaysUnserved() returns (steps: seq<Step>)
    ensures var s := Exec(INIT, steps);
            s.phase.Idle? && s.settled == Some(OWNED) && 0 in OWNED && !Runs(s, 0)
  {
    steps := Served();
    steps := Then(steps, StreamCloses(0));
    steps := Then(steps, BeginRefresh(OWNED));
    steps := Then(steps, Examine(0));
    assert OWNED.Keys - {0} == {};
    assert Exec(INIT, steps).phase == At(Examining(OWNED, {})) && Exec(INIT, steps).ended == {0};
    hide Exec, Do;
    steps := SweepsThrough(steps);
  }

  // ---------------------------------------------------------------------------------------------
  // The locked sections, and a refresh nothing interrupts
  // ---------------------------------------------------------------------------------------------

  /** Every shard's hooks have changed as its membership has. */
  ghost predicate Follow(hooksBefore: Counts, before: Epochs, hooks: Counts, active: Epochs) {
    forall k: nat :: Count(hooks, k) - One(k in active) == Count(hooksBefore, k) - One(k in before)
  }

  lemma FollowTwice(hooks1: Counts, active1: Epochs, hooks2: Counts, active2: Epochs, hooks3: Counts, active3: Epochs)
    requires Follow(hooks1, active1, hooks2, active2) && Follow(hooks2, active2, hooks3, active3)
    ensures Follow(hooks1, active1, hooks3, active3)
  {
  }

  /** Every entry is an old one or a desired one, and no old one is gone that is desired as it is or not at all. */
  predicate Between(before: Epochs, active: Epochs, owned: Epochs) {
    && (forall k :: k in active ==>
                      (k in before && active[k] == before[k]) || (k in owned && active[k] == owned[k]))
    && (forall k :: k in before && (k in owned ==> before[k] == owned[k]) ==> k in active && active[k] == before[k])
  }

  /** The first loop part way: what is left to do is as it was, what is done runs as desired. */
  predicate PartlyBrought(before: Epochs, active: Epochs, owned: Epochs, todo: set<nat>,
                          hookOk: nat -> bool, openOk: nat -> bool) {
    && todo <= owned.Keys && Between(before, active, owned)
    && (forall k :: k in todo && k in active ==> k in before && active[k] == before[k])
    && (forall k :: k in owned && k !in todo ==>
                      && k in active && active[k] == owned[k]
                      && ((k in before && before[k] == owned[k]) || (hookOk(k) && openOk(k))))
  }

  lemma BroughtOne(before: Epochs, active: Epochs, owned: Epochs, todo: set<nat>, hookOk: nat -> bool,
                   openOk: nat -> bool, k: nat)
    requires PartlyBrought(before, active, owned, todo, hookOk, openOk) && k in todo
    requires (k in active && active[k] == owned[k]) || (hookOk(k) && openOk(k))
    ensures PartlyBrought(before, active[k := owned[k]], owned, todo - {k}, hookOk, openOk)
  {
  }

  lemma BroughtNone(before: Epochs, active: Epochs, owned: Epochs, todo: set<nat>, hookOk: nat -> bool,
                    openOk: nat -> bool, k: nat)
    requires PartlyBrought(before, active, owned, todo, hookOk, openOk) && k in todo
    requires !((k in active && active[k] == owned[k]) || (hookOk(k) && openOk(k)))
    ensures Between(before, active - {k}, owned) && !(k in before && before[k] == owned[k])
  {
  }

  lemma AllBrought(before: Epochs, active: Epochs, owned: Epochs, hookOk: nat -> bool, openOk: nat -> bool)
    requires PartlyBrought(before, active, owned, {}, hookOk, openOk)
    ensures forall k :: k in owned ==> (k in before && before[k] == owned[k]) || (hookOk(k) && openOk(k))
    ensures Between(before, active, owned) && forall k :: k in owned ==> k in active && active[k] == owned[k]
  {
  }

  lemma StopFollows(hooks: Counts, active: Epochs, k: nat)
    ensures Follow(hooks, active, if k in active then Bump(hooks, k, -1) else hooks, active - {k})
  {
  }

  class Node {
    var active: Epochs
    var hooks: Counts

    constructor ()
      ensures active == map[] && hooks == map[]
    {
      active := map[];
      hooks := map[];
    }

    method RemoveActiveShard(k: nat, epoch: int) returns (removed: bool)
      modifies this`active
      ensures active == Evicted(old(active), k, epoch)
      ensures removed <==> k in old(active) && old(active)[k] == epoch
    {
      if k !in active { return false; }
      if active[k] != epoch { return false; }
      active := active - {k};
      removed := true;
    }

    method StopShard(k: nat)
      modifies this
      ensures active == old(active) - {k}
      ensures hooks == if k in old(active) then Bump(old(hooks), k, -1) else old(hooks)
    {
      if k in active {
        active := active - {k};
        hooks := Bump(hooks, k, -1);
      }
    }

    /** `hookOk` and `openOk` say whether the start hook and the opening of the stream succeed. */
    method StartShard(k: nat, epoch: int, hookOk: bool, openOk: bool) returns (ok: bool)
      modifies this
      ensures ok <==> hookOk && openOk
      ensures active == if ok then old(active)[k := epoch] else old(active)
      ensures forall j: nat :: Count(hooks, j) == Count(old(hooks), j) + One(ok && j == k)
    {
      if !hookOk { return false; }
      hooks := Bump(hooks, k, 1);
      if !openOk {
        hooks := Bump(hooks, k, -1);
        return false;
      }
      active := active[k := epoch];
      ok := true;
    }

    /** The shard is brought to its desired epoch, restarted if it runs under another. */
    method Bring(k: nat, epoch: int, hookOk: bool, openOk: bool) returns (ok: bool)
      modifies this
      ensures ok <==> (k in old(active) && old(active)[k] == epoch) || (hookOk && openOk)
      ensures ok ==> active == old(active)[k := epoch]
      ensures !ok ==> active == old(active) - {k}
      ensures Follow(old(hooks), old(active), hooks, active)
    {
      if k !in active {
        ok := StartShard(k, epoch, hookOk, openOk);
      } else if active[k] != epoch {
        StopShard(k);
        ok := StartShard(k, epoch, hookOk, openOk);
      } else {
        ok := true;
      }
    }

    /** The first loop: every owned shard is brought to its epoch, until one cannot be. */
    method BringAll(owned: Epochs, hookOk: nat -> bool, openOk: nat -> bool) returns (ok: bool)
      modifies this
      ensures ok <==> forall k :: k in owned ==>
                                    (k in old(active) && old(active)[k] == owned[k]) || (hookOk(k) && openOk(k))
      ensures ok ==> forall k :: k in owned ==> k in active && active[k] == owned[k]
      ensures Between(old(active), active, owned)
      ensures Follow(old(hooks), old(active), hooks, active)
    {
      var todo := owned.Keys;
      assert Follow(hooks, active, hooks, active) && PartlyBrought(active, active, owned, todo, hookOk, openOk);
      hide Follow, Bump, PartlyBrought, Between;
      while todo != {}
        invariant todo <= owned.Keys
        invariant PartlyBrought(old(active), active, owned, todo, hookOk, openOk)
        invariant Follow(old(hooks), old(active), hooks, active)
        decreases |todo|
      {
        var k :| k in todo;
        ghost var hooksBefore, before := hooks, active;
        ok := Bring(k, owned[k], hookOk(k), openOk(k));
        FollowTwice(old(hooks), old(active), hooksBefore, before, hooks, active);
        if !ok {
          BroughtNone(old(active), before, owned, todo, hookOk, openOk, k);
          return;
        }
        BroughtOne(old(active), before, owned, todo, hookOk, openOk, k);
        todo := todo - {k};
      }
      AllBrought(old(active), active, owned, hookOk, openOk);
      ok := true;
    }

    /** The second loop: whatever is not owned is stopped. */
    method SweepOut(owned: Epochs)
      requires forall k :: k in owned ==> k in active && active[k] == owned[k]
      modifies this
      ensures active == owned
      ensures Follow(old(hooks), old(active), hooks, active)
    {
      assert Follow(hooks, active, hooks, active);
      hide Follow, Bump;
      var left := active.Keys;
      while left != {}
        invariant left <= active.Keys
        invariant forall k :: k in owned ==> k in active && active[k] == owned[k]
        invariant forall k :: k in active && k !in owned ==> k in left
        invariant Follow(old(hooks), old(active), hooks, active)
        decreases |left|
      {
        var k :| k in left;
        left := left - {k};
        if k !in owned {
          ghost var hooksBefore, before := hooks, active;
          StopShard(k);
          StopFollows(hooksBefore, before, k);
          FollowTwice(old(hooks), old(active), hooksBefore, before, hooks, active);
        }
      }
    }

    /** With nobody else at work a refresh succeeds if and only if every shard that does not run as desired can be
        started, and then leaves exactly the desired workers. A failed one has stopped none that ran as desired or was
        not desired at all, and started none that is not desired. Successful or not, a shard's hooks change as its
        membership does. */
    method RefreshOnce(owned: Epochs, hookOk: nat -> bool, openOk: nat -> bool) returns (ok: bool)
      modifies this
      ensures ok <==> forall k :: k in owned ==>
                                    (k in old(active) && old(active)[k] == owned[k]) || (hookOk(k) && openOk(k))
      ensures ok ==> active == owned
      ensures !ok ==> forall k :: k in active ==>
                                    || (k in old(active) && active[k] == old(active)[k])
                                    || (k in owned && active[k] == owned[k])
      ensures !ok ==> forall k :: k in old(active) && (k in owned ==> old(active)[k] == owned[k]) ==>
                                    k in active && active[k] == old(active)[k]
      ensures Follow(old(hooks), old(active), hooks, active)
    {
      ok := BringAll(owned, hookOk, openOk);
      if !ok { return; }
      ghost var hooksBefore, before := hooks, active;
      SweepOut(owned);
      FollowTwice(old(hooks), old(active), hooksBefore, before, hooks, active);
    }
  }
}
