/** Controller election over one etcd key: grants, puts, resignations, lease expiry and delayed keep-alive
    notices, in every order. */
module Election {
  import opened Model

  /** How far a controller's `TryAcquire` has got. */
  datatype Phase = Idle | Granted(lease: nat) | Won(lease: nat)

  /** A controller's fields and its acquisition in progress; lease 0 is no lease. */
  datatype Controller = Controller(leader: bool, leaseId: nat, phase: Phase)

  datatype Holder = Holder(controller: nat, lease: nat)

  /** `watched` are the watchers that have not fired; `terms` are all the terms ever begun, and no step reads
      them. */
  datatype State = State(
    live: set<nat>, lastLease: nat, key: Option<Holder>,
    controllers: map<nat, Controller>, watched: set<Holder>, terms: set<Holder>)

  datatype Step =
    | Grant(c: nat)
    | Put(c: nat)
    | PutUnanswered(c: nat)
    | Lead(c: nat)
    | GiveUp(c: nat)
    | Resign(c: nat)
    | LeaseEnds(lease: nat)
    | WatcherFires(c: nat, lease: nat)

  const INIT := State({}, 0, None, map[], {}, {})

  const NEWCOMER := Controller(false, 0, Idle)

  function Get(s: State, c: nat): Controller {
    if c in s.controllers then s.controllers[c] else NEWCOMER
  }

  function Set(s: State, c: nat, controller: Controller): State {
    s.(controllers := s.controllers[c := controller])
  }

  /** The key goes with its lease, whether the lease is revoked or runs out. */
  function EndLease(s: State, lease: nat): State {
    s.(live := s.live - {lease}, key := if s.key.Some? && s.key.value.lease == lease then None else s.key)
  }

  /** The transaction writes the key only if it does not exist, and only under a live lease. */
  predicate PutSucceeds(s: State, lease: nat) {
    s.key.None? && lease in s.live
  }

  function Do(s: State, step: Step): State {
    match step
    case Grant(c) =>
      if Get(s, c).leader || Get(s, c).phase != Idle then s
      else
        var lease := s.lastLease + 1;
        Set(s, c, Get(s, c).(phase := Granted(lease))).(live := s.live + {lease}, lastLease := lease)
    case Put(c) =>
      if !Get(s, c).phase.Granted? then s
      else
        var lease := Get(s, c).phase.lease;
        if PutSucceeds(s, lease) then Set(s, c, Get(s, c).(phase := Won(lease))).(key := Some(Holder(c, lease)))
        else EndLease(Set(s, c, Get(s, c).(phase := Idle)), lease)
    case PutUnanswered(c) =>
      // The key may have been written although the caller sees an error; its revocation may fail too.
      if !Get(s, c).phase.Granted? then s
      else
        var lease := Get(s, c).phase.lease;
        Set(s, c, Get(s, c).(phase := Idle)).(key := if PutSucceeds(s, lease) then Some(Holder(c, lease)) else s.key)
    case Lead(c) =>
      if !Get(s, c).phase.Won? then s
      else
        var lease := Get(s, c).phase.lease;
        Set(s, c, Controller(true, lease, Idle)).(watched := s.watched + {Holder(c, lease)},
                                                  terms := s.terms + {Holder(c, lease)})
    case GiveUp(c) =>
      if Get(s, c).phase.Idle? then s
      else EndLease(Set(s, c, Get(s, c).(phase := Idle)), Get(s, c).phase.lease)
    case Resign(c) =>
      // The fields are cleared first; the revocation is a `LeaseEnds` of its own and may be late or never come.
      Set(s, c, Get(s, c).(leader := false, leaseId := 0))
    case LeaseEnds(lease) => EndLease(s, lease)
    case WatcherFires(c, lease) =>
      if Holder(c, lease) !in s.watched then s
      else
        var after := s.(watched := s.watched - {Holder(c, lease)});
        if Get(s, c).leaseId != lease then after
        else Set(after, c, Get(s, c).(leader := false, leaseId := 0))
  }

  function Exec(s: State, steps: seq<Step>): State {
    if |steps| == 0 then s else Do(Exec(s, steps[..|steps| - 1]), steps[|steps| - 1])
  }

  // ---------------------------------------------------------------------------------------------
  // A controller's own fields
  // ---------------------------------------------------------------------------------------------

  /** What the calls to etcd made by one `TryAcquire` come back with; `None` is an error. */
  datatype Answers = Answers(lease: Option<nat>, put: Option<bool>, keepAlive: bool)

  class EtcdElection {
    var leader: bool
    var leaseId: nat
    var keepAlive: bool

    constructor ()
      ensures !leader && leaseId == 0 && !keepAlive
    {
      leader, leaseId, keepAlive := false, 0, false;
    }

    predicate Valid()
      reads this
    {
      (leader <==> leaseId != 0) && (leader <==> keepAlive)
    }

    /** Leads already, or wins the key and keeps the lease alive; a lease it does not keep it revokes. */
    method TryAcquire(answers: Answers) returns (won: bool, revoked: Option<nat>)
      requires Valid() && (answers.lease.Some? ==> answers.lease.value > 0)
      modifies this
      ensures Valid() && won == leader
      ensures won <==> old(leader) || (answers.lease.Some? && answers.put == Some(true) && answers.keepAlive)
      ensures old(leader) ==> leaseId == old(leaseId) && revoked == None
      ensures !old(leader) && won ==> Some(leaseId) == answers.lease && revoked == None
      ensures !won ==> revoked == answers.lease
    {
      revoked := None;
      if leader { return true, None; }
      if answers.lease.None? { return false, None; }
      if answers.put != Some(true) { return false, answers.lease; }
      if !answers.keepAlive { return false, answers.lease; }
      leader, leaseId, keepAlive := true, answers.lease.value, true;
      won := true;
    }

    method Resign() returns (revoked: Option<nat>)
      requires Valid()
      modifies this
      ensures Valid() && !leader
      ensures revoked == if old(leader) then Some(old(leaseId)) else None
    {
      var lease := leaseId;
      leader, leaseId, keepAlive := false, 0, false;
      revoked := if lease == 0 then None else Some(lease);
    }

    /** A watcher's last act; only the watcher of the current lease changes anything. */
    method LoseLeader(lease: nat)
      requires Valid() && lease > 0
      modifies this
      ensures Valid() && leaseId == (if old(leaseId) == lease then 0 else old(leaseId))
    {
      if leaseId != lease { return; }
      leader, leaseId, keepAlive := false, 0, false;
    }
  }

  // ---------------------------------------------------------------------------------------------
  // The invariant
  // ---------------------------------------------------------------------------------------------

  /** The lease a controller works with, in a term or towards one. */
  predicate Uses(controller: Controller, lease: nat) {
    lease > 0 && (controller.leaseId == lease || (!controller.phase.Idle? && controller.phase.lease == lease))
  }

  predicate HasKey(s: State, c: nat, lease: nat) {
    lease in s.live ==> s.key == Some(Holder(c, lease))
  }

  /** No term has been begun with the lease. */
  ghost predicate IsNew(s: State, lease: nat) {
    forall c: nat :: Holder(c, lease) !in s.terms
  }

  ghost predicate Consistent(s: State, c: nat) {
    var me := Get(s, c);
    && (me.leader <==> me.leaseId != 0)
    && (me.leader ==> me.phase.Idle? && HasKey(s, c, me.leaseId))
    && (me.leader ==> Holder(c, me.leaseId) in s.watched && Holder(c, me.leaseId) in s.terms)
    && (me.phase.Won? ==> HasKey(s, c, me.phase.lease))
    && (!me.phase.Idle? ==> 0 < me.phase.lease <= s.lastLease && IsNew(s, me.phase.lease))
  }

  predicate Apart(a: Controller, b: Controller) {
    && (a.leaseId != 0 ==> !Uses(b, a.leaseId))
    && (!a.phase.Idle? ==> !Uses(b, a.phase.lease))
  }

  ghost predicate Inv(s: State) {
    && (forall c: nat :: Consistent(s, c))
    && (forall c: nat, d: nat :: c != d ==> Apart(Get(s, c), Get(s, d)))
    && (s.key.Some? ==> s.key.value.lease in s.live)
    && (forall lease :: lease in s.live ==> 0 < lease <= s.lastLease)
    && (forall t :: t in s.terms ==> 0 < t.lease <= s.lastLease)
    && s.watched <= s.terms
  }

  lemma InvEndLease(s: State, lease: nat)
    requires Inv(s)
    ensures Inv(EndLease(s, lease))
  {
    forall c: nat ensures Consistent(EndLease(s, lease), c) {
      assert Consistent(s, c);
    }
    forall c: nat, d: nat | c != d ensures Apart(Get(EndLease(s, lease), c), Get(EndLease(s, lease), d)) {
      assert Apart(Get(s, c), Get(s, d));
    }
  }

  /** A step that changes one controller, and at most takes a free key for it, keeps the invariant if it leaves
      that controller consistent and using no lease it did not use. */
  lemma InvOne(s: State, after: State, c: nat)
    requires Inv(s) && Consistent(after, c)
    requires after.live == s.live && after.lastLease == s.lastLease
    requires s.watched <= after.watched <= after.terms && s.terms <= after.terms
    requires forall t :: t in after.terms ==>
               t in s.terms || (t.lease > 0 && t.lease <= s.lastLease && Uses(Get(s, c), t.lease))
    requires forall d: nat :: d != c ==> Get(after, d) == Get(s, d)
    requires forall lease: nat :: Uses(Get(after, c), lease) ==> Uses(Get(s, c), lease)
    requires after.key == s.key || (s.key.None? && after.key.Some?
                                         && after.key.value.lease in s.live && Uses(Get(s, c), after.key.value.lease))
    ensures Inv(after)
  {
    forall d: nat ensures Consistent(after, d) {
      assert Consistent(s, d);
      if d != c { assert Apart(Get(s, d), Get(s, c)); }
    }
    forall d: nat, e: nat | d != e ensures Apart(Get(after, d), Get(after, e)) {
      assert Apart(Get(s, d), Get(s, e));
      assert Consistent(s, d);
    }
  }

  lemma InvGrant(s: State, c: nat)
    requires Inv(s)
    ensures Inv(Do(s, Grant(c)))
  {
    var after := Do(s, Grant(c));
    forall d: nat ensures Consistent(after, d) {
      assert Consistent(s, d);
    }
    forall d: nat, e: nat | d != e ensures Apart(Get(after, d), Get(after, e)) {
      assert Apart(Get(s, d), Get(s, e)) && Consistent(s, d) && Consistent(s, e);
    }
  }

  lemma InvFires(s: State, c: nat, lease: nat)
    requires Inv(s)
    ensures Inv(Do(s, WatcherFires(c, lease)))
  {
    var after := Do(s, WatcherFires(c, lease));
    forall d: nat ensures Consistent(after, d) {
      assert Consistent(s, d);
    }
    forall d: nat, e: nat | d != e ensures Apart(Get(after, d), Get(after, e)) {
      assert Apart(Get(s, d), Get(s, e));
    }
  }

  lemma InvStep(s: State, step: Step)
    requires Inv(s)
    ensures Inv(Do(s, step))
  {
    var after := Do(s, step);
    match step
    case Grant(c) => InvGrant(s, c);
    case Put(c) =>
      assert Consistent(s, c);
      if Get(s, c).phase.Granted? {
        var lease := Get(s, c).phase.lease;
        if PutSucceeds(s, lease) {
          InvOne(s, after, c);
        } else {
          InvOne(s, Set(s, c, Get(s, c).(phase := Idle)), c);
          InvEndLease(Set(s, c, Get(s, c).(phase := Idle)), lease);
        }
      }
    case PutUnanswered(c) =>
      assert Consistent(s, c);
      InvOne(s, after, c);
    case Lead(c) =>
      assert Consistent(s, c);
      InvOne(s, after, c);
    case GiveUp(c) =>
      assert Consistent(s, c);
      if !Get(s, c).phase.Idle? {
        InvOne(s, Set(s, c, Get(s, c).(phase := Idle)), c);
        InvEndLease(Set(s, c, Get(s, c).(phase := Idle)), Get(s, c).phase.lease);
      }
    case Resign(c) =>
      assert Consistent(s, c);
      InvOne(s, after, c);
    case LeaseEnds(lease) => InvEndLease(s, lease);
    case WatcherFires(c, lease) => InvFires(s, c, lease);
  }

  lemma {:induction false} InvRun(steps: seq<Step>)
    ensures Inv(Exec(INIT, steps))
  {
    if |steps| > 0 {
      InvRun(steps[..|steps| - 1]);
      InvStep(Exec(INIT, steps[..|steps| - 1]), steps[|steps| - 1]);
    }
  }

  // ---------------------------------------------------------------------------------------------
  // Theorems
  // ---------------------------------------------------------------------------------------------

  /** The controller believes it leads, and the lease it leads under is live. */
  predicate LeadsLive(s: State, c: nat) {
    Get(s, c).leader && Get(s, c).leaseId in s.live
  }

  /** At most one controller both believes it leads and holds a live lease, and the key names it. */
  lemma SingleLiveLeader(steps: seq<Step>, c: nat, d: nat)
    requires LeadsLive(Exec(INIT, steps), c) && LeadsLive(Exec(INIT, steps), d)
    ensures c == d && Exec(INIT, steps).key == Some(Holder(c, Get(Exec(INIT, steps), c).leaseId))
  {
    InvRun(steps);
    assert Consistent(Exec(INIT, steps), c) && Consistent(Exec(INIT, steps), d);
  }

  /** A controller that is let go through an acquisition leads afterwards, under a new live lease that the key names, if
      the key was free, and is left as it was if it was not. */
  lemma AcquiresExactlyWhenFree(steps: seq<Step>, c: nat)
    requires !Get(Exec(INIT, steps), c).leader && Get(Exec(INIT, steps), c).phase.Idle?
    ensures var s := Exec(INIT, steps);
            var after := Do(Do(Do(s, Grant(c)), Put(c)), Lead(c));
            if s.key.None? then
              && Get(after, c) == Controller(true, s.lastLease + 1, Idle) && s.lastLease + 1 in after.live
              && after.key == Some(Holder(c, s.lastLease + 1))
            else
              Get(after, c) == Get(s, c) && after.key == s.key && after.live == s.live
  {
    InvRun(steps);
    var s := Exec(INIT, steps);
    assert Consistent(s, c);
    hide Inv, Consistent, Exec;
    var granted := Do(s, Grant(c));
    assert granted.key == s.key && Get(granted, c).phase == Granted(s.lastLease + 1);
    if s.key.Some? {
      assert granted.live - {s.lastLease + 1} == s.live;
    }
  }

  /** A controller that believes it leads is being watched, and its watcher is what ends that belief. */
  lemma EveryLeaderIsWatched(steps: seq<Step>, c: nat)
    requires Get(Exec(INIT, steps), c).leader
    ensures Holder(c, Get(Exec(INIT, steps), c).leaseId) in Exec(INIT, steps).watched
    ensures !Get(Do(Exec(INIT, steps), WatcherFires(c, Get(Exec(INIT, steps), c).leaseId)), c).leader
  {
    InvRun(steps);
    assert Consistent(Exec(INIT, steps), c);
  }

  /** Whoever leads does so under the lease of a term of its own, and a new term has a lease of its own: no
      earlier term, of any controller, had it. */
  lemma TermsHaveTheirOwnLeases(steps: seq<Step>, c: nat, t: Holder)
    requires Get(Exec(INIT, steps), c).phase.Won? && t in Exec(INIT, steps).terms
    ensures var lease := Get(Exec(INIT, steps), c).phase.lease;
            t.lease != lease && Get(Do(Exec(INIT, steps), Lead(c)), c) == Controller(true, lease, Idle)
  {
    InvRun(steps);
    assert Consistent(Exec(INIT, steps), c);
  }

  lemma {:induction false} TermsAreKept(steps: seq<Step>, n: nat)
    requires n <= |steps|
    ensures Exec(INIT, steps[..n]).terms <= Exec(INIT, steps).terms
    decreases |steps|
  {
    if n == |steps| {
      assert steps[..n] == steps;
    } else {
      assert steps[..|steps| - 1][..n] == steps[..n];
      TermsAreKept(steps[..|steps| - 1], n);
    }
  }

  /** A late watcher never clears a newer term: if `earlier` is a term begun before step `n` begins another, then
      as long as that other term lasts, `earlier`'s watcher changes no controller when it fires. */
  lemma LateWatcherIsHarmless(steps: seq<Step>, n: nat, c: nat, earlier: Holder)
    requires n < |steps| && steps[n] == Lead(c) && Get(Exec(INIT, steps[..n]), c).phase.Won?
    requires earlier in Exec(INIT, steps[..n]).terms && earlier.controller == c
    requires Get(Exec(INIT, steps), c).leaseId == Get(Exec(INIT, steps[..n]), c).phase.lease
    ensures Do(Exec(INIT, steps), WatcherFires(c, earlier.lease)).controllers == Exec(INIT, steps).controllers
  {
    TermsHaveTheirOwnLeases(steps[..n], c, earlier);
  }
}
