/**
 A runner (lock/lock.go) and the whole lease protocol side by side. The runner's Lock call commits
 some time after the retry timer is due, and the answer reaches the runner some time after the
 commit; anything may happen in the protocol meanwhile.
 */
module Heartbeat {
  import opened Models
  import opened LockTable
  import opened Versions
  import opened Protocol
  import opened Lease
  import opened LockRunner
  import Reg = Registry

  /** What the runner was started with, and bounds on the delays of its calls: `request` from the
      timer being due to the commit, `response` from the commit to the result being read. */
  datatype Config = Config(lock: Resource, ttl: int64, exitOnLostLock: bool,
                           retryInterval: nat, request: nat, response: nat)

  datatype Phase =
    | Calling(due: int)              // a Lock call is under way, for the timer due at `due`
    | Answered(ok: bool, at: int)    // the server settled the call at `at`
    | Sleeping(due: int)             // in the select, retry timer due at `due`
    | Stopped(lost: bool)

  datatype Joint = Joint(p: State, client: Client, phase: Phase)

  datatype Action =
    | Other(e: Event)                    // anybody else
    | Serve(guid: Option<GoString>)      // the server runs the runner's Lock call
    | CallFails                          // no answer, a lost one, or an error of connection or database
    | Receive
    | Wake
    | Interrupt                          // signal: release and exit

  function Request(cfg: Config, guid: Option<GoString>): Event {
    LockCall(LockRequest(Some(cfg.lock), cfg.ttl), guid)
  }

  predicate CanAct(cfg: Config, j: Joint, a: Action) {
    match a
    case Other(e) => Enabled(j.p, e)
    case Serve(guid) => j.phase.Calling? && Enabled(j.p, Request(cfg, guid))
    case CallFails => j.phase.Calling? || (j.phase.Answered? && j.phase.ok)
    case Receive => j.phase.Answered?
    case Wake => j.phase.Sleeping? && j.phase.due <= j.p.now
    case Interrupt => j.phase.Sleeping?
  }

  function Act(cfg: Config, j: Joint, a: Action): Joint
    requires CanAct(cfg, j, a)
  {
    match a
    case Other(e) => j.(p := Apply(j.p, e))
    case Serve(guid) =>
      var e := Request(cfg, guid);
      j.(p := Apply(j.p, e), phase := Answered(Commits(j.p, e).Some?, j.p.now))
    case CallFails => j.(phase := Answered(false, j.p.now))
    case Receive =>
      if cfg.exitOnLostLock && Loses(j.client, j.phase.ok) then j.(phase := Stopped(true))
      else j.(client := OnResult(j.client, j.phase.ok), phase := Sleeping(j.p.now + cfg.retryInterval))
    case Wake => j.(phase := Calling(j.phase.due))
    case Interrupt => j.(p := Apply(j.p, ReleaseCall(cfg.lock)), phase := Stopped(false))
  }

  datatype JointRun = JointRun(states: seq<Joint>, actions: seq<Action>)

  ghost predicate IsJointRun(cfg: Config, r: JointRun) {
    && |r.states| == |r.actions| + 1
    && (forall i {:trigger r.actions[i]} :: 0 <= i < |r.actions| ==> CanAct(cfg, r.states[i], r.actions[i]))
    && (forall i {:trigger r.actions[i]} :: 0 <= i < |r.actions| ==>
          r.states[i + 1] == Act(cfg, r.states[i], r.actions[i]))
  }

  /** The results that the runner has read by the i-th state. */
  function Received(r: JointRun, i: nat): seq<bool>
    requires |r.states| == |r.actions| + 1 && i <= |r.actions|
  {
    if i == 0 then []
    else
      var (j, a) := (r.states[i - 1], r.actions[i - 1]);
      if a == Receive && j.phase.Answered? then Received(r, i - 1) + [j.phase.ok] else Received(r, i - 1)
  }

  /** The runner in the joint system is the runner of the loop: in every run from its first call on, its
      variables are what the results read so far make them, and it has stopped for a loss if and only
      if it is a lock runner and a failure followed directly on a success. */
  lemma {:induction false} RunnerFollowsResults(cfg: Config, r: JointRun, i: nat)
    requires IsJointRun(cfg, r) && i < |r.states|
    requires r.states[0].client == LockRunner.START && r.states[0].phase.Calling?
    ensures var j, seen := r.states[i], Received(r, i);
            && (j.phase == Stopped(true) <==> cfg.exitOnLostLock && !Survives(seen))
            && (j.phase != Stopped(true) ==> j.client == After(seen))
  {
    if i > 0 {
      RunnerFollowsResults(cfg, r, i - 1);
      var j, a, seen := r.states[i - 1], r.actions[i - 1], Received(r, i - 1);
      assert CanAct(cfg, j, a);
      if a == Receive {
        ReadsOneMore(cfg, j, seen);
      }
    }
  }

  lemma ReadsOneMore(cfg: Config, j: Joint, seen: seq<bool>)
    requires j.phase.Answered? && j.client == After(seen) && (cfg.exitOnLostLock ==> Survives(seen))
    ensures var j', more := Act(cfg, j, Receive), seen + [j.phase.ok];
            && (j'.phase == Stopped(true) <==> cfg.exitOnLostLock && !Survives(more))
            && (j'.phase != Stopped(true) ==> j'.client == After(more))
  {
    var more := seen + [j.phase.ok];
    assert more[..|more| - 1] == seen;
    ReadyClosesOnce(seen);
    SurvivesOneMore(more);
  }

  /** Told to stop, the runner gives its lock up: afterwards its owner does not hold the key, and nothing
      else has changed in the service. */
  lemma InterruptReleases(cfg: Config, j: Joint)
    requires j.phase.Sleeping?
    ensures CanAct(cfg, j, Interrupt)
    ensures var j' := Act(cfg, j, Interrupt);
            && j'.phase == Stopped(false) && !HeldBy(j'.p, cfg.lock.key, cfg.lock.owner)
            && (forall k :: k != cfg.lock.key ==> RowAt(j'.p, k) == RowAt(j.p, k))
            && (!HeldBy(j.p, cfg.lock.key, cfg.lock.owner) ==> j'.p == j.p)
            && j'.p.reg == j.p.reg && j'.p.now == j.p.now
  {
    ReleaseTakesOwn(j.p, cfg.lock);
  }

  /** The delays stay within their bounds. */
  predicate InTime(cfg: Config, j: Joint) {
    match j.phase
    case Calling(due) => j.p.now <= due + cfg.request
    case Sleeping(due) => j.p.now <= due + cfg.request
    case Answered(_, at) => j.p.now <= at + cfg.response
    case Stopped(_) => true
  }

  /** Calls get through, and nobody else releases the runner's lock or shortens its lease. */
  predicate Undisturbed(cfg: Config, a: Action) {
    && a != CallFails
    && (a.Other? && a.e.ReleaseCall? ==> !(a.e.r.key == cfg.lock.key && a.e.r.owner == cfg.lock.owner))
    && (a.Other? && a.e.LockCall? && a.e.req.resource.Some?
        && a.e.req.resource.value.key == cfg.lock.key && a.e.req.resource.value.owner == cfg.lock.owner
        ==> Reg.TimerDuration(a.e.req.ttlInSeconds) >= Reg.TimerDuration(cfg.ttl))
  }

  /** The server accepts the runner's request. */
  predicate Acceptable(cfg: Config) {
    Validate(cfg.lock.typ, cfg.lock.typeCode).None? && cfg.lock.owner != [] && 0 < cfg.ttl
  }

  /** Moreover, a round of calls fits into the lease. */
  predicate Sound(cfg: Config) {
    Acceptable(cfg) && cfg.response + cfg.retryInterval + cfg.request < Reg.TimerDuration(cfg.ttl)
  }

  function Row(cfg: Config, p: State): Version
    requires HeldBy(p, cfg.lock.key, cfg.lock.owner)
  {
    VersionOf(RowLock(cfg.lock.key, p.store.table[cfg.lock.key]))
  }

  /** The lease on the lock was last renewed at `at` or later, for at least the runner's ttl. */
  ghost predicate RenewedSince(cfg: Config, p: State, at: int) {
    && HeldBy(p, cfg.lock.key, cfg.lock.owner)
    && Row(cfg, p) in p.store.history
    && at <= p.store.history[Row(cfg, p)].at
    && Reg.TimerDuration(cfg.ttl) <= Reg.TimerDuration(p.store.history[Row(cfg, p)].ttl)
  }

  /** The running lease as the runner's phase sees it. */
  ghost predicate Keeps(cfg: Config, j: Joint) {
    && Protocol.Inv(j.p)
    && NoPendingExpiry(j.p, cfg.lock.key, cfg.lock.owner)
    && match j.phase
       case Answered(ok, at) => ok && RenewedSince(cfg, j.p, at)
       case Calling(due) => RenewedSince(cfg, j.p, due - cfg.retryInterval - cfg.response)
       case Sleeping(due) => RenewedSince(cfg, j.p, due - cfg.retryInterval - cfg.response)
       case Stopped(lost) => false
  }

  lemma KeepsIsTimely(cfg: Config, j: Joint)
    requires Sound(cfg) && Keeps(cfg, j) && InTime(cfg, j)
    ensures Timely(j.p, cfg.lock.key, cfg.lock.owner)
  {}

  /** A step that leaves the owner in place leaves the version, or is a renewal at this moment. */
  lemma HeldRowStep(s: State, e: Event, k: GoString, o: GoString)
    requires Versions.Inv(s.store) && Enabled(s, e) && HeldBy(s, k, o) && HeldBy(Apply(s, e), k, o)
    ensures var s' := Apply(s, e);
            || (RowAt(s', k) == RowAt(s, k) && Extends(s.store, s'.store))
            || (&& Commits(s, e).Some?
                && var l := Commits(s, e).value;
                   && l.resource.key == k && RowLock(k, s'.store.table[k]) == l
                   && VersionOf(l) in s'.store.history
                   && s'.store.history[VersionOf(l)] == Commit(l.resource, e.req.ttlInSeconds, s.now))
  {
    StepHistory(s, e);
    if Commits(s, e).Some? {
      LockMakesNewVersion(s.store, e.req, e.guid, s.now);
    }
  }

  lemma RenewedSinceStep(cfg: Config, s: State, e: Event, at: int)
    requires Versions.Inv(s.store) && NotAhead(s.store, s.now) && CheckersOnTime(s) && Enabled(s, e)
    requires NoPendingExpiry(s, cfg.lock.key, cfg.lock.owner) && Timely(s, cfg.lock.key, cfg.lock.owner)
    requires RenewedSince(cfg, s, at) && Undisturbed(cfg, Other(e))
    ensures RenewedSince(cfg, Apply(s, e), at)
  {
    TimelyKeepsHolding(s, e, cfg.lock.key, cfg.lock.owner);
    HeldRowStep(s, e, cfg.lock.key, cfg.lock.owner);
    var v := Row(cfg, s);
    assert s.store.history[v].at <= s.now;
  }

  lemma OtherKeeps(cfg: Config, j: Joint, e: Event)
    requires Sound(cfg) && Keeps(cfg, j) && InTime(cfg, j) && Enabled(j.p, e) && Undisturbed(cfg, Other(e))
    ensures Keeps(cfg, Act(cfg, j, Other(e)))
  {
    KeepsIsTimely(cfg, j);
    StepKeepsInv(j.p, e);
    TimelyKeepsNoPending(j.p, e, cfg.lock.key, cfg.lock.owner);
    match j.phase
    case Answered(_, at) => RenewedSinceStep(cfg, j.p, e, at);
    case Calling(due) => RenewedSinceStep(cfg, j.p, e, due - cfg.retryInterval - cfg.response);
    case Sleeping(due) => RenewedSinceStep(cfg, j.p, e, due - cfg.retryInterval - cfg.response);
  }

  /** A call on a lock the runner holds is a renewal. */
  lemma HolderIsServed(cfg: Config, p: State, guid: Option<GoString>)
    requires Sound(cfg) && Versions.Inv(p.store) && Enabled(p, Request(cfg, guid))
    requires HeldBy(p, cfg.lock.key, cfg.lock.owner)
    ensures Commits(p, Request(cfg, guid)).Some?
    ensures RenewedSince(cfg, Apply(p, Request(cfg, guid)), p.now)
  {
    assert RowWellFormed(p.store, cfg.lock.key);
    LockMakesNewVersion(p.store, Request(cfg, guid).req, guid, p.now);
  }

  lemma ServeKeeps(cfg: Config, j: Joint, guid: Option<GoString>)
    requires Sound(cfg) && Keeps(cfg, j) && InTime(cfg, j) && CanAct(cfg, j, Serve(guid))
    ensures Keeps(cfg, Act(cfg, j, Serve(guid)))
  {
    KeepsIsTimely(cfg, j);
    StepKeepsInv(j.p, Request(cfg, guid));
    TimelyKeepsNoPending(j.p, Request(cfg, guid), cfg.lock.key, cfg.lock.owner);
    HolderIsServed(cfg, j.p, guid);
  }

  lemma ActKeeps(cfg: Config, j: Joint, a: Action)
    requires Sound(cfg) && Keeps(cfg, j) && InTime(cfg, j) && CanAct(cfg, j, a) && Undisturbed(cfg, a)
    ensures Keeps(cfg, Act(cfg, j, a)) || (a == Interrupt && Act(cfg, j, a).phase == Stopped(false))
  {
    match a
    case Other(e) => OtherKeeps(cfg, j, e);
    case Serve(guid) => ServeKeeps(cfg, j, guid);
    case _ =>
  }

  /** The runner holds the lock and will not hear otherwise, or it was told to stop. */
  predicate Safe(cfg: Config, j: Joint) {
    || j.phase == Stopped(false)
    || (&& HeldBy(j.p, cfg.lock.key, cfg.lock.owner)
        && !j.phase.Stopped? && (j.phase.Answered? ==> j.phase.ok))
  }

  lemma {:induction false} KeepsThroughout(cfg: Config, r: JointRun, i: nat)
    requires Sound(cfg) && IsJointRun(cfg, r) && Keeps(cfg, r.states[0]) && i < |r.states|
    requires forall m :: 0 <= m < |r.states| ==> InTime(cfg, r.states[m])
    requires forall m :: 0 <= m < |r.actions| ==> Undisturbed(cfg, r.actions[m])
    ensures Keeps(cfg, r.states[i]) || r.states[i].phase == Stopped(false)
  {
    if i > 0 {
      KeepsThroughout(cfg, r, i - 1);
      if r.states[i - 1].phase != Stopped(false) {
        ActKeeps(cfg, r.states[i - 1], r.actions[i - 1]);
      } else {
        assert CanAct(cfg, r.states[i - 1], r.actions[i - 1]);
      }
    }
  }

  /** The circumstances of the heartbeat bound: the server grants the runner's call while no expiry
      of its lease is in flight, the delays stay within bounds, and nobody interferes. */
  ghost predicate Granted(cfg: Config, r: JointRun) {
    && IsJointRun(cfg, r) && |r.actions| > 0
    && r.actions[0].Serve?
    && r.states[1].phase.Answered? && r.states[1].phase.ok
    && NoPendingExpiry(r.states[1].p, cfg.lock.key, cfg.lock.owner)
    && (forall m :: 0 <= m < |r.states| ==> InTime(cfg, r.states[m]))
    && (forall m :: 0 <= m < |r.actions| ==> Undisturbed(cfg, r.actions[m]))
  }

  /** The heartbeat bound. If response delay, retry interval and request delay together stay below
      the ttl then, whatever else the protocol does, the runner holds the lock at every moment from
      the grant until it is told to stop: no later call collides and no loss is ever reported. */
  lemma HeartbeatHoldsLock(cfg: Config, r: JointRun)
    requires Sound(cfg) && Granted(cfg, r) && Protocol.Inv(r.states[0].p)
    ensures forall i :: 1 <= i < |r.states| ==> Safe(cfg, r.states[i])
  {
    var tail := JointRun(r.states[1..], r.actions[1..]);
    TailIsRun(cfg, r, tail);
    GrantedCallKeeps(cfg, r.states[0], r.actions[0].guid);
    forall i | 1 <= i < |r.states| ensures Safe(cfg, r.states[i]) {
      KeepsThroughout(cfg, tail, i - 1);
      assert tail.states[i - 1] == r.states[i];
    }
  }

  lemma TailIsRun(cfg: Config, r: JointRun, tail: JointRun)
    requires IsJointRun(cfg, r) && |r.actions| > 0
    requires tail == JointRun(r.states[1..], r.actions[1..])
    ensures IsJointRun(cfg, tail)
  {
    forall i {:trigger tail.actions[i]} | 0 <= i < |tail.actions|
      ensures CanAct(cfg, tail.states[i], tail.actions[i])
      ensures tail.states[i + 1] == Act(cfg, tail.states[i], tail.actions[i])
    {
      assert tail.actions[i] == r.actions[i + 1];
    }
  }

  lemma GrantedCallKeeps(cfg: Config, j: Joint, guid: Option<GoString>)
    requires Protocol.Inv(j.p) && CanAct(cfg, j, Serve(guid))
    requires Commits(j.p, Request(cfg, guid)).Some?
    requires NoPendingExpiry(Apply(j.p, Request(cfg, guid)), cfg.lock.key, cfg.lock.owner)
    ensures Keeps(cfg, Act(cfg, j, Serve(guid)))
  {
    StepKeepsInv(j.p, Request(cfg, guid));
    LockMakesNewVersion(j.p.store, Request(cfg, guid).req, guid, j.p.now);
  }

  // ---------------------------------------------------------------- the bound is exact

  function Final(r: JointRun): Joint
    requires r.states != []
  {
    r.states[|r.states| - 1]
  }

  lemma JointThen(cfg: Config, r: JointRun, a: Action) returns (r': JointRun)
    requires Granted(cfg, r) && CanAct(cfg, Final(r), a) && Undisturbed(cfg, a)
    requires InTime(cfg, Act(cfg, Final(r), a))
    ensures Granted(cfg, r') && r'.states[0] == r.states[0] && Final(r') == Act(cfg, Final(r), a)
  {
    r' := JointRun(r.states + [Act(cfg, Final(r), a)], r.actions + [a]);
    assert forall i :: 0 <= i < |r.actions| ==> r'.actions[i] == r.actions[i];
    assert forall i :: 0 <= i < |r.states| ==> r'.states[i] == r.states[i];
  }

  /** A checker moves, or a handler registers; no time passes. */
  lemma CheckerThen(cfg: Config, r: JointRun, e: Event) returns (r': JointRun)
    requires Granted(cfg, r) && Enabled(Final(r).p, e) && (IsCheckerEvent(e) || e.HandlerRegister?)
    ensures Granted(cfg, r') && r'.states[0] == r.states[0]
    ensures Final(r') == Final(r).(p := Apply(Final(r).p, e))
  {
    assert InTime(cfg, Final(r));
    r' := JointThen(cfg, r, Other(e));
  }

  /** Time passes, as far as the runner's phase allows. */
  lemma TimeThen(cfg: Config, r: JointRun, d: nat) returns (r': JointRun)
    requires Granted(cfg, r) && InTime(cfg, Final(r).(p := Final(r).p.(now := Final(r).p.now + d)))
    ensures Granted(cfg, r') && r'.states[0] == r.states[0]
    ensures Final(r') == Final(r).(p := Final(r).p.(now := Final(r).p.now + d))
  {
    r' := JointThen(cfg, r, Other(Tick(d)));
  }

  const GUID: GoString := [7]

  /** The lease that a runner gets in an empty table. */
  function FirstLease(cfg: Config): DbLock {
    DbLock(GetResource(cfg.lock), cfg.ttl, 1, GUID)
  }

  /** The only row is the runner's first lease, and the only checker is the one of that lease. */
  predicate Leased(cfg: Config, p: State, phase: Reg.Phase) {
    && p.store.table == map[cfg.lock.key := LockRow(FirstLease(cfg))]
    && p.reg.checkers == map[0 := Reg.Checker(FirstLease(cfg), phase)]
  }

  lemma GrantFirstLease(cfg: Config) returns (r: JointRun)
    requires Acceptable(cfg)
    ensures Granted(cfg, r) && r.states[0].p == Init()
    ensures var j := Final(r);
            && j.p.now == 0 && j.phase == Answered(true, 0) && j.p.inflight == multiset{FirstLease(cfg)}
            && j.p.store.table == map[cfg.lock.key := LockRow(FirstLease(cfg))] && j.p.reg == Reg.Empty(0)
  {
    var j0 := Joint(Init(), LockRunner.START, Calling(0));
    var a := Serve(Some(GUID));
    ValidatedBecomesCanonical(cfg.lock);
    r := JointRun([j0, Act(cfg, j0, a)], [a]);
  }

  /** The lease is registered and the timer of its checker is started at the moment of the commit. */
  lemma StartFirstLease(cfg: Config) returns (r: JointRun)
    requires Acceptable(cfg)
    ensures Granted(cfg, r) && r.states[0].p == Init()
    ensures Final(r).p.now == 0 && Final(r).phase == Answered(true, 0)
    ensures Leased(cfg, Final(r).p, Reg.Waiting(Reg.TimerDuration(cfg.ttl)))
  {
    r := GrantFirstLease(cfg);
    RegisterSteps(cfg, Final(r).p);
    r := CheckerThen(cfg, r, HandlerRegister(FirstLease(cfg)));
    r := CheckerThen(cfg, r, StartTimer(0));
  }

  lemma RegisterSteps(cfg: Config, p: State)
    requires p.reg == Reg.Empty(0) && FirstLease(cfg) in p.inflight && p.now == 0
    requires p.store.table == map[cfg.lock.key := LockRow(FirstLease(cfg))]
    ensures var p1 := Apply(p, HandlerRegister(FirstLease(cfg)));
            Enabled(p1, StartTimer(0)) && Leased(cfg, Apply(p1, StartTimer(0)), Reg.Waiting(Reg.TimerDuration(cfg.ttl)))
  {}

  /** Time passes within the bounds until the lease is over. */
  lemma LetLeaseRunOut(cfg: Config, r: JointRun) returns (r': JointRun)
    requires Granted(cfg, r) && Final(r).p.now == 0 && Final(r).phase == Answered(true, 0)
    requires cfg.response + cfg.retryInterval + cfg.request >= Reg.TimerDuration(cfg.ttl)
    ensures Granted(cfg, r') && r'.states[0] == r.states[0] && !Final(r').phase.Stopped?
    ensures Final(r').p.now >= Reg.TimerDuration(cfg.ttl)
    ensures Final(r').p.store == Final(r).p.store && Final(r').p.reg == Final(r).p.reg
  {
    var d := Reg.TimerDuration(cfg.ttl);
    if d <= cfg.response {
      r' := TimeThen(cfg, r, cfg.response);
    } else {
      r' := TimeThen(cfg, r, cfg.response);
      r' := JointThen(cfg, r', Receive);
      r' := TimeThen(cfg, r', d - cfg.response);
    }
  }

  /** The bound cannot be relaxed: as soon as the delays and the retry interval add up to the ttl,
      there is a run under the same circumstances in which the runner's lock expires. */
  lemma HeartbeatBoundIsTight(cfg: Config) returns (r: JointRun)
    requires Acceptable(cfg) && !Sound(cfg)
    ensures Granted(cfg, r) && r.states[0].p == Init() && !Safe(cfg, Final(r))
  {
    r := StartFirstLease(cfg);
    r := LetLeaseRunOut(cfg, r);
    r := ExpireFirstLease(cfg, r);
  }

  lemma ExpireFirstLease(cfg: Config, r: JointRun) returns (r': JointRun)
    requires Acceptable(cfg) && Granted(cfg, r) && !Final(r).phase.Stopped?
    requires Leased(cfg, Final(r).p, Reg.Waiting(Reg.TimerDuration(cfg.ttl)))
    requires Final(r).p.now >= Reg.TimerDuration(cfg.ttl)
    ensures Granted(cfg, r') && r'.states[0] == r.states[0] && !Safe(cfg, Final(r'))
  {
    r' := MatchFirstLease(cfg, r);
    LeasedSteps(cfg, Final(r').p);
    r' := CheckerThen(cfg, r', ExpiryRelease(0));
  }

  lemma MatchFirstLease(cfg: Config, r: JointRun) returns (r': JointRun)
    requires Acceptable(cfg) && Granted(cfg, r)
    requires Leased(cfg, Final(r).p, Reg.Waiting(Reg.TimerDuration(cfg.ttl)))
    requires Final(r).p.now >= Reg.TimerDuration(cfg.ttl)
    ensures Granted(cfg, r') && r'.states[0] == r.states[0] && Final(r').phase == Final(r).phase
    ensures Leased(cfg, Final(r').p, Reg.Matched)
  {
    LeasedSteps(cfg, Final(r).p);
    r' := CheckerThen(cfg, r, Fire(0));
    LeasedSteps(cfg, Final(r').p);
    r' := CheckerThen(cfg, r', FetchCheck(0));
  }

  lemma LeasedSteps(cfg: Config, p: State)
    requires Acceptable(cfg)
    ensures Leased(cfg, p, Reg.Waiting(Reg.TimerDuration(cfg.ttl))) && p.now >= Reg.TimerDuration(cfg.ttl) ==>
              Enabled(p, Fire(0)) && Leased(cfg, Apply(p, Fire(0)), Reg.Fired)
    ensures Leased(cfg, p, Reg.Fired) ==>
              Enabled(p, FetchCheck(0)) && Leased(cfg, Apply(p, FetchCheck(0)), Reg.Matched)
    ensures Leased(cfg, p, Reg.Matched) ==>
              Enabled(p, ExpiryRelease(0)) && cfg.lock.key !in Apply(p, ExpiryRelease(0)).store.table
  {}

  /** Exactly: a runner whose request the server accepts is safe under every schedule if and only
      if its delays and retry interval add up to less than the ttl. */
  lemma HeartbeatBoundIsExact(cfg: Config)
    requires Acceptable(cfg)
    ensures Sound(cfg) <==>
            forall r :: Granted(cfg, r) && Protocol.Inv(r.states[0].p) ==>
              forall i :: 1 <= i < |r.states| ==> Safe(cfg, r.states[i])
  {
    if Sound(cfg) {
      forall r | Granted(cfg, r) && Protocol.Inv(r.states[0].p)
        ensures forall i :: 1 <= i < |r.states| ==> Safe(cfg, r.states[i])
      {
        HeartbeatHoldsLock(cfg, r);
      }
    } else {
      var r := HeartbeatBoundIsTight(cfg);
      InitInv();
      assert !Safe(cfg, r.states[|r.states| - 1]);
    }
  }
}
