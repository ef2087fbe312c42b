/**
 Runs of a fleet of runners (lock/lock.go) in which two of them take themselves to hold the same lock,
 and with them the exact conditions of mutual exclusion.
 */
module Rivalry {
  import opened Models
  import opened LockTable
  import opened Versions
  import opened Protocol
  import opened Lease
  import opened LockRunner
  import opened Heartbeat
  import opened Exclusion
  import Reg = Registry

  // ---------------------------------------------------------------- building runs

  function End(r: FleetRun): Fleet
    requires r.states != []
  {
    r.states[|r.states| - 1]
  }

  /** The run goes on, and stays free of what it was free of. */
  ghost predicate Grows(cfgs: seq<Config>, r: FleetRun, r': FleetRun)
    requires IsFleetRun(cfgs, r)
  {
    IsFleetRun(cfgs, r') && (Clean(cfgs, r) ==> Clean(cfgs, r')) && (GetThrough(r) ==> GetThrough(r'))
  }

  lemma FleetThen(cfgs: seq<Config>, r: FleetRun, m: Move) returns (r': FleetRun)
    requires IsFleetRun(cfgs, r) && CanMove(cfgs, End(r), m) && Fair(cfgs, m)
    requires AllInTime(cfgs, Do(cfgs, End(r), m))
    ensures IsFleetRun(cfgs, r') && End(r') == Do(cfgs, End(r), m)
    ensures Clean(cfgs, r) && CleanMove(cfgs, End(r), m) ==> Clean(cfgs, r')
    ensures GetThrough(r) && !IsFailure(m) ==> GetThrough(r')
  {
    var n := |r.moves|;
    r' := FleetRun(r.states + [Do(cfgs, End(r), m)], r.moves + [m]);
    forall i {:trigger r'.moves[i]} | 0 <= i < |r'.moves|
      ensures CanMove(cfgs, r'.states[i], r'.moves[i]) && Fair(cfgs, r'.moves[i])
      ensures r'.states[i + 1] == Do(cfgs, r'.states[i], r'.moves[i])
      ensures Clean(cfgs, r) && CleanMove(cfgs, End(r), m) ==> CleanMove(cfgs, r'.states[i], r'.moves[i])
      ensures GetThrough(r) && !IsFailure(m) ==> !IsFailure(r'.moves[i])
    {
      if i < n {
        assert r'.moves[i] == r.moves[i] && r'.states[i] == r.states[i] && r'.states[i + 1] == r.states[i + 1];
      } else {
        assert r'.moves[i] == m && r'.states[i] == End(r);
      }
    }
    forall i | 0 <= i < |r'.states| ensures AllInTime(cfgs, r'.states[i]) {
      if i < |r.states| {
        assert AllInTime(cfgs, r.states[i]);
      }
    }
  }

  /** The service goes on; no time passes. */
  lemma ServiceThen(cfgs: seq<Config>, r: FleetRun, e: Event) returns (r': FleetRun)
    requires IsFleetRun(cfgs, r) && Enabled(End(r).p, e) && (IsCheckerEvent(e) || e.HandlerRegister?)
    ensures Grows(cfgs, r, r') && End(r') == End(r).(p := Apply(End(r).p, e))
  {
    var f := End(r);
    assert AllInTime(cfgs, f);
    var f' := Do(cfgs, f, Env(e));
    forall n {:trigger Side(f', n)} | 0 <= n < |cfgs| ensures InTime(cfgs[n], Side(f', n)) {
      assert InTime(cfgs[n], Side(f, n));
    }
    r' := FleetThen(cfgs, r, Env(e));
  }

  /** Everybody but the u-th runner is in its first call and has time until `late`. */
  predicate OnlyMoved(cfgs: seq<Config>, f: Fleet, u: nat, late: int) {
    && |f.members| == |cfgs| && u < |cfgs| && f.p.now <= late
    && forall n :: 0 <= n < |cfgs| && n != u ==> f.members[n] == Member(LockRunner.START, Calling(late))
  }

  lemma OnlyMovedInTime(cfgs: seq<Config>, f: Fleet, u: nat, late: int)
    requires OnlyMoved(cfgs, f, u, late) && InTime(cfgs[u], Side(f, u))
    ensures AllInTime(cfgs, f)
  {}

  /** The u-th runner moves, or time passes. */
  lemma RunnerThen(cfgs: seq<Config>, r: FleetRun, u: nat, late: int, m: Move) returns (r': FleetRun)
    requires IsFleetRun(cfgs, r) && OnlyMoved(cfgs, End(r), u, late) && CanMove(cfgs, End(r), m)
    requires (m.By? && m.n == u) || (m.Env? && m.e.Tick?)
    requires Do(cfgs, End(r), m).p.now <= late && InTime(cfgs[u], Side(Do(cfgs, End(r), m), u))
    ensures IsFleetRun(cfgs, r') && End(r') == Do(cfgs, End(r), m) && OnlyMoved(cfgs, End(r'), u, late)
    ensures Clean(cfgs, r) && CleanMove(cfgs, End(r), m) ==> Clean(cfgs, r')
    ensures GetThrough(r) && !IsFailure(m) ==> GetThrough(r')
  {
    OnlyMovedInTime(cfgs, Do(cfgs, End(r), m), u, late);
    r' := FleetThen(cfgs, r, m);
  }

  /** Time passes. */
  lemma TimePasses(cfgs: seq<Config>, r: FleetRun, u: nat, late: int, d: nat) returns (r': FleetRun)
    requires IsFleetRun(cfgs, r) && OnlyMoved(cfgs, End(r), u, late) && End(r).p.now + d <= late
    requires InTime(cfgs[u], Side(End(r), u).(p := End(r).p.(now := End(r).p.now + d)))
    ensures Grows(cfgs, r, r') && OnlyMoved(cfgs, End(r'), u, late)
    ensures End(r') == End(r).(p := End(r).p.(now := End(r).p.now + d))
  {
    r' := RunnerThen(cfgs, r, u, late, Env(Tick(d)));
  }

  /** The u-th runner moves on its own. */
  lemma RunnerActs(cfgs: seq<Config>, r: FleetRun, u: nat, late: int, a: Action, m: Member) returns (r': FleetRun)
    requires IsFleetRun(cfgs, r) && OnlyMoved(cfgs, End(r), u, late)
    requires (a == Wake || a == CallFails || a == Receive) && CanAct(cfgs[u], Side(End(r), u), a)
    requires Act(cfgs[u], Side(End(r), u), a) == Joint(End(r).p, m.client, m.phase)
    requires InTime(cfgs[u], Joint(End(r).p, m.client, m.phase))
    ensures IsFleetRun(cfgs, r') && OnlyMoved(cfgs, End(r'), u, late)
    ensures End(r') == End(r).(members := End(r).members[u := m])
    ensures (Clean(cfgs, r) ==> Clean(cfgs, r')) && (GetThrough(r) && a != CallFails ==> GetThrough(r'))
  {
    r' := RunnerThen(cfgs, r, u, late, By(u, a));
  }

  lemma FleetStarts(cfgs: seq<Config>, u: nat, late: nat) returns (r: FleetRun)
    requires u < |cfgs|
    ensures IsFleetRun(cfgs, r) && Clean(cfgs, r) && GetThrough(r) && OnlyMoved(cfgs, End(r), u, late)
    ensures End(r).members[u] == Member(LockRunner.START, Calling(0)) && End(r).p == Init()
  {
    var f := Fleet(Init(), seq(|cfgs|, n => Member(LockRunner.START, Calling(if n == u then 0 else late))));
    OnlyMovedInTime(cfgs, f, u, late);
    r := FleetRun([f], []);
  }

  /** The u-th runner gets the first lease. */
  lemma GrantFirst(cfgs: seq<Config>, u: nat, late: nat) returns (r: FleetRun)
    requires u < |cfgs| && Acceptable(cfgs[u])
    ensures IsFleetRun(cfgs, r) && Clean(cfgs, r) && GetThrough(r) && OnlyMoved(cfgs, End(r), u, late)
    ensures End(r).members[u] == Member(LockRunner.START, Answered(true, 0))
    ensures var p := End(r).p;
            && p.now == 0 && p.inflight == multiset{FirstLease(cfgs[u])} && p.reg == Reg.Empty(0)
            && p.store.table == map[cfgs[u].lock.key := LockRow(FirstLease(cfgs[u]))] && p.store.guids == {GUID}
  {
    r := FleetStarts(cfgs, u, late);
    ValidatedBecomesCanonical(cfgs[u].lock);
    r := RunnerThen(cfgs, r, u, late, By(u, Serve(Some(GUID))));
  }

  /** Its checker is registered and its timer started. */
  lemma LeaseFirst(cfgs: seq<Config>, u: nat, late: nat) returns (r: FleetRun)
    requires u < |cfgs| && Acceptable(cfgs[u])
    ensures IsFleetRun(cfgs, r) && Clean(cfgs, r) && GetThrough(r) && OnlyMoved(cfgs, End(r), u, late)
    ensures End(r).members[u] == Member(LockRunner.START, Answered(true, 0)) && End(r).p.now == 0
    ensures Leased(cfgs[u], End(r).p, Reg.Waiting(Reg.TimerDuration(cfgs[u].ttl)))
    ensures End(r).p.store.guids == {GUID}
  {
    r := GrantFirst(cfgs, u, late);
    RegisterSteps(cfgs[u], End(r).p);
    r := ServiceThen(cfgs, r, HandlerRegister(FirstLease(cfgs[u])));
    r := ServiceThen(cfgs, r, StartTimer(0));
  }

  /** Store and registry are as before. */
  predicate SameService(f: Fleet, f': Fleet) {
    f'.p.store == f.p.store && f'.p.reg == f.p.reg
  }

  /** The runner reads its grant as late as it may. */
  lemma ReadGrantLate(cfgs: seq<Config>, r: FleetRun, u: nat, late: nat) returns (r': FleetRun)
    requires IsFleetRun(cfgs, r) && OnlyMoved(cfgs, End(r), u, late) && cfgs[u].response <= late
    requires End(r).members[u] == Member(LockRunner.START, Answered(true, 0)) && End(r).p.now == 0
    ensures Grows(cfgs, r, r') && OnlyMoved(cfgs, End(r'), u, late) && SameService(End(r), End(r'))
    ensures End(r').p.now == cfgs[u].response && Believes(Side(End(r'), u))
    ensures End(r').members[u].phase == Sleeping(cfgs[u].response + cfgs[u].retryInterval)
  {
    var m := Member(Client(true, true, 1), Sleeping(cfgs[u].response + cfgs[u].retryInterval));
    r' := TimePasses(cfgs, r, u, late, cfgs[u].response);
    r' := RunnerActs(cfgs, r', u, late, Receive, m);
  }

  /** The lease runs out before the next call. */
  lemma LeaseRunsOut(cfgs: seq<Config>, r: FleetRun, u: nat, late: nat) returns (r': FleetRun)
    requires IsFleetRun(cfgs, r) && OnlyMoved(cfgs, End(r), u, late)
    requires End(r).members[u] == Member(LockRunner.START, Answered(true, 0)) && End(r).p.now == 0
    requires Acceptable(cfgs[u]) && !Sound(cfgs[u])
    requires cfgs[u].response <= late && Reg.TimerDuration(cfgs[u].ttl) <= late
    ensures Grows(cfgs, r, r') && OnlyMoved(cfgs, End(r'), u, late) && SameService(End(r), End(r'))
    ensures Believes(Side(End(r'), u)) && End(r').p.now >= Reg.TimerDuration(cfgs[u].ttl)
  {
    var d := Reg.TimerDuration(cfgs[u].ttl);
    r' := ReadGrantLate(cfgs, r, u, late);
    if d > cfgs[u].response {
      r' := TimePasses(cfgs, r', u, late, d - cfgs[u].response);
    }
  }

  /** The next call fails at the last moment, and the lease runs out before the failure is read. */
  lemma LeaseRunsOutUnread(cfgs: seq<Config>, r: FleetRun, u: nat, late: nat) returns (r': FleetRun)
    requires IsFleetRun(cfgs, r) && Clean(cfgs, r) && OnlyMoved(cfgs, End(r), u, late)
    requires End(r).members[u] == Member(LockRunner.START, Answered(true, 0)) && End(r).p.now == 0
    requires Sound(cfgs[u]) && !Robust(cfgs[u]) && Reg.TimerDuration(cfgs[u].ttl) <= late
    ensures IsFleetRun(cfgs, r') && Clean(cfgs, r') && OnlyMoved(cfgs, End(r'), u, late)
    ensures SameService(End(r), End(r'))
    ensures Believes(Side(End(r'), u)) && End(r').p.now >= Reg.TimerDuration(cfgs[u].ttl)
  {
    var cfg, d := cfgs[u], Reg.TimerDuration(cfgs[u].ttl);
    var now := cfg.response + cfg.retryInterval + cfg.request;
    r' := ReadGrantLate(cfgs, r, u, late);
    var c := End(r').members[u].client;
    r' := TimePasses(cfgs, r', u, late, cfg.retryInterval + cfg.request);
    r' := RunnerActs(cfgs, r', u, late, Wake, Member(c, Calling(cfg.response + cfg.retryInterval)));
    r' := RunnerActs(cfgs, r', u, late, CallFails, Member(c, Answered(false, now)));
    r' := TimePasses(cfgs, r', u, late, d - now);
  }

  lemma LeaseIsTaken(cfgs: seq<Config>, r: FleetRun, u: nat) returns (r': FleetRun)
    requires IsFleetRun(cfgs, r) && u < |cfgs| && Acceptable(cfgs[u])
    requires Leased(cfgs[u], End(r).p, Reg.Waiting(Reg.TimerDuration(cfgs[u].ttl)))
    requires End(r).p.now >= Reg.TimerDuration(cfgs[u].ttl)
    ensures Grows(cfgs, r, r') && End(r').members == End(r).members && End(r').p.now == End(r).p.now
    ensures cfgs[u].lock.key !in End(r').p.store.table && End(r').p.store.guids == End(r).p.store.guids
    ensures forall c :: !InPhase(End(r').p, c, Reg.Matched)
  {
    r' := LeaseIsMatched(cfgs, r, u);
    LeasedSteps(cfgs[u], End(r').p);
    r' := ServiceThen(cfgs, r', ExpiryRelease(0));
  }

  lemma LeaseIsMatched(cfgs: seq<Config>, r: FleetRun, u: nat) returns (r': FleetRun)
    requires IsFleetRun(cfgs, r) && u < |cfgs| && Acceptable(cfgs[u])
    requires Leased(cfgs[u], End(r).p, Reg.Waiting(Reg.TimerDuration(cfgs[u].ttl)))
    requires End(r).p.now >= Reg.TimerDuration(cfgs[u].ttl)
    ensures Grows(cfgs, r, r') && End(r').members == End(r).members && End(r').p.now == End(r).p.now
    ensures Leased(cfgs[u], End(r').p, Reg.Matched) && End(r').p.store.guids == End(r).p.store.guids
  {
    LeasedSteps(cfgs[u], End(r).p);
    r' := ServiceThen(cfgs, r, Fire(0));
    LeasedSteps(cfgs[u], End(r').p);
    r' := ServiceThen(cfgs, r', FetchCheck(0));
  }

  const GUID2: GoString := [8]

  /** A call on a free key is granted, and cleanly if nothing is matched. */
  lemma FreeKeyIsServed(cfg: Config, j: Joint)
    requires Acceptable(cfg) && j.phase.Calling? && j.client == LockRunner.START
    requires cfg.lock.key !in j.p.store.table && GUID2 !in j.p.store.guids
    ensures CanAct(cfg, j, Serve(Some(GUID2)))
    ensures var j' := Act(cfg, j, Serve(Some(GUID2)));
            j'.phase == Answered(true, j.p.now) && j'.client == LockRunner.START && j'.p.now == j.p.now
    ensures (forall c :: !InPhase(j.p, c, Reg.Matched)) ==> CleanAct(cfg, j, Serve(Some(GUID2)))
  {
    ValidatedBecomesCanonical(cfg.lock);
    var p := Apply(j.p, Request(cfg, Some(GUID2)));
    assert forall c :: InPhase(p, c, Reg.Matched) ==> InPhase(j.p, c, Reg.Matched);
  }

  /** A runner moves at once. */
  lemma MemberThen(cfgs: seq<Config>, r: FleetRun, n: nat, a: Action) returns (r': FleetRun)
    requires IsFleetRun(cfgs, r) && CanMove(cfgs, End(r), By(n, a)) && (a.Serve? || a.Receive?)
    ensures IsFleetRun(cfgs, r') && End(r') == Do(cfgs, End(r), By(n, a))
    ensures Clean(cfgs, r) && CleanAct(cfgs[n], Side(End(r), n), a) ==> Clean(cfgs, r')
    ensures GetThrough(r) ==> GetThrough(r')
  {
    var f, f' := End(r), Do(cfgs, End(r), By(n, a));
    assert AllInTime(cfgs, f);
    forall n {:trigger Side(f', n)} | 0 <= n < |cfgs| ensures InTime(cfgs[n], Side(f', n)) {
      assert InTime(cfgs[n], Side(f, n));
    }
    r' := FleetThen(cfgs, r, By(n, a));
  }

  /** The v-th runner gets the lock. */
  lemma RivalIsServed(cfgs: seq<Config>, r: FleetRun, u: nat, v: nat, late: nat) returns (r': FleetRun)
    requires IsFleetRun(cfgs, r) && OnlyMoved(cfgs, End(r), u, late) && Rivals(cfgs, u, v) && Acceptable(cfgs[v])
    requires cfgs[v].lock.key !in End(r).p.store.table && GUID2 !in End(r).p.store.guids
    requires forall c :: !InPhase(End(r).p, c, Reg.Matched)
    ensures Grows(cfgs, r, r') && |End(r').members| == |cfgs| && End(r').members[u] == End(r).members[u]
    ensures End(r').members[v] == Member(LockRunner.START, Answered(true, End(r').p.now))
  {
    FreeKeyIsServed(cfgs[v], Side(End(r), v));
    r' := MemberThen(cfgs, r, v, Serve(Some(GUID2)));
  }

  /** And hears of it. */
  lemma RivalAcquires(cfgs: seq<Config>, r: FleetRun, u: nat, v: nat, late: nat) returns (r': FleetRun)
    requires IsFleetRun(cfgs, r) && OnlyMoved(cfgs, End(r), u, late) && Rivals(cfgs, u, v) && Acceptable(cfgs[v])
    requires cfgs[v].lock.key !in End(r).p.store.table && GUID2 !in End(r).p.store.guids
    requires Believes(Side(End(r), u)) && forall c :: !InPhase(End(r).p, c, Reg.Matched)
    ensures Grows(cfgs, r, r') && BothBelieve(cfgs, End(r'), u, v)
  {
    r' := RivalIsServed(cfgs, r, u, v, late);
    r' := MemberThen(cfgs, r', v, Receive);
  }

  /** A runner with a rival whose delays and retry interval add up to its ttl or more: some run, with
      all calls getting through, ends with both taking themselves to hold the lock. */
  lemma ExclusionFails(cfgs: seq<Config>, u: nat, v: nat) returns (r: FleetRun)
    requires Rivals(cfgs, u, v) && Acceptable(cfgs[u]) && Acceptable(cfgs[v]) && !Sound(cfgs[u])
    ensures IsFleetRun(cfgs, r) && Clean(cfgs, r) && GetThrough(r) && BothBelieve(cfgs, End(r), u, v)
  {
    var late := Reg.Max(cfgs[u].response, Reg.TimerDuration(cfgs[u].ttl));
    r := LeaseFirst(cfgs, u, late);
    r := LeaseRunsOut(cfgs, r, u, late);
    r := LeaseIsTaken(cfgs, r, u);
    assert GUID != GUID2;
    r := RivalAcquires(cfgs, r, u, v, late);
  }

  ghost predicate EverClash(cfgs: seq<Config>) {
    exists r, i, a: nat, b: nat ::
      IsFleetRun(cfgs, r) && GetThrough(r) && 0 <= i < |r.states| && BothBelieve(cfgs, r.states[i], a, b)
  }

  /** Exactly: among runners that the service accepts, each with an owner name of its own, mutual
      exclusion holds in every run with all calls getting through if and only if every runner that has
      a rival keeps its delays and retry interval below its ttl. */
  lemma ExclusionIffSound(cfgs: seq<Config>)
    requires OwnNames(cfgs) && forall n :: 0 <= n < |cfgs| ==> Acceptable(cfgs[n])
    ensures !EverClash(cfgs) <==> forall a: nat, b: nat :: Rivals(cfgs, a, b) ==> Sound(cfgs[a])
  {
    if a: nat, b: nat :| Rivals(cfgs, a, b) && !Sound(cfgs[a]) {
      var r := ExclusionFails(cfgs, a, b);
      assert BothBelieve(cfgs, r.states[|r.states| - 1], a, b);
    } else {
      forall r, i, a: nat, b: nat | IsFleetRun(cfgs, r) && GetThrough(r) && 0 <= i < |r.states| && Rivals(cfgs, a, b)
        ensures !BothBelieve(cfgs, r.states[i], a, b)
      {
        MutualExclusion(cfgs, r, i);
        assert Rivals(cfgs, b, a);
      }
    }
  }

  // ---------------------------------------------------------------- exact with failing calls

  /** The same if failing calls are allowed, for a runner that is not robust. */
  lemma FailureBreaksExclusion(cfgs: seq<Config>, u: nat, v: nat) returns (r: FleetRun)
    requires Rivals(cfgs, u, v) && Acceptable(cfgs[u]) && Acceptable(cfgs[v]) && !Robust(cfgs[u])
    ensures IsFleetRun(cfgs, r) && Clean(cfgs, r) && BothBelieve(cfgs, End(r), u, v)
  {
    if !Sound(cfgs[u]) {
      r := ExclusionFails(cfgs, u, v);
    } else {
      var late := Reg.TimerDuration(cfgs[u].ttl);
      r := LeaseFirst(cfgs, u, late);
      r := LeaseRunsOutUnread(cfgs, r, u, late);
      r := LeaseIsTaken(cfgs, r, u);
      assert GUID != GUID2;
      r := RivalAcquires(cfgs, r, u, v, late);
    }
  }

  ghost predicate EverClashCleanly(cfgs: seq<Config>) {
    exists r, i, a: nat, b: nat ::
      IsFleetRun(cfgs, r) && Clean(cfgs, r) && 0 <= i < |r.states| && BothBelieve(cfgs, r.states[i], a, b)
  }

  /** Exactly, with failing calls: mutual exclusion holds in every run in which calls are granted only
      while no expiry of the lease is in flight, if and only if every runner that has a rival is
      robust. */
  lemma ExclusionIffRobust(cfgs: seq<Config>)
    requires OwnNames(cfgs) && forall n :: 0 <= n < |cfgs| ==> Acceptable(cfgs[n])
    ensures !EverClashCleanly(cfgs) <==> forall a: nat, b: nat :: Rivals(cfgs, a, b) ==> Robust(cfgs[a])
  {
    if a: nat, b: nat :| Rivals(cfgs, a, b) && !Robust(cfgs[a]) {
      var r := FailureBreaksExclusion(cfgs, a, b);
      assert BothBelieve(cfgs, r.states[|r.states| - 1], a, b);
    } else {
      forall r, i, a: nat, b: nat |
        IsFleetRun(cfgs, r) && Clean(cfgs, r) && 0 <= i < |r.states| && Rivals(cfgs, a, b)
        ensures !BothBelieve(cfgs, r.states[i], a, b)
      {
        MutualExclusionDespiteFailures(cfgs, r, i);
        assert Rivals(cfgs, b, a);
      }
    }
  }

  // ---------------------------------------------------------------- without the guard

  /** The runner is between two calls that fail; time has passed to its next call. */
  predicate Retrying(cfgs: seq<Config>, f: Fleet, u: nat, late: int) {
    && OnlyMoved(cfgs, f, u, late)
    && f.members[u] == Member(LockRunner.START, Sleeping(f.p.now + cfgs[u].retryInterval))
  }

  /** The retry timer fires and the next call begins. */
  lemma NextCall(cfgs: seq<Config>, r: FleetRun, u: nat, late: int) returns (r': FleetRun)
    requires IsFleetRun(cfgs, r) && Retrying(cfgs, End(r), u, late)
    requires End(r).p.now + cfgs[u].retryInterval <= late
    ensures IsFleetRun(cfgs, r') && OnlyMoved(cfgs, End(r'), u, late)
    ensures End(r').p == End(r).p.(now := End(r).p.now + cfgs[u].retryInterval)
    ensures End(r').members[u] == Member(LockRunner.START, Calling(End(r').p.now))
  {
    r' := TimePasses(cfgs, r, u, late, cfgs[u].retryInterval);
    r' := RunnerActs(cfgs, r', u, late, Wake, Member(LockRunner.START, Calling(End(r').p.now)));
  }

  /** One more call that fails. */
  lemma RetryFails(cfgs: seq<Config>, r: FleetRun, u: nat, late: int) returns (r': FleetRun)
    requires IsFleetRun(cfgs, r) && Retrying(cfgs, End(r), u, late)
    requires End(r).p.now + cfgs[u].retryInterval <= late
    ensures IsFleetRun(cfgs, r') && Retrying(cfgs, End(r'), u, late) && SameService(End(r), End(r'))
    ensures End(r').p.now == End(r).p.now + cfgs[u].retryInterval
  {
    r' := NextCall(cfgs, r, u, late);
    var now := End(r').p.now;
    r' := RunnerActs(cfgs, r', u, late, CallFails, Member(LockRunner.START, Answered(false, now)));
    r' := RunnerActs(cfgs, r', u, late, Receive, Member(LockRunner.START, Sleeping(now + cfgs[u].retryInterval)));
  }

  /** Calls fail until the lease is over. */
  lemma {:induction false} FailUntil(cfgs: seq<Config>, r: FleetRun, u: nat, late: int, end: int) returns (r': FleetRun)
    requires IsFleetRun(cfgs, r) && Retrying(cfgs, End(r), u, late) && cfgs[u].retryInterval > 0
    requires Reg.Max(End(r).p.now, end + cfgs[u].retryInterval) <= late
    ensures IsFleetRun(cfgs, r') && Retrying(cfgs, End(r'), u, late) && SameService(End(r), End(r'))
    ensures end <= End(r').p.now <= Reg.Max(End(r).p.now, end + cfgs[u].retryInterval)
    decreases end - End(r).p.now
  {
    r' := r;
    if End(r).p.now < end {
      r' := RetryFails(cfgs, r, u, late);
      r' := FailUntil(cfgs, r', u, late, end);
    }
  }

  /** The first call commits and its answer is lost. */
  lemma LoseGrant(cfgs: seq<Config>, u: nat, late: nat) returns (r: FleetRun)
    requires u < |cfgs| && Acceptable(cfgs[u])
    ensures IsFleetRun(cfgs, r) && Retrying(cfgs, End(r), u, late) && End(r).p.now == 0
    ensures Leased(cfgs[u], End(r).p, Reg.Waiting(Reg.TimerDuration(cfgs[u].ttl)))
    ensures End(r).p.store.guids == {GUID}
  {
    r := LeaseFirst(cfgs, u, late);
    r := RunnerActs(cfgs, r, u, late, CallFails, Member(LockRunner.START, Answered(false, 0)));
    r := RunnerActs(cfgs, r, u, late, Receive, Member(LockRunner.START, Sleeping(cfgs[u].retryInterval)));
  }

  lemma GrantIsGiven(cfgs: seq<Config>, r: FleetRun, u: nat, late: int) returns (r': FleetRun)
    requires IsFleetRun(cfgs, r) && OnlyMoved(cfgs, End(r), u, late)
    requires End(r).members[u] == Member(LockRunner.START, Calling(End(r).p.now))
    requires Enabled(End(r).p, Request(cfgs[u], None)) && Commits(End(r).p, Request(cfgs[u], None)).Some?
    requires Apply(End(r).p, Request(cfgs[u], None)).now == End(r).p.now
    ensures IsFleetRun(cfgs, r') && OnlyMoved(cfgs, End(r'), u, late)
    ensures End(r').p == Apply(End(r).p, Request(cfgs[u], None))
    ensures End(r').members[u] == Member(LockRunner.START, Answered(true, End(r).p.now))
  {
    r' := RunnerThen(cfgs, r, u, late, By(u, Serve(None)));
  }

  /** The call is granted, and the runner hears of it. */
  lemma GrantIsHeard(cfgs: seq<Config>, r: FleetRun, u: nat, late: int) returns (r': FleetRun)
    requires IsFleetRun(cfgs, r) && OnlyMoved(cfgs, End(r), u, late)
    requires End(r).members[u] == Member(LockRunner.START, Calling(End(r).p.now))
    requires Enabled(End(r).p, Request(cfgs[u], None)) && Commits(End(r).p, Request(cfgs[u], None)).Some?
    requires Apply(End(r).p, Request(cfgs[u], None)).now == End(r).p.now
    ensures IsFleetRun(cfgs, r') && OnlyMoved(cfgs, End(r'), u, late) && Believes(Side(End(r'), u))
    ensures End(r').p == Apply(End(r).p, Request(cfgs[u], None))
  {
    var now := End(r).p.now;
    r' := GrantIsGiven(cfgs, r, u, late);
    r' := RunnerActs(cfgs, r', u, late, Receive, Member(Client(true, true, 1), Sleeping(now + cfgs[u].retryInterval)));
  }

  /** A call renews the lease while its expiry is in flight. */
  lemma RenewMatched(cfgs: seq<Config>, r: FleetRun, u: nat, late: int) returns (r': FleetRun)
    requires IsFleetRun(cfgs, r) && Retrying(cfgs, End(r), u, late) && Acceptable(cfgs[u])
    requires End(r).p.now + cfgs[u].retryInterval <= late
    requires Leased(cfgs[u], End(r).p, Reg.Matched) && End(r).p.store.guids == {GUID}
    ensures IsFleetRun(cfgs, r') && OnlyMoved(cfgs, End(r'), u, late) && Believes(Side(End(r'), u))
    ensures HeldBy(End(r').p, cfgs[u].lock.key, cfgs[u].lock.owner)
    ensures End(r').p.reg == End(r).p.reg && End(r').p.store.guids == {GUID}
  {
    r' := NextCall(cfgs, r, u, late);
    RenewalIsServed(cfgs[u], End(r').p);
    r' := GrantIsHeard(cfgs, r', u, late);
  }

  lemma RenewalIsServed(cfg: Config, p: State)
    requires Acceptable(cfg) && Leased(cfg, p, Reg.Matched) && p.store.guids == {GUID}
    ensures Enabled(p, Request(cfg, None)) && Commits(p, Request(cfg, None)).Some?
    ensures var p' := Apply(p, Request(cfg, None));
            HeldBy(p', cfg.lock.key, cfg.lock.owner) && p'.reg == p.reg && p'.store.guids == {GUID} && p'.now == p.now
  {
    ValidatedBecomesCanonical(cfg.lock);
  }

  /** The expiry that is under way takes the renewed lease. */
  lemma RenewalIsTaken(cfgs: seq<Config>, r: FleetRun, u: nat, g: Reg.Registry) returns (r': FleetRun)
    requires IsFleetRun(cfgs, r) && u < |cfgs| && End(r).p.reg == g
    requires g.checkers == map[0 := Reg.Checker(FirstLease(cfgs[u]), Reg.Matched)]
    requires HeldBy(End(r).p, cfgs[u].lock.key, cfgs[u].lock.owner)
    ensures IsFleetRun(cfgs, r') && End(r').members == End(r).members && End(r').p.now == End(r).p.now
    ensures cfgs[u].lock.key !in End(r').p.store.table && End(r').p.store.guids == End(r).p.store.guids
    ensures forall c :: !InPhase(End(r').p, c, Reg.Matched)
  {
    r' := ServiceThen(cfgs, r, ExpiryRelease(0));
  }

  /** If neither calls get through nor grants are guarded, no ttl is long enough: any two rivals, the
      first with a retry interval at all, come to take themselves both to hold the lock. The answer to
      the first call is lost, retries fail until the lease is over and its expiry under way, one more
      call renews it, and the expiry takes it. */
  lemma LostAnswersBreakExclusion(cfgs: seq<Config>, u: nat, v: nat) returns (r: FleetRun)
    requires Rivals(cfgs, u, v) && Acceptable(cfgs[u]) && Acceptable(cfgs[v]) && cfgs[u].retryInterval > 0
    ensures IsFleetRun(cfgs, r) && BothBelieve(cfgs, End(r), u, v)
  {
    var d, retry := Reg.TimerDuration(cfgs[u].ttl), cfgs[u].retryInterval;
    var late := Reg.Max(0, d + retry) + retry;
    r := LoseGrant(cfgs, u, late);
    r := FailUntil(cfgs, r, u, late, d);
    r := LeaseIsMatched(cfgs, r, u);
    var g := End(r).p.reg;
    r := RenewMatched(cfgs, r, u, late);
    r := RenewalIsTaken(cfgs, r, u, g);
    assert GUID != GUID2;
    r := RivalAcquires(cfgs, r, u, v, late);
  }
}
