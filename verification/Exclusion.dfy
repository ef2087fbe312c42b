/**
 Mutual exclusion among clients: any number of runners (lock/lock.go), each with an owner name of its
 own, against one lock service, with other clients around. A runner that takes itself to hold its
 lock does hold it, so no two of them hold the same one.
 */
module Exclusion {
  import opened Models
  import opened LockTable
  import opened Versions
  import opened Protocol
  import opened Lease
  import opened LockRunner
  import opened Heartbeat
  import Reg = Registry

  // ---------------------------------------------------------------- one runner and its owner name

  /** Nobody else uses the runner's owner name on its key. */
  predicate Alone(cfg: Config, a: Action) {
    a.Other? ==> !Uses(a.e, cfg.lock.key, cfg.lock.owner)
  }

  predicate Uses(e: Event, k: GoString, o: GoString) {
    || (e.ReleaseCall? && e.r.key == k && e.r.owner == o)
    || (e.LockCall? && e.req.resource.Some? && e.req.resource.value.key == k && e.req.resource.value.owner == o)
  }

  ghost predicate NeverOwned(st: Store, k: GoString, o: GoString) {
    forall v :: v in st.history ==> !(v.key == k && st.history[v].resource.owner == o)
  }

  /** The runner has had no success yet. */
  ghost predicate Outside(cfg: Config, j: Joint) {
    && !j.client.acquired
    && !j.phase.Stopped? && (j.phase.Answered? ==> !j.phase.ok)
    && NeverOwned(j.p.store, cfg.lock.key, cfg.lock.owner)
  }

  ghost predicate Regime(cfg: Config, j: Joint) {
    Outside(cfg, j) || Keeps(cfg, j) || j.phase == Stopped(false)
  }

  /** The runner takes itself to hold the lock. */
  predicate Believes(j: Joint) {
    j.client.acquired && !j.phase.Stopped?
  }

  lemma BelieverHolds(cfg: Config, j: Joint)
    requires Regime(cfg, j) && Believes(j)
    ensures HeldBy(j.p, cfg.lock.key, cfg.lock.owner)
  {}

  lemma NeverOwnedStep(s: State, e: Event, k: GoString, o: GoString)
    requires Versions.Inv(s.store) && Enabled(s, e) && NeverOwned(s.store, k, o)
    requires !Uses(e, k, o) || Commits(s, e).None?
    ensures NeverOwned(Apply(s, e).store, k, o)
  {
    StepHistory(s, e);
  }

  /** Without a version of the owner there is no expiry of one. */
  lemma NeverOwnedHasNoExpiry(s: State, e: Event, k: GoString, o: GoString)
    requires CheckersOnTime(s) && NeverOwned(s.store, k, o) && Enabled(s, e) && e.LockCall?
    ensures NoPendingExpiry(Apply(s, e), k, o)
  {
    forall c | InPhase(Apply(s, e), c, Reg.Matched)
      ensures !(LockOf(s, c).resource.key == k && LockOf(s, c).resource.owner == o)
    {
      assert CheckerOnTime(s, c);
    }
  }

  lemma OutsideServed(cfg: Config, j: Joint, guid: Option<GoString>)
    requires Protocol.Inv(j.p) && Outside(cfg, j) && CanAct(cfg, j, Serve(guid))
    ensures Regime(cfg, Act(cfg, j, Serve(guid)))
  {
    var e := Request(cfg, guid);
    if Commits(j.p, e).Some? {
      NeverOwnedHasNoExpiry(j.p, e, cfg.lock.key, cfg.lock.owner);
      GrantedCallKeeps(cfg, j, guid);
    } else {
      NeverOwnedStep(j.p, e, cfg.lock.key, cfg.lock.owner);
    }
  }

  lemma OutsideStep(cfg: Config, j: Joint, a: Action)
    requires Protocol.Inv(j.p) && Outside(cfg, j) && CanAct(cfg, j, a) && Alone(cfg, a) && a != CallFails
    ensures Regime(cfg, Act(cfg, j, a))
  {
    match a
    case Other(e) => NeverOwnedStep(j.p, e, cfg.lock.key, cfg.lock.owner);
    case Serve(guid) => OutsideServed(cfg, j, guid);
    case _ =>
  }

  lemma RegimeStep(cfg: Config, j: Joint, a: Action)
    requires Sound(cfg) && Protocol.Inv(j.p) && InTime(cfg, j) && CanAct(cfg, j, a) && Alone(cfg, a)
    requires Regime(cfg, j) && a != CallFails
    ensures Regime(cfg, Act(cfg, j, a))
  {
    if Outside(cfg, j) {
      OutsideStep(cfg, j, a);
    } else if Keeps(cfg, j) {
      ActKeeps(cfg, j, a);
    }
  }

  // ---------------------------------------------------------------- a fleet of runners

  datatype Member = Member(client: Client, phase: Phase)

  datatype Fleet = Fleet(p: State, members: seq<Member>)

  datatype Move =
    | Env(e: Event)             // the service itself, or a client outside the fleet
    | By(n: nat, a: Action)

  function Side(f: Fleet, n: nat): Joint
    requires n < |f.members|
  {
    Joint(f.p, f.members[n].client, f.members[n].phase)
  }

  predicate CanMove(cfgs: seq<Config>, f: Fleet, m: Move) {
    match m
    case Env(e) => Enabled(f.p, e)
    case By(n, a) => n < |f.members| == |cfgs| && !a.Other? && CanAct(cfgs[n], Side(f, n), a)
  }

  function Do(cfgs: seq<Config>, f: Fleet, m: Move): Fleet
    requires CanMove(cfgs, f, m)
  {
    match m
    case Env(e) => f.(p := Apply(f.p, e))
    case By(n, a) =>
      var j := Act(cfgs[n], Side(f, n), a);
      Fleet(j.p, f.members[n := Member(j.client, j.phase)])
  }

  /** What a move does to the service; nothing is a tick of length zero. */
  function Effect(cfgs: seq<Config>, f: Fleet, m: Move): Event
    requires CanMove(cfgs, f, m)
  {
    match m
    case Env(e) => e
    case By(n, Serve(guid)) => Request(cfgs[n], guid)
    case By(n, Interrupt) => ReleaseCall(cfgs[n].lock)
    case By(_, _) => Tick(0)
  }

  /** What a move is to the n-th runner. */
  function Seen(cfgs: seq<Config>, f: Fleet, m: Move, n: nat): Action
    requires CanMove(cfgs, f, m)
  {
    if m.By? && m.n == n then m.a else Other(Effect(cfgs, f, m))
  }

  lemma EffectIsStep(cfgs: seq<Config>, f: Fleet, m: Move)
    requires CanMove(cfgs, f, m)
    ensures Enabled(f.p, Effect(cfgs, f, m)) && Do(cfgs, f, m).p == Apply(f.p, Effect(cfgs, f, m))
  {}

  /** Each runner sees the fleet as itself beside the protocol. */
  lemma SeenIsAct(cfgs: seq<Config>, f: Fleet, m: Move, n: nat)
    requires CanMove(cfgs, f, m) && n < |f.members| == |cfgs|
    ensures CanAct(cfgs[n], Side(f, n), Seen(cfgs, f, m, n))
    ensures |Do(cfgs, f, m).members| == |f.members|
    ensures Side(Do(cfgs, f, m), n) == Act(cfgs[n], Side(f, n), Seen(cfgs, f, m, n))
  {
    EffectIsStep(cfgs, f, m);
  }

  /** No two runners share key and owner. */
  predicate OwnNames(cfgs: seq<Config>) {
    forall a, b :: 0 <= a < b < |cfgs| ==>
      !(cfgs[a].lock.key == cfgs[b].lock.key && cfgs[a].lock.owner == cfgs[b].lock.owner)
  }

  /** Clients outside the fleet do not use its owner names. */
  predicate Fair(cfgs: seq<Config>, m: Move) {
    m.Env? ==> forall n :: 0 <= n < |cfgs| ==> !Uses(m.e, cfgs[n].lock.key, cfgs[n].lock.owner)
  }

  predicate IsFailure(m: Move) {
    m.By? && m.a == CallFails
  }

  lemma FairIsAlone(cfgs: seq<Config>, f: Fleet, m: Move, n: nat)
    requires CanMove(cfgs, f, m) && n < |f.members| == |cfgs| && OwnNames(cfgs) && Fair(cfgs, m)
    ensures Alone(cfgs[n], Seen(cfgs, f, m, n))
  {}

  ghost predicate FleetInv(cfgs: seq<Config>, f: Fleet) {
    && Protocol.Inv(f.p) && |f.members| == |cfgs|
    && forall n {:trigger Side(f, n)} :: 0 <= n < |cfgs| && Sound(cfgs[n]) ==> Regime(cfgs[n], Side(f, n))
  }

  predicate AllInTime(cfgs: seq<Config>, f: Fleet) {
    |f.members| == |cfgs| && forall n {:trigger Side(f, n)} :: 0 <= n < |cfgs| ==> InTime(cfgs[n], Side(f, n))
  }

  lemma MoveKeepsInv(cfgs: seq<Config>, f: Fleet, m: Move)
    requires OwnNames(cfgs) && FleetInv(cfgs, f) && AllInTime(cfgs, f) && CanMove(cfgs, f, m) && Fair(cfgs, m)
    requires !IsFailure(m)
    ensures FleetInv(cfgs, Do(cfgs, f, m))
  {
    var f' := Do(cfgs, f, m);
    EffectIsStep(cfgs, f, m);
    StepKeepsInv(f.p, Effect(cfgs, f, m));
    forall n {:trigger Side(f', n)} | 0 <= n < |cfgs| && Sound(cfgs[n])
      ensures n < |f'.members| && Regime(cfgs[n], Side(f', n))
    {
      SeenIsAct(cfgs, f, m, n);
      FairIsAlone(cfgs, f, m, n);
      RegimeStep(cfgs[n], Side(f, n), Seen(cfgs, f, m, n));
    }
  }

  datatype FleetRun = FleetRun(states: seq<Fleet>, moves: seq<Move>)

  /** The service is empty and every runner is about to make its first call. */
  predicate IsStart(cfgs: seq<Config>, f: Fleet) {
    && f.p == Init() && |f.members| == |cfgs|
    && forall n :: 0 <= n < |cfgs| ==> f.members[n].client == LockRunner.START && f.members[n].phase.Calling?
  }

  /** A run of the fleet from the start, with delays within bounds and fair moves. */
  ghost predicate IsFleetRun(cfgs: seq<Config>, r: FleetRun) {
    && |r.states| == |r.moves| + 1 && IsStart(cfgs, r.states[0])
    && (forall i {:trigger r.moves[i]} :: 0 <= i < |r.moves| ==>
          && CanMove(cfgs, r.states[i], r.moves[i]) && Fair(cfgs, r.moves[i])
          && r.states[i + 1] == Do(cfgs, r.states[i], r.moves[i]))
    && (forall i :: 0 <= i < |r.states| ==> AllInTime(cfgs, r.states[i]))
  }

  /** Every call of a runner gets an answer of the service, and the runner gets it. */
  predicate GetThrough(r: FleetRun) {
    forall i {:trigger r.moves[i]} :: 0 <= i < |r.moves| ==> !IsFailure(r.moves[i])
  }

  lemma {:induction false} FleetRunKeepsInv(cfgs: seq<Config>, r: FleetRun, i: nat)
    requires OwnNames(cfgs) && IsFleetRun(cfgs, r) && GetThrough(r) && i < |r.states|
    ensures FleetInv(cfgs, r.states[i])
  {
    if i == 0 {
      InitInv();
    } else {
      FleetRunKeepsInv(cfgs, r, i - 1);
      assert CanMove(cfgs, r.states[i - 1], r.moves[i - 1]);
      MoveKeepsInv(cfgs, r.states[i - 1], r.moves[i - 1]);
    }
  }

  /** Two runners are after the same lock. */
  predicate Rivals(cfgs: seq<Config>, a: nat, b: nat) {
    a < |cfgs| && b < |cfgs| && a != b && cfgs[a].lock.key == cfgs[b].lock.key
  }

  predicate BothBelieve(cfgs: seq<Config>, f: Fleet, a: nat, b: nat) {
    |f.members| == |cfgs| && Rivals(cfgs, a, b) && Believes(Side(f, a)) && Believes(Side(f, b))
  }

  /** Mutual exclusion. In every run of the whole system in which the runners' calls get through, a
      runner whose delays and retry interval stay below its ttl holds the lock whenever it takes itself
      to hold it; two such runners never take themselves to hold the same lock. */
  lemma MutualExclusion(cfgs: seq<Config>, r: FleetRun, i: nat)
    requires OwnNames(cfgs) && IsFleetRun(cfgs, r) && GetThrough(r) && i < |r.states|
    ensures |r.states[i].members| == |cfgs|
    ensures forall n :: 0 <= n < |cfgs| && Sound(cfgs[n]) && Believes(Side(r.states[i], n)) ==>
              HeldBy(r.states[i].p, cfgs[n].lock.key, cfgs[n].lock.owner)
    ensures forall a: nat, b: nat :: BothBelieve(cfgs, r.states[i], a, b) ==> !Sound(cfgs[a]) || !Sound(cfgs[b])
  {
    FleetRunKeepsInv(cfgs, r, i);
    var f := r.states[i];
    forall n | 0 <= n < |cfgs| && Sound(cfgs[n]) && Believes(Side(f, n))
      ensures HeldBy(f.p, cfgs[n].lock.key, cfgs[n].lock.owner)
    {
      BelieverHolds(cfgs[n], Side(f, n));
    }
    forall a: nat, b: nat | BothBelieve(cfgs, f, a, b) ensures !Sound(cfgs[a]) || !Sound(cfgs[b]) {
      RivalsDiffer(cfgs, a, b);
    }
  }

  lemma RivalsDiffer(cfgs: seq<Config>, a: nat, b: nat)
    requires OwnNames(cfgs) && Rivals(cfgs, a, b)
    ensures cfgs[a].lock.owner != cfgs[b].lock.owner
  {}

  // ---------------------------------------------------------------- calls that fail

  /** A failed call is read late, too: its delay comes on top of a round. */
  predicate Robust(cfg: Config) {
    && Acceptable(cfg)
    && 2 * cfg.response + cfg.retryInterval + cfg.request < Reg.TimerDuration(cfg.ttl)
  }

  /** A call is granted only while no expiry of the runner's lease is in flight. */
  ghost predicate CleanAct(cfg: Config, j: Joint, a: Action)
    requires CanAct(cfg, j, a)
  {
    a.Serve? && Commits(j.p, Request(cfg, a.guid)).Some? ==>
      NoPendingExpiry(Apply(j.p, Request(cfg, a.guid)), cfg.lock.key, cfg.lock.owner)
  }

  /** The runner takes itself to hold the lock, or has a grant on its way. */
  predicate Counts(j: Joint) {
    !j.phase.Stopped? && (j.client.acquired || (j.phase.Answered? && j.phase.ok))
  }

  /** When the lease was renewed at the latest, as the phase tells. */
  function LastGrant(cfg: Config, phase: Phase): int {
    match phase
    case Answered(ok, at) => if ok then at else at - cfg.request - cfg.retryInterval - cfg.response
    case Calling(due) => due - cfg.retryInterval - cfg.response
    case Sleeping(due) => due - cfg.retryInterval - cfg.response
    case Stopped(_) => 0
  }

  ghost predicate Covered(cfg: Config, j: Joint) {
    Counts(j) ==>
      && NoPendingExpiry(j.p, cfg.lock.key, cfg.lock.owner)
      && RenewedSince(cfg, j.p, LastGrant(cfg, j.phase))
  }

  lemma CoveredByOther(cfg: Config, j: Joint, e: Event)
    requires Robust(cfg) && Protocol.Inv(j.p) && InTime(cfg, j) && Enabled(j.p, e) && Alone(cfg, Other(e))
    requires Covered(cfg, j)
    ensures Covered(cfg, Act(cfg, j, Other(e)))
  {
    if Counts(j) {
      assert Timely(j.p, cfg.lock.key, cfg.lock.owner);
      TimelyKeepsNoPending(j.p, e, cfg.lock.key, cfg.lock.owner);
      RenewedSinceStep(cfg, j.p, e, LastGrant(cfg, j.phase));
    }
  }

  lemma CoveredByServe(cfg: Config, j: Joint, guid: Option<GoString>)
    requires Robust(cfg) && Protocol.Inv(j.p) && CanAct(cfg, j, Serve(guid)) && CleanAct(cfg, j, Serve(guid))
    requires Covered(cfg, j)
    ensures Covered(cfg, Act(cfg, j, Serve(guid)))
  {
    if Commits(j.p, Request(cfg, guid)).Some? {
      GrantedCallKeeps(cfg, j, guid);
    } else if j.client.acquired {
      HolderIsServed(cfg, j.p, guid);
    }
  }

  lemma CoveredStep(cfg: Config, j: Joint, a: Action)
    requires Robust(cfg) && Protocol.Inv(j.p) && InTime(cfg, j) && CanAct(cfg, j, a) && Alone(cfg, a)
    requires CleanAct(cfg, j, a) && Covered(cfg, j)
    ensures Covered(cfg, Act(cfg, j, a))
  {
    match a
    case Other(e) => CoveredByOther(cfg, j, e);
    case Serve(guid) => CoveredByServe(cfg, j, guid);
    case _ =>
  }

  ghost predicate CleanMove(cfgs: seq<Config>, f: Fleet, m: Move)
    requires CanMove(cfgs, f, m)
  {
    m.By? ==> CleanAct(cfgs[m.n], Side(f, m.n), m.a)
  }

  ghost predicate Clean(cfgs: seq<Config>, r: FleetRun)
    requires IsFleetRun(cfgs, r)
  {
    forall i {:trigger r.moves[i]} :: 0 <= i < |r.moves| ==> CleanMove(cfgs, r.states[i], r.moves[i])
  }

  ghost predicate CoveredInv(cfgs: seq<Config>, f: Fleet) {
    && Protocol.Inv(f.p) && |f.members| == |cfgs|
    && forall n {:trigger Side(f, n)} :: 0 <= n < |cfgs| && Robust(cfgs[n]) ==> Covered(cfgs[n], Side(f, n))
  }

  lemma MoveKeepsCovered(cfgs: seq<Config>, f: Fleet, m: Move)
    requires OwnNames(cfgs) && CoveredInv(cfgs, f) && AllInTime(cfgs, f) && CanMove(cfgs, f, m) && Fair(cfgs, m)
    requires CleanMove(cfgs, f, m)
    ensures CoveredInv(cfgs, Do(cfgs, f, m))
  {
    var f' := Do(cfgs, f, m);
    EffectIsStep(cfgs, f, m);
    StepKeepsInv(f.p, Effect(cfgs, f, m));
    forall n {:trigger Side(f', n)} | 0 <= n < |cfgs| && Robust(cfgs[n])
      ensures n < |f'.members| && Covered(cfgs[n], Side(f', n))
    {
      SeenIsAct(cfgs, f, m, n);
      FairIsAlone(cfgs, f, m, n);
      CoveredStep(cfgs[n], Side(f, n), Seen(cfgs, f, m, n));
    }
  }

  lemma {:induction false} FleetRunKeepsCovered(cfgs: seq<Config>, r: FleetRun, i: nat)
    requires OwnNames(cfgs) && IsFleetRun(cfgs, r) && Clean(cfgs, r) && i < |r.states|
    ensures CoveredInv(cfgs, r.states[i])
  {
    if i == 0 {
      InitInv();
    } else {
      FleetRunKeepsCovered(cfgs, r, i - 1);
      assert CanMove(cfgs, r.states[i - 1], r.moves[i - 1]) && CleanMove(cfgs, r.states[i - 1], r.moves[i - 1]);
      MoveKeepsCovered(cfgs, r.states[i - 1], r.moves[i - 1]);
    }
  }

  /** Mutual exclusion when calls may fail in any way and at any time: if calls are granted only while
      no expiry of the runner's lease is in flight, a runner whose delays and retry interval, with the
      response delay counted twice, stay below its ttl holds the lock whenever it takes itself to hold
      it; two such runners never take themselves to hold the same lock. */
  lemma MutualExclusionDespiteFailures(cfgs: seq<Config>, r: FleetRun, i: nat)
    requires OwnNames(cfgs) && IsFleetRun(cfgs, r) && Clean(cfgs, r) && i < |r.states|
    ensures |r.states[i].members| == |cfgs|
    ensures forall n :: 0 <= n < |cfgs| && Robust(cfgs[n]) && Believes(Side(r.states[i], n)) ==>
              HeldBy(r.states[i].p, cfgs[n].lock.key, cfgs[n].lock.owner)
    ensures forall a: nat, b: nat :: BothBelieve(cfgs, r.states[i], a, b) ==> !Robust(cfgs[a]) || !Robust(cfgs[b])
  {
    FleetRunKeepsCovered(cfgs, r, i);
    var f := r.states[i];
    forall n | 0 <= n < |cfgs| && Robust(cfgs[n]) && Believes(Side(f, n))
      ensures HeldBy(f.p, cfgs[n].lock.key, cfgs[n].lock.owner)
    {
      assert Covered(cfgs[n], Side(f, n));
    }
    forall a: nat, b: nat | BothBelieve(cfgs, f, a, b) ensures !Robust(cfgs[a]) || !Robust(cfgs[b]) {
      RivalsDiffer(cfgs, a, b);
    }
  }

  /** The guard on grants cannot be dropped: a granted call with an expiry of the lease in flight goes
      on to a state in which the runner takes itself to hold a lock that it does not hold. */
  lemma UncleanGrantLoses(cfg: Config, j: Joint, c: nat) returns (r: JointRun)
    requires j.phase.Answered? && j.phase.ok && InTime(cfg, j) && HeldBy(j.p, cfg.lock.key, cfg.lock.owner)
    requires InPhase(j.p, c, Reg.Matched)
    requires LockOf(j.p, c).resource.key == cfg.lock.key && LockOf(j.p, c).resource.owner == cfg.lock.owner
    ensures IsJointRun(cfg, r) && r.states[0] == j && r.actions == [Receive, Other(ExpiryRelease(c))]
    ensures InTime(cfg, Final(r)) && Believes(Final(r)) && !HeldBy(Final(r).p, cfg.lock.key, cfg.lock.owner)
  {
    var j1 := Act(cfg, j, Receive);
    var j2 := Act(cfg, j1, Other(ExpiryRelease(c)));
    r := JointRun([j, j1, j2], [Receive, Other(ExpiryRelease(c))]);
  }
}
