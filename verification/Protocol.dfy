/**
 The whole lease protocol as a step system with a clock: request handlers (handlers/handler.go),
 the database (db/lock_db.go), the timer goroutines and their registry (expiration/lock_pick.go)
 and the burglar's rescans (expiration/burglar.go). Every event is one atomic action of one of
 them, so the Fetch and the Release of a checker are separate events and anything may happen in
 between. The clock counts nanoseconds.
 */
module Protocol {
  import opened Models
  import opened LockTable
  import opened Versions
  import Reg = Registry

  datatype State = State(
    now: int,
    store: Store,
    reg: Reg.Registry,
    inflight: multiset<DbLock>,  // committed by a handler, not registered yet
    scan: seq<DbLock>)           // fetched by the burglar, not registered yet

  datatype Event =
    | Tick(d: nat)
    | LockCall(req: LockRequest, guid: Option<GoString>)
    | ReleaseCall(r: Resource)
    | HandlerRegister(l: DbLock)
    | ScanFetch(locks: seq<DbLock>)
    | ScanRegister
    | StartTimer(c: nat)
    | Fire(c: nat)
    | Cancel(c: nat)
    | FetchCheck(c: nat)
    | FetchFails(c: nat)
    | ExpiryRelease(c: nat)
    | ReleaseFails(c: nat)
    | Cleanup(c: nat)
    | Restart

  function Init(): State {
    State(0, Store(map[], {}, map[]), Reg.Empty(0), multiset{}, [])
  }

  predicate InPhase(s: State, c: nat, p: Reg.Phase) {
    c in s.reg.checkers && s.reg.checkers[c].phase == p
  }

  predicate IsWaiting(s: State, c: nat) {
    c in s.reg.checkers && s.reg.checkers[c].phase.Waiting?
  }

  function LockOf(s: State, c: nat): DbLock
    requires c in s.reg.checkers
  {
    s.reg.checkers[c].lock
  }

  /** A row may be missing from a scan (its Scan failed), but every lock in it was read from a row. */
  predicate ReadFrom(t: Table, locks: seq<DbLock>) {
    forall l :: l in locks ==> FetchTx(t, l.resource.key) == Ok(l)
  }

  predicate Enabled(s: State, e: Event) {
    match e
    case Tick(_) => true
    case LockCall(_, guid) => Fresh(s.store, guid)
    case ReleaseCall(_) => true
    case HandlerRegister(l) => l in s.inflight
    case ScanFetch(locks) => s.scan == [] && ReadFrom(s.store.table, locks)
    case ScanRegister => s.scan != []
    case StartTimer(c) => InPhase(s, c, Reg.Spawned)
    case Fire(c) => IsWaiting(s, c) && s.reg.checkers[c].phase.dueAt <= s.now
    case Cancel(c) => IsWaiting(s, c) && c in s.reg.closed
    case FetchCheck(c) => InPhase(s, c, Reg.Fired)
    case FetchFails(c) => InPhase(s, c, Reg.Fired)
    case ExpiryRelease(c) => InPhase(s, c, Reg.Matched)
    case ReleaseFails(c) => InPhase(s, c, Reg.Matched)
    case Cleanup(c) => InPhase(s, c, Reg.Finishing)
    case Restart => true
  }

  function To(s: State, c: nat, p: Reg.Phase): State
    requires c in s.reg.checkers
  {
    s.(reg := Reg.SetPhase(s.reg, c, p))
  }

  /** The comparison after the timer: same index and same id as registered. */
  predicate StillCurrent(t: Table, l: DbLock) {
    var f := FetchTx(t, l.resource.key);
    f.Ok? && f.value.index == l.index && f.value.id == l.id
  }

  function Apply(s: State, e: Event): State
    requires Enabled(s, e)
  {
    match e
    case Tick(d) => s.(now := s.now + d)
    case LockCall(req, guid) =>
      var s' := s.(store := CommitLock(s.store, req, guid, s.now));
      (match HandleLock(s.store.table, req, guid)
       case Err(_) => s'
       case Ok((_, l)) => s'.(inflight := s.inflight + multiset{l}))
    case ReleaseCall(r) => s.(store := CommitRelease(s.store, r))
    case HandlerRegister(l) => s.(reg := Reg.Register(s.reg, l), inflight := s.inflight - multiset{l})
    case ScanFetch(locks) => s.(scan := locks)
    case ScanRegister => s.(reg := Reg.Register(s.reg, s.scan[0]), scan := s.scan[1..])
    case StartTimer(c) => To(s, c, Reg.Waiting(s.now + Reg.TimerDuration(LockOf(s, c).ttl)))
    case Fire(c) => To(s, c, Reg.Fired)
    case Cancel(c) => To(s, c, Reg.Done)
    case FetchCheck(c) => To(s, c, if StillCurrent(s.store.table, LockOf(s, c)) then Reg.Matched else Reg.Finishing)
    case FetchFails(c) => To(s, c, Reg.Finishing)
    case ExpiryRelease(c) => To(s, c, Reg.Finishing).(store := CommitRelease(s.store, LockOf(s, c).resource))
    case ReleaseFails(c) => To(s, c, Reg.Finishing)
    case Cleanup(c) => s.(reg := Reg.Cleanup(s.reg, c))
    case Restart => s.(reg := Reg.Empty(s.reg.next), inflight := multiset{}, scan := [])
  }

  /** A finite run: states[i] goes to states[i + 1] by events[i]. */
  datatype Run = Run(states: seq<State>, events: seq<Event>)

  ghost predicate IsRun(r: Run) {
    && |r.states| == |r.events| + 1
    && (forall i {:trigger r.events[i]} :: 0 <= i < |r.events| ==> Enabled(r.states[i], r.events[i]))
    && (forall i {:trigger r.events[i]} :: 0 <= i < |r.events| ==> r.states[i + 1] == Apply(r.states[i], r.events[i]))
  }

  ghost predicate FromStart(r: Run) {
    IsRun(r) && r.states[0] == Init()
  }

  function Last(r: Run): State
    requires r.states != []
  {
    r.states[|r.states| - 1]
  }

  /** Runs are extended one event at a time. */
  lemma Then(r: Run, e: Event) returns (r': Run)
    requires IsRun(r) && Enabled(Last(r), e)
    ensures IsRun(r') && r'.states[0] == r.states[0] && r'.events == r.events + [e]
    ensures Last(r') == Apply(Last(r), e)
  {
    r' := Run(r.states + [Apply(Last(r), e)], r.events + [e]);
    assert forall i :: 0 <= i < |r.events| ==> r'.events[i] == r.events[i];
  }

  /** When the lease of a version is over: its timer, had it been started at the commit. */
  function Deadline(st: Store, v: Version): int
    requires v in st.history
  {
    st.history[v].at + Reg.TimerDuration(st.history[v].ttl)
  }

  ghost predicate CheckerOnTime(s: State, c: nat)
    requires c in s.reg.checkers
  {
    var l := LockOf(s, c);
    && Committed(s.store, l)
    && match s.reg.checkers[c].phase
       case Spawned => true
       case Waiting(dueAt) => dueAt >= Deadline(s.store, VersionOf(l))
       case Done => true
       case _ => s.now >= Deadline(s.store, VersionOf(l))
  }

  ghost predicate TopCommitted(s: State, ck: Reg.CheckKey)
    requires ck in s.reg.top
  {
    Version(ck.key, ck.id, s.reg.top[ck]) in s.store.history
  }

  ghost predicate CheckersOnTime(s: State) {
    forall c {:trigger CheckerOnTime(s, c)} :: c in s.reg.checkers ==> CheckerOnTime(s, c)
  }

  ghost predicate TopsCommitted(s: State) {
    forall ck {:trigger TopCommitted(s, ck)} :: ck in s.reg.top ==> TopCommitted(s, ck)
  }

  ghost predicate SnapshotsCommitted(s: State) {
    && (forall l :: l in s.inflight ==> Committed(s.store, l))
    && (forall l :: l in s.scan ==> Committed(s.store, l))
  }

  ghost predicate Inv(s: State) {
    && Versions.Inv(s.store)
    && NotAhead(s.store, s.now)
    && Reg.Inv(s.reg)
    && CheckersOnTime(s)
    && TopsCommitted(s)
    && SnapshotsCommitted(s)
  }

  lemma InitInv()
    ensures Inv(Init())
  {}

  ghost predicate Extends(st: Store, st': Store) {
    forall v :: v in st.history ==> v in st'.history && st'.history[v] == st.history[v]
  }

  /** Registry facts survive a change of store that only adds versions, and the passing of time. */
  lemma CarryOver(s: State, s': State)
    requires CheckersOnTime(s) && TopsCommitted(s)
    requires Extends(s.store, s'.store) && s.now <= s'.now && s'.reg == s.reg
    ensures CheckersOnTime(s') && TopsCommitted(s')
  {
    forall c | c in s'.reg.checkers ensures CheckerOnTime(s', c) {
      assert CheckerOnTime(s, c);
    }
    forall ck | ck in s'.reg.top ensures TopCommitted(s', ck) {
      assert TopCommitted(s, ck);
    }
  }

  /** A commit adds one version to the history and changes none. */
  lemma LockCallExtends(s: State, req: LockRequest, guid: Option<GoString>)
    requires Versions.Inv(s.store) && Enabled(s, LockCall(req, guid))
    ensures var s' := Apply(s, LockCall(req, guid));
            && Extends(s.store, s'.store)
            && (forall l :: l in s'.inflight ==> l in s.inflight || Committed(s'.store, l))
  {
    if HandleLock(s.store.table, req, guid).Ok? {
      LockMakesNewVersion(s.store, req, guid, s.now);
    }
  }

  lemma LockCallKeepsInv(s: State, req: LockRequest, guid: Option<GoString>)
    requires Inv(s) && Enabled(s, LockCall(req, guid))
    ensures Inv(Apply(s, LockCall(req, guid)))
  {
    LockKeepsInv(s.store, req, guid, s.now);
    LockCallExtends(s, req, guid);
    CarryOver(s, Apply(s, LockCall(req, guid)));
  }

  lemma RegisterKeepsOnTime(s: State, l: DbLock, s': State)
    requires CheckersOnTime(s) && TopsCommitted(s) && Committed(s.store, l)
    requires s'.now == s.now && s'.store == s.store && s'.reg == Reg.Register(s.reg, l)
    ensures CheckersOnTime(s') && TopsCommitted(s')
  {
    forall c | c in s'.reg.checkers ensures CheckerOnTime(s', c) {
      if c in s.reg.checkers {
        assert CheckerOnTime(s, c);
      }
    }
    forall ck | ck in s'.reg.top ensures TopCommitted(s', ck) {
      if ck in s.reg.top {
        assert TopCommitted(s, ck);
      }
    }
  }

  lemma RegisterKeepsInv(s: State, l: DbLock, s': State)
    requires Inv(s) && Committed(s.store, l)
    requires s'.now == s.now && s'.store == s.store && s'.reg == Reg.Register(s.reg, l)
    requires SnapshotsCommitted(s')
    ensures Inv(s')
  {
    Reg.RegisterKeepsInv(s.reg, l);
    RegisterKeepsOnTime(s, l, s');
  }

  /** One checker moves on; the others and the highest indices are as before. */
  lemma OthersStayOnTime(s: State, c: nat, s': State)
    requires CheckersOnTime(s) && TopsCommitted(s)
    requires s'.now == s.now && s'.store.history == s.store.history
    requires s'.reg.top == s.reg.top && c in s'.reg.checkers && s'.reg.checkers - {c} == s.reg.checkers - {c}
    requires CheckerOnTime(s', c)
    ensures CheckersOnTime(s') && TopsCommitted(s')
  {
    forall d | d in s'.reg.checkers ensures CheckerOnTime(s', d) {
      if d != c {
        assert d in s'.reg.checkers - {c};
        assert (s.reg.checkers - {c})[d] == s.reg.checkers[d];
        assert CheckerOnTime(s, d);
      }
    }
    forall ck | ck in s'.reg.top ensures TopCommitted(s', ck) {
      assert TopCommitted(s, ck);
    }
  }

  predicate IsCheckerEvent(e: Event) {
    e.StartTimer? || e.Fire? || e.Cancel? || e.FetchCheck? || e.FetchFails? || e.ExpiryRelease?
    || e.ReleaseFails? || e.Cleanup?
  }

  lemma CheckerEventKeepsOnTime(s: State, e: Event)
    requires CheckersOnTime(s) && TopsCommitted(s) && NotAhead(s.store, s.now)
    requires Enabled(s, e) && IsCheckerEvent(e)
    ensures CheckersOnTime(Apply(s, e)) && TopsCommitted(Apply(s, e))
  {
    assert CheckerOnTime(s, e.c);
    OthersStayOnTime(s, e.c, Apply(s, e));
  }

  lemma CheckerEventKeepsRegistry(s: State, e: Event)
    requires Reg.Inv(s.reg) && Enabled(s, e) && IsCheckerEvent(e)
    ensures Reg.Inv(Apply(s, e).reg)
  {
    if e.Cleanup? {
      Reg.CleanupKeepsInv(s.reg, e.c);
    } else {
      Reg.SetPhaseKeepsInv(s.reg, e.c, Apply(s, e).reg.checkers[e.c].phase);
    }
  }

  lemma CheckerEventKeepsStore(s: State, e: Event)
    requires Versions.Inv(s.store) && NotAhead(s.store, s.now) && SnapshotsCommitted(s)
    requires Enabled(s, e) && IsCheckerEvent(e)
    ensures var s' := Apply(s, e);
            Versions.Inv(s'.store) && NotAhead(s'.store, s'.now) && SnapshotsCommitted(s')
  {
    if e.ExpiryRelease? {
      ReleaseKeepsInv(s.store, LockOf(s, e.c).resource);
    } else {
      assert Apply(s, e).store == s.store;
    }
  }

  lemma CheckerEventKeepsInv(s: State, e: Event)
    requires Inv(s) && Enabled(s, e) && IsCheckerEvent(e)
    ensures Inv(Apply(s, e))
  {
    CheckerEventKeepsOnTime(s, e);
    CheckerEventKeepsRegistry(s, e);
    CheckerEventKeepsStore(s, e);
  }

  lemma ReadLocksAreCommitted(st: Store, locks: seq<DbLock>)
    requires Versions.Inv(st) && ReadFrom(st.table, locks)
    ensures forall l :: l in locks ==> Committed(st, l)
  {
    forall l | l in locks ensures Committed(st, l) {
      assert RowWellFormed(st, l.resource.key);
    }
  }

  /** Events that register nothing and move no checker. */
  lemma OutsideEventKeepsInv(s: State, e: Event)
    requires Inv(s) && Enabled(s, e)
    requires e.Tick? || e.ReleaseCall? || e.ScanFetch? || e.Restart?
    ensures Inv(Apply(s, e))
  {
    var s' := Apply(s, e);
    if e.Restart? {
    } else {
      CarryOver(s, s');
      if e.ReleaseCall? {
        ReleaseKeepsInv(s.store, e.r);
      } else if e.ScanFetch? {
        ReadLocksAreCommitted(s.store, e.locks);
      }
    }
  }

  /** Every event of every actor keeps the invariant. */
  lemma StepKeepsInv(s: State, e: Event)
    requires Inv(s) && Enabled(s, e)
    ensures Inv(Apply(s, e))
  {
    if e.LockCall? {
      LockCallKeepsInv(s, e.req, e.guid);
    } else if e.HandlerRegister? {
      RegisterKeepsInv(s, e.l, Apply(s, e));
    } else if e.ScanRegister? {
      RegisterKeepsInv(s, s.scan[0], Apply(s, e));
    } else if IsCheckerEvent(e) {
      CheckerEventKeepsInv(s, e);
    } else {
      OutsideEventKeepsInv(s, e);
    }
  }

  /** The invariant holds in every state of every run. */
  lemma {:induction false} RunKeepsInv(r: Run, i: nat)
    requires IsRun(r) && Inv(r.states[0]) && i < |r.states|
    ensures Inv(r.states[i])
  {
    if i > 0 {
      RunKeepsInv(r, i - 1);
      StepKeepsInv(r.states[i - 1], r.events[i - 1]);
    }
  }
}
