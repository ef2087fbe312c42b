/**
 The Consul lock runner (lock.go) together with the session it holds its lock through (session.go):
 which losses of the lock Run returns. Errors of the session are read from its channel in the order
 in which they were sent; the select loop reads them whether the lock is held yet or not.
 */
module ConsulClient {
  import opened Models
  import L = ConsulLock
  import S = Session

  /** The acquiring goroutine. */
  datatype Goroutine = Idle | Creating | Locking | Returning(ok: bool)

  datatype State = State(
    run: L.State,
    session: S.Session,    // the current one
    read: nat,             // errors of it that were read
    go: Goroutine)

  const START: State := State(L.START, S.NEW, 0, Creating)

  datatype Event =
    | Signal
    | ConsulError
    | AcquireResult
    | Reemit
    | TimerFires(id: Option<GoString>)    // the new session's id; None: it cannot be created
    | Created(id: Option<GoString>)       // the goroutine's createSession
    | Locked(ok: bool)                    // Consul answers the goroutine
    | Returns                             // the goroutine delivers
    | Within(e: S.Event)                  // the session's renewer and monitor

  predicate IsInner(e: S.Event) {
    e == S.LockLost || e == S.MonitorStops || e.RenewReturns? || e == S.RenewSends
  }

  /** No acquisition is under way or done on the session; always so while its goroutine creates it. */
  predicate IsFree(s: S.Session) {
    !s.acquiring && s.monitor == S.Absent
  }

  predicate Enabled(j: State, e: Event) {
    match e
    case Signal => L.Enabled(j.run, L.Signal)
    case ConsulError => L.Enabled(j.run, L.ConsulError) && j.read < |j.session.sends|
    case AcquireResult => L.Enabled(j.run, L.AcquireResult)
    case Reemit => L.Enabled(j.run, L.Reemit)
    case TimerFires(id) => L.Enabled(j.run, L.TimerFires(id.Some?)) && (id.Some? ==> id.value != [])
    case Created(id) => j.go == Creating && (id.Some? ==> id.value != []) && IsFree(j.session)
    case Locked(_) => j.go == Locking && j.session.acquiring
    case Returns => j.go.Returning? && L.Enabled(j.run, L.AcquireReturns(j.go.ok))
    case Within(e) => IsInner(e) && S.Enabled(j.session, e)
  }

  /** Whether createSession lets the goroutine go on. */
  predicate Usable(s: S.Session) {
    !s.destroyed && s.id != []
  }

  function Step(key: GoString, j: State, e: Event): State
    requires Enabled(j, e)
  {
    match e
    case Signal => j.(run := L.Step(j.run, L.Signal), session := S.Shut(j.session))
    case ConsulError =>
      var run := L.Step(j.run, L.ConsulError);
      j.(run := run, read := j.read + 1,
         session := if run.exit != L.Running then S.Shut(j.session) else j.session)
    case AcquireResult => j.(run := L.Step(j.run, L.AcquireResult))
    case Reemit => j.(run := L.Step(j.run, L.Reemit))
    case TimerFires(id) =>
      var run := L.Step(j.run, L.TimerFires(id.Some?));
      if id.Some? then State(run, S.Create(S.NEW, id.value), 0, Creating) else j.(run := run)
    case Created(id) =>
      var s := S.Step(key, j.session, S.CreateSession(id));
      if Usable(s) then j.(session := S.Step(key, s, S.BeginAcquire), go := Locking)
      else j.(session := s, go := Returning(false))
    case Locked(ok) =>
      var s := S.Step(key, j.session, if ok then S.AcquireSucceeds else S.AcquireFails);
      j.(session := s, go := Returning(ok))
    case Returns => j.(run := L.Step(j.run, L.AcquireReturns(j.go.ok)), go := Idle)
    case Within(e) => j.(session := S.Step(key, j.session, e))
  }

  /** The lock was taken through the current session. */
  predicate Taken(j: State) {
    j.run.held || j.run.results == [true] || j.go == Returning(true)
  }

  predicate InStep(j: State) {
    && j.run.inFlight == (if j.go == Idle then 0 else 1)
    && (j.session.acquiring <==> j.go == Locking)
    && j.read <= |j.session.sends|
    && (j.run.exit != L.Running ==> j.session.destroyed)
  }

  ghost predicate Inv(key: GoString, j: State) {
    && S.Inv(key, j.session) && L.Inv(j.run) && InStep(j)
    && (j.session.monitor != S.Absent <==> Taken(j))
  }

  /** The session's side of a step is a step of the session, or a new session. */
  lemma SessionKeepsInv(key: GoString, j: State, e: Event)
    requires key != [] && Inv(key, j) && Enabled(j, e)
    ensures S.Inv(key, Step(key, j, e).session)
  {
    match e
    case Signal => S.StepKeepsInv(key, j.session, S.Destroy);
    case ConsulError => S.StepKeepsInv(key, j.session, S.Destroy);
    case Created(id) =>
      var s := S.Step(key, j.session, S.CreateSession(id));
      S.StepKeepsInv(key, j.session, S.CreateSession(id));
      if Usable(s) {
        S.StepKeepsInv(key, s, S.BeginAcquire);
      }
    case Locked(ok) => S.StepKeepsInv(key, j.session, if ok then S.AcquireSucceeds else S.AcquireFails);
    case Within(e) => S.StepKeepsInv(key, j.session, e);
    case _ =>
  }

  lemma RunnerKeepsInv(key: GoString, j: State, e: Event)
    requires Inv(key, j) && Enabled(j, e)
    ensures L.Inv(Step(key, j, e).run)
  {}

  lemma StaysInStep(key: GoString, j: State, e: Event)
    requires Inv(key, j) && Enabled(j, e)
    ensures InStep(Step(key, j, e))
  {}

  lemma TakenIsMonitored(key: GoString, j: State, e: Event)
    requires Inv(key, j) && Enabled(j, e)
    ensures Step(key, j, e).session.monitor != S.Absent <==> Taken(Step(key, j, e))
  {
    if e == AcquireResult {
      assert j.run.results == [j.run.results[0]] && j.run.results[1..] == [];
    } else if e == Returns {
      assert j.run.results == [] && [] + [j.go.ok] == [j.go.ok];
    }
  }

  lemma StepKeepsInv(key: GoString, j: State, e: Event)
    requires key != [] && Inv(key, j) && Enabled(j, e)
    ensures Inv(key, Step(key, j, e))
  {
    SessionKeepsInv(key, j, e);
    RunnerKeepsInv(key, j, e);
    TakenIsMonitored(key, j, e);
    StaysInStep(key, j, e);
  }

  function RunFrom(key: GoString, j: State, es: seq<Event>): Option<State>
    decreases |es|
  {
    if es == [] then Some(j)
    else if Enabled(j, es[0]) then RunFrom(key, Step(key, j, es[0]), es[1..])
    else None
  }

  lemma {:induction false} RunKeepsInv(key: GoString, j: State, es: seq<Event>)
    requires key != [] && Inv(key, j) && RunFrom(key, j, es).Some?
    ensures Inv(key, RunFrom(key, j, es).value)
    decreases |es|
  {
    if es != [] {
      StepKeepsInv(key, j, es[0]);
      RunKeepsInv(key, Step(key, j, es[0]), es[1..]);
    }
  }

  /** In every run: a runner that has exited has destroyed its session, at Consul too if it was created
      there, and once. */
  lemma ExitDestroysSession(key: GoString, es: seq<Event>)
    requires key != [] && RunFrom(key, START, es).Some? && RunFrom(key, START, es).value.run.exit != L.Running
    ensures var s := RunFrom(key, START, es).value.session;
            s.destroyed && s.doneCloses == 1 && s.destroys == if s.id != [] then [s.id] else []
  {
    RunKeepsInv(key, START, es);
  }

  /** A retry starts over: a new session with the id that Consul gave it, alive and with no error sent or
      read, on which the goroutine goes on to ask for the lock. */
  lemma RetryStartsOver(key: GoString, j: State, id: GoString)
    requires Inv(key, j) && j.run.exit == L.Running && j.run.armed && id != []
    ensures Enabled(j, TimerFires(Some(id)))
    ensures var j' := Step(key, j, TimerFires(Some(id)));
            && j'.session.id == id && !j'.session.destroyed && j'.session.sends == [] && j'.read == 0
            && j'.session.monitor == S.Absent && j'.session.renewer == S.Renewing && j'.session.lostLock == []
            && forall answer :: Enabled(j', Created(answer)) ==> Step(key, j', Created(answer)).go == Locking
  {}

  /** The goroutine asks for the lock exactly if its session is alive and was or can be created; otherwise
      the acquisition fails at once. The guards of its steps never hold it up. */
  lemma AcquireNeedsLiveSession(key: GoString, j: State, id: Option<GoString>)
    requires Inv(key, j) && (id.Some? ==> id.value != [])
    ensures j.go == Creating ==> Enabled(j, Created(id))
    ensures j.go == Locking ==> Enabled(j, Locked(true)) && Enabled(j, Locked(false))
    ensures j.go == Creating ==>
              var go := Step(key, j, Created(id)).go;
              if !j.session.destroyed && (j.session.id != [] || id.Some?) then go == Locking else go == Returning(false)
  {}

  // ---------------------------------------------------------------- which losses are returned

  /** The errors that the session can still send once it is destroyed. */
  function Outstanding(s: S.Session): nat {
    (if s.renewer != S.Over then 1 else 0) + if s.monitor == S.Watching && s.destroyed then 1 else 0
  }

  /** Every error that the session ever sends was read, and read before the lock was held. */
  predicate Spent(j: State) {
    j.read >= |j.session.sends| + Outstanding(j.session)
  }

  ghost predicate CanReturnLoss(key: GoString, j: State) {
    exists es :: RunFrom(key, j, es).Some? && RunFrom(key, j, es).value.run.exit == L.LockLost
  }

  lemma SpentStep(key: GoString, j: State, e: Event)
    requires key != [] && Inv(key, j) && Enabled(j, e) && j.run.held && Spent(j) && j.run.exit != L.LockLost
    ensures var j' := Step(key, j, e);
            j'.run.held && Spent(j') && j'.run.exit != L.LockLost
  {}

  lemma {:induction false} SpentForever(key: GoString, j: State, es: seq<Event>)
    requires key != [] && Inv(key, j) && j.run.held && Spent(j) && j.run.exit != L.LockLost
    requires RunFrom(key, j, es).Some?
    ensures RunFrom(key, j, es).value.run.exit != L.LockLost
    decreases |es|
  {
    if es != [] {
      StepKeepsInv(key, j, es[0]);
      SpentStep(key, j, es[0]);
      SpentForever(key, Step(key, j, es[0]), es[1..]);
    }
  }

  /** One step, then the rest. */
  lemma ThenReturns(key: GoString, j: State, e: Event)
    requires Enabled(j, e) && CanReturnLoss(key, Step(key, j, e))
    ensures CanReturnLoss(key, j)
  {
    var es :| RunFrom(key, Step(key, j, e), es).Some? && RunFrom(key, Step(key, j, e), es).value.run.exit == L.LockLost;
    assert ([e] + es)[1..] == es;
    assert RunFrom(key, j, [e] + es) == RunFrom(key, Step(key, j, e), es);
  }

  lemma UnreadReturns(key: GoString, j: State)
    requires j.run.held && j.run.exit == L.Running && j.read < |j.session.sends|
    ensures CanReturnLoss(key, j)
  {
    assert RunFrom(key, Step(key, j, ConsulError), []).value.run.exit == L.LockLost;
    ThenReturns(key, j, ConsulError);
  }

  lemma LeavingReturns(key: GoString, j: State)
    requires j.run.held && j.run.exit == L.Running && j.read <= |j.session.sends| && j.session.renewer.Leaving?
    ensures CanReturnLoss(key, j)
  {
    UnreadReturns(key, Step(key, j, Within(S.RenewSends)));
    ThenReturns(key, j, Within(S.RenewSends));
  }

  lemma UnspentReturns(key: GoString, j: State)
    requires Inv(key, j) && j.run.held && j.run.exit == L.Running && !Spent(j)
    ensures CanReturnLoss(key, j)
  {
    if j.read < |j.session.sends| {
      UnreadReturns(key, j);
    } else if j.session.renewer == S.Renewing {
      LeavingReturns(key, Step(key, j, Within(S.RenewReturns(None))));
      ThenReturns(key, j, Within(S.RenewReturns(None)));
    } else if j.session.renewer.Leaving? {
      LeavingReturns(key, j);
    } else {
      UnreadReturns(key, Step(key, j, Within(S.LockLost)));
      ThenReturns(key, j, Within(S.LockLost));
    }
  }

  /** Exactly: a runner that holds its lock can still return the loss of it if and only if the session
      has an error that was not read before the lock was held, sent already or still to come. */
  lemma LossIsReturnedIffUnread(key: GoString, es: seq<Event>)
    requires key != [] && RunFrom(key, START, es).Some?
    requires RunFrom(key, START, es).value.run.held && RunFrom(key, START, es).value.run.exit == L.Running
    ensures CanReturnLoss(key, RunFrom(key, START, es).value) <==> !Spent(RunFrom(key, START, es).value)
  {
    var j := RunFrom(key, START, es).value;
    RunKeepsInv(key, START, es);
    if Spent(j) {
      forall more | RunFrom(key, j, more).Some? ensures RunFrom(key, j, more).value.run.exit != L.LockLost {
        SpentForever(key, j, more);
      }
    } else {
      UnspentReturns(key, j);
    }
  }

  /** The session has an error that was not read before the lock was held, sent already or certain to
      come: the renewer sends one whatever happens, the monitor only if it sees the loss before it
      sees the end of the session. */
  predicate Sure(j: State) {
    j.read < |j.session.sends| + if j.session.renewer != S.Over then 1 else 0
  }

  /** However the run goes on, as long as the runner is running the loss can be returned. */
  ghost predicate NeverGivesUp(key: GoString, j: State) {
    forall es :: RunFrom(key, j, es).Some? && RunFrom(key, j, es).value.run.exit == L.Running ==>
      CanReturnLoss(key, RunFrom(key, j, es).value)
  }

  lemma SureStep(key: GoString, j: State, e: Event)
    requires Inv(key, j) && Enabled(j, e) && j.run.held && Sure(j)
    requires Step(key, j, e).run.exit == L.Running
    ensures j.run.exit == L.Running && Step(key, j, e).run.held && Sure(Step(key, j, e))
  {}

  /** The runner does not come back from an exit. */
  lemma {:induction false} RunningBefore(key: GoString, j: State, es: seq<Event>)
    requires RunFrom(key, j, es).Some? && RunFrom(key, j, es).value.run.exit == L.Running
    ensures j.run.exit == L.Running
    decreases |es|
  {
    if es != [] {
      RunningBefore(key, Step(key, j, es[0]), es[1..]);
    }
  }

  lemma {:induction false} SureForever(key: GoString, j: State, es: seq<Event>)
    requires key != [] && Inv(key, j) && j.run.held && Sure(j)
    requires RunFrom(key, j, es).Some? && RunFrom(key, j, es).value.run.exit == L.Running
    ensures CanReturnLoss(key, RunFrom(key, j, es).value)
    decreases |es|
  {
    if es == [] {
      UnspentReturns(key, j);
    } else {
      RunningBefore(key, Step(key, j, es[0]), es[1..]);
      SureStep(key, j, es[0]);
      StepKeepsInv(key, j, es[0]);
      SureForever(key, Step(key, j, es[0]), es[1..]);
    }
  }

  /** Without a sure error the monitor may see the end of the session first; then no error is left. */
  lemma UnsureGivesUp(key: GoString, j: State) returns (es: seq<Event>)
    requires key != [] && Inv(key, j) && j.run.held && j.run.exit == L.Running && !Sure(j)
    ensures es == (if j.session.monitor == S.Watching then [Within(S.MonitorStops)] else [])
    ensures RunFrom(key, j, es).Some? && RunFrom(key, j, es).value.run.exit == L.Running
    ensures !CanReturnLoss(key, RunFrom(key, j, es).value)
  {
    var j' := j;
    if j.session.monitor == S.Watching {
      es := [Within(S.MonitorStops)];
      j' := Step(key, j, es[0]);
      StepKeepsInv(key, j, es[0]);
      assert es[1..] == [] && RunFrom(key, j', []) == Some(j');
    } else {
      es := [];
    }
    forall more | RunFrom(key, j', more).Some? ensures RunFrom(key, j', more).value.run.exit != L.LockLost {
      SpentForever(key, j', more);
    }
  }

  /** Exactly: the loss of the lock can be returned for as long as the runner runs, whatever happens,
      if and only if the session has a sure error. */
  lemma LossIsNeverGivenUpIffSure(key: GoString, es: seq<Event>)
    requires key != [] && RunFrom(key, START, es).Some?
    requires RunFrom(key, START, es).value.run.held && RunFrom(key, START, es).value.run.exit == L.Running
    ensures NeverGivesUp(key, RunFrom(key, START, es).value) <==> Sure(RunFrom(key, START, es).value)
  {
    var j := RunFrom(key, START, es).value;
    RunKeepsInv(key, START, es);
    if Sure(j) {
      forall more | RunFrom(key, j, more).Some? && RunFrom(key, j, more).value.run.exit == L.Running
        ensures CanReturnLoss(key, RunFrom(key, j, more).value)
      {
        SureForever(key, j, more);
      }
    } else {
      var more := UnsureGivesUp(key, j);
      assert !CanReturnLoss(key, RunFrom(key, j, more).value);
    }
  }

  /** In particular if no error of the session was read before the lock was held: nothing but the exit
      of the runner takes the return of the loss away. */
  lemma UnreadSessionReturnsLoss(key: GoString, es: seq<Event>)
    requires key != [] && RunFrom(key, START, es).Some?
    requires RunFrom(key, START, es).value.run.held && RunFrom(key, START, es).value.run.exit == L.Running
    requires RunFrom(key, START, es).value.read == 0
    ensures NeverGivesUp(key, RunFrom(key, START, es).value)
  {
    RunKeepsInv(key, START, es);
    LossIsNeverGivenUpIffSure(key, es);
  }

  lemma {:induction false} Onward(key: GoString, j: State, es: seq<Event>, e: Event)
    requires RunFrom(key, j, es).Some? && Enabled(RunFrom(key, j, es).value, e)
    ensures RunFrom(key, j, es + [e]) == Some(Step(key, RunFrom(key, j, es).value, e))
    decreases |es|
  {
    if es == [] {
      assert [e][1..] == [];
    } else {
      assert (es + [e])[1..] == es[1..] + [e];
      Onward(key, Step(key, j, es[0]), es[1..], e);
    }
  }

  const ID: GoString := [1]

  /** The goroutine takes the lock and has not delivered yet. */
  lemma TakeLock(key: GoString) returns (es: seq<Event>)
    ensures var s := S.NEW.(id := ID, renewer := S.Renewing, monitor := S.Watching);
            RunFrom(key, START, es) == Some(State(L.START, s, 0, Returning(true)))
  {
    es := [Created(Some(ID))];
    Onward(key, START, [], es[0]);
    assert [] + es == es;
    Onward(key, START, es, Locked(true));
    es := es + [Locked(true)];
  }

  /** Meanwhile the lock is lost, and the renewer reports it. */
  lemma LoseLock(key: GoString) returns (es: seq<Event>)
    requires key != []
    ensures RunFrom(key, START, es).Some?
    ensures var j := RunFrom(key, START, es).value;
            && j.run == L.START && j.read == 0 && j.go == Returning(true) && j.session.monitor == S.Gone(true)
            && j.session.renewer == S.Over && |j.session.sends| == 1
  {
    es := TakeLock(key);
    Onward(key, START, es, Within(S.LockLost));
    es := es + [Within(S.LockLost)];
    Onward(key, START, es, Within(S.RenewReturns(None)));
    es := es + [Within(S.RenewReturns(None))];
    Onward(key, START, es, Within(S.RenewSends));
    es := es + [Within(S.RenewSends)];
  }

  /** A loss that is never returned: the lock is lost before the result of its acquisition is read, and
      the select reads the error first. The runner then closes ready and holds on to a lost lock. */
  lemma LossCanBeDropped(key: GoString) returns (es: seq<Event>)
    requires key != []
    ensures RunFrom(key, START, es).Some?
    ensures var j := RunFrom(key, START, es).value;
            && j.run.held && j.run.readyCloses == 1 && j.run.exit == L.Running
            && j.session.monitor == S.Gone(true) && !CanReturnLoss(key, j)
  {
    es := LoseLock(key);
    Onward(key, START, es, Returns);
    es := es + [Returns];
    Onward(key, START, es, ConsulError);
    es := es + [ConsulError];
    Onward(key, START, es, AcquireResult);
    es := es + [AcquireResult];
    LossIsReturnedIffUnread(key, es);
  }

  /** The session ends before the result of the acquisition is read: its renewal stops, the renewer's
      error is read first, and the lock is held through a session that is gone. */
  lemma HoldThroughDeadSession(key: GoString) returns (es: seq<Event>)
    requires key != []
    ensures RunFrom(key, START, es).Some?
    ensures var j := RunFrom(key, START, es).value;
            && j.run.held && j.run.readyCloses == 1 && j.run.exit == L.Running
            && j.session.destroyed && j.session.monitor == S.Watching && !Spent(j) && !Sure(j)
  {
    es := TakeLock(key);
    Onward(key, START, es, Within(S.RenewReturns(None)));
    es := es + [Within(S.RenewReturns(None))];
    Onward(key, START, es, Within(S.RenewSends));
    es := es + [Within(S.RenewSends)];
    Onward(key, START, es, Returns);
    es := es + [Returns];
    Onward(key, START, es, ConsulError);
    es := es + [ConsulError];
    Onward(key, START, es, AcquireResult);
    es := es + [AcquireResult];
  }

  /** A loss that can still be returned and then no more: the monitor sees the end of the session
      first, and stops without an error. */
  lemma LossCanBeGivenUp(key: GoString) returns (es: seq<Event>)
    requires key != []
    ensures RunFrom(key, START, es).Some?
    ensures var j := RunFrom(key, START, es).value;
            && j.run.held && j.run.readyCloses == 1 && j.run.exit == L.Running && j.session.destroyed
            && CanReturnLoss(key, j)
            && Enabled(j, Within(S.MonitorStops)) && !CanReturnLoss(key, Step(key, j, Within(S.MonitorStops)))
  {
    es := HoldThroughDeadSession(key);
    var j := RunFrom(key, START, es).value;
    RunKeepsInv(key, START, es);
    LossIsReturnedIffUnread(key, es);
    var more := UnsureGivesUp(key, j);
    var j' := Step(key, j, Within(S.MonitorStops));
    assert more[1..] == [] && RunFrom(key, j', []) == Some(j');
  }
}
