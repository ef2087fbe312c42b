/**
 A Consul session with its renewing goroutine and the monitor of one acquired lock (session.go).
 Each event is one critical section under the session's mutex, or a send on the error channel; what
 Consul answers is part of the event.
 */
module Session {
  import opened Models

  datatype Failure = Nil | InvalidSession | LostLock(key: GoString) | Consul(text: GoString)

  predicate Contains(text: GoString, part: GoString) {
    exists i :: 0 <= i <= |text| && part <= text[i..]
  }

  // "500 (Invalid session)"
  const INVALID_SESSION: GoString :=
    [53, 48, 48, 32, 40, 73, 110, 118, 97, 108, 105, 100, 32, 115, 101, 115, 115, 105, 111, 110, 41]

  /** convertError, on an error text or no error. */
  function ConvertError(e: Option<GoString>): Failure {
    if e.None? then Nil
    else if Contains(e.value, INVALID_SESSION) then InvalidSession
    else Consul(e.value)
  }

  datatype Renewer =
    | NotStarted
    | Renewing                                         // in RenewPeriodic
    | Leaving(lostLock: GoString, e: Option<GoString>) // past the critical section, send to come
    | Over

  datatype Monitor = Absent | Watching | Gone(lost: bool)

  datatype Session = Session(
    id: GoString,
    destroyed: bool,
    doneCloses: nat,            // times doneCh was closed; a second close panics
    lostLock: GoString,
    sends: seq<Failure>,        // sends issued on errCh
    destroys: seq<GoString>,    // session ids destroyed at Consul
    renewer: Renewer,
    monitor: Monitor,
    acquiring: bool)            // AcquireLock is waiting for Consul

  const NEW: Session := Session([], false, 0, [], [], [], NotStarted, Absent, false)

  /** destroy, with the mutex held. */
  function Shut(s: Session): Session {
    if s.destroyed then s
    else s.(doneCloses := s.doneCloses + 1,
            destroys := if s.id != [] then s.destroys + [s.id] else s.destroys,
            destroyed := true)
  }

  /** createSession, with the mutex held; `id` is what Consul would answer. */
  function Create(s: Session, id: GoString): Session {
    if s.destroyed || s.id != [] then s else s.(id := id, renewer := Renewing)
  }

  datatype Event =
    | Destroy
    | CreateSession(id: Option<GoString>)   // Recreate, or the start of AcquireLock; None: Consul fails
    | BeginAcquire
    | AcquireFails
    | AcquireSucceeds                       // the monitor starts
    | LockLost                              // the monitor sees lostCh
    | MonitorStops                          // the monitor sees doneCh
    | RenewReturns(e: Option<GoString>)
    | RenewSends

  predicate Enabled(s: Session, e: Event) {
    match e
    case Destroy => true
    case CreateSession(id) => id.Some? ==> id.value != []
    case BeginAcquire => s.id != [] && !s.acquiring && s.monitor == Absent
    case AcquireFails => s.acquiring
    case AcquireSucceeds => s.acquiring
    case LockLost => s.monitor == Watching
    case MonitorStops => s.monitor == Watching && s.doneCloses > 0
    case RenewReturns(_) => s.renewer == Renewing
    case RenewSends => s.renewer.Leaving?
  }

  function Step(key: GoString, s: Session, e: Event): Session
    requires Enabled(s, e)
  {
    match e
    case Destroy => Shut(s)
    case CreateSession(id) => if id.Some? then Create(s, id.value) else s
    case BeginAcquire => s.(acquiring := true)
    case AcquireFails => s.(acquiring := false)
    case AcquireSucceeds => s.(acquiring := false, monitor := Watching)
    case LockLost =>
      if s.destroyed then s.(sends := s.sends + [LostLock(key)], monitor := Gone(true))
      else Shut(s.(lostLock := key)).(monitor := Gone(true))
    case MonitorStops => s.(monitor := Gone(false))
    case RenewReturns(err) => Shut(s).(renewer := Leaving(s.lostLock, err))
    case RenewSends =>
      var l, err := s.renewer.lostLock, s.renewer.e;
      s.(sends := s.sends + [if l != [] then LostLock(l) else ConvertError(err)], renewer := Over)
  }

  function LostSends(sends: seq<Failure>): nat {
    if sends == [] then 0
    else LostSends(sends[..|sends| - 1]) + if sends[|sends| - 1].LostLock? then 1 else 0
  }

  /** Whether the report of the loss is still to come from the renewer. */
  function Owed(s: Session): nat {
    if s.lostLock != [] && s.renewer != Over then 1 else 0
  }

  ghost predicate Inv(key: GoString, s: Session) {
    && s.doneCloses == (if s.destroyed then 1 else 0)
    && s.destroys == (if s.destroyed && s.id != [] then [s.id] else [])
    && (s.id == [] <==> s.renewer == NotStarted)
    && (s.id == [] ==> s.monitor == Absent && !s.acquiring)
    && (s.acquiring ==> s.monitor == Absent)
    && (s.renewer.Leaving? || s.renewer == Over ==> s.destroyed)
    && (s.renewer.Leaving? ==> s.renewer.lostLock == s.lostLock)
    && (s.lostLock != [] ==> s.lostLock == key && s.destroyed && s.monitor == Gone(true))
    && LostSends(s.sends) + Owed(s) == (if s.monitor == Gone(true) then 1 else 0)
    && |s.sends| == (if s.renewer == Over then 1 else 0)
                    + (if s.monitor == Gone(true) && s.lostLock == [] then 1 else 0)
  }

  lemma LostSendsPush(sends: seq<Failure>, f: Failure)
    ensures LostSends(sends + [f]) == LostSends(sends) + if f.LostLock? then 1 else 0
  {
    assert (sends + [f])[..|sends|] == sends;
  }

  lemma RenewSendsKeepsInv(key: GoString, s: Session)
    requires Inv(key, s) && Enabled(s, RenewSends)
    ensures Inv(key, Step(key, s, RenewSends))
  {
    var f := if s.renewer.lostLock != [] then LostLock(s.renewer.lostLock) else ConvertError(s.renewer.e);
    LostSendsPush(s.sends, f);
  }

  lemma LockLostKeepsInv(key: GoString, s: Session)
    requires key != [] && Inv(key, s) && Enabled(s, LockLost)
    ensures Inv(key, Step(key, s, LockLost))
  {
    LostSendsPush(s.sends, LostLock(key));
  }

  /** The other events send nothing. */
  lemma QuietStepKeepsInv(key: GoString, s: Session, e: Event)
    requires Inv(key, s) && Enabled(s, e) && e != LockLost && e != RenewSends
    ensures Inv(key, Step(key, s, e))
  {
    var s' := Step(key, s, e);
    assert s'.sends == s.sends && s'.lostLock == s.lostLock;
    assert Owed(s') == Owed(s) && (s'.monitor == Gone(true) <==> s.monitor == Gone(true));
  }

  lemma StepKeepsInv(key: GoString, s: Session, e: Event)
    requires key != [] && Inv(key, s) && Enabled(s, e)
    ensures Inv(key, Step(key, s, e))
  {
    if e == LockLost {
      LockLostKeepsInv(key, s);
    } else if e == RenewSends {
      RenewSendsKeepsInv(key, s);
    } else {
      QuietStepKeepsInv(key, s, e);
    }
  }

  function RunFrom(key: GoString, s: Session, es: seq<Event>): Option<Session>
    decreases |es|
  {
    if es == [] then Some(s)
    else if Enabled(s, es[0]) then RunFrom(key, Step(key, s, es[0]), es[1..])
    else None
  }

  lemma {:induction false} RunKeepsInv(key: GoString, s: Session, es: seq<Event>)
    requires key != [] && Inv(key, s) && RunFrom(key, s, es).Some?
    ensures Inv(key, RunFrom(key, s, es).value)
    ensures s.id != [] ==> RunFrom(key, s, es).value.id == s.id
    ensures s.destroyed ==> RunFrom(key, s, es).value.destroyed
    decreases |es|
  {
    if es != [] {
      StepKeepsInv(key, s, es[0]);
      RunKeepsInv(key, Step(key, s, es[0]), es[1..]);
    }
  }

  /** Over every interleaving of Destroy, session creation, the renewer and the monitor: the done
      channel is closed exactly when the session is destroyed and never twice, a session that Consul
      created is destroyed there once, and a loss of the lock is reported at most once, only if the
      monitor saw one, and exactly once when the renewer is through. No more than two sends are
      issued in all. */
  lemma SessionOverRuns(key: GoString, es: seq<Event>)
    requires key != [] && RunFrom(key, NEW, es).Some?
    ensures var s := RunFrom(key, NEW, es).value;
            && s.doneCloses == (if s.destroyed then 1 else 0)
            && s.destroys == (if s.destroyed && s.id != [] then [s.id] else [])
            && LostSends(s.sends) <= (if s.monitor == Gone(true) then 1 else 0)
            && (s.monitor == Gone(true) && s.renewer == Over ==> LostSends(s.sends) == 1)
            && |s.sends| <= 2
  {
    RunKeepsInv(key, NEW, es);
  }

  /** Once set, the session id never changes. */
  lemma {:induction false} IdIsWriteOnce(key: GoString, es: seq<Event>, more: seq<Event>)
    requires key != [] && RunFrom(key, NEW, es).Some? && RunFrom(key, RunFrom(key, NEW, es).value, more).Some?
    requires RunFrom(key, NEW, es).value.id != []
    ensures RunFrom(key, RunFrom(key, NEW, es).value, more).value.id == RunFrom(key, NEW, es).value.id
  {
    RunKeepsInv(key, NEW, es);
    RunKeepsInv(key, RunFrom(key, NEW, es).value, more);
  }

  /** A loss that the renewer owes a report of is reported by the renewer's own remaining steps,
      whatever the renewal returns. */
  lemma OwedReportIsSent(key: GoString, s: Session, e: Option<GoString>)
    requires key != [] && Inv(key, s) && s.monitor == Gone(true) && LostSends(s.sends) == 0
    ensures s.renewer == Renewing || s.renewer.Leaving?
    ensures var es := if s.renewer == Renewing then [RenewReturns(e), RenewSends] else [RenewSends];
            && RunFrom(key, s, es).Some?
            && RunFrom(key, s, es).value.sends == s.sends + [LostLock(key)]
  {
    if s.renewer == Renewing {
      var s1 := Step(key, s, RenewReturns(e));
      var es := [RenewReturns(e), RenewSends];
      assert es[1..] == [RenewSends];
      assert RunFrom(key, s1, [RenewSends]) == Some(Step(key, s1, RenewSends));
    } else {
      assert RunFrom(key, s, [RenewSends]) == Some(Step(key, s, RenewSends));
    }
  }

  lemma InvalidSessionText()
    ensures INVALID_SESSION == Text("500 (Invalid session)")
  {
    var t := Text("500 (Invalid session)");
    assert |t| == |INVALID_SESSION|;
    forall i | 0 <= i < |t| ensures t[i] == INVALID_SESSION[i] {
      assert t[i] == "500 (Invalid session)"[i] as int;
    }
  }

  /** Destroying closes the done channel and destroys the session at Consul, if it was created there; doing
      it again does nothing. */
  lemma DestroyEnds(key: GoString, s: Session)
    requires Inv(key, s)
    ensures var s' := Step(key, s, Destroy);
            && s'.destroyed && s'.doneCloses == 1 && s'.destroys == (if s.id != [] then [s.id] else [])
            && s' == s.(destroyed := true, doneCloses := s'.doneCloses, destroys := s'.destroys)
            && Step(key, s', Destroy) == s'
  {}

  /** What the renewer sends at its end if no loss was recorded: nothing but the error of the renewal,
      told apart by its text. Either way the session is destroyed. */
  lemma RenewerReports(key: GoString, s: Session, e: Option<GoString>)
    requires s.renewer == Renewing
    ensures var s1 := Step(key, s, RenewReturns(e));
            && Enabled(s1, RenewSends)
            && var s2 := Step(key, s1, RenewSends);
               && s2.renewer == Over && s2.destroyed && |s2.sends| == |s.sends| + 1 && s.sends <= s2.sends
               && var f := s2.sends[|s.sends|];
                  && (s.lostLock != [] ==> f == LostLock(s.lostLock))
                  && (s.lostLock == [] ==>
                        && (f == Nil <==> e == None)
                        && (f == InvalidSession <==>
                              && e.Some?
                              && exists i :: 0 <= i <= |e.value| && Text("500 (Invalid session)") <= e.value[i..])
                        && (f != Nil && f != InvalidSession ==> f == Consul(e.value)))
  {
    InvalidSessionText();
  }

  /** What the monitor does when it sees the loss. On a live session it sends nothing, destroys the
      session and leaves the report to the renewer; on a destroyed one it sends the report itself. */
  lemma MonitorReports(key: GoString, s: Session)
    requires key != [] && Inv(key, s) && s.monitor == Watching
    ensures var s' := Step(key, s, LockLost);
            && s'.monitor == Gone(true) && s'.destroyed && s'.id == s.id && s'.renewer == s.renewer
            && (s.destroyed ==> s'.sends == s.sends + [LostLock(key)])
            && (!s.destroyed ==> s'.sends == s.sends && LostSends(s'.sends) == 0
                                 && s'.doneCloses == s.doneCloses + 1 && s'.destroys == s.destroys + [s.id])
  {
    StepKeepsInv(key, s, LockLost);
  }

  /** A session's life with a loss, step by step. */
  lemma LossIsPossible(key: GoString, id: GoString, e: Option<GoString>) returns (es: seq<Event>)
    requires key != [] && id != []
    ensures es == [CreateSession(Some(id)), BeginAcquire, AcquireSucceeds, LockLost, RenewReturns(e), RenewSends]
    ensures RunFrom(key, NEW, es).Some?
    ensures var s := RunFrom(key, NEW, es).value;
            && s.id == id && s.sends == [LostLock(key)] && s.destroys == [id] && s.doneCloses == 1
            && s.renewer == Over && s.monitor == Gone(true)
  {
    es := [CreateSession(Some(id)), BeginAcquire, AcquireSucceeds, LockLost, RenewReturns(e), RenewSends];
    var s3 := NEW.(id := id, renewer := Renewing, monitor := Watching);
    var s4 := Step(key, s3, LockLost);
    var s5 := Step(key, s4, RenewReturns(e));
    assert RunFrom(key, s5, es[5..]) == Some(Step(key, s5, RenewSends));
    assert RunFrom(key, s4, es[4..]) == RunFrom(key, s5, es[4..][1..]);
    assert RunFrom(key, s3, es[3..]) == RunFrom(key, s4, es[3..][1..]);
    AcquireSteps(key, id, es);
  }

  /** The session is created, and the lock acquired. */
  lemma AcquireSteps(key: GoString, id: GoString, es: seq<Event>)
    requires id != [] && |es| >= 3
    requires es[0] == CreateSession(Some(id)) && es[1] == BeginAcquire && es[2] == AcquireSucceeds
    ensures RunFrom(key, NEW, es) == RunFrom(key, NEW.(id := id, renewer := Renewing, monitor := Watching), es[3..])
  {
    var s1 := NEW.(id := id, renewer := Renewing);
    assert RunFrom(key, NEW, es) == RunFrom(key, s1, es[1..]);
    var s2 := s1.(acquiring := true);
    assert es[1..][1..] == es[2..] && es[2..][1..] == es[3..];
    assert RunFrom(key, s1, es[1..]) == RunFrom(key, s2, es[2..]);
  }

  /** The session object; each method is one critical section. */
  class SessionObject {
    var id: GoString
    var destroyed: bool
    var doneCloses: nat
    var lostLock: GoString
    var sends: seq<Failure>
    var destroys: seq<GoString>
    ghost var renewer: Renewer
    ghost var monitor: Monitor
    ghost var acquiring: bool

    ghost function View(): Session
      reads this
    {
      Session(id, destroyed, doneCloses, lostLock, sends, destroys, renewer, monitor, acquiring)
    }

    constructor ()
      ensures View() == NEW
    {
      id, destroyed, doneCloses, lostLock, sends, destroys := [], false, 0, [], [], [];
      renewer, monitor, acquiring := NotStarted, Absent, false;
    }

    method Destroy(ghost key: GoString)
      modifies this
      ensures View() == Step(key, old(View()), Event.Destroy)
    {
      if destroyed == false {
        doneCloses := doneCloses + 1;
        if id != [] {
          destroys := destroys + [id];
        }
        destroyed := true;
      }
    }

    /** Reports whether the session can be used. */
    method CreateSession(answer: Option<GoString>, ghost key: GoString) returns (ok: bool)
      requires Enabled(View(), Event.CreateSession(answer))
      modifies this
      ensures View() == Step(key, old(View()), Event.CreateSession(answer))
      ensures ok <==> !destroyed && id != []
    {
      if destroyed {
        return false;
      }
      if id != [] {
        return true;
      }
      if answer.None? {
        return false;
      }
      id := answer.value;
      renewer := Renewing;
      ok := true;
    }

    /** The monitor's branch for a lost lock. */
    method OnLostLock(key: GoString)
      requires Enabled(View(), LockLost)
      modifies this
      ensures View() == Step(key, old(View()), LockLost)
    {
      if destroyed {
        sends := sends + [LostLock(key)];
        monitor := Gone(true);
        return;
      }
      lostLock := key;
      Destroy(key);
      monitor := Gone(true);
    }

    /** The renewing goroutine after RenewPeriodic has returned: critical section, then the send. */
    method OnRenewReturned(e: Option<GoString>, ghost key: GoString)
      requires Enabled(View(), RenewReturns(e))
      modifies this
      ensures View() == Step(key, Step(key, old(View()), RenewReturns(e)), RenewSends)
    {
      var lost := lostLock;
      Destroy(key);
      renewer := Leaving(lost, e);
      if lost != [] {
        sends := sends + [LostLock(lost)];
      } else {
        sends := sends + [ConvertError(e)];
      }
      renewer := Over;
    }
  }
}
