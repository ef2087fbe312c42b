/**
 The Consul lock runner (lock.go): a select loop around one acquisition at a time. An acquisition
 runs in a goroutine of its own and leaves its result in a channel of capacity one. What can happen
 next is decided by the channels alone: a select branch is open when its channel can deliver.
 */
module ConsulLock {
  import opened Models

  datatype Exit = Running | Signalled | LockLost

  datatype State = State(
    inFlight: nat,         // acquiring goroutines that have not delivered
    results: seq<bool>,    // delivered to the result channel, not read yet
    armed: bool,           // the retry timer channel is not nil
    reemit: bool,          // the metrics timer channel is not nil
    held: bool,            // ready is nil
    readyCloses: nat,      // a second close, or closing nil, would panic
    exit: Exit)

  const CAPACITY: nat := 1

  /** Run starts the first acquisition before it enters the loop. */
  const START: State := State(1, [], false, false, false, 0, Running)

  datatype Event =
    | Signal
    | ConsulError                   // from the session's error channel
    | AcquireReturns(ok: bool)      // the goroutine delivers its result
    | AcquireResult
    | Reemit
    | TimerFires(recreated: bool)

  predicate Enabled(s: State, e: Event) {
    match e
    case AcquireReturns(_) => s.inFlight > 0 && |s.results| < CAPACITY
    case Signal => s.exit == Running
    case ConsulError => s.exit == Running
    case AcquireResult => s.exit == Running && s.results != []
    case Reemit => s.exit == Running && s.reemit
    case TimerFires(_) => s.exit == Running && s.armed
  }

  function Step(s: State, e: Event): State
    requires Enabled(s, e)
  {
    match e
    case AcquireReturns(ok) => s.(inFlight := s.inFlight - 1, results := s.results + [ok])
    case Signal => s.(exit := Signalled)
    case ConsulError => if s.held then s.(exit := LockLost) else s
    case AcquireResult =>
      var s' := s.(results := s.results[1..]);
      if s.results[0]
      then s'.(reemit := true, readyCloses := s.readyCloses + 1, held := true, armed := false)
      else s'.(armed := true)
    case Reemit => s
    case TimerFires(recreated) => if recreated then s.(armed := false, inFlight := s.inFlight + 1) else s
  }

  /** How many things are going on: acquisitions, unread results, the retry timer, the lock held. */
  function Activities(s: State): nat {
    s.inFlight + |s.results| + (if s.armed then 1 else 0) + if s.held then 1 else 0
  }

  predicate Inv(s: State) {
    && Activities(s) == 1
    && s.readyCloses == (if s.held then 1 else 0)
    && s.reemit == s.held
    && (s.exit == LockLost ==> s.held)
  }

  lemma StepKeepsInv(s: State, e: Event)
    requires Inv(s) && Enabled(s, e)
    ensures Inv(Step(s, e))
  {}

  function RunFrom(s: State, es: seq<Event>): Option<State>
    decreases |es|
  {
    if es == [] then Some(s)
    else if Enabled(s, es[0]) then RunFrom(Step(s, es[0]), es[1..])
    else None
  }

  lemma {:induction false} RunKeepsInv(s: State, es: seq<Event>)
    requires Inv(s) && RunFrom(s, es).Some?
    ensures Inv(RunFrom(s, es).value)
    ensures s.held ==> RunFrom(s, es).value.held
    decreases |es|
  {
    if es != [] {
      StepKeepsInv(s, es[0]);
      RunKeepsInv(Step(s, es[0]), es[1..]);
    }
  }

  /** Over every run of the loop and its goroutines: exactly one thing is going on, so no goroutine
      ever waits for room in the result channel; ready is closed at most once and exactly when the
      lock was taken; the loss of the lock is reported only after that. */
  lemma OneActivity(es: seq<Event>)
    requires RunFrom(START, es).Some?
    ensures var s := RunFrom(START, es).value;
            && Activities(s) == 1
            && (s.inFlight > 0 ==> |s.results| < CAPACITY)
            && s.readyCloses <= 1
            && (s.readyCloses == 1 <==> s.held)
            && (s.exit == LockLost ==> s.readyCloses == 1)
  {
    RunKeepsInv(START, es);
  }

  /** Once taken, the lock is never acquired again: no acquisition, retry or second close follows. */
  lemma HeldIsFinal(es: seq<Event>, more: seq<Event>)
    requires RunFrom(START, es).Some? && RunFrom(START, es).value.held
    requires RunFrom(RunFrom(START, es).value, more).Some?
    ensures forall e :: e in more ==> e == Signal || e == ConsulError || e == Reemit
  {
    RunKeepsInv(START, es);
    HeldOnlyReemits(RunFrom(START, es).value, more);
  }

  lemma {:induction false} HeldOnlyReemits(s: State, es: seq<Event>)
    requires Inv(s) && s.held && RunFrom(s, es).Some?
    ensures forall e :: e in es ==> e == Signal || e == ConsulError || e == Reemit
    decreases |es|
  {
    if es != [] {
      StepKeepsInv(s, es[0]);
      HeldOnlyReemits(Step(s, es[0]), es[1..]);
      assert es == [es[0]] + es[1..];
    }
  }

  function Count(es: seq<Event>, p: Event -> bool): nat {
    if es == [] then 0 else Count(es[1..], p) + if p(es[0]) then 1 else 0
  }

  function Bit(b: bool): nat {
    if b then 1 else 0
  }

  /** What comes in goes out again, from any state on: every goroutine started delivers once, every
      result delivered is read once, and every result read is the lock taken, or a retry timer that is
      armed until a retry starts the next goroutine. */
  lemma {:induction false} Conservation(s: State, es: seq<Event>)
    requires Inv(s) && RunFrom(s, es).Some?
    ensures var s' := RunFrom(s, es).value;
            var delivered := Count(es, (e: Event) => e.AcquireReturns?);
            var seen := Count(es, (e: Event) => e == AcquireResult);
            var retries := Count(es, (e: Event) => e == TimerFires(true));
            && s'.inFlight + delivered == s.inFlight + retries
            && |s'.results| + seen == |s.results| + delivered
            && Bit(s'.armed) + Bit(s'.held) + retries == Bit(s.armed) + Bit(s.held) + seen
    decreases |es|
  {
    if es != [] {
      StepKeepsInv(s, es[0]);
      Conservation(Step(s, es[0]), es[1..]);
    }
  }

  /** The lock is taken through a goroutine that got it, and only then. */
  lemma {:induction false} TakenIffAcquired(s: State, es: seq<Event>)
    requires Inv(s) && RunFrom(s, es).Some?
    ensures var s' := RunFrom(s, es).value;
            s'.held || true in s'.results <==> s.held || true in s.results || AcquireReturns(true) in es
    decreases |es|
  {
    if es != [] {
      StepKeepsInv(s, es[0]);
      TakenIffAcquired(Step(s, es[0]), es[1..]);
      assert es == [es[0]] + es[1..];
    }
  }

  /** What ends the loop: a signal, or an error of the session with the lock held, and nothing else; then
      it takes no further part. Errors without the lock leave everything as it is. */
  lemma ExitExact(s: State, e: Event)
    requires Inv(s) && Enabled(s, e)
    ensures var s' := Step(s, e);
            && (s'.exit == Signalled <==> s.exit == Signalled || e == Signal)
            && (s'.exit == LockLost <==> s.exit == LockLost || (e == ConsulError && s.held))
            && (e == ConsulError && !s.held ==> s' == s)
    ensures s.exit != Running ==> e.AcquireReturns?
  {}

  /** Which branches of the select are open while the loop runs: signal and error always, the result when
      there is one, the metrics timer while the lock is held, the retry timer while it is armed. */
  lemma BranchesOpen(s: State, ok: bool)
    requires Inv(s) && s.exit == Running
    ensures Enabled(s, Signal) && Enabled(s, ConsulError)
    ensures Enabled(s, AcquireResult) <==> s.results != []
    ensures Enabled(s, Reemit) <==> s.held
    ensures Enabled(s, TimerFires(ok)) <==> s.armed
    ensures Enabled(s, AcquireReturns(ok)) <==> s.inFlight > 0
  {}

  /** The runner's variables and channels. */
  class Lock {
    var inFlight: nat
    var results: seq<bool>
    var armed: bool
    var reemit: bool
    var held: bool
    var readyCloses: nat
    var exit: Exit

    function View(): State
      reads this
    {
      State(inFlight, results, armed, reemit, held, readyCloses, exit)
    }

    constructor ()
      ensures View() == START
    {
      inFlight, results, armed, reemit, held, readyCloses, exit := 1, [], false, false, false, 0, Running;
    }

    /** The acquiring goroutine delivers. */
    method Deliver(ok: bool)
      requires Enabled(View(), AcquireReturns(ok))
      modifies this
      ensures View() == Step(old(View()), AcquireReturns(ok))
    {
      inFlight := inFlight - 1;
      results := results + [ok];
    }

    /** One turn of the loop. */
    method Select(e: Event)
      requires Enabled(View(), e) && !e.AcquireReturns?
      modifies this
      ensures View() == Step(old(View()), e)
    {
      match e
      case Signal =>
        exit := Signalled;
      case ConsulError =>
        if held {
          exit := LockLost;
        }
      case AcquireResult =>
        var ok := results[0];
        results := results[1..];
        if !ok {
          armed := true;
          return;
        }
        reemit := true;
        readyCloses := readyCloses + 1;
        held := true;
        armed := false;
      case Reemit =>
        reemit := true;
      case TimerFires(recreated) =>
        if !recreated {
          armed := true;
        } else {
          armed := false;
          inFlight := inFlight + 1;
        }
    }

    /** The whole loop, with its goroutines, over any events that the channels admit. */
    method Run(es: seq<Event>)
      requires View() == START && RunFrom(START, es).Some?
      modifies this
      ensures RunFrom(START, es) == Some(View())
      ensures Activities(View()) == 1 && readyCloses == (if held then 1 else 0)
    {
      var n := 0;
      assert es[0..] == es;
      while n < |es|
        invariant 0 <= n <= |es|
        invariant RunFrom(START, es) == RunFrom(View(), es[n..])
      {
        assert es[n..][0] == es[n] && es[n..][1..] == es[n + 1..];
        if es[n].AcquireReturns? {
          Deliver(es[n].ok);
        } else {
          Select(es[n]);
        }
        n := n + 1;
      }
      OneActivity(es);
    }
  }
}
