/**
 The objects that carry out the protocol's steps: lockPick and its registry
 (expiration/lock_pick.go), the burglar (expiration/burglar.go) and the request handlers
 (handlers/handler.go). Each method is one or several steps run without interruption.
 */
module LockPick {
  import opened Models
  import opened LockTable
  import opened R = Registry
  import Versions
  import Protocol

  /** The table after a check of `l` that nobody interferes with. */
  function AfterCheck(t: Table, l: DbLock): Table {
    if Protocol.StillCurrent(t, l) && t[l.resource.key].owner == l.resource.owner then t - {l.resource.key} else t
  }

  /** How a check goes: cancelled, or the timer fires and the queries succeed or fail. */
  datatype Outcome = Cancelled | FetchError | ReleaseError | Success

  class LockPick {
    var lockTTLs: map<CheckKey, Entry>
    var goroutines: map<nat, Checker>   // started so far, by channel
    var closed: set<nat>
    var panicked: bool
    var next: nat
    ghost var top: map<CheckKey, int>

    ghost function View(): Registry
      reads this
    {
      Registry(lockTTLs, goroutines, closed, panicked, next, top)
    }

    constructor ()
      ensures View() == Empty(0)
    {
      lockTTLs, goroutines, closed, panicked, next, top := map[], map[], {}, false, 0, map[];
    }

    method RegisterTTL(lock: DbLock)
      modifies this
      ensures View() == Register(old(View()), lock)
    {
      var ck := KeyOf(lock);
      var newChanIndex := Entry(next, lock.index);
      var ok := ck in lockTTLs;
      if ok && lockTTLs[ck].index >= newChanIndex.index {
        return;
      }
      next := next + 1;
      if ok && lockTTLs[ck].index < newChanIndex.index {
        Close(lockTTLs[ck].chan);
      }
      lockTTLs := lockTTLs[ck := newChanIndex];
      goroutines := goroutines[newChanIndex.chan := Checker(lock, Spawned)];
      top := top[ck := if ck in top then Max(top[ck], lock.index) else lock.index];
    }

    method Close(c: nat)
      modifies this`closed, this`panicked
      ensures closed == old(closed) + {c} && panicked == (old(panicked) || c in old(closed))
    {
      panicked := panicked || c in closed;
      closed := closed + {c};
    }

    /** checkExpiration from its select on, with nobody interfering; `outcome` is the branch that the
        select takes and how the database answers. */
    method CheckExpiration(c: nat, db: SQLDB, outcome: Outcome)
      requires c in goroutines && goroutines[c].phase.Waiting?
      requires outcome == Cancelled ==> c in closed
      modifies this, db
      ensures View() == if outcome == Cancelled then SetPhase(old(View()), c, Done) else Cleanup(old(View()), c)
      ensures db.table ==
              if outcome == Success then AfterCheck(old(db.table), old(goroutines)[c].lock) else old(db.table)
    {
      var lock := goroutines[c].lock;
      goroutines := goroutines[c := goroutines[c].(phase := Done)];
      if outcome == Cancelled {
        return;
      }
      if outcome != FetchError {
        var fetched := db.Fetch(lock.resource.key);
        if fetched.Ok? && fetched.value.index == lock.index && fetched.value.id == lock.id && outcome != ReleaseError {
          var _ := db.Release(lock.resource);
        }
      }
      var ck := KeyOf(lock);
      if ck in lockTTLs && lockTTLs[ck].index == lock.index {
        lockTTLs := map k | k in lockTTLs && k != ck :: lockTTLs[k];
      }
      assert lockTTLs == Cleanup(old(View()), c).entries;
    }
  }

  class Burglar {
    const db: SQLDB
    const pick: LockPick

    constructor (db: SQLDB, pick: LockPick)
      ensures this.db == db && this.pick == pick
    {
      this.db := db;
      this.pick := pick;
    }

    /** One pass: fetch every lock that can be read, register each. Afterwards every such row is
        covered. */
    method Pass(rows: seq<GoString>, unreadable: set<GoString>) returns (locks: seq<DbLock>)
      requires forall i, j :: 0 <= i < j < |rows| ==> rows[i] != rows[j]
      requires forall k :: k in rows <==> k in db.table
      modifies pick
      ensures Enumerates(db.table - unreadable, [], locks)
      ensures pick.View() == RegisterAll(old(pick.View()), locks)
      ensures forall k :: k in SelectedKeys(db.table, []) && k !in unreadable ==>
                Covers(pick.View(), RowLock(k, db.table[k]))
    {
      locks := db.FetchAll([], rows, unreadable);
      ghost var t := db.table - unreadable;
      RegisterEach(locks);
      ScanCovers(old(pick.View()), locks);
      forall k | k in SelectedKeys(db.table, []) && k !in unreadable
        ensures Covers(pick.View(), RowLock(k, db.table[k]))
      {
        assert k in SelectedKeys(t, []);
      }
    }

    method RegisterEach(locks: seq<DbLock>)
      modifies pick
      ensures pick.View() == RegisterAll(old(pick.View()), locks)
    {
      var n := 0;
      while n < |locks|
        invariant 0 <= n <= |locks|
        invariant pick.View() == RegisterAll(old(pick.View()), locks[..n])
      {
        pick.RegisterTTL(locks[n]);
        assert locks[..n + 1][..n] == locks[..n];
        n := n + 1;
      }
      assert locks[..n] == locks;
    }

    /** Run: a scan at the start, then one for every tick until a signal; a fetch that fails, at the
        start or later, is skipped. The answers of FetchAll are inputs, `None` where it fails. */
    method Run(first: Option<seq<DbLock>>, inputs: seq<Input>) returns (signalled: bool)
      modifies pick
      ensures signalled <==> Signal in inputs
      ensures pick.View() == RegisterAll(old(pick.View()), OrNone(first) + Answered(inputs))
      ensures first.Some? ==> forall l :: l in first.value ==> Covers(pick.View(), l)
      ensures forall i, l :: TickAnswers(inputs, i, l) ==> Covers(pick.View(), l)
      ensures forall c :: c in pick.goroutines && c !in old(pick.goroutines) ==>
                var l := pick.goroutines[c].lock;
                (first.Some? && l in first.value) || exists i :: TickAnswers(inputs, i, l)
    {
      ghost var g := pick.View();
      RunScans(g, first, inputs);
      RegisterEach(OrNone(first));
      RegisterInTurn(g, OrNone(first), Answered(inputs));
      signalled := Loop(inputs);
    }

    method Loop(inputs: seq<Input>) returns (signalled: bool)
      modifies pick
      ensures signalled <==> Signal in inputs
      ensures pick.View() == RegisterAll(old(pick.View()), Answered(inputs))
    {
      ghost var all := RegisterAll(pick.View(), Answered(inputs));
      signalled := false;
      var n := 0;
      assert inputs[0..] == inputs;
      while n < |inputs|
        invariant 0 <= n <= |inputs| && Signal !in inputs[..n]
        invariant all == RegisterAll(pick.View(), Answered(inputs[n..]))
      {
        var n' := n + 1;
        assert inputs[n..][1..] == inputs[n'..];
        if inputs[n] == Signal {
          return true;
        }
        RegisterInTurn(pick.View(), OrNone(inputs[n].answer), Answered(inputs[n'..]));
        RegisterEach(OrNone(inputs[n].answer));
        n := n';
      }
    }
  }

  datatype Input = Signal | Tick(answer: Option<seq<DbLock>>)

  function OrNone(answer: Option<seq<DbLock>>): seq<DbLock> {
    if answer.Some? then answer.value else []
  }

  /** What the scans answer until the first signal, one after the other. */
  function Answered(inputs: seq<Input>): seq<DbLock> {
    if inputs == [] || inputs[0] == Signal then [] else OrNone(inputs[0].answer) + Answered(inputs[1..])
  }

  /** The i-th input is a tick before any signal, and its scan answers `l`. */
  ghost predicate TickAnswers(inputs: seq<Input>, i: int, l: DbLock) {
    && 0 <= i < |inputs| && Signal !in inputs[..i]
    && inputs[i].Tick? && inputs[i].answer.Some? && l in inputs[i].answer.value
  }

  lemma {:induction false} AnsweredExact(inputs: seq<Input>, l: DbLock)
    ensures l in Answered(inputs) <==> exists i :: TickAnswers(inputs, i, l)
  {
    if inputs != [] && inputs[0] != Signal {
      var rest := inputs[1..];
      AnsweredExact(rest, l);
      forall i | TickAnswers(rest, i, l) ensures TickAnswers(inputs, i + 1, l) {
        assert inputs[..i + 1] == [inputs[0]] + rest[..i];
      }
      forall i | TickAnswers(inputs, i, l) && i > 0 ensures TickAnswers(rest, i - 1, l) {
        assert inputs[..i] == [inputs[0]] + rest[..i - 1];
      }
      if l in OrNone(inputs[0].answer) {
        assert TickAnswers(inputs, 0, l);
      }
    } else if inputs != [] {
      forall i ensures !TickAnswers(inputs, i, l) {
        assert 0 < i < |inputs| ==> inputs[..i][0] == Signal;
      }
    }
  }

  /** What all scans of a run together cover and start. */
  lemma RunScans(g: Registry, first: Option<seq<DbLock>>, inputs: seq<Input>)
    ensures var g' := RegisterAll(g, OrNone(first) + Answered(inputs));
            && (first.Some? ==> forall l :: l in first.value ==> Covers(g', l))
            && (forall i, l :: TickAnswers(inputs, i, l) ==> Covers(g', l))
            && (forall c :: c in g'.checkers && c !in g.checkers ==>
                  var l := g'.checkers[c].lock;
                  (first.Some? && l in first.value) || exists i :: TickAnswers(inputs, i, l))
  {
    var all := OrNone(first) + Answered(inputs);
    var g' := RegisterAll(g, all);
    ScanCovers(g, all);
    forall i, l | TickAnswers(inputs, i, l) ensures Covers(g', l) {
      AnsweredExact(inputs, l);
      assert l in all;
    }
    forall c | c in g'.checkers && c !in g.checkers
      ensures var l := g'.checkers[c].lock;
              (first.Some? && l in first.value) || exists i :: TickAnswers(inputs, i, l)
    {
      ScanStartsOnlyScanned(g, all, c);
      AnsweredExact(inputs, g'.checkers[c].lock);
    }
  }

  lemma {:induction false} RegisterInTurn(g: Registry, a: seq<DbLock>, b: seq<DbLock>)
    ensures RegisterAll(g, a + b) == RegisterAll(RegisterAll(g, a), b)
  {
    if b == [] {
      assert a + b == a;
    } else {
      var init := b[..|b| - 1];
      RegisterInTurn(g, a, init);
      assert (a + b)[..|a + b| - 1] == a + init;
    }
  }

  class LocketHandler {
    const db: SQLDB
    const pick: LockPick

    constructor (db: SQLDB, pick: LockPick)
      ensures this.db == db && this.pick == pick
    {
      this.db := db;
      this.pick := pick;
    }

    /** Commit, then register: nothing is registered for a call that did not commit. */
    method Lock(req: LockRequest, guid: Option<GoString>) returns (err: Option<Error>)
      modifies db, pick
      ensures match Versions.HandleLock(old(db.table), req, guid)
              case Ok((t, l)) => err == None && db.table == t && pick.View() == Register(old(pick.View()), l)
              case Err(e) => err == Some(e) && db.table == old(db.table) && pick.View() == old(pick.View())
    {
      Versions.NilResourceRejected(db.table, req.ttlInSeconds, guid);
      var typ, typeCode := [], UNKNOWN;
      if req.resource.Some? {
        typ, typeCode := req.resource.value.typ, req.resource.value.typeCode;
      }
      err := Validate(typ, typeCode);
      if err.Some? {
        return;
      }
      if req.ttlInSeconds <= 0 {
        return Some(InvalidTTL);
      }
      if req.resource.value.owner == [] {
        return Some(InvalidOwner);
      }
      var res := db.Lock(req.resource.value, req.ttlInSeconds, guid);
      if res.Err? {
        return Some(res.error);
      }
      pick.RegisterTTL(res.value);
      err := None;
    }

    /** A request without a resource is dereferenced in the transaction and makes it panic. */
    method Release(r: Option<Resource>) returns (err: Option<Error>, panics: bool)
      modifies db
      ensures panics <==> r.None?
      ensures panics ==> db.table == old(db.table)
      ensures r.Some? ==>
                match ReleaseTx(old(db.table), r.value)
                case Ok(t) => err == None && db.table == t
                case Err(e) => err == Some(e) && db.table == old(db.table)
    {
      if r.None? {
        return None, true;
      }
      err := db.Release(r.value);
      panics := false;
    }

    /** The resources of all readable locks of the requested type, or the rejection of the type. */
    method FetchAll(req: FetchAllRequest, rows: seq<GoString>, unreadable: set<GoString>)
      returns (res: Result<FetchAllResponse, Error>)
      requires forall i, j :: 0 <= i < j < |rows| ==> rows[i] != rows[j]
      requires forall k :: k in rows <==> k in db.table
      ensures res.Err? <==> Validate(req.typ, req.typeCode).Some?
      ensures res.Err? ==> res.error == InvalidType
      ensures res.Ok? ==> forall r :: r in res.value.resources <==>
                && r.key in db.table && r.key !in unreadable && r == RowLock(r.key, db.table[r.key]).resource
                && db.table[r.key].owner != [] && db.table[r.key].typ == TypeAsked(req.typ, req.typeCode)
      ensures res.Ok? ==> forall i, j :: 0 <= i < j < |res.value.resources| ==>
                res.value.resources[i].key != res.value.resources[j].key
      ensures res.Ok? ==>
                |res.value.resources| == |SelectedKeys(db.table - unreadable, TypeAsked(req.typ, req.typeCode))|
    {
      ValidateExact(req.typ, req.typeCode);
      var err := Validate(req.typ, req.typeCode);
      if err.Some? {
        return Err(err.value);
      }
      var locks := db.FetchAll(GetType(req.typ, req.typeCode), rows, unreadable);
      var responses := [];
      var n := 0;
      while n < |locks|
        invariant 0 <= n <= |locks| && |responses| == n
        invariant forall i :: 0 <= i < n ==> responses[i] == locks[i].resource
      {
        responses := responses + [locks[n].resource];
        n := n + 1;
      }
      ValidTypeIsAsked(req.typ, req.typeCode);
      ResourcesOf(locks, responses);
      CountMatchesFetchAll(db.table - unreadable, TypeAsked(req.typ, req.typeCode), locks);
      res := Ok(FetchAllResponse(responses));
    }
  }

  lemma ResourcesOf(locks: seq<DbLock>, rs: seq<Resource>)
    requires |rs| == |locks| && forall i :: 0 <= i < |locks| ==> rs[i] == locks[i].resource
    ensures forall r :: r in rs <==> exists l :: l in locks && l.resource == r
  {
    forall l | l in locks ensures l.resource in rs {
      var i :| 0 <= i < |locks| && locks[i] == l;
      assert rs[i] == l.resource;
    }
    forall r | r in rs ensures exists l :: l in locks && l.resource == r {
      var i :| 0 <= i < |rs| && rs[i] == r;
      assert locks[i] in locks;
    }
  }

  // ---------------------------------------------------------------- methods and steps

  /** What LocketHandler.Lock does to table and registry is a run of the protocol: the commit, then
      the registration. A call that does not commit changes nothing. */
  lemma LockIsCommitThenRegister(s: Protocol.State, req: LockRequest, guid: Option<GoString>) returns (r: Protocol.Run)
    requires Protocol.Enabled(s, Protocol.LockCall(req, guid))
    ensures Protocol.IsRun(r) && r.states[0] == s
    ensures var s' := Protocol.Last(r);
            match Versions.HandleLock(s.store.table, req, guid)
            case Ok((t, l)) =>
              && r.events == [Protocol.LockCall(req, guid), Protocol.HandlerRegister(l)]
              && s'.store.table == t && s'.reg == Register(s.reg, l) && s'.inflight == s.inflight
            case Err(e) => r.events == [Protocol.LockCall(req, guid)] && s' == s
  {
    r := Protocol.Then(Protocol.Run([s], []), Protocol.LockCall(req, guid));
    if Versions.HandleLock(s.store.table, req, guid).Ok? {
      r := Protocol.Then(r, Protocol.HandlerRegister(Versions.HandleLock(s.store.table, req, guid).value.1));
    }
  }

  /** What LocketHandler.Release does is the run of one event. */
  lemma ReleaseIsRun(s: Protocol.State, r: Resource) returns (run: Protocol.Run)
    ensures Protocol.IsRun(run) && run.states[0] == s && run.events == [Protocol.ReleaseCall(r)]
    ensures var s' := Protocol.Last(run);
            && s' == s.(store := s'.store) && s'.store == s.store.(table := s'.store.table)
            && s'.store.table == match ReleaseTx(s.store.table, r) case Ok(t) => t case Err(_) => s.store.table
  {
    run := Protocol.Then(Protocol.Run([s], []), Protocol.ReleaseCall(r));
  }

  /** The checker's events in a check with this outcome. */
  function CheckEvents(t: Table, l: DbLock, c: nat, outcome: Outcome): seq<Protocol.Event> {
    match outcome
    case Cancelled => [Protocol.Cancel(c)]
    case FetchError => [Protocol.Fire(c), Protocol.FetchFails(c), Protocol.Cleanup(c)]
    case _ =>
      if !Protocol.StillCurrent(t, l) then [Protocol.Fire(c), Protocol.FetchCheck(c), Protocol.Cleanup(c)]
      else [Protocol.Fire(c), Protocol.FetchCheck(c),
            if outcome == Success then Protocol.ExpiryRelease(c) else Protocol.ReleaseFails(c), Protocol.Cleanup(c)]
  }

  /** What LockPick.CheckExpiration does, with any outcome, is a run of the protocol. */
  lemma CheckIsRun(s: Protocol.State, c: nat, outcome: Outcome) returns (r: Protocol.Run)
    requires Protocol.Enabled(s, if outcome == Cancelled then Protocol.Cancel(c) else Protocol.Fire(c))
    ensures Protocol.IsRun(r) && r.states[0] == s
    ensures r.events == CheckEvents(s.store.table, Protocol.LockOf(s, c), c, outcome)
    ensures var s', t := Protocol.Last(r), s.store.table;
            && s'.reg == (if outcome == Cancelled then SetPhase(s.reg, c, Done) else Cleanup(s.reg, c))
            && s'.store.table == if outcome == Success then AfterCheck(t, Protocol.LockOf(s, c)) else t
  {
    if outcome == Cancelled {
      r := Protocol.Then(Protocol.Run([s], []), Protocol.Cancel(c));
    } else {
      r := Protocol.Then(Protocol.Run([s], []), Protocol.Fire(c));
      PhaseIsForgotten(s.reg, c, Fired);
      r := QueriesAreRun(r, c, outcome);
      PhaseIsForgotten(s.reg, c, Finishing);
      r := Protocol.Then(r, Protocol.Cleanup(c));
    }
  }

  /** From the timer to the point where only the cleanup is left. */
  lemma QueriesAreRun(r: Protocol.Run, c: nat, outcome: Outcome) returns (r': Protocol.Run)
    requires Protocol.IsRun(r) && Protocol.InPhase(Protocol.Last(r), c, Fired) && outcome != Cancelled
    ensures Protocol.IsRun(r') && r'.states[0] == r.states[0]
    ensures var s, s' := Protocol.Last(r), Protocol.Last(r');
            var l := Protocol.LockOf(s, c);
            && s'.reg == SetPhase(s.reg, c, Finishing)
            && s'.store.table == (if outcome == Success then AfterCheck(s.store.table, l) else s.store.table)
            && r.events + CheckEvents(s.store.table, l, c, outcome)[1..] == r'.events + [Protocol.Cleanup(c)]
  {
    var s := Protocol.Last(r);
    if outcome == FetchError {
      r' := Protocol.Then(r, Protocol.FetchFails(c));
    } else {
      r' := Protocol.Then(r, Protocol.FetchCheck(c));
      if Protocol.StillCurrent(s.store.table, Protocol.LockOf(s, c)) {
        PhaseIsForgotten(s.reg, c, Matched);
        r' := Protocol.Then(r', if outcome == Success then Protocol.ExpiryRelease(c) else Protocol.ReleaseFails(c));
      }
    }
  }

  lemma PhaseIsForgotten(g: Registry, c: nat, p: Phase)
    requires c in g.checkers
    ensures SetPhase(SetPhase(g, c, p), c, Finishing) == SetPhase(g, c, Finishing)
    ensures Cleanup(SetPhase(g, c, p), c) == Cleanup(g, c)
  {
    var m := g.checkers[c := g.checkers[c].(phase := p)];
    assert m[c := m[c].(phase := Finishing)] == g.checkers[c := g.checkers[c].(phase := Finishing)];
    assert m[c := m[c].(phase := Done)] == g.checkers[c := g.checkers[c].(phase := Done)];
  }
}
