/**
 Concrete runs of the protocol that show where a stronger promise would fail
 (expiration/lock_pick.go).
 */
module Races {
  import opened Models
  import opened LockTable
  import opened Versions
  import opened Protocol
  import opened Lease
  import opened Expiration
  import opened Coverage
  import Reg = Registry

  const KEY: GoString := [1]
  const OWNER: GoString := [2]
  const GUID: GoString := [3]

  const RES: Resource := Resource(KEY, OWNER, [], LOCK_TYPE, LOCK)

  const TTL: int64 := 15

  const CALL: Event := LockCall(LockRequest(Some(RES), TTL), Some(GUID))

  const RENEWAL: Event := LockCall(LockRequest(Some(RES), TTL), None)

  function Ver(i: int): DbLock {
    DbLock(RES, TTL, i, GUID)
  }

  /** The table after the i-th commit: that version and nothing else. */
  predicate RowIs(s: State, i: int) {
    s.store.table == map[KEY := LockRow(Ver(i))]
  }

  lemma FirstLock() returns (r: Run)
    ensures FromStart(r) && r.events == [CALL]
    ensures var s := Last(r);
            && RowIs(s, 1) && GUID in s.store.guids
            && s.inflight == multiset{Ver(1)} && s.scan == [] && s.reg == Reg.Empty(0)
  {
    TypeNamesDiffer();
    assert FetchTx(map[], KEY) == Err(ResourceNotFound);
    r := Then(Run([Init()], []), CALL);
  }

  lemma Renew(r: Run, i: int) returns (r': Run)
    requires FromStart(r) && RowIs(Last(r), i)
    ensures FromStart(r')
    ensures var s, s' := Last(r), Last(r');
            && RowIs(s', i + 1) && s'.now == s.now && s'.reg == s.reg && s'.scan == s.scan
            && s'.inflight == s.inflight + multiset{Ver(i + 1)}
            && VersionOf(Ver(i + 1)) in s'.store.history
            && s'.store.history[VersionOf(Ver(i + 1))] == Commit(RES, TTL, s.now)
  {
    TypeNamesDiffer();
    r' := Then(r, RENEWAL);
  }

  /** The timer of a freshly spawned checker is started and runs out. */
  lemma RunTimer(r: Run, c: nat) returns (r': Run)
    requires FromStart(r) && InPhase(Last(r), c, Reg.Spawned) && LockOf(Last(r), c).ttl == TTL
    ensures FromStart(r') && r'.events == r.events + [StartTimer(c), Tick(TTL * Reg.SECOND), Fire(c)]
    ensures var s, s' := Last(r), Last(r');
            && s'.store == s.store && s'.inflight == s.inflight && s'.scan == s.scan
            && s'.reg == Reg.SetPhase(s.reg, c, Reg.Fired)
  {
    r' := Then(r, StartTimer(c));
    r' := Then(r', Tick(TTL * Reg.SECOND));
    r' := Then(r', Fire(c));
  }

  /** The Fetch matches, the owner renews late, and the renewed and running lease is at the mercy
      of the Release that the checker is about to issue. */
  lemma RenewalCanBeTooLate() returns (r: Run)
    ensures FromStart(r)
    ensures HeldBy(Last(r), KEY, OWNER) && Timely(Last(r), KEY, OWNER) && !NoPendingExpiry(Last(r), KEY, OWNER)
  {
    r := FirstLock();
    r := Then(r, HandlerRegister(Ver(1)));
    r := RunTimer(r, 0);
    r := Then(r, FetchCheck(0));
    assert InPhase(Last(r), 0, Reg.Matched);
    r := Renew(r, 1);
    assert InPhase(Last(r), 0, Reg.Matched);
  }

  const CK: Reg.CheckKey := Reg.CheckKey(KEY, GUID)

  /** A checker of index 1 is about to clean up while the burglar still holds a snapshot of it. */
  lemma SlowCleanup() returns (r: Run)
    ensures FromStart(r) && RowIs(Last(r), 1)
    ensures Last(r).scan == [Ver(1)]
    ensures Last(r).reg == Reg.Registry(map[CK := Reg.Entry(0, 1)], map[0 := Reg.Checker(Ver(1), Reg.Finishing)],
                                        {}, false, 1, map[CK := 1])
  {
    r := FirstLock();
    r := Then(r, ScanFetch([Ver(1)]));
    r := Then(r, HandlerRegister(Ver(1)));
    r := RunTimer(r, 0);
    r := Then(r, FetchFails(0));
  }

  /** Index 2 is registered in its place. */
  lemma NextIndexComes(r: Run) returns (r': Run)
    requires FromStart(r) && RowIs(Last(r), 1) && Last(r).scan == [Ver(1)]
    requires Last(r).reg == Reg.Registry(map[CK := Reg.Entry(0, 1)], map[0 := Reg.Checker(Ver(1), Reg.Finishing)],
                                         {}, false, 1, map[CK := 1])
    ensures FromStart(r') && Last(r').scan == [Ver(1)]
    ensures Last(r').reg == Reg.Registry(map[CK := Reg.Entry(1, 2)],
                                         map[0 := Reg.Checker(Ver(1), Reg.Finishing),
                                             1 := Reg.Checker(Ver(2), Reg.Spawned)],
                                         {0}, false, 2, map[CK := 2])
  {
    r' := Renew(r, 1);
    r' := Then(r', HandlerRegister(Ver(2)));
  }

  /** It is checked and cleaned up, too. */
  lemma NextIndexComesAndGoes(r: Run) returns (r': Run)
    requires FromStart(r) && RowIs(Last(r), 1) && Last(r).scan == [Ver(1)]
    requires Last(r).reg == Reg.Registry(map[CK := Reg.Entry(0, 1)], map[0 := Reg.Checker(Ver(1), Reg.Finishing)],
                                         {}, false, 1, map[CK := 1])
    ensures FromStart(r') && Last(r').scan == [Ver(1)]
    ensures var g := Last(r').reg;
            && g.entries == map[] && g.next == 2 && g.top == map[CK := 2]
            && 0 in g.checkers && g.checkers[0] == Reg.Checker(Ver(1), Reg.Finishing)
  {
    r' := NextIndexComes(r);
    r' := RunTimer(r', 1);
    r' := Then(r', FetchFails(1));
    r' := Then(r', Cleanup(1));
  }

  /** The deferred cleanup compares indices, not channels. When a slow checker of an old index is
      still to clean up and that index is registered again, the cleanup removes the other checker's
      entry: a live checker without an entry. Its index is not the highest of its key. */
  lemma LiveCheckerWithoutEntry() returns (r: Run, c: nat)
    ensures FromStart(r)
    ensures Reg.Unfinished(Last(r).reg, c) && EntryAt(Last(r), Reg.KeyOf(LockOf(Last(r), c))) == None
    ensures Last(r).reg.top == map[Reg.KeyOf(LockOf(Last(r), c)) := LockOf(Last(r), c).index + 1]
  {
    r := SlowCleanup();
    r := NextIndexComesAndGoes(r);
    r := Then(r, ScanRegister);
    r := Then(r, Cleanup(0));
    c := 2;
  }

  lemma FailedFirstCheck() returns (r: Run)
    ensures FromStart(r)
    ensures r.events == [CALL, HandlerRegister(Ver(1)), StartTimer(0), Tick(TTL * Reg.SECOND), Fire(0), FetchFails(0)]
    ensures RowIs(Last(r), 1) && Last(r).inflight == multiset{} && Last(r).scan == []
    ensures Last(r).reg == Reg.Registry(map[CK := Reg.Entry(0, 1)], map[0 := Reg.Checker(Ver(1), Reg.Finishing)],
                                        {}, false, 1, map[CK := 1])
  {
    r := FirstLock();
    r := Then(r, HandlerRegister(Ver(1)));
    r := RunTimer(r, 0);
    r := Then(r, FetchFails(0));
  }

  /** One failing query and a row is forgotten: no entry, no registration under way, no scan. */
  lemma FailedCheckForgetsRow() returns (r: Run)
    ensures FromStart(r)
    ensures r.events == [CALL, HandlerRegister(Ver(1)), StartTimer(0), Tick(TTL * Reg.SECOND), Fire(0),
                         FetchFails(0), Cleanup(0)]
    ensures RowIs(Last(r), 1) && !Remembered(Last(r), KEY) && Last(r).scan == []
  {
    r := FailedFirstCheck();
    r := Then(r, Cleanup(0));
  }
}
