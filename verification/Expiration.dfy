/**
 The registry over whole runs, the removal of abandoned rows, and what the burglar's scans
 restore (expiration/lock_pick.go, expiration/burglar.go).
 */
module Expiration {
  import opened Models
  import opened LockTable
  import opened Versions
  import opened Protocol
  import opened Lease
  import Reg = Registry

  // ---------------------------------------------------------------- the registry over runs

  /** In every state of every run: no channel was ever closed twice, every entry belongs to the one
      unfinished checker of its version whose channel it holds, and for the highest index of a
      (key, id) an entry exists exactly when an unfinished checker does, of which there is one. */
  lemma RegistryOverRuns(r: Run, i: nat)
    requires FromStart(r) && i < |r.states|
    ensures var g := r.states[i].reg;
            && !g.panicked
            && (forall ck :: ck in g.entries ==> Reg.EntryLive(g, ck))
            && (forall ck :: ck in g.top ==>
                  && (ck in g.entries && g.entries[ck].index == g.top[ck] <==> exists c :: Reg.ChecksTop(g, ck, c))
                  && (forall c, d :: Reg.ChecksTop(g, ck, c) && Reg.ChecksTop(g, ck, d) ==> c == d))
  {
    InitInv();
    RunKeepsInv(r, i);
    var g := r.states[i].reg;
    forall ck | ck in g.top
      ensures ck in g.entries && g.entries[ck].index == g.top[ck] <==> exists c :: Reg.ChecksTop(g, ck, c)
      ensures forall c, d :: Reg.ChecksTop(g, ck, c) && Reg.ChecksTop(g, ck, d) ==> c == d
    {
      Reg.TopEntryIffChecker(g, ck);
    }
  }

  function EntryAt(s: State, ck: Reg.CheckKey): Option<Reg.Entry> {
    if ck in s.reg.entries then Some(s.reg.entries[ck]) else None
  }

  lemma StepRaisesIndex(s: State, e: Event, ck: Reg.CheckKey)
    requires Enabled(s, e) && EntryAt(s, ck).Some? && EntryAt(Apply(s, e), ck).Some?
    ensures EntryAt(s, ck).value.index <= EntryAt(Apply(s, e), ck).value.index
  {}

  /** While a key keeps an entry, the entry's index only rises. */
  lemma {:induction false} EntryIndexRises(r: Run, i: nat, j: nat, ck: Reg.CheckKey)
    requires IsRun(r) && i <= j < |r.states|
    requires forall m :: i <= m <= j ==> EntryAt(r.states[m], ck).Some?
    ensures EntryAt(r.states[i], ck).value.index <= EntryAt(r.states[j], ck).value.index
    decreases j - i
  {
    if i < j {
      EntryIndexRises(r, i, j - 1, ck);
      assert EntryAt(r.states[j], ck).Some?;
      StepRaisesIndex(r.states[j - 1], r.events[j - 1], ck);
    }
  }

  /** An entry leaves the registry in three ways only. A higher index of its key replaces it: then
      its channel is closed, and its checker, if still waiting, can be cancelled. A checker of the
      same index cleans up: its own, unless a higher index was registered at some time. Or the
      process restarts. Until then the entry stays as it is. */
  lemma EntryFate(s: State, e: Event, ck: Reg.CheckKey)
    requires Reg.Inv(s.reg) && Enabled(s, e) && EntryAt(s, ck).Some?
    ensures var s', was := Apply(s, e), EntryAt(s, ck).value;
            match EntryAt(s', ck)
            case Some(now) =>
              || now == was
              || (&& (e.HandlerRegister? || e.ScanRegister?) && was.index < now.index
                  && was.chan in s'.reg.closed && (IsWaiting(s', was.chan) ==> Enabled(s', Cancel(was.chan))))
            case None =>
              || e == Restart
              || (&& e.Cleanup? && Reg.KeyOf(LockOf(s, e.c)) == ck && LockOf(s, e.c).index == was.index
                  && (e.c == was.chan || (ck in s.reg.top && was.index < s.reg.top[ck])))
  {
    assert Reg.EntryLive(s.reg, ck);
    assert Reg.TopOwned(s.reg, EntryAt(s, ck).value.chan);
    if e.Cleanup? {
      assert Reg.TopOwned(s.reg, e.c);
    }
  }

  // ---------------------------------------------------------------- abandoned rows

  /** The checker `c` watches the version `l`, and either the row still is that version and the
      check is still to be made, or the row is gone. */
  ghost predicate Watched(s: State, c: nat, l: DbLock) {
    && c in s.reg.checkers && LockOf(s, c) == l
    && (l.resource.key in s.store.table ==>
          && RowLock(l.resource.key, s.store.table[l.resource.key]) == l
          && s.reg.checkers[c].phase != Reg.Finishing && s.reg.checkers[c].phase != Reg.Done)
  }

  /** Nobody renews the key, the process stays up, and the database answers this checker. */
  predicate Abandoned(e: Event, c: nat, k: GoString) {
    && (e.LockCall? ==> e.req.resource.None? || e.req.resource.value.key != k)
    && e != Restart && e != FetchFails(c) && e != ReleaseFails(c)
  }

  /** The current version's checker is never cancelled. */
  lemma CurrentIsNotClosed(s: State, c: nat)
    requires Protocol.Inv(s) && c in s.reg.checkers
    requires LockOf(s, c).resource.key in s.store.table
    requires RowLock(LockOf(s, c).resource.key, s.store.table[LockOf(s, c).resource.key]) == LockOf(s, c)
    ensures c !in s.reg.closed
  {
    var l := LockOf(s, c);
    assert Reg.TopOwned(s.reg, c);
    assert TopCommitted(s, Reg.KeyOf(l));
    assert RowIsLast(s.store, l.resource.key);
  }

  lemma WatchedTable(s: State, e: Event, c: nat, l: DbLock)
    requires Enabled(s, e) && Abandoned(e, c, l.resource.key)
    ensures RowAt(Apply(s, e), l.resource.key) in {RowAt(s, l.resource.key), None}
  {}

  lemma WatchedStep(s: State, e: Event, c: nat, l: DbLock)
    requires Protocol.Inv(s) && Watched(s, c, l) && Enabled(s, e) && Abandoned(e, c, l.resource.key)
    ensures Watched(Apply(s, e), c, l)
  {
    WatchedTable(s, e, c, l);
    if l.resource.key in s.store.table {
      CurrentIsNotClosed(s, c);
      assert RowWellFormed(s.store, l.resource.key);
    }
    if IsCheckerEvent(e) && e.c == c {
      WatchedMoves(s, e, c, l);
    } else {
      OthersLeaveChecker(s, e, c);
    }
  }

  lemma OthersLeaveChecker(s: State, e: Event, c: nat)
    requires Enabled(s, e) && e != Restart && !(IsCheckerEvent(e) && e.c == c)
    requires c in s.reg.checkers && c < s.reg.next
    ensures c in Apply(s, e).reg.checkers && Apply(s, e).reg.checkers[c] == s.reg.checkers[c]
  {}

  lemma WatchedMoves(s: State, e: Event, c: nat, l: DbLock)
    requires Watched(s, c, l) && Enabled(s, e) && Abandoned(e, c, l.resource.key)
    requires IsCheckerEvent(e) && e.c == c
    requires l.resource.key in s.store.table ==> c !in s.reg.closed && s.store.table[l.resource.key].owner != []
    ensures Watched(Apply(s, e), c, l)
  {}

  lemma {:induction false} WatchedThroughout(r: Run, c: nat, l: DbLock, i: nat)
    requires IsRun(r) && Protocol.Inv(r.states[0]) && Watched(r.states[0], c, l) && i < |r.states|
    requires forall m :: 0 <= m < |r.events| ==> Abandoned(r.events[m], c, l.resource.key)
    ensures Watched(r.states[i], c, l)
  {
    if i > 0 {
      WatchedThroughout(r, c, l, i - 1);
      RunKeepsInv(r, i - 1);
      WatchedStep(r.states[i - 1], r.events[i - 1], c, l);
    }
  }

  /** An abandoned row goes away. Start with an unfinished check of the row's current version; let
      anything happen except a Lock call on the key, a restart or a database error in that check;
      once the check is over the row is gone and no entry holds its channel. */
  lemma AbandonedRowIsRemoved(r: Run, c: nat, l: DbLock)
    requires IsRun(r) && Protocol.Inv(r.states[0])
    requires c in r.states[0].reg.checkers && LockOf(r.states[0], c) == l
    requires r.states[0].reg.checkers[c].phase != Reg.Finishing && r.states[0].reg.checkers[c].phase != Reg.Done
    requires RowAt(r.states[0], l.resource.key) == Some(LockRow(l))
    requires forall m :: 0 <= m < |r.events| ==> Abandoned(r.events[m], c, l.resource.key)
    requires InPhase(r.states[|r.events|], c, Reg.Done)
    ensures var last := r.states[|r.events|];
            && RowAt(last, l.resource.key) == None
            && (forall ck :: ck in last.reg.entries ==> last.reg.entries[ck].chan != c)
  {
    var n := |r.events|;
    assert CheckerOnTime(r.states[0], c);
    CurrentVersionIsRow(r.states[0].store, l);
    WatchedThroughout(r, c, l, n);
    RunKeepsInv(r, n);
    forall ck | ck in r.states[n].reg.entries ensures r.states[n].reg.entries[ck].chan != c {
      assert Reg.EntryLive(r.states[n].reg, ck);
    }
  }

  /** Nothing keeps the check from running to its end: from a waiting check of the current version,
      the passing of time and the checker's own four actions are possible in this order and leave
      neither the row nor the entry. */
  lemma AbandonedRowCanExpire(s: State, c: nat) returns (r: Run)
    requires Protocol.Inv(s) && IsWaiting(s, c)
    requires RowAt(s, LockOf(s, c).resource.key) == Some(LockRow(LockOf(s, c)))
    ensures IsRun(r) && r.states[0] == s
    ensures |r.events| == 5 && r.events[0].Tick?
    ensures r.events[1..] == [Fire(c), FetchCheck(c), ExpiryRelease(c), Cleanup(c)]
    ensures RowAt(Last(r), LockOf(s, c).resource.key) == None
    ensures EntryAt(Last(r), Reg.KeyOf(LockOf(s, c))) == None
    ensures InPhase(Last(r), c, Reg.Done)
  {
    assert RowWellFormed(s.store, LockOf(s, c).resource.key);
    CurrentCheckerOwnsEntry(s, c);
    var d := s.reg.checkers[c].phase.dueAt - s.now;
    r := Then(Run([s], []), Tick(if d < 0 then 0 else d));
    r := Then(r, Fire(c));
    r := CheckToEnd(r, c);
  }

  /** The unfinished checker of a row's current version owns the entry. */
  lemma CurrentCheckerOwnsEntry(s: State, c: nat)
    requires Protocol.Inv(s) && Reg.Unfinished(s.reg, c)
    requires RowAt(s, LockOf(s, c).resource.key) == Some(LockRow(LockOf(s, c)))
    ensures EntryAt(s, Reg.KeyOf(LockOf(s, c))) == Some(Reg.Entry(c, LockOf(s, c).index))
  {
    var l := LockOf(s, c);
    assert Reg.TopOwned(s.reg, c);
    assert TopCommitted(s, Reg.KeyOf(l));
    assert RowIsLast(s.store, l.resource.key);
    assert Reg.EntryLive(s.reg, Reg.KeyOf(l));
  }

  /** The Fetch, the Release and the cleanup of a check that finds its own version. */
  lemma CheckToEnd(r: Run, c: nat) returns (r': Run)
    requires IsRun(r) && InPhase(Last(r), c, Reg.Fired) && LockOf(Last(r), c).resource.owner != []
    requires RowAt(Last(r), LockOf(Last(r), c).resource.key) == Some(LockRow(LockOf(Last(r), c)))
    requires EntryAt(Last(r), Reg.KeyOf(LockOf(Last(r), c))) == Some(Reg.Entry(c, LockOf(Last(r), c).index))
    ensures IsRun(r') && r'.states[0] == r.states[0]
    ensures r'.events == r.events + [FetchCheck(c), ExpiryRelease(c), Cleanup(c)]
    ensures RowAt(Last(r'), LockOf(Last(r), c).resource.key) == None
    ensures EntryAt(Last(r'), Reg.KeyOf(LockOf(Last(r), c))) == None
    ensures InPhase(Last(r'), c, Reg.Done)
  {
    r' := Then(r, FetchCheck(c));
    r' := Then(r', ExpiryRelease(c));
    r' := Then(r', Cleanup(c));
  }

  // ---------------------------------------------------------------- the burglar's scan

  /** A burglar pass with nothing in between: the fetch, then one registration per lock. */
  function PassEvents(locks: seq<DbLock>): seq<Event> {
    [ScanFetch(locks)] + seq(|locks|, _ => ScanRegister)
  }

  ghost predicate IsPass(r: Run, locks: seq<DbLock>) {
    IsRun(r) && r.events == PassEvents(locks)
  }

  lemma {:induction false} PassPrefix(r: Run, locks: seq<DbLock>, m: nat)
    requires IsPass(r, locks) && m <= |locks|
    ensures var s := r.states[m + 1];
            && s.store == r.states[0].store
            && s.scan == locks[m..]
            && s.reg == Reg.RegisterAll(r.states[0].reg, locks[..m])
  {
    assert r.events[0] == ScanFetch(locks);
    if m > 0 {
      PassPrefix(r, locks, m - 1);
      assert r.events[m] == ScanRegister;
      assert locks[..m][..m - 1] == locks[..m - 1];
    }
  }

  /** A pass can be made whenever no scan is under way, with any answer read from the table. */
  lemma PassIsPossible(s: State, locks: seq<DbLock>) returns (r: Run)
    requires s.scan == [] && forall l :: l in locks ==> FetchTx(s.store.table, l.resource.key) == Ok(l)
    ensures IsPass(r, locks) && r.states[0] == s && Last(r).scan == []
  {
    r := Then(Run([s], []), ScanFetch(locks));
    assert r.events == [ScanFetch(locks)] + seq(0, _ => ScanRegister);
    for n := 0 to |locks|
      invariant IsRun(r) && r.states[0] == s && Last(r).scan == locks[n..]
      invariant r.events == [ScanFetch(locks)] + seq(n, _ => ScanRegister)
    {
      r := Then(r, ScanRegister);
    }
  }

  lemma PassRegistersAll(r: Run, locks: seq<DbLock>)
    requires IsPass(r, locks)
    ensures var last := r.states[|locks| + 1];
            last.store == r.states[0].store && last.reg == Reg.RegisterAll(r.states[0].reg, locks)
  {
    PassPrefix(r, locks, |locks|);
    assert locks[..|locks|] == locks;
  }

  /** After one undisturbed pass, every row has an entry of exactly its own version, whatever the
      registry held before (nothing at all, after a restart). */
  lemma PassRecovers(r: Run, locks: seq<DbLock>)
    requires IsPass(r, locks) && Protocol.Inv(r.states[0]) && Enumerates(r.states[0].store.table, [], locks)
    ensures var last := r.states[|locks| + 1];
            forall k :: k in last.store.table ==>
              var l := RowLock(k, last.store.table[k]);
              Reg.KeyOf(l) in last.reg.entries && last.reg.entries[Reg.KeyOf(l)].index == l.index
  {
    var last := r.states[|locks| + 1];
    PassRegistersAll(r, locks);
    Reg.ScanCovers(r.states[0].reg, locks);
    RunKeepsInv(r, |locks| + 1);
    forall k | k in last.store.table
      ensures var l := RowLock(k, last.store.table[k]);
              Reg.KeyOf(l) in last.reg.entries && last.reg.entries[Reg.KeyOf(l)].index == l.index
    {
      var l := RowLock(k, last.store.table[k]);
      assert RowWellFormed(last.store, k);
      assert k in SelectedKeys(r.states[0].store.table, []);
      assert l in locks;
      assert Reg.Covers(last.reg, l);
      EntryNotAhead(last, k);
    }
  }

  /** No entry is ahead of the row of its id. */
  lemma EntryNotAhead(s: State, k: GoString)
    requires Protocol.Inv(s) && k in s.store.table
    ensures var l := RowLock(k, s.store.table[k]);
            Reg.KeyOf(l) in s.reg.entries ==> s.reg.entries[Reg.KeyOf(l)].index <= l.index
  {
    var l := RowLock(k, s.store.table[k]);
    if Reg.KeyOf(l) in s.reg.entries {
      assert Reg.EntryLive(s.reg, Reg.KeyOf(l));
      assert CheckerOnTime(s, s.reg.entries[Reg.KeyOf(l)].chan);
      assert RowIsLast(s.store, k);
    }
  }

  /** A second undisturbed pass over the same table starts no checker and closes no channel, in
      whatever order it gets the rows and whether it gets all of them or not. */
  lemma SecondPassIsSilent(r: Run, locks: seq<DbLock>, r2: Run, locks2: seq<DbLock>)
    requires IsPass(r, locks) && Enumerates(r.states[0].store.table, [], locks)
    requires IsPass(r2, locks2) && r2.states[0] == r.states[|locks| + 1]
    ensures r2.states[|locks2| + 1].reg == r.states[|locks| + 1].reg
  {
    PassRegistersAll(r, locks);
    PassRegistersAll(r2, locks2);
    var g, t := r2.states[0].reg, r.states[0].store.table;
    Reg.ScanCovers(r.states[0].reg, locks);
    assert r2.events[0] == ScanFetch(locks2);
    forall l | l in locks2 ensures Reg.Covers(g, l) {
      assert FetchTx(t, l.resource.key) == Ok(l);
      assert l.resource.key in SelectedKeys(t, []);
    }
    Reg.CoveredScanIsNoop(g, locks2);
  }

  /** A check that is over although the row still is the version it was to check ended on a database
      error. Wherever and whenever such a state arises, the next undisturbed pass starts a new
      checker for the same version. */
  lemma FailedCheckIsRegisteredAgain(r: Run, c: nat, l: DbLock, locks: seq<DbLock>)
    requires IsPass(r, locks) && Protocol.Inv(r.states[0]) && Enumerates(r.states[0].store.table, [], locks)
    requires InPhase(r.states[0], c, Reg.Done) && LockOf(r.states[0], c) == l
    requires RowAt(r.states[0], l.resource.key) == Some(LockRow(l))
    ensures InPhase(Last(r), c, Reg.Done)
    ensures EntryAt(Last(r), Reg.KeyOf(l)).Some?
    ensures var e := EntryAt(Last(r), Reg.KeyOf(l)).value;
            e.index == l.index && e.chan != c && Reg.Unfinished(Last(r).reg, e.chan) && LockOf(Last(r), e.chan) == l
  {
    assert CheckerOnTime(r.states[0], c);
    CurrentVersionIsRow(r.states[0].store, l);
    PassRecovers(r, locks);
    RunKeepsInv(r, |locks| + 1);
    PassRegistersAll(r, locks);
    Reg.ScanKeepsCheckers(r.states[0].reg, locks, c);
    EntryOfRowChecksIt(Last(r), l);
  }

  /** An entry of a row's index belongs to a checker of that very row. */
  lemma EntryOfRowChecksIt(s: State, l: DbLock)
    requires Protocol.Inv(s) && l.resource.key in s.store.table
    requires RowLock(l.resource.key, s.store.table[l.resource.key]) == l
    requires EntryAt(s, Reg.KeyOf(l)).Some? && EntryAt(s, Reg.KeyOf(l)).value.index == l.index
    ensures var d := EntryAt(s, Reg.KeyOf(l)).value.chan;
            Reg.Unfinished(s.reg, d) && LockOf(s, d) == l
  {
    assert Reg.EntryLive(s.reg, Reg.KeyOf(l));
    var d := EntryAt(s, Reg.KeyOf(l)).value.chan;
    assert CheckerOnTime(s, d);
    CurrentVersionIsRow(s.store, LockOf(s, d));
  }

  /** How such a state arises: a database error ends the check and changes no row. */
  lemma FailedCheckLeavesRow(r: Run, c: nat)
    requires IsRun(r) && (r.events == [FetchFails(c), Cleanup(c)] || r.events == [ReleaseFails(c), Cleanup(c)])
    ensures c in r.states[0].reg.checkers && InPhase(Last(r), c, Reg.Done)
    ensures LockOf(Last(r), c) == LockOf(r.states[0], c)
    ensures Last(r).store == r.states[0].store
  {
    assert r.states[1] == Apply(r.states[0], r.events[0]);
    assert r.states[2] == Apply(r.states[1], r.events[1]);
  }
}
