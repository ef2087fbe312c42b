/**
 No row is forgotten: what every run keeps about a row and its checks, and the failures without which
 the burglar would never be needed (expiration/lock_pick.go, expiration/burglar.go).
 */
module Coverage {
  import opened Models
  import opened LockTable
  import opened Versions
  import opened Protocol
  import opened Lease
  import opened Expiration
  import Reg = Registry

  predicate IsOver(s: State, c: nat) {
    InPhase(s, c, Reg.Finishing) || InPhase(s, c, Reg.Done)
  }

  /** The row of the key, if any, is not the version `l`. */
  predicate MovedOn(s: State, l: DbLock) {
    var k := l.resource.key;
    k in s.store.table ==> !(s.store.table[k].id == l.id && s.store.table[k].index == l.index)
  }

  predicate Settled(s: State, c: nat) {
    IsOver(s, c) ==> MovedOn(s, LockOf(s, c))
  }

  predicate Fails(e: Event, c: nat) {
    e == FetchFails(c) || e == ReleaseFails(c)
  }

  /** A version that was committed before never becomes the row again. */
  lemma MovedOnForGood(s: State, e: Event, l: DbLock)
    requires Versions.Inv(s.store) && Enabled(s, e) && Committed(s.store, l) && MovedOn(s, l)
    ensures MovedOn(Apply(s, e), l)
  {
    if Commits(s, e).Some? {
      LockMakesNewVersion(s.store, e.req, e.guid, s.now);
    }
  }

  /** The checker's own event that ends its check, other than a failure. */
  lemma OwnStepSettles(s: State, e: Event, c: nat)
    requires Protocol.Inv(s) && Enabled(s, e) && IsCheckerEvent(e) && e.c == c && !Fails(e, c)
    requires !IsOver(s, c) && IsOver(Apply(s, e), c)
    ensures MovedOn(Apply(s, e), LockOf(s, c))
  {
    var l := LockOf(s, c);
    assert CheckerOnTime(s, c);
    if l.resource.key in s.store.table && !MovedOn(s, l) {
      assert RowWellFormed(s.store, l.resource.key);
      CurrentVersionIsRow(s.store, l);
      CurrentIsNotClosed(s, c);
    }
  }

  lemma SettledStep(s: State, e: Event, c: nat)
    requires Protocol.Inv(s) && Enabled(s, e) && !Fails(e, c) && Settled(s, c)
    ensures Settled(Apply(s, e), c)
  {
    var s' := Apply(s, e);
    if IsOver(s', c) {
      if IsCheckerEvent(e) && e.c == c {
        assert CheckerOnTime(s, c);
        if IsOver(s, c) {
          MovedOnForGood(s, e, LockOf(s, c));
        } else {
          OwnStepSettles(s, e, c);
        }
      } else {
        OverBefore(s, e, c);
        assert CheckerOnTime(s, c);
        MovedOnForGood(s, e, LockOf(s, c));
      }
    }
  }

  lemma OverBefore(s: State, e: Event, c: nat)
    requires Enabled(s, e) && !(IsCheckerEvent(e) && e.c == c) && IsOver(Apply(s, e), c)
    ensures IsOver(s, c) && LockOf(s, c) == LockOf(Apply(s, e), c)
  {
    if IsCheckerEvent(e) {
      assert Apply(s, e).reg.checkers[c] == s.reg.checkers[c];
    } else if e.HandlerRegister? || e.ScanRegister? {
      assert c != s.reg.next || Apply(s, e).reg == s.reg;
    } else {
      assert e == Restart || Apply(s, e).reg == s.reg;
    }
  }

  lemma {:induction false} SettledThroughout(r: Run, c: nat, i: nat)
    requires FromStart(r) && i < |r.states|
    requires forall m :: 0 <= m < i ==> !Fails(r.events[m], c)
    ensures Settled(r.states[i], c)
  {
    if i > 0 {
      SettledThroughout(r, c, i - 1);
      InitInv();
      RunKeepsInv(r, i - 1);
      SettledStep(r.states[i - 1], r.events[i - 1], c);
    }
  }

  /** In every run: a check that is over while the row still is the version it was to check had a
      database error. Cancellation and a row that moved on are the only other ways to end. */
  lemma UnsettledCheckFailed(r: Run, c: nat, i: nat) returns (m: nat)
    requires FromStart(r) && i < |r.states| && IsOver(r.states[i], c) && !MovedOn(r.states[i], LockOf(r.states[i], c))
    ensures m < i && Fails(r.events[m], c)
  {
    if j :| 0 <= j < i && Fails(r.events[j], c) {
      m := j;
    } else {
      SettledThroughout(r, c, i);
      assert false;
    }
  }

  /** A handler is about to register the row's version, or an entry of exactly its index exists. */
  predicate Remembered(s: State, k: GoString)
    requires k in s.store.table
  {
    var l := RowLock(k, s.store.table[k]);
    l in s.inflight || (EntryAt(s, Reg.KeyOf(l)).Some? && EntryAt(s, Reg.KeyOf(l)).value.index == l.index)
  }

  // ---------------------------------------------------------------- what remembering is

  predicate IsRow(s: State, l: DbLock) {
    l.resource.key in s.store.table && RowLock(l.resource.key, s.store.table[l.resource.key]) == l
  }

  predicate Checks(s: State, c: nat, l: DbLock) {
    Reg.Unfinished(s.reg, c) && LockOf(s, c) == l
  }

  /** A row is remembered exactly when its handler is about to register it or an unfinished checker
      of this very version exists. */
  lemma RememberedIffChecked(s: State, l: DbLock)
    requires Protocol.Inv(s) && IsRow(s, l)
    ensures Remembered(s, l.resource.key) <==> l in s.inflight || exists c :: Checks(s, c, l)
  {
    if Remembered(s, l.resource.key) && l !in s.inflight {
      EntryOfRowChecksIt(s, l);
      assert Checks(s, EntryAt(s, Reg.KeyOf(l)).value.chan, l);
    }
    forall c | Checks(s, c, l) ensures Remembered(s, l.resource.key) {
      assert RowAt(s, l.resource.key) == Some(LockRow(l));
      CurrentCheckerOwnsEntry(s, c);
    }
  }

  // ---------------------------------------------------------------- no row is forgotten

  lemma RegisterRemembers(s: State, l: DbLock, s': State, k: GoString)
    requires Protocol.Inv(s') && s'.store == s.store && s'.reg == Reg.Register(s.reg, l) && k in s.store.table
    requires Remembered(s, k)
    requires var row := RowLock(k, s.store.table[k]);
             row == l || (row in s.inflight ==> row in s'.inflight)
    ensures Remembered(s', k)
  {
    EntryNotAhead(s', k);
  }

  lemma CleanupRemembers(s: State, c: nat, k: GoString)
    requires Enabled(s, Event.Cleanup(c)) && k in s.store.table && Remembered(s, k)
    requires VersionOf(LockOf(s, c)) != VersionOf(RowLock(k, s.store.table[k]))
    ensures Remembered(Apply(s, Event.Cleanup(c)), k)
  {}

  /** The events that can make the service forget the version `l`. */
  predicate Endangers(s: State, e: Event, l: DbLock) {
    || e == Restart
    || ((e.FetchFails? || e.ReleaseFails?) && e.c in s.reg.checkers && LockOf(s, e.c) == l)
  }

  /** None of them happens between the m-th event and the i-th state. */
  ghost predicate NoDanger(r: Run, m: nat, i: nat, l: DbLock)
    requires IsRun(r) && i < |r.states|
  {
    forall j {:trigger r.events[j]} :: m < j < i ==> !Endangers(r.states[j], r.events[j], l)
  }

  /** No check of `l` is over. */
  ghost predicate NoneOver(s: State, l: DbLock) {
    forall c {:trigger IsOver(s, c)} :: IsOver(s, c) ==> LockOf(s, c) != l
  }

  lemma OverIsOther(s: State, e: Event, l: DbLock, c: nat)
    requires Protocol.Inv(s) && Enabled(s, e) && !Endangers(s, e, l) && !MovedOn(Apply(s, e), l)
    requires IsOver(s, c) ==> LockOf(s, c) != l
    requires IsOver(Apply(s, e), c)
    ensures LockOf(Apply(s, e), c) != l
  {
    if IsCheckerEvent(e) && e.c == c {
      if !IsOver(s, c) && LockOf(s, c) == l {
        OwnStepSettles(s, e, c);
      }
    } else {
      OverBefore(s, e, c);
    }
  }

  lemma NoneOverStep(s: State, e: Event, l: DbLock)
    requires Protocol.Inv(s) && Enabled(s, e) && !Endangers(s, e, l) && NoneOver(s, l) && IsRow(Apply(s, e), l)
    ensures NoneOver(Apply(s, e), l)
  {
    var s' := Apply(s, e);
    forall c | IsOver(s', c) ensures LockOf(s', c) != l {
      assert IsOver(s, c) ==> LockOf(s, c) != l;
      OverIsOther(s, e, l, c);
    }
  }

  lemma StepRemembers(s: State, e: Event, l: DbLock)
    requires Protocol.Inv(s) && Enabled(s, e) && !Endangers(s, e, l) && NoneOver(s, l)
    requires IsRow(s, l) && IsRow(Apply(s, e), l) && Remembered(s, l.resource.key)
    ensures Remembered(Apply(s, e), l.resource.key)
  {
    var k := l.resource.key;
    if e.HandlerRegister? || e.ScanRegister? {
      StepKeepsInv(s, e);
      RegisterRemembers(s, if e.HandlerRegister? then e.l else s.scan[0], Apply(s, e), k);
    } else if e.Cleanup? {
      assert CheckerOnTime(s, e.c) && IsOver(s, e.c);
      if VersionOf(LockOf(s, e.c)) == VersionOf(l) {
        CurrentVersionIsRow(s.store, LockOf(s, e.c));
      } else {
        CleanupRemembers(s, e.c, k);
      }
    }
  }

  /** The commit itself: the handler is about to register a version that nobody has checked. */
  lemma CommitIsRemembered(s: State, e: Event, s': State, l: DbLock)
    requires Protocol.Inv(s) && Enabled(s, e) && s' == Apply(s, e) && Commits(s, e) == Some(l)
    ensures Kept(s', l)
  {
    LockMakesNewVersion(s.store, e.req, e.guid, s.now);
    forall c | IsOver(s', c) ensures LockOf(s', c) != l {
      assert CheckerOnTime(s, c);
    }
  }

  /** A committed version that is the row now has been the row since it was committed. */
  lemma {:induction false} RowSince(r: Run, j: nat, i: nat, l: DbLock)
    requires IsRun(r) && Protocol.Inv(r.states[0]) && j <= i < |r.states|
    requires Committed(r.states[j].store, l) && IsRow(r.states[i], l)
    ensures IsRow(r.states[j], l)
    decreases i - j
  {
    RunKeepsInv(r, j);
    if j < i {
      HistoryGrows(r, j, j + 1);
      RowSince(r, j + 1, i, l);
      if MovedOn(r.states[j], l) {
        MovedOnForGood(r.states[j], r.events[j], l);
      } else {
        CurrentVersionIsRow(r.states[j].store, l);
      }
    }
  }

  lemma RowBefore(r: Run, m: nat, i: nat, l: DbLock)
    requires IsRun(r) && Protocol.Inv(r.states[0]) && m + 1 < i < |r.states|
    requires Committed(r.states[m + 1].store, l) && IsRow(r.states[i], l)
    ensures IsRow(r.states[i - 1], l)
  {
    HistoryGrows(r, m + 1, i - 1);
    RowSince(r, i - 1, i, l);
  }

  ghost predicate Kept(s: State, l: DbLock) {
    IsRow(s, l) && Remembered(s, l.resource.key) && NoneOver(s, l)
  }

  lemma KeptStep(s: State, e: Event, s': State, l: DbLock)
    requires Protocol.Inv(s) && Enabled(s, e) && s' == Apply(s, e) && IsRow(s', l)
    requires !Endangers(s, e, l) && Kept(s, l)
    ensures Kept(s', l)
  {
    NoneOverStep(s, e, l);
    StepRemembers(s, e, l);
  }

  lemma KeptNext(r: Run, m: nat, i: nat, l: DbLock)
    requires IsRun(r) && m + 1 < i < |r.states| && NoDanger(r, m, i, l)
    requires Protocol.Inv(r.states[i - 1]) && Kept(r.states[i - 1], l) && IsRow(r.states[i], l)
    ensures Kept(r.states[i], l)
  {
    var e := r.events[i - 1];
    KeptStep(r.states[i - 1], e, r.states[i], l);
  }

  lemma {:induction false} KeptSince(r: Run, m: nat, i: nat, l: DbLock)
    requires IsRun(r) && Protocol.Inv(r.states[0]) && m < i < |r.states| && NoDanger(r, m, i, l)
    requires Committed(r.states[m + 1].store, l) && Kept(r.states[m + 1], l) && IsRow(r.states[i], l)
    ensures Kept(r.states[i], l)
  {
    if i > m + 1 {
      RowBefore(r, m, i, l);
      KeptSince(r, m, i - 1, l);
      RunKeepsInv(r, i - 1);
      KeptNext(r, m, i, l);
    }
  }

  lemma CommittedSince(r: Run, m: nat, j: nat, l: DbLock)
    requires IsRun(r) && Protocol.Inv(r.states[0]) && m < j < |r.states|
    requires Commits(r.states[m], r.events[m]) == Some(l)
    ensures Committed(r.states[j].store, l)
  {
    RunKeepsInv(r, m);
    StepHistory(r.states[m], r.events[m]);
    HistoryGrows(r, m + 1, j);
  }

  /** No row is forgotten. In every run: a row whose version `l` was committed by the m-th event is
      about to be registered by its handler, or has an entry of exactly its index, unless the service
      was restarted since or a query of a check of this very version failed. The burglar is needed for
      nothing else. */
  lemma NoRowIsForgotten(r: Run, m: nat, i: nat, l: DbLock)
    requires IsRun(r) && Protocol.Inv(r.states[0]) && m < i < |r.states|
    requires Commits(r.states[m], r.events[m]) == Some(l) && IsRow(r.states[i], l)
    requires NoDanger(r, m, i, l)
    ensures Remembered(r.states[i], l.resource.key)
  {
    RunKeepsInv(r, m);
    CommitIsRemembered(r.states[m], r.events[m], r.states[m + 1], l);
    CommittedSince(r, m, m + 1, l);
    KeptSince(r, m, i, l);
  }

  /** Every row of a run from the start was committed by one of its events. */
  lemma RowCameFromCommit(r: Run, i: nat, l: DbLock) returns (m: nat)
    requires FromStart(r) && i < |r.states| && IsRow(r.states[i], l)
    ensures m < i && Commits(r.states[m], r.events[m]) == Some(l)
  {
    InitInv();
    RunKeepsInv(r, i);
    assert RowWellFormed(r.states[i].store, l.resource.key);
    m := VersionsComeFromCommits(r, 0, i, VersionOf(l));
    CommittedSince(r, m, i, Commits(r.states[m], r.events[m]).value);
  }

  // ---------------------------------------------------------------- and those failures do forget

  /** A restart forgets every row: it keeps the database and the clock, and nothing that was in memory. */
  lemma RestartForgets(s: State, k: GoString)
    requires k in s.store.table
    ensures var s' := Apply(s, Restart);
            && s'.store == s.store && s'.now == s.now
            && s'.reg.entries == map[] && s'.reg.checkers == map[] && s'.inflight == multiset{} && s'.scan == []
            && !Remembered(s', k)
  {}

  /** A failing query of a check of the row's version forgets the row with the checker's cleanup, unless
      the handler of the version is yet to register it. */
  lemma FailureForgets(s: State, c: nat, e: Event)
    requires Protocol.Inv(s) && Enabled(s, e) && Fails(e, c)
    requires IsRow(s, LockOf(s, c)) && LockOf(s, c) !in s.inflight
    ensures var s1 := Apply(s, e);
            && Enabled(s1, Event.Cleanup(c))
            && var s2 := Apply(s1, Event.Cleanup(c));
               IsRow(s2, LockOf(s, c)) && !Remembered(s2, LockOf(s, c).resource.key)
  {
    assert RowAt(s, LockOf(s, c).resource.key) == Some(LockRow(LockOf(s, c)));
    CurrentCheckerOwnsEntry(s, c);
  }
}
