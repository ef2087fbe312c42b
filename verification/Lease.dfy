/**
 What the protocol promises lease holders, over all runs: which commits a version can name, what an
 expiry can delete, and when a renewed lease is safe.
 */
module Lease {
  import opened Models
  import opened LockTable
  import opened Versions
  import opened Protocol
  import Reg = Registry

  // ---------------------------------------------------------------- versions name commits

  /** What a Lock call commits in this step. */
  function Commits(s: State, e: Event): Option<DbLock> {
    if e.LockCall? && HandleLock(s.store.table, e.req, e.guid).Ok?
    then Some(HandleLock(s.store.table, e.req, e.guid).value.1)
    else None
  }

  lemma StepHistory(s: State, e: Event)
    requires Versions.Inv(s.store) && Enabled(s, e)
    ensures var h, h' := s.store.history, Apply(s, e).store.history;
            if Commits(s, e).Some?
            then var l := Commits(s, e).value;
                 VersionOf(l) !in h && h' == h[VersionOf(l) := Commit(l.resource, l.ttl, s.now)]
            else h' == h
  {
    if Commits(s, e).Some? {
      LockMakesNewVersion(s.store, e.req, e.guid, s.now);
    }
  }

  lemma {:induction false} HistoryGrows(r: Run, i: nat, j: nat)
    requires IsRun(r) && Protocol.Inv(r.states[0]) && i <= j < |r.states|
    ensures Extends(r.states[i].store, r.states[j].store)
    decreases j - i
  {
    if i < j {
      HistoryGrows(r, i, j - 1);
      RunKeepsInv(r, j - 1);
      StepHistory(r.states[j - 1], r.events[j - 1]);
    }
  }

  /** A version that appears in the history was put there by a commit of a Lock call. */
  lemma {:induction false} VersionsComeFromCommits(r: Run, i: nat, j: nat, v: Version) returns (m: nat)
    requires IsRun(r) && Protocol.Inv(r.states[0]) && i <= j < |r.states|
    requires v !in r.states[i].store.history && v in r.states[j].store.history
    ensures i <= m < j && Commits(r.states[m], r.events[m]).Some?
    ensures VersionOf(Commits(r.states[m], r.events[m]).value) == v
    decreases j - i
  {
    RunKeepsInv(r, j - 1);
    StepHistory(r.states[j - 1], r.events[j - 1]);
    if v in r.states[j - 1].store.history {
      m := VersionsComeFromCommits(r, i, j - 1, v);
    } else {
      m := j - 1;
    }
  }

  /** Two commits of a run never share a version. Commits that share an id are of one key and one
      owner and come in rising order of index. */
  lemma CommitsAreUnique(r: Run, i: nat, j: nat)
    requires IsRun(r) && Protocol.Inv(r.states[0]) && i < j < |r.events|
    requires Commits(r.states[i], r.events[i]).Some? && Commits(r.states[j], r.events[j]).Some?
    ensures var a, b := Commits(r.states[i], r.events[i]).value, Commits(r.states[j], r.events[j]).value;
            && VersionOf(a) != VersionOf(b)
            && (a.id == b.id ==>
                  && a.resource.key == b.resource.key && a.resource.owner == b.resource.owner
                  && a.index < b.index)
  {
    var a, b := Commits(r.states[i], r.events[i]).value, Commits(r.states[j], r.events[j]).value;
    var st := r.states[j].store;
    RunKeepsInv(r, i);
    RunKeepsInv(r, j);
    StepHistory(r.states[i], r.events[i]);
    HistoryGrows(r, i + 1, j);
    assert VersionOf(a) in st.history;
    LockMakesNewVersion(st, r.events[j].req, r.events[j].guid, r.states[j].now);
    if a.id == b.id {
      assert VersionWellFormed(st, VersionOf(a));
      var k := b.resource.key;
      assert RowWellFormed(st, k) && RowIsLast(st, k);
      assert SameHolder(st, VersionOf(a), VersionOf(RowLock(k, st.table[k])));
    }
  }

  /** Successive commits on one id raise the index by exactly one. */
  lemma SuccessiveCommitsAddOne(r: Run, i: nat, j: nat)
    requires IsRun(r) && Protocol.Inv(r.states[0]) && i < j < |r.events|
    requires Commits(r.states[i], r.events[i]).Some? && Commits(r.states[j], r.events[j]).Some?
    requires var id := Commits(r.states[i], r.events[i]).value.id;
             && Commits(r.states[j], r.events[j]).value.id == id
             && (forall m :: i < m < j && Commits(r.states[m], r.events[m]).Some? ==>
                   Commits(r.states[m], r.events[m]).value.id != id)
    ensures Commits(r.states[j], r.events[j]).value.index == Commits(r.states[i], r.events[i]).value.index + 1
  {
    var a, b := Commits(r.states[i], r.events[i]).value, Commits(r.states[j], r.events[j]).value;
    CommitsAreUnique(r, i, j);
    CommitIsLastOfId(r, i, a);
    CommitFollowsPredecessor(r, j, b);
    if b.index > a.index + 1 {
      var m := VersionsComeFromCommits(r, i + 1, j, VersionOf(b).(index := b.index - 1));
    }
  }

  lemma CommitIsLastOfId(r: Run, i: nat, l: DbLock)
    requires IsRun(r) && Protocol.Inv(r.states[0]) && i < |r.events|
    requires Commits(r.states[i], r.events[i]) == Some(l)
    ensures l.index >= 1
    ensures forall v :: v in r.states[i + 1].store.history && v.id == l.id ==> v.index <= l.index
  {
    RunKeepsInv(r, i);
    RunKeepsInv(r, i + 1);
    LockMakesNewVersion(r.states[i].store, r.events[i].req, r.events[i].guid, r.states[i].now);
    assert RowIsLast(r.states[i + 1].store, l.resource.key);
    assert VersionWellFormed(r.states[i + 1].store, VersionOf(l));
  }

  lemma CommitFollowsPredecessor(r: Run, i: nat, l: DbLock)
    requires IsRun(r) && Protocol.Inv(r.states[0]) && i < |r.events|
    requires Commits(r.states[i], r.events[i]) == Some(l)
    ensures l.index > 1 ==> VersionOf(l).(index := l.index - 1) in r.states[i].store.history
  {
    RunKeepsInv(r, i);
    LockMakesNewVersion(r.states[i].store, r.events[i].req, r.events[i].guid, r.states[i].now);
    if l.resource.key in r.states[i].store.table {
      assert RowWellFormed(r.states[i].store, l.resource.key);
    }
  }

  function RowAt(s: State, k: GoString): Option<Row> {
    if k in s.store.table then Some(s.store.table[k]) else None
  }

  predicate HeldBy(s: State, k: GoString, o: GoString) {
    k in s.store.table && s.store.table[k].owner == o
  }

  /** No single event hands a key from one owner to another. */
  lemma StepKeepsOwner(s: State, e: Event, k: GoString)
    requires Versions.Inv(s.store) && Enabled(s, e)
    requires RowAt(s, k).Some? && RowAt(Apply(s, e), k).Some?
    ensures RowAt(Apply(s, e), k).value.owner == RowAt(s, k).value.owner
  {
    if Commits(s, e).Some? {
      LockMakesNewVersion(s.store, e.req, e.guid, s.now);
    }
  }

  lemma RunStepKeepsOwner(r: Run, i: nat, k: GoString)
    requires IsRun(r) && Protocol.Inv(r.states[0]) && i < |r.events|
    ensures RowAt(r.states[i], k).Some? && RowAt(r.states[i + 1], k).Some? ==>
              RowAt(r.states[i], k).value.owner == RowAt(r.states[i + 1], k).value.owner
  {
    RunKeepsInv(r, i);
    if RowAt(r.states[i], k).Some? && RowAt(r.states[i + 1], k).Some? {
      StepKeepsOwner(r.states[i], r.events[i], k);
    }
  }

  /** A key changes hands only by way of a state in which nobody holds it. */
  lemma {:induction false} OwnerChangesThroughAbsence(r: Run, i: nat, j: nat, k: GoString) returns (m: nat)
    requires IsRun(r) && Protocol.Inv(r.states[0]) && i <= j < |r.states|
    requires RowAt(r.states[i], k).Some? && RowAt(r.states[j], k).Some?
    requires RowAt(r.states[i], k).value.owner != RowAt(r.states[j], k).value.owner
    ensures i < m < j && RowAt(r.states[m], k).None?
    decreases j - i
  {
    RunStepKeepsOwner(r, j - 1, k);
    if RowAt(r.states[j - 1], k).None? {
      m := j - 1;
    } else {
      m := OwnerChangesThroughAbsence(r, i, j - 1, k);
    }
  }

  // ---------------------------------------------------------------- what an expiry deletes

  /** A client's Release, in every state: the row of the key is gone afterwards if and only if the
      requester held it or there was none; nothing else changes, in the table or in memory. */
  lemma ReleaseTakesOwn(s: State, r: Resource)
    ensures var s' := Apply(s, ReleaseCall(r));
            && (RowAt(s', r.key).None? <==> HeldBy(s, r.key, r.owner) || RowAt(s, r.key).None?)
            && (RowAt(s', r.key).Some? ==> RowAt(s', r.key) == RowAt(s, r.key))
            && (forall k :: k != r.key ==> RowAt(s', k) == RowAt(s, k))
            && s'.store.guids == s.store.guids && s'.store.history == s.store.history
            && s'.reg == s.reg && s'.now == s.now && s'.inflight == s.inflight && s'.scan == s.scan
  {}

  /** Whatever happened since its Fetch, a checker's Release deletes at most the row of the
      registered key, and only if the registered owner holds it. */
  lemma ExpiryDeletesOnlyOwn(s: State, c: nat)
    requires Enabled(s, ExpiryRelease(c))
    ensures var s' := Apply(s, ExpiryRelease(c));
            var l := LockOf(s, c);
            && (forall k :: RowAt(s', k) != RowAt(s, k) ==> k == l.resource.key && HeldBy(s, k, l.resource.owner))
            && (HeldBy(s, l.resource.key, l.resource.owner) <==>
                RowAt(s, l.resource.key).Some? && RowAt(s', l.resource.key).None?)
  {}

  /** Only its own Fetch makes a checker matched. */
  lemma CheckerFate(s: State, e: Event, c: nat)
    requires Enabled(s, e) && InPhase(Apply(s, e), c, Reg.Matched)
    ensures c in s.reg.checkers && LockOf(s, c) == LockOf(Apply(s, e), c)
    ensures InPhase(s, c, Reg.Matched) || (e == FetchCheck(c) && StillCurrent(s.store.table, LockOf(s, c)))
  {
    if IsCheckerEvent(e) && e.c != c {
      assert Apply(s, e).reg.checkers[c] == s.reg.checkers[c];
    }
  }

  /** A matched checker comes from a Fetch that answered the registered version. */
  lemma {:induction false} MatchedCameFromFetch(r: Run, j: nat, c: nat) returns (i: nat)
    requires FromStart(r) && j < |r.states| && InPhase(r.states[j], c, Reg.Matched)
    ensures i < j && r.events[i] == FetchCheck(c)
    ensures c in r.states[i].reg.checkers && LockOf(r.states[i], c) == LockOf(r.states[j], c)
    ensures StillCurrent(r.states[i].store.table, LockOf(r.states[i], c))
  {
    CheckerFate(r.states[j - 1], r.events[j - 1], c);
    if InPhase(r.states[j - 1], c, Reg.Matched) {
      i := MatchedCameFromFetch(r, j - 1, c);
    } else {
      i := j - 1;
    }
  }

  ghost predicate NoCommitOn(r: Run, i: nat, j: nat, k: GoString)
    requires IsRun(r) && i <= j < |r.states|
  {
    forall m :: i <= m < j ==> RowAt(r.states[m + 1], k) == RowAt(r.states[m], k)
  }

  lemma {:induction false} RowUnchanged(r: Run, i: nat, j: nat, k: GoString)
    requires IsRun(r) && i <= j < |r.states| && NoCommitOn(r, i, j, k)
    ensures RowAt(r.states[j], k) == RowAt(r.states[i], k)
    decreases j - i
  {
    if i < j {
      RowUnchanged(r, i, j - 1, k);
    }
  }

  /** Every Release that a checker issues follows a Fetch of its own. If nothing committed on the
      key in between, it deletes exactly the registered version, not before that version's lease
      was over. */
  lemma ExpiryIsPrecise(r: Run, j: nat) returns (i: nat)
    requires FromStart(r) && j < |r.events| && r.events[j].ExpiryRelease?
    ensures var s, c := r.states[j], r.events[j].c;
            && i < j && r.events[i] == FetchCheck(c)
            && (NoCommitOn(r, i, j, LockOf(s, c).resource.key) ==>
                  var l := LockOf(s, c);
                  && RowAt(s, l.resource.key) == Some(LockRow(l))
                  && RowAt(r.states[j + 1], l.resource.key) == None
                  && VersionOf(l) in s.store.history
                  && s.now >= Deadline(s.store, VersionOf(l)))
  {
    var s, c := r.states[j], r.events[j].c;
    i := MatchedCameFromFetch(r, j, c);
    InitInv();
    RunKeepsInv(r, i);
    RunKeepsInv(r, j);
    assert CheckerOnTime(s, c);
    if NoCommitOn(r, i, j, LockOf(s, c).resource.key) {
      RowUnchanged(r, i, j, LockOf(s, c).resource.key);
      CurrentVersionIsRow(s.store, LockOf(s, c));
    }
  }

  /** The lease lasts exactly the requested ttl, unless the ttl overflows a time.Duration. */
  lemma DeadlineIsTtl(st: Store, v: Version)
    requires Versions.Inv(st) && v in st.history && st.history[v].ttl < TWO_63
    ensures Deadline(st, v) >= st.history[v].at + st.history[v].ttl * Reg.SECOND <==> st.history[v].ttl <= Reg.MAX_TTL
    ensures st.history[v].ttl <= Reg.MAX_TTL ==> Deadline(st, v) == st.history[v].at + st.history[v].ttl * Reg.SECOND
  {
    assert VersionWellFormed(st, v);
    Reg.TimerDurationExact(st.history[v].ttl);
  }

  /** With a ttl that overflows into the past, the lease is over the moment it is committed. */
  lemma OverflowedLeaseIsOver(s: State, e: Event)
    requires Versions.Inv(s.store) && Enabled(s, e) && Commits(s, e).Some?
    ensures var l := Commits(s, e).value;
            Reg.TimerDuration(l.ttl) <= 0 <==> !Timely(Apply(s, e), l.resource.key, l.resource.owner)
  {
    LockMakesNewVersion(s.store, e.req, e.guid, s.now);
  }

  // ---------------------------------------------------------------- a renewed lease is safe

  /** No checker stands between a Fetch that matched and its Release for this key and owner. */
  ghost predicate NoPendingExpiry(s: State, k: GoString, o: GoString) {
    forall c :: InPhase(s, c, Reg.Matched) ==> !(LockOf(s, c).resource.key == k && LockOf(s, c).resource.owner == o)
  }

  /** While the owner holds the key, the lease of the current version is not over. */
  ghost predicate Timely(s: State, k: GoString, o: GoString) {
    HeldBy(s, k, o) ==>
      var v := VersionOf(RowLock(k, s.store.table[k]));
      v in s.store.history && s.now < Deadline(s.store, v)
  }

  predicate ExpiryTakes(s: State, e: Event, k: GoString, o: GoString)
    requires Enabled(s, e)
  {
    e.ExpiryRelease? && HeldBy(s, k, o) && !HeldBy(Apply(s, e), k, o)
  }

  /** One step: with the lease running, no checker comes to match it. */
  lemma TimelyKeepsNoPending(s: State, e: Event, k: GoString, o: GoString)
    requires Versions.Inv(s.store) && CheckersOnTime(s) && Enabled(s, e)
    requires NoPendingExpiry(s, k, o) && Timely(s, k, o)
    ensures NoPendingExpiry(Apply(s, e), k, o)
    ensures !ExpiryTakes(s, e, k, o)
  {
    var s' := Apply(s, e);
    forall c | InPhase(s', c, Reg.Matched)
      ensures !(LockOf(s', c).resource.key == k && LockOf(s', c).resource.owner == o)
    {
      CheckerFate(s, e, c);
      if !InPhase(s, c, Reg.Matched) {
        assert CheckerOnTime(s, c);
        CurrentVersionIsRow(s.store, LockOf(s, c));
      }
    }
  }

  /** A step other than the owner's own release leaves a running lease in its holder's hands. */
  lemma TimelyKeepsHolding(s: State, e: Event, k: GoString, o: GoString)
    requires Versions.Inv(s.store) && CheckersOnTime(s) && Enabled(s, e)
    requires NoPendingExpiry(s, k, o) && Timely(s, k, o) && HeldBy(s, k, o)
    requires e.ReleaseCall? ==> !(e.r.key == k && e.r.owner == o)
    ensures HeldBy(Apply(s, e), k, o)
  {
    TimelyKeepsNoPending(s, e, k, o);
    if Commits(s, e).Some? {
      LockMakesNewVersion(s.store, e.req, e.guid, s.now);
    }
  }

  ghost predicate AllTimely(r: Run, k: GoString, o: GoString) {
    forall i :: 0 <= i < |r.states| ==> Timely(r.states[i], k, o)
  }

  ghost predicate NeverTaken(r: Run, k: GoString, o: GoString)
    requires IsRun(r)
  {
    forall i :: 0 <= i < |r.events| ==> !ExpiryTakes(r.states[i], r.events[i], k, o)
  }

  lemma {:induction false} NoPendingThroughout(r: Run, k: GoString, o: GoString, i: nat)
    requires IsRun(r) && Protocol.Inv(r.states[0]) && NoPendingExpiry(r.states[0], k, o) && AllTimely(r, k, o)
    requires i < |r.states|
    ensures NoPendingExpiry(r.states[i], k, o)
  {
    if i > 0 {
      NoPendingThroughout(r, k, o, i - 1);
      RunKeepsInv(r, i - 1);
      TimelyKeepsNoPending(r.states[i - 1], r.events[i - 1], k, o);
    }
  }

  /** Timely renewal. Over every interleaving of handlers, checkers, delayed registrations, scans
      and restarts: an owner with no expiry of its lease in flight, whose lease is always renewed
      before it is over, never loses the row to an expiry. */
  lemma TimelyRenewalIsSafe(r: Run, k: GoString, o: GoString)
    requires IsRun(r) && Protocol.Inv(r.states[0]) && NoPendingExpiry(r.states[0], k, o)
    requires AllTimely(r, k, o)
    ensures NeverTaken(r, k, o)
  {
    forall i | 0 <= i < |r.events| ensures !ExpiryTakes(r.states[i], r.events[i], k, o) {
      NoPendingThroughout(r, k, o, i);
      RunKeepsInv(r, i);
      TimelyKeepsNoPending(r.states[i], r.events[i], k, o);
    }
  }

  /** The condition is exact: from a state in which the owner holds a running lease, timely
      renewal protects the lease in every continuation if and only if no expiry is in flight. */
  lemma TimelyRenewalIsSafeIff(s: State, k: GoString, o: GoString)
    requires Protocol.Inv(s) && HeldBy(s, k, o) && Timely(s, k, o)
    ensures NoPendingExpiry(s, k, o) <==>
            forall r :: IsRun(r) && r.states[0] == s && AllTimely(r, k, o) ==> NeverTaken(r, k, o)
  {
    if NoPendingExpiry(s, k, o) {
      forall r | IsRun(r) && r.states[0] == s && AllTimely(r, k, o) ensures NeverTaken(r, k, o) {
        TimelyRenewalIsSafe(r, k, o);
      }
    } else {
      var c :| InPhase(s, c, Reg.Matched) && LockOf(s, c).resource.key == k && LockOf(s, c).resource.owner == o;
      PendingExpiryTakes(s, c, k, o);
    }
  }

  lemma PendingExpiryTakes(s: State, c: nat, k: GoString, o: GoString)
    requires HeldBy(s, k, o) && Timely(s, k, o)
    requires InPhase(s, c, Reg.Matched) && LockOf(s, c).resource.key == k && LockOf(s, c).resource.owner == o
    ensures exists r :: IsRun(r) && r.states[0] == s && AllTimely(r, k, o) && !NeverTaken(r, k, o)
  {
    var e := ExpiryRelease(c);
    var r := Run([s, Apply(s, e)], [e]);
    assert ExpiryTakes(r.states[0], r.events[0], k, o);
    assert IsRun(r) && AllTimely(r, k, o) && !NeverTaken(r, k, o);
  }
}
