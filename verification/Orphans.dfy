/**
 When a live checker loses its entry to another checker (expiration/lock_pick.go): the deferred
 cleanup removes whatever entry carries the index of the checker that runs it.
 */
module Orphans {
  import opened Models
  import opened Protocol
  import opened Expiration
  import Reg = Registry

  /** The checker owns the entry of its key. */
  predicate OwnsEntry(s: State, c: nat) {
    c in s.reg.checkers && EntryAt(s, Reg.KeyOf(LockOf(s, c))) == Some(Reg.Entry(c, LockOf(s, c).index))
  }

  /** Unfinished, not cancelled, and without an entry. */
  predicate Orphaned(s: State, c: nat) {
    Reg.Unfinished(s.reg, c) && c !in s.reg.closed && !OwnsEntry(s, c)
  }

  /** Another unfinished checker of the same key, id and index. */
  predicate Twin(s: State, c: nat, d: nat) {
    && d != c && c in s.reg.checkers && Reg.Unfinished(s.reg, d)
    && Reg.KeyOf(LockOf(s, d)) == Reg.KeyOf(LockOf(s, c)) && LockOf(s, d).index == LockOf(s, c).index
  }

  ghost predicate NoTwin(s: State, c: nat) {
    forall d :: !Twin(s, c, d)
  }

  /** The checker owns its entry and has no twin, or it is cancelled, done or of an earlier process. */
  ghost predicate Secure(s: State, c: nat) {
    || (OwnsEntry(s, c) && NoTwin(s, c))
    || c in s.reg.closed
    || !Reg.Unfinished(s.reg, c)
  }

  /** While an entry stands, no checker of its index is started. */
  lemma TwinWasThere(s: State, e: Event, c: nat, d: nat)
    requires Enabled(s, e) && OwnsEntry(s, c) && OwnsEntry(Apply(s, e), c) && c < s.reg.next
    requires Twin(Apply(s, e), c, d)
    ensures Twin(s, c, d)
  {
    if IsCheckerEvent(e) {
      assert e.c != d ==> Apply(s, e).reg.checkers[d] == s.reg.checkers[d];
      assert e.c != c ==> Apply(s, e).reg.checkers[c] == s.reg.checkers[c];
    } else if e.HandlerRegister? || e.ScanRegister? {
      assert d != s.reg.next || Apply(s, e).reg == s.reg;
    } else {
      assert e == Restart || Apply(s, e).reg == s.reg;
    }
  }

  lemma NoNewTwin(s: State, e: Event, c: nat)
    requires Enabled(s, e) && OwnsEntry(s, c) && OwnsEntry(Apply(s, e), c) && c < s.reg.next
    requires NoTwin(s, c)
    ensures NoTwin(Apply(s, e), c)
  {
    forall d | Twin(Apply(s, e), c, d) ensures Twin(s, c, d) {
      TwinWasThere(s, e, c, d);
    }
  }

  lemma OwnerStaysSecure(s: State, e: Event, c: nat)
    requires Reg.Inv(s.reg) && Enabled(s, e) && c < s.reg.next && OwnsEntry(s, c) && NoTwin(s, c)
    ensures Secure(Apply(s, e), c)
  {
    if OwnsEntry(Apply(s, e), c) {
      NoNewTwin(s, e, c);
    } else {
      EntryFate(s, e, Reg.KeyOf(LockOf(s, c)));
      if e.Cleanup? {
        assert !Twin(s, c, e.c);
      }
    }
  }

  lemma SecureStep(s: State, e: Event, c: nat)
    requires Reg.Inv(s.reg) && Enabled(s, e) && c < s.reg.next && Secure(s, c)
    ensures Secure(Apply(s, e), c) && c < Apply(s, e).reg.next
  {
    NextOnlyRises(s, e);
    if OwnsEntry(s, c) && NoTwin(s, c) {
      OwnerStaysSecure(s, e, c);
    } else {
      CancelledStaysSecure(s, e, c);
    }
  }

  lemma NextOnlyRises(s: State, e: Event)
    requires Enabled(s, e)
    ensures s.reg.next <= Apply(s, e).reg.next
  {}

  /** What is cancelled, done or of an earlier process stays so. */
  lemma CancelledStaysSecure(s: State, e: Event, c: nat)
    requires Enabled(s, e) && c < s.reg.next && (c in s.reg.closed || !Reg.Unfinished(s.reg, c))
    ensures c in Apply(s, e).reg.closed || !Reg.Unfinished(Apply(s, e).reg, c)
  {
    if IsCheckerEvent(e) && e.c != c {
      assert c in s.reg.checkers ==> Apply(s, e).reg.checkers[c] == s.reg.checkers[c];
    }
  }

  lemma {:induction false} SecureThroughout(r: Run, c: nat, i: nat)
    requires IsRun(r) && Protocol.Inv(r.states[0]) && i < |r.states|
    requires Secure(r.states[0], c) && c < r.states[0].reg.next
    ensures Secure(r.states[i], c) && c < r.states[i].reg.next
  {
    if i > 0 {
      SecureThroughout(r, c, i - 1);
      RunKeepsInv(r, i - 1);
      SecureStep(r.states[i - 1], r.events[i - 1], c);
    }
  }

  /** The timer of a checker is started, if need be, and runs out. */
  lemma RunOut(r: Run, d: nat) returns (r': Run)
    requires IsRun(r) && (InPhase(Last(r), d, Reg.Spawned) || IsWaiting(Last(r), d))
    ensures IsRun(r') && r'.states[0] == r.states[0]
    ensures Last(r').reg == Reg.SetPhase(Last(r).reg, d, Reg.Fired)
  {
    r' := r;
    if InPhase(Last(r'), d, Reg.Spawned) {
      r' := Then(r', StartTimer(d));
    }
    var wait := Last(r').reg.checkers[d].phase.dueAt - Last(r').now;
    r' := Then(r', Tick(if wait < 0 then 0 else wait));
    r' := Then(r', Fire(d));
  }

  /** A checker is taken to the point where only its cleanup is left; nothing else changes. */
  lemma FailCheck(r: Run, d: nat) returns (r': Run)
    requires IsRun(r) && Reg.Unfinished(Last(r).reg, d)
    ensures IsRun(r') && r'.states[0] == r.states[0]
    ensures Last(r').reg == Reg.SetPhase(Last(r).reg, d, Reg.Finishing)
  {
    r' := r;
    if InPhase(Last(r), d, Reg.Spawned) || IsWaiting(Last(r), d) {
      r' := RunOut(r, d);
    }
    if InPhase(Last(r'), d, Reg.Fired) {
      r' := Then(r', FetchFails(d));
    } else if InPhase(Last(r'), d, Reg.Matched) {
      r' := Then(r', ReleaseFails(d));
    }
  }

  lemma TwinTakesEntry(s: State, c: nat, d: nat) returns (r: Run)
    requires Reg.Inv(s.reg) && OwnsEntry(s, c) && Twin(s, c, d)
    ensures IsRun(r) && r.states[0] == s && Orphaned(Last(r), c)
  {
    assert Reg.EntryLive(s.reg, Reg.KeyOf(LockOf(s, c)));
    r := FailCheck(Run([s], []), d);
    r := Then(r, Event.Cleanup(d));
  }

  ghost predicate CanBeOrphaned(s: State, c: nat) {
    exists r, i :: IsRun(r) && r.states[0] == s && 0 <= i < |r.states| && Orphaned(r.states[i], c)
  }

  /** Exactly: a checker that owns its entry becomes, in some continuation, a live checker without an
      entry if and only if another unfinished checker of its key, id and index exists now. */
  lemma OrphanedIffTwin(s: State, c: nat)
    requires Protocol.Inv(s) && OwnsEntry(s, c)
    ensures CanBeOrphaned(s, c) <==> exists d :: Twin(s, c, d)
  {
    if d :| Twin(s, c, d) {
      var r := TwinTakesEntry(s, c, d);
      assert Orphaned(r.states[|r.states| - 1], c);
    } else {
      forall r, i | IsRun(r) && r.states[0] == s && 0 <= i < |r.states| ensures !Orphaned(r.states[i], c) {
        SecureThroughout(r, c, i);
      }
    }
  }
}
