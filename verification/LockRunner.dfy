/**
 The client side (lock/lock.go): a runner that takes a lock, reports ready once, and keeps renewing.
 Lock runners stop when they lose the lock; presence runners keep trying.
 */
module LockRunner {
  datatype Client = Client(acquired: bool, isReady: bool, readyCloses: nat)

  const START: Client := Client(false, false, 0)

  /** The effect of the result of a Lock call on a runner that goes on running. */
  function OnResult(c: Client, ok: bool): Client {
    if !ok then c.(acquired := false)
    else if c.acquired then c
    else Client(true, true, if c.isReady then c.readyCloses else c.readyCloses + 1)
  }

  /** A lock runner gives up at this result. */
  predicate Loses(c: Client, ok: bool) {
    c.acquired && !ok
  }

  function After(results: seq<bool>): Client {
    if results == [] then START
    else OnResult(After(results[..|results| - 1]), results[|results| - 1])
  }

  datatype Input = Retry(ok: bool) | Signal

  datatype Exit = Running | Signalled | Lost

  /** `seen` are the results of the first call and of the retries up to some point. */
  ghost predicate Saw(first: bool, inputs: seq<Input>, seen: seq<bool>) {
    && 0 < |seen| <= |inputs| + 1
    && seen[0] == first
    && forall i :: 0 < i < |seen| ==> inputs[i - 1] == Retry(seen[i])
  }

  /** The runner acquires with the last result, reports ready with the first success and never
      again. */
  lemma {:induction false} ReadyClosesOnce(results: seq<bool>)
    ensures After(results).acquired <==> results != [] && results[|results| - 1]
    ensures After(results).isReady <==> true in results
    ensures After(results).readyCloses == if true in results then 1 else 0
  {
    if results != [] {
      var init, last := results[..|results| - 1], results[|results| - 1];
      ReadyClosesOnce(init);
      assert results == init + [last];
    }
  }

  /** Results a lock runner survives: no failure directly after a success. */
  predicate Survives(results: seq<bool>) {
    forall i :: 0 < i < |results| && results[i - 1] ==> results[i]
  }

  class Runner {
    const exitOnLostLock: bool
    var client: Client
    var releases: nat     // Release calls made

    constructor (exitOnLostLock: bool)
      ensures this.exitOnLostLock == exitOnLostLock && client == START && releases == 0
    {
      this.exitOnLostLock := exitOnLostLock;
      client, releases := START, 0;
    }

    /** What the runner does with the result of a retry; returns whether it gives up. */
    method OnRetry(ok: bool) returns (lost: bool)
      modifies this`client
      ensures lost <==> exitOnLostLock && Loses(old(client), ok)
      ensures client == if lost then old(client) else OnResult(old(client), ok)
    {
      lost := false;
      if !ok {
        if client.acquired {
          if exitOnLostLock {
            return true;
          }
          client := client.(acquired := false);
        }
      } else if !client.acquired {
        if !client.isReady {
          client := client.(isReady := true, readyCloses := client.readyCloses + 1);
        }
        client := client.(acquired := true);
      }
    }

    /** The body of Run: the first call, then the select loop over timer and signal. */
    method Run(first: bool, inputs: seq<Input>) returns (exit: Exit, ghost seen: seq<bool>)
      requires client == START
      modifies this
      ensures Saw(first, inputs, seen)
      ensures exit == Signalled <==>
              |seen| <= |inputs| && inputs[|seen| - 1] == Signal && (exitOnLostLock ==> Survives(seen))
      ensures exit == Running <==> |seen| == |inputs| + 1 && (exitOnLostLock ==> Survives(seen))
      ensures exit == Lost <==> exitOnLostLock && |seen| >= 2 && seen[|seen| - 2] && !seen[|seen| - 1]
      ensures exitOnLostLock ==> forall i :: 0 < i < |seen| - 1 && seen[i - 1] ==> seen[i]
      ensures client.readyCloses == if true in seen then 1 else 0
      ensures exit == Lost ==> client.readyCloses == 1
      ensures exit != Lost ==> client == After(seen)
      ensures releases == old(releases) + if exit == Signalled then 1 else 0
    {
      if first {
        client := Client(true, true, client.readyCloses + 1);
      }
      seen := [first];
      var n := 0;
      while n < |inputs|
        invariant 0 <= n <= |inputs| && |seen| == n + 1 && Saw(first, inputs, seen)
        invariant client == After(seen) && releases == old(releases)
        invariant exitOnLostLock ==> Survives(seen)
      {
        ReadyClosesOnce(seen);
        if inputs[n] == Signal {
          releases := releases + 1;
          SurvivesOneMore(seen);
          return Signalled, seen;
        }
        ghost var before := seen;
        seen := seen + [inputs[n].ok];
        assert seen[..|seen| - 1] == before;
        if exitOnLostLock {
          SurvivesOneMore(seen);
        }
        var lost := OnRetry(inputs[n].ok);
        if lost {
          assert seen[n];
          return Lost, seen;
        }
        n := n + 1;
      }
      ReadyClosesOnce(seen);
      SurvivesOneMore(seen);
      exit := Running;
    }
  }

  /** Results that were survived up to the last one are survived exactly if the last one is no failure
      directly after a success. */
  lemma SurvivesOneMore(results: seq<bool>)
    requires results != []
    ensures Survives(results[..|results| - 1]) ==>
              && (!Survives(results) <==> |results| >= 2 && results[|results| - 2] && !results[|results| - 1])
              && forall i :: 0 < i < |results| - 1 && results[i - 1] ==> results[i]
    ensures Survives(results) ==> Survives(results[..|results| - 1])
  {
    var init := results[..|results| - 1];
    if Survives(results) {
      forall i | 0 < i < |init| && init[i - 1] ensures init[i] {
        assert results[i - 1];
      }
    }
    if Survives(init) {
      forall i | 0 < i < |results| - 1 && results[i - 1] ensures results[i] {
        assert init[i - 1] && init[i];
      }
    }
  }
}
