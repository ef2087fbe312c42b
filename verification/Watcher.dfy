/**
 The disappearance watcher (disappearance_watcher.go): it lists the keys under a prefix again and
 again, tracks those held by a session, and reports the tracked keys that are gone.
 */
module Watcher {
  import opened Models

  datatype KVPair = KVPair(key: GoString, session: GoString)

  /** Where in a turn the watcher would see that it is to stop: right after the listing, in place of
      its report, or not at all. A failed listing is followed by a pause in which it may see it. */
  datatype Stop = Never | AfterListing | AtReport

  /** What one turn of the watch loop meets; `None` stands for a nil answer (key not found). */
  datatype Answer =
    | ListFails(stops: bool)
    | Listed(pairs: Option<seq<KVPair>>, lastIndex: nat, putFails: bool, stop: Stop)

  function Sessioned(pairs: seq<KVPair>): set<GoString> {
    set p | p in pairs && p.session != [] :: p.key
  }

  method NewKeySet(pairs: seq<KVPair>) returns (keys: set<GoString>)
    ensures keys == Sessioned(pairs)
  {
    keys := {};
    var n := 0;
    while n < |pairs|
      invariant 0 <= n <= |pairs|
      invariant keys == Sessioned(pairs[..n])
    {
      assert pairs[..n + 1] == pairs[..n] + [pairs[n]];
      if pairs[n].session != [] {
        keys := keys + {pairs[n].key};
      }
      n := n + 1;
    }
    assert pairs[..n] == pairs;
  }

  predicate Distinct(s: seq<GoString>) {
    forall i, j :: 0 <= i < j < |s| ==> s[i] != s[j]
  }

  /** The keys of `a` that are not in `b`, each once, in the order of the iteration. */
  method Difference(a: set<GoString>, b: set<GoString>) returns (missing: seq<GoString>)
    ensures Distinct(missing) && forall k :: k in missing <==> k in a && k !in b
  {
    missing := [];
    var todo := a;
    while todo != {}
      invariant todo <= a && Distinct(missing)
      invariant forall k :: k in missing <==> k in a && k !in b && k !in todo
      decreases todo
    {
      var key :| key in todo;
      if key !in b {
        missing := missing + [key];
      }
      todo := todo - {key};
    }
  }

  /** The tracked keys after a turn. */
  function Track(keys: set<GoString>, a: Answer): set<GoString> {
    match a
    case ListFails(_) => keys
    case Listed(None, _, putFails, _) => if putFails then keys else {}
    case Listed(Some(pairs), _, _, _) => Sessioned(pairs)
  }

  /** Whether the watcher stops in this turn; at the report only if there is one to send. */
  predicate Stops(keys: set<GoString>, a: Answer) {
    match a
    case ListFails(stops) => stops
    case Listed(_, _, _, stop) => stop == AfterListing || (stop == AtReport && !(keys <= Track(keys, a)))
  }

  function Tracked(answers: seq<Answer>): set<GoString> {
    if answers == [] then {} else Track(Tracked(answers[..|answers| - 1]), answers[|answers| - 1])
  }

  /** What the tracked keys are after each kind of turn: the keys of the listed pairs that a session
      holds; none if the prefix is gone and was put back; those of before if the listing or the put
      failed. */
  lemma TrackedAfter(answers: seq<Answer>, before: set<GoString>, a: Answer)
    requires answers != [] && before == Tracked(answers[..|answers| - 1]) && a == answers[|answers| - 1]
    ensures a.ListFails? ==> Tracked(answers) == before
    ensures a.Listed? && a.pairs.None? ==> Tracked(answers) == if a.putFails then before else {}
    ensures a.Listed? && a.pairs.Some? ==>
              forall k :: k in Tracked(answers) <==> exists p :: p in a.pairs.value && p.key == k && p.session != []
  {}

  /** How often a key was seen to enter the tracked set. */
  function Entries(answers: seq<Answer>, k: GoString): nat {
    if answers == [] then 0
    else
      var before := answers[..|answers| - 1];
      Entries(before, k) + if k in Tracked(answers) && k !in Tracked(before) then 1 else 0
  }

  /** In how many reports a key is named. */
  function Named(reports: seq<seq<GoString>>, k: GoString): nat {
    if reports == [] then 0
    else Named(reports[..|reports| - 1], k) + if k in reports[|reports| - 1] then 1 else 0
  }

  lemma NamedPush(reports: seq<seq<GoString>>, r: seq<GoString>, k: GoString)
    ensures Named(reports + [r], k) == Named(reports, k) + if k in r then 1 else 0
  {
    assert (reports + [r])[..|reports|] == reports;
  }

  predicate GoesOn(answers: seq<Answer>, i: int)
    requires 0 <= i < |answers|
  {
    !Stops(Tracked(answers[..i]), answers[i])
  }

  ghost predicate Balanced(answers: seq<Answer>, reports: seq<seq<GoString>>) {
    forall k :: Entries(answers, k) == Named(reports, k) + if k in Tracked(answers) then 1 else 0
  }

  lemma TurnAdds(before: seq<Answer>, a: Answer, after: seq<Answer>)
    requires after == before + [a]
    ensures Tracked(after) == Track(Tracked(before), a)
    ensures forall k :: Entries(after, k) ==
              Entries(before, k) + if k in Tracked(after) && k !in Tracked(before) then 1 else 0
  {
    assert after[..|after| - 1] == before;
  }

  /** A report of exactly the keys that are missing keeps the balance; none is needed if none is. */
  lemma BalanceTurn(before: seq<Answer>, a: Answer, after: seq<Answer>, reports: seq<seq<GoString>>, r: seq<GoString>)
    requires after == before + [a] && Balanced(before, reports)
    requires forall k :: k in r <==> k in Tracked(before) && k !in Tracked(after)
    ensures Balanced(after, if |r| > 0 then reports + [r] else reports)
  {
    TurnAdds(before, a, after);
    forall k ensures Named(reports + [r], k) == Named(reports, k) + if k in r then 1 else 0 {
      NamedPush(reports, r, k);
    }
  }

  /** One turn up to its report: the keys tracked then, and those that are missing. */
  method Turn(keys: set<GoString>, a: Answer)
    returns (stops: bool, newKeys: set<GoString>, missing: seq<GoString>, waitIndex: nat)
    ensures stops <==> Stops(keys, a)
    ensures !stops ==> newKeys == Track(keys, a) && waitIndex == if a.Listed? then a.lastIndex else 0
    ensures !stops ==> Distinct(missing) && forall k :: k in missing <==> k in keys && k !in newKeys
  {
    stops, newKeys, missing, waitIndex := false, keys, [], 0;
    match a {
      case ListFails(stop) =>
        stops := stop;
      case Listed(pairs, lastIndex, putFails, stop) =>
        if stop == AfterListing {
          return true, keys, [], 0;
        }
        waitIndex := lastIndex;
        if pairs.None? && putFails {
          return;
        }
        newKeys := NewKeySet(if pairs.None? then [] else pairs.value);
        missing := Difference(keys, newKeys);
        if |missing| > 0 {
          assert missing[0] in missing;
          stops := stop == AtReport;
        }
    }
  }

  /** The non-empty ones of what is sent turn by turn. */
  function Sent(turns: seq<seq<GoString>>): (reports: seq<seq<GoString>>)
    ensures forall i :: 0 <= i < |turns| && turns[i] != [] ==> turns[i] in reports
    ensures forall r :: r in reports ==> r in turns && r != []
  {
    if turns == [] then []
    else
      assert turns == turns[..|turns| - 1] + [turns[|turns| - 1]];
      Sent(turns[..|turns| - 1]) + if turns[|turns| - 1] == [] then [] else [turns[|turns| - 1]]
  }

  lemma SentPush(turns: seq<seq<GoString>>, r: seq<GoString>)
    ensures Sent(turns + [r]) == Sent(turns) + if r == [] then [] else [r]
  {
    assert (turns + [r])[..|turns|] == turns;
  }

  /** What a turn that is not the last one sends: exactly the keys tracked before it and not after it,
      each once. */
  ghost predicate TurnSends(answers: seq<Answer>, turns: seq<seq<GoString>>, i: int)
    requires 0 <= i < |answers| && 0 <= i < |turns|
  {
    && Distinct(turns[i])
    && forall k :: k in turns[i] <==> k in Tracked(answers[..i]) && k !in Tracked(answers[..i + 1])
  }

  lemma TurnsGrow(answers: seq<Answer>, turns: seq<seq<GoString>>, r: seq<GoString>)
    requires |turns| < |answers|
    requires forall i {:trigger TurnSends(answers, turns, i)} :: 0 <= i < |turns| ==> TurnSends(answers, turns, i)
    requires var n := |turns|;
             && Distinct(r)
             && forall k :: k in r <==> k in Tracked(answers[..n]) && k !in Tracked(answers[..n + 1])
    ensures forall i {:trigger TurnSends(answers, turns + [r], i)} ::
              0 <= i < |turns + [r]| ==> TurnSends(answers, turns + [r], i)
  {
    forall i | 0 <= i < |turns + [r]| ensures TurnSends(answers, turns + [r], i) {
      if i < |turns| {
        assert TurnSends(answers, turns, i);
      }
    }
  }

  /** The watch loop with the reports it sends, over `done` turns: all of them, or those before the one
      in which it stops. Each turn sends exactly the keys that were tracked and no longer are, if any.
      Conservation: a key is named in a report once for every time it entered the tracked set, except
      for the last time if it is still tracked. */
  method Watch(answers: seq<Answer>)
    returns (keys: set<GoString>, reports: seq<seq<GoString>>, waitIndex: nat, done: nat,
             ghost turns: seq<seq<GoString>>)
    ensures done <= |answers| && keys == Tracked(answers[..done])
    ensures done < |answers| ==> Stops(keys, answers[done])
    ensures forall i {:trigger GoesOn(answers, i)} :: 0 <= i < done ==> GoesOn(answers, i)
    ensures |turns| == done && reports == Sent(turns)
    ensures forall i {:trigger TurnSends(answers, turns, i)} :: 0 <= i < done ==> TurnSends(answers, turns, i)
    ensures forall k :: Entries(answers[..done], k) == Named(reports, k) + if k in keys then 1 else 0
    ensures forall r :: r in reports ==> r != [] && Distinct(r)
    ensures waitIndex == if done > 0 && answers[done - 1].Listed? then answers[done - 1].lastIndex else 0
  {
    keys, reports, waitIndex, done, turns := {}, [], 0, 0, [];
    while done < |answers|
      invariant 0 <= done <= |answers| && |turns| == done
      invariant keys == Tracked(answers[..done])
      invariant forall i {:trigger GoesOn(answers, i)} :: 0 <= i < done ==> GoesOn(answers, i)
      invariant reports == Sent(turns)
      invariant forall i {:trigger TurnSends(answers, turns, i)} :: 0 <= i < done ==> TurnSends(answers, turns, i)
      invariant forall r :: r in reports ==> r != [] && Distinct(r)
      invariant Balanced(answers[..done], reports)
      invariant waitIndex == if done > 0 && answers[done - 1].Listed? then answers[done - 1].lastIndex else 0
    {
      var stops, newKeys, missing, index := Turn(keys, answers[done]);
      if stops {
        return;
      }
      assert GoesOn(answers, done);
      var next := done + 1;
      ghost var before, after := answers[..done], answers[..next];
      assert after == before + [answers[done]];
      TurnAdds(before, answers[done], after);
      BalanceTurn(before, answers[done], after, reports, missing);
      SentPush(turns, missing);
      TurnsGrow(answers, turns, missing);
      turns := turns + [missing];
      if |missing| > 0 {
        reports := reports + [missing];
      }
      keys, waitIndex, done := newKeys, index, next;
    }
  }

  /** A key that was tracked before a turn and that no session holds in the list of that turn is named in
      the report of that turn; so is every tracked key when the prefix is gone. */
  lemma MissingIsReported(answers: seq<Answer>, turns: seq<seq<GoString>>, i: nat, k: GoString)
    requires i < |answers| && i < |turns| && TurnSends(answers, turns, i) && k in Tracked(answers[..i])
    requires answers[i].Listed?
    requires match answers[i].pairs
             case Some(pairs) => forall p :: p in pairs && p.key == k ==> p.session == []
             case None => !answers[i].putFails
    ensures k in turns[i] && turns[i] in Sent(turns)
  {
    assert answers[..i + 1][..i] == answers[..i];
    TrackedAfter(answers[..i + 1], Tracked(answers[..i]), answers[i]);
  }

  /** When the watcher stops: in the pause after a failed listing, after the listing, or at a report; and
      at a report only if a tracked key is missing from the keys of that turn. */
  lemma StopsExact(answers: seq<Answer>, a: Answer)
    ensures var keys, next := Tracked(answers), Tracked(answers + [a]);
            Stops(keys, a) <==>
              || (a.ListFails? && a.stops)
              || (a.Listed? && a.stop == AfterListing)
              || (a.Listed? && a.stop == AtReport && exists k :: k in keys && k !in next)
  {
    assert (answers + [a])[..|answers|] == answers;
  }
}
