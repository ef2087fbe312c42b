/**
 The expiration registry (expiration/lock_pick.go): which (key, id) pairs have a timer goroutine
 registered, the channel that cancels it, and the life of every goroutine started so far.
 A goroutine ("checker") is named by the channel it was started with.
 */
module Registry {
  import opened Models
  import opened LockTable

  const SECOND: int := 1_000_000_000

  /** The largest ttl whose length in nanoseconds fits a time.Duration. */
  const MAX_TTL: int := 9_223_372_036

  function WrapInt64(x: int): (w: int)
    ensures -TWO_63 <= w < TWO_63
  {
    (x + TWO_63) % TWO_64 - TWO_63
  }

  /** time.Duration(ttl) * time.Second, an int64 product. */
  function TimerDuration(ttl: int): (d: int) {
    WrapInt64(ttl * SECOND)
  }

  /** The timer runs for at least the requested ttl exactly up to MAX_TTL, and then it is exact. */
  lemma TimerDurationExact(ttl: int64)
    requires ttl > 0
    ensures TimerDuration(ttl) >= ttl * SECOND <==> ttl <= MAX_TTL
    ensures ttl <= MAX_TTL ==> TimerDuration(ttl) == ttl * SECOND
  {}

  /** Beyond that it is what is left of the product in a signed 64-bit word. */
  lemma TimerDurationWraps(ttl: int)
    ensures -TWO_63 <= TimerDuration(ttl) < TWO_63
    ensures (ttl * SECOND - TimerDuration(ttl)) % TWO_64 == 0
  {
    var x := ttl * SECOND + TWO_63;
    assert x - x % TWO_64 == x / TWO_64 * TWO_64;
  }

  /** One second more and the timer is due before it is started. */
  lemma TimerDurationOverflow()
    ensures TimerDuration(MAX_TTL + 1) < 0
  {}

  datatype CheckKey = CheckKey(key: GoString, id: GoString)

  function KeyOf(l: DbLock): CheckKey {
    CheckKey(l.resource.key, l.id)
  }

  datatype Phase =
    | Spawned               // started, timer not created yet
    | Waiting(dueAt: int)   // in the select
    | Fired                 // took the timer branch, cleanup deferred
    | Matched               // Fetch answered the registered version, Release not issued yet
    | Finishing             // only the deferred cleanup is left
    | Done

  datatype Checker = Checker(lock: DbLock, phase: Phase)

  datatype Entry = Entry(chan: nat, index: int)

  datatype Registry = Registry(
    entries: map<CheckKey, Entry>,
    checkers: map<nat, Checker>,
    closed: set<nat>,            // channels closed so far
    panicked: bool,              // some channel was closed a second time
    next: nat,                   // next unused channel
    top: map<CheckKey, int>)     // highest index ever registered under a key

  /** The registry of a process that has just started; channel names are never reused. */
  function Empty(next: nat): Registry {
    Registry(map[], map[], {}, false, next, map[])
  }

  function Max(a: int, b: int): int {
    if a < b then b else a
  }

  /** RegisterTTL: the critical section and the goroutine it starts. */
  function Register(g: Registry, l: DbLock): Registry {
    var ck := KeyOf(l);
    if ck in g.entries && g.entries[ck].index >= l.index then g
    else
      Registry(
        g.entries[ck := Entry(g.next, l.index)],
        g.checkers[g.next := Checker(l, Spawned)],
        if ck in g.entries then g.closed + {g.entries[ck].chan} else g.closed,
        g.panicked || (ck in g.entries && g.entries[ck].chan in g.closed),
        g.next + 1,
        g.top[ck := if ck in g.top then Max(g.top[ck], l.index) else l.index])
  }

  function SetPhase(g: Registry, c: nat, p: Phase): Registry
    requires c in g.checkers
  {
    g.(checkers := g.checkers[c := g.checkers[c].(phase := p)])
  }

  /** The deferred function: it removes whatever entry carries this checker's index. */
  function Cleanup(g: Registry, c: nat): Registry
    requires c in g.checkers
  {
    var l := g.checkers[c].lock;
    var g' := SetPhase(g, c, Done);
    if KeyOf(l) in g.entries && g.entries[KeyOf(l)].index == l.index
    then g'.(entries := g.entries - {KeyOf(l)})
    else g'
  }

  predicate Unfinished(g: Registry, c: nat) {
    c in g.checkers && g.checkers[c].phase != Done
  }

  /** The entry's channel is open and is the channel of an unfinished checker of that version. */
  ghost predicate EntryLive(g: Registry, ck: CheckKey)
    requires ck in g.entries
  {
    var e := g.entries[ck];
    && Unfinished(g, e.chan)
    && e.chan !in g.closed
    && KeyOf(g.checkers[e.chan].lock) == ck
    && g.checkers[e.chan].lock.index == e.index
  }

  /** An unfinished checker of the highest index of its key owns the key's entry. */
  ghost predicate TopOwned(g: Registry, c: nat)
    requires c in g.checkers
  {
    var l := g.checkers[c].lock;
    && KeyOf(l) in g.top
    && l.index <= g.top[KeyOf(l)]
    && (c in g.closed ==> l.index < g.top[KeyOf(l)])
    && (g.checkers[c].phase != Done && l.index == g.top[KeyOf(l)] ==>
          KeyOf(l) in g.entries && g.entries[KeyOf(l)].chan == c)
  }

  ghost predicate Inv(g: Registry) {
    && !g.panicked
    && g.closed <= g.checkers.Keys
    && (forall c :: c in g.checkers ==> c < g.next)
    && (forall ck {:trigger EntryLive(g, ck)} :: ck in g.entries ==> EntryLive(g, ck))
    && (forall c {:trigger TopOwned(g, c)} :: c in g.checkers ==> TopOwned(g, c))
  }

  lemma RegisterKeepsInv(g: Registry, l: DbLock)
    requires Inv(g)
    ensures Inv(Register(g, l))
  {
    var g' := Register(g, l);
    if g' != g {
      var ck := KeyOf(l);
      if ck in g.entries {
        assert EntryLive(g, ck);
      }
      forall k | k in g'.entries ensures EntryLive(g', k) {
        if k != ck {
          assert EntryLive(g, k);
        }
      }
      forall c | c in g'.checkers ensures TopOwned(g', c) {
        if c != g.next {
          assert TopOwned(g, c);
        }
      }
    }
  }

  /** Moving a checker to another unfinished phase, or ending one that was cancelled. */
  lemma SetPhaseKeepsInv(g: Registry, c: nat, p: Phase)
    requires Inv(g) && Unfinished(g, c)
    requires p != Done || c in g.closed
    ensures Inv(SetPhase(g, c, p))
  {
    var g' := SetPhase(g, c, p);
    forall k | k in g'.entries ensures EntryLive(g', k) {
      assert EntryLive(g, k);
    }
    forall d | d in g'.checkers ensures TopOwned(g', d) {
      assert TopOwned(g, d);
    }
  }

  lemma CleanupKeepsInv(g: Registry, c: nat)
    requires Inv(g) && Unfinished(g, c)
    ensures Inv(Cleanup(g, c))
  {
    var g' := Cleanup(g, c);
    assert TopOwned(g, c);
    if KeyOf(g.checkers[c].lock) in g.entries {
      assert EntryLive(g, KeyOf(g.checkers[c].lock));
    }
    forall k | k in g'.entries ensures EntryLive(g', k) {
      assert EntryLive(g, k);
    }
    forall d | d in g'.checkers ensures TopOwned(g', d) {
      assert TopOwned(g, d);
    }
  }

  predicate ChecksTop(g: Registry, ck: CheckKey, c: nat)
    requires ck in g.top
  {
    Unfinished(g, c) && KeyOf(g.checkers[c].lock) == ck && g.checkers[c].lock.index == g.top[ck]
  }

  /** For the highest index of a key: an entry carries it exactly when an unfinished checker of it
      exists, there is at most one such checker, and the entry is that checker's. */
  lemma TopEntryIffChecker(g: Registry, ck: CheckKey)
    requires Inv(g) && ck in g.top
    ensures ck in g.entries && g.entries[ck].index == g.top[ck] <==> exists c :: ChecksTop(g, ck, c)
    ensures forall c :: ChecksTop(g, ck, c) ==> ck in g.entries && g.entries[ck].chan == c
    ensures forall c, d :: ChecksTop(g, ck, c) && ChecksTop(g, ck, d) ==> c == d
  {
    if ck in g.entries && g.entries[ck].index == g.top[ck] {
      assert EntryLive(g, ck);
      assert ChecksTop(g, ck, g.entries[ck].chan);
    }
    forall c | ChecksTop(g, ck, c)
      ensures ck in g.entries && g.entries[ck].chan == c && g.entries[ck].index == g.top[ck]
    {
      assert TopOwned(g, c);
      assert EntryLive(g, ck);
    }
  }

  /** From any registry whatever: a registration closes a channel exactly when it higher a lower index,
      namely the channel of that entry, and panics exactly when that channel is closed already. With
      the invariant it never is. */
  lemma RegisterCloses(g: Registry, l: DbLock)
    ensures var ck, g' := KeyOf(l), Register(g, l);
            var higher := ck in g.entries && g.entries[ck].index < l.index;
            && g'.closed == (if higher then g.closed + {g.entries[ck].chan} else g.closed)
            && (g'.panicked <==> g.panicked || (higher && g.entries[ck].chan in g.closed))
            && (Inv(g) && higher ==> g.entries[ck].chan !in g.closed)
  {
    if Inv(g) && KeyOf(l) in g.entries {
      assert EntryLive(g, KeyOf(l));
    }
  }

  /** RegisterTTL for each lock of a scan, in order. */
  function RegisterAll(g: Registry, locks: seq<DbLock>): Registry {
    if locks == [] then g
    else Register(RegisterAll(g, locks[..|locks| - 1]), locks[|locks| - 1])
  }

  predicate Covers(g: Registry, l: DbLock) {
    KeyOf(l) in g.entries && g.entries[KeyOf(l)].index >= l.index
  }

  /** From any registry whatever, a scan leaves every scanned lock covered by an entry, and never
      uncovers a lock that was covered before. */
  lemma {:induction false} ScanCovers(g: Registry, locks: seq<DbLock>)
    ensures forall l :: l in locks ==> Covers(RegisterAll(g, locks), l)
    ensures forall l :: Covers(g, l) ==> Covers(RegisterAll(g, locks), l)
  {
    if locks != [] {
      var init, last := locks[..|locks| - 1], locks[|locks| - 1];
      ScanCovers(g, init);
      assert locks == init + [last];
    }
  }

  /** A scan starts checkers for scanned locks and for no others. */
  lemma {:induction false} ScanStartsOnlyScanned(g: Registry, locks: seq<DbLock>, c: nat)
    requires c in RegisterAll(g, locks).checkers && c !in g.checkers
    ensures RegisterAll(g, locks).checkers[c].lock in locks
  {
    if locks != [] {
      var init := locks[..|locks| - 1];
      if c in RegisterAll(g, init).checkers {
        ScanStartsOnlyScanned(g, init, c);
      }
    }
  }

  /** A second scan of the same locks changes nothing: no goroutine, no closed channel. */
  lemma {:induction false} ScanIdempotent(g: Registry, locks: seq<DbLock>)
    ensures RegisterAll(RegisterAll(g, locks), locks) == RegisterAll(g, locks)
  {
    ScanCovers(g, locks);
    CoveredScanIsNoop(RegisterAll(g, locks), locks);
  }

  lemma {:induction false} CoveredScanIsNoop(g: Registry, locks: seq<DbLock>)
    requires forall l :: l in locks ==> Covers(g, l)
    ensures RegisterAll(g, locks) == g
  {
    if locks != [] {
      assert locks[|locks| - 1] in locks;
      CoveredScanIsNoop(g, locks[..|locks| - 1]);
    }
  }

  /** A scan leaves the checkers that are there already alone. */
  lemma {:induction false} ScanKeepsCheckers(g: Registry, locks: seq<DbLock>, c: nat)
    requires c in g.checkers && c < g.next
    ensures var g' := RegisterAll(g, locks);
            g.next <= g'.next && c in g'.checkers && g'.checkers[c] == g.checkers[c]
  {
    if locks != [] {
      ScanKeepsCheckers(g, locks[..|locks| - 1], c);
    }
  }
}
