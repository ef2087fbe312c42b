/**
 The lock table under handler traffic (handlers/handler.go over db/lock_db.go), together with the
 history of every commit. A version (key, id, index) names a commit; the history records what was
 committed under it and when.
 */
module Versions {
  import opened Models
  import opened LockTable

  datatype Version = Version(key: GoString, id: GoString, index: int)

  datatype Commit = Commit(resource: Resource, ttl: int, at: int)

  datatype Store = Store(table: Table, guids: set<GoString>, history: map<Version, Commit>)

  function VersionOf(l: DbLock): Version {
    Version(l.resource.key, l.id, l.index)
  }

  /** The Lock handler up to and including its transaction. */
  function HandleLock(t: Table, req: LockRequest, guid: Option<GoString>): Result<(Table, DbLock), Error> {
    var typ := if req.resource.Some? then req.resource.value.typ else [];
    var typeCode := if req.resource.Some? then req.resource.value.typeCode else UNKNOWN;
    if Validate(typ, typeCode).Some? then Err(Validate(typ, typeCode).value)
    else if req.ttlInSeconds <= 0 then Err(InvalidTTL)
    else if req.resource.None? || req.resource.value.owner == [] then Err(InvalidOwner)
    else LockTx(t, req.resource.value, req.ttlInSeconds, guid)
  }

  /** A nil resource never reaches the dereferences behind the type check. */
  lemma NilResourceRejected(t: Table, ttl: int64, guid: Option<GoString>)
    ensures HandleLock(t, LockRequest(None, ttl), guid) == Err(InvalidType)
  {
    TypeNamesDiffer();
  }

  /** Exactly the requests that commit: a valid type, a positive ttl, an owner, no other owner's row,
      and a GUID where one is needed. The key may be anything. */
  lemma LockAcceptedIff(t: Table, req: LockRequest, guid: Option<GoString>)
    ensures HandleLock(t, req, guid).Ok? <==>
            && req.resource.Some?
            && var r := req.resource.value;
               && Validate(r.typ, r.typeCode).None? && req.ttlInSeconds > 0 && r.owner != []
               && (r.key in t ==> t[r.key].owner == r.owner || t[r.key].owner == [])
               && (r.key !in t || t[r.key].id == [] ==> guid.Some?)
  {
    TypeNamesDiffer();
  }

  /** Exactly which error a refused request gets: type before ttl before owner before the transaction. */
  lemma LockRefusedWith(t: Table, req: LockRequest, guid: Option<GoString>)
    ensures var res := HandleLock(t, req, guid);
            var bad := req.resource.None? || Validate(req.resource.value.typ, req.resource.value.typeCode).Some?;
            && (res == Err(InvalidType) <==> bad)
            && (res == Err(InvalidTTL) <==> !bad && req.ttlInSeconds <= 0)
            && (res == Err(InvalidOwner) <==> !bad && req.ttlInSeconds > 0 && req.resource.value.owner == [])
            && (res == Err(LockCollision) <==>
                  && !bad && req.ttlInSeconds > 0 && req.resource.value.owner != []
                  && req.resource.value.key in t
                  && t[req.resource.value.key].owner !in {[], req.resource.value.owner})
  {
    TypeNamesDiffer();
    if req.resource.Some? {
      ValidateExact(req.resource.value.typ, req.resource.value.typeCode);
      LockRefusedIff(t, req.resource.value, req.ttlInSeconds, guid);
    }
  }

  /** In particular the empty key, which the API documentation forbids, is accepted wherever another
      free key is. */
  lemma EmptyKeyIsAccepted(t: Table, r: Resource, ttl: int64, guid: Option<GoString>)
    requires r.key !in t && [] !in t
    ensures HandleLock(t, LockRequest(Some(r.(key := [])), ttl), guid).Ok? <==>
            HandleLock(t, LockRequest(Some(r), ttl), guid).Ok?
    ensures HandleLock(map[], LockRequest(Some(Resource([], [1], [], LOCK_TYPE, LOCK)), 1), Some([2])).Ok?
  {
    TypeNamesDiffer();
  }

  /** A Lock call at time `now`: the transaction, recorded in the history when it commits. */
  function CommitLock(st: Store, req: LockRequest, guid: Option<GoString>, now: int): Store {
    match HandleLock(st.table, req, guid)
    case Err(_) => st
    case Ok((t, l)) =>
      Store(t, st.guids + {l.id}, st.history[VersionOf(l) := Commit(l.resource, l.ttl, now)])
  }

  /** A Release transaction, client's or checker's. */
  function CommitRelease(st: Store, r: Resource): Store {
    match ReleaseTx(st.table, r)
    case Err(_) => st
    case Ok(t) => st.(table := t)
  }

  /** The GUID provider never repeats itself and never answers the empty string. */
  predicate Fresh(st: Store, guid: Option<GoString>) {
    guid.Some? ==> guid.value != [] && guid.value !in st.guids
  }

  /** A snapshot of a lock that really was committed. */
  predicate Committed(st: Store, l: DbLock) {
    && VersionOf(l) in st.history
    && st.history[VersionOf(l)].resource == l.resource
    && st.history[VersionOf(l)].ttl == l.ttl
  }

  predicate RowWellFormed(st: Store, k: GoString)
    requires k in st.table
  {
    && st.table[k].owner != []
    && st.table[k].id != []
    && Canonical(RowLock(k, st.table[k]).resource)
    && Committed(st, RowLock(k, st.table[k]))
  }

  /** The row's version is the last of its id, and no other key uses that id. */
  ghost predicate RowIsLast(st: Store, k: GoString)
    requires k in st.table
  {
    forall v :: v in st.history && v.id == st.table[k].id ==> v.key == k && v.index <= st.table[k].index
  }

  predicate VersionWellFormed(st: Store, v: Version)
    requires v in st.history
  {
    && v.id in st.guids
    && v.index >= 1
    && st.history[v].resource.key == v.key
    && st.history[v].ttl > 0
    && (v.index > 1 ==>
          var p := v.(index := v.index - 1);
          p in st.history && st.history[p].at <= st.history[v].at)
  }

  predicate SameHolder(st: Store, v: Version, w: Version)
    requires v in st.history && w in st.history
  {
    v.key == w.key && st.history[v].resource.owner == st.history[w].resource.owner
  }

  ghost predicate Inv(st: Store) {
    && (forall k {:trigger RowWellFormed(st, k)} :: k in st.table ==> RowWellFormed(st, k))
    && (forall k {:trigger RowIsLast(st, k)} :: k in st.table ==> RowIsLast(st, k))
    && (forall v {:trigger VersionWellFormed(st, v)} :: v in st.history ==> VersionWellFormed(st, v))
    && (forall v, w {:trigger SameHolder(st, v, w)} ::
          v in st.history && w in st.history && v.id == w.id ==> SameHolder(st, v, w))
  }

  /** Nothing in the history lies in the future. */
  ghost predicate NotAhead(st: Store, now: int) {
    forall v :: v in st.history ==> st.history[v].at <= now
  }

  /** A successful Lock: a new key starts a fresh id at index 1; a held key keeps id and owner and
      moves the index up by one. Either way the version has never been committed before, and every
      other key and every earlier commit stays as it was. */
  lemma LockMakesNewVersion(st: Store, req: LockRequest, guid: Option<GoString>, now: int)
    requires Inv(st) && Fresh(st, guid)
    requires HandleLock(st.table, req, guid).Ok?
    ensures var (t, l) := HandleLock(st.table, req, guid).value;
            var st' := CommitLock(st, req, guid, now);
            && VersionOf(l) !in st.history
            && (l.resource.key !in st.table ==> l.index == 1 && l.id !in st.guids && guid == Some(l.id))
            && (l.resource.key in st.table ==>
                  var row := st.table[l.resource.key];
                  l.index == row.index + 1 && l.id == row.id && l.resource.owner == row.owner)
            && t == st.table[l.resource.key := LockRow(l)]
            && RowLock(l.resource.key, t[l.resource.key]) == l
            && Canonical(l.resource) && l.resource.owner != [] && l.ttl > 0
            && st'.history == st.history[VersionOf(l) := Commit(l.resource, l.ttl, now)]
  {
    var r := req.resource.value;
    ValidatedBecomesCanonical(r);
    if r.key in st.table {
      assert RowWellFormed(st, r.key) && RowIsLast(st, r.key);
    } else {
      forall v | v in st.history ensures v.id != guid.value {
        assert VersionWellFormed(st, v);
      }
    }
  }

  lemma LockKeepsInv(st: Store, req: LockRequest, guid: Option<GoString>, now: int)
    requires Inv(st) && Fresh(st, guid) && NotAhead(st, now)
    ensures Inv(CommitLock(st, req, guid, now)) && NotAhead(CommitLock(st, req, guid, now), now)
  {
    if HandleLock(st.table, req, guid).Ok? {
      LockMakesNewVersion(st, req, guid, now);
      var l := HandleLock(st.table, req, guid).value.1;
      var st' := CommitLock(st, req, guid, now);
      RowsStayWellFormed(st, st', l, now);
      VersionsStayWellFormed(st, st', l, now);
      NewVersionSharesHolder(st, st', l, now);
    }
  }

  /** A commit of a new version, at the next index of the row or the first of a new id. */
  predicate Adds(st: Store, st': Store, l: DbLock, now: int) {
    && VersionOf(l) !in st.history && RowLock(l.resource.key, LockRow(l)) == l
    && Canonical(l.resource) && l.resource.owner != [] && l.id != [] && l.ttl > 0
    && st' == Store(st.table[l.resource.key := LockRow(l)], st.guids + {l.id},
                    st.history[VersionOf(l) := Commit(l.resource, l.ttl, now)])
    && if l.resource.key in st.table
       then l.id == st.table[l.resource.key].id && l.index == st.table[l.resource.key].index + 1
       else l.id !in st.guids && l.index == 1
  }

  lemma RowsStayWellFormed(st: Store, st': Store, l: DbLock, now: int)
    requires Inv(st) && Adds(st, st', l, now)
    ensures forall k {:trigger RowWellFormed(st', k)} :: k in st'.table ==> RowWellFormed(st', k)
    ensures forall k {:trigger RowIsLast(st', k)} :: k in st'.table ==> RowIsLast(st', k)
  {
    var k0 := l.resource.key;
    forall v | v in st.history ensures v.id in st.guids {
      assert VersionWellFormed(st, v);
    }
    if k0 in st.table {
      assert RowWellFormed(st, k0) && RowIsLast(st, k0);
    }
    forall k | k in st'.table ensures RowWellFormed(st', k) && RowIsLast(st', k) {
      if k != k0 {
        assert RowWellFormed(st, k) && RowIsLast(st, k);
      }
    }
  }

  lemma VersionsStayWellFormed(st: Store, st': Store, l: DbLock, now: int)
    requires Inv(st) && NotAhead(st, now) && Adds(st, st', l, now)
    ensures forall v {:trigger VersionWellFormed(st', v)} :: v in st'.history ==> VersionWellFormed(st', v)
  {
    var k := l.resource.key;
    if k in st.table {
      assert RowWellFormed(st, k);
      assert VersionWellFormed(st, VersionOf(RowLock(k, st.table[k])));
    }
    forall v | v in st'.history ensures VersionWellFormed(st', v) {
      if v != VersionOf(l) {
        assert VersionWellFormed(st, v);
      }
    }
  }

  lemma NewVersionSharesHolder(st: Store, st': Store, l: DbLock, now: int)
    requires Inv(st)
    requires VersionOf(l) !in st.history
    requires st'.history == st.history[VersionOf(l) := Commit(l.resource, l.ttl, now)]
    requires if l.resource.key in st.table
             then l.id == st.table[l.resource.key].id && l.resource.owner == st.table[l.resource.key].owner
             else l.id !in st.guids
    ensures forall v, w {:trigger SameHolder(st', v, w)} ::
              v in st'.history && w in st'.history && v.id == w.id ==> SameHolder(st', v, w)
  {
    var n := VersionOf(l);
    forall v | v in st.history && v.id == n.id ensures SameHolder(st', v, n) {
      assert VersionWellFormed(st, v);
      var k := l.resource.key;
      assert RowWellFormed(st, k) && RowIsLast(st, k);
      assert SameHolder(st, v, Version(k, st.table[k].id, st.table[k].index));
    }
    forall v, w | v in st'.history && w in st'.history && v.id == w.id ensures SameHolder(st', v, w) {
      if v != n && w != n {
        assert SameHolder(st, v, w);
      }
    }
  }

  lemma ReleaseKeepsInv(st: Store, r: Resource)
    requires Inv(st)
    ensures Inv(CommitRelease(st, r))
  {
    var st' := CommitRelease(st, r);
    forall k | k in st'.table ensures RowWellFormed(st', k) && RowIsLast(st', k) {
      assert RowWellFormed(st, k) && RowIsLast(st, k);
    }
    forall v | v in st'.history ensures VersionWellFormed(st', v) {
      assert VersionWellFormed(st, v);
    }
    forall v, w | v in st'.history && w in st'.history && v.id == w.id ensures SameHolder(st', v, w) {
      assert SameHolder(st, v, w);
    }
  }

  /** Every commit on an id was preceded by the commits of all lower indices, in order of time. */
  lemma {:induction false} HistoryIsContiguous(st: Store, v: Version, i: int)
    requires Inv(st) && v in st.history && 1 <= i <= v.index
    ensures var w := v.(index := i);
            w in st.history && SameHolder(st, w, v) && st.history[w].at <= st.history[v].at
    decreases v.index - i
  {
    assert VersionWellFormed(st, v);
    if i < v.index {
      HistoryIsContiguous(st, v, i + 1);
      assert VersionWellFormed(st, v.(index := i + 1));
      assert SameHolder(st, v.(index := i), v);
    }
  }

  /** A current snapshot of a held key is the row itself. */
  lemma CurrentVersionIsRow(st: Store, l: DbLock)
    requires Inv(st) && Committed(st, l)
    requires l.resource.key in st.table
    requires st.table[l.resource.key].id == l.id && st.table[l.resource.key].index == l.index
    ensures l == RowLock(l.resource.key, st.table[l.resource.key])
  {
    assert RowWellFormed(st, l.resource.key);
  }

  /** Under handler traffic the two types of lock partition the table. */
  lemma CountsAddUp(st: Store)
    requires Inv(st)
    ensures |SelectedKeys(st.table, LOCK_TYPE)| + |SelectedKeys(st.table, PRESENCE_TYPE)|
            == |SelectedKeys(st.table, [])|
  {
    TypeNamesDiffer();
    var locks, presences := SelectedKeys(st.table, LOCK_TYPE), SelectedKeys(st.table, PRESENCE_TYPE);
    assert locks !! presences;
    assert locks + presences == SelectedKeys(st.table, []) by {
      forall k | k in st.table ensures st.table[k].typ == LOCK_TYPE || st.table[k].typ == PRESENCE_TYPE {
        assert RowWellFormed(st, k);
      }
    }
    assert |locks + presences| == |locks| + |presences|;
  }
}
