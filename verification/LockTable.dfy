/**
 The `locks` table and its transactions (db/lock_db.go). A table maps a path to its row. Each
 transaction is one atomic function of the table; a transaction that the database fails leaves
 the table unchanged and is not a function of its own.
 */
module LockTable {
  import opened Models

  datatype Row = Row(owner: GoString, value: GoString, typ: GoString, index: int, id: GoString, ttl: int)

  type Table = map<GoString, Row>

  /** A lock as the database layer hands it out: the resource with its version and ttl. */
  datatype DbLock = DbLock(resource: Resource, ttl: int, index: int, id: GoString)

  /** What a row of the table is read back as. */
  function RowLock(key: GoString, row: Row): DbLock {
    DbLock(Resource(key, row.owner, row.value, row.typ, GetTypeCode(row.typ)), row.ttl, row.index, row.id)
  }

  function LockRow(l: DbLock): Row {
    Row(l.resource.owner, l.resource.value, l.resource.typ, l.index, l.id, l.ttl)
  }

  /** `guid` is what the GUID provider would answer, `None` when it fails. */
  function LockTx(t: Table, r: Resource, ttl: int, guid: Option<GoString>): Result<(Table, DbLock), Error> {
    var found := r.key in t;
    if found && t[r.key].owner != r.owner && t[r.key].owner != [] then Err(LockCollision)
    else
      var index := (if found then t[r.key].index else 0) + 1;
      var id := if found then t[r.key].id else [];
      if id == [] && guid.None? then Err(GuidFailure)
      else
        var lock := DbLock(GetResource(r), ttl, index, if id == [] then guid.value else id);
        Ok((t[r.key := LockRow(lock)], lock))
  }

  function ReleaseTx(t: Table, r: Resource): Result<Table, Error> {
    if r.key !in t then Err(ResourceNotFound)
    else if t[r.key].owner != r.owner then Err(LockCollision)
    else Ok(t - {r.key})
  }

  function FetchTx(t: Table, key: GoString): Result<DbLock, Error> {
    if key !in t || t[key].owner == [] then Err(ResourceNotFound)
    else Ok(RowLock(key, t[key]))
  }

  /** The rows a query for `lockType` is about; the empty type asks for all. */
  predicate Selected(row: Row, lockType: GoString) {
    row.owner != [] && (lockType == [] || row.typ == lockType)
  }

  function SelectedKeys(t: Table, lockType: GoString): set<GoString> {
    set k | k in t && Selected(t[k], lockType)
  }

  /** Every lock of the query's answer, once each, in some order. */
  ghost predicate Enumerates(t: Table, lockType: GoString, locks: seq<DbLock>) {
    && (forall i :: 0 <= i < |locks| ==>
          locks[i].resource.key in SelectedKeys(t, lockType) &&
          locks[i] == RowLock(locks[i].resource.key, t[locks[i].resource.key]))
    && (forall i, j :: 0 <= i < j < |locks| ==> locks[i].resource.key != locks[j].resource.key)
    && (forall k :: k in SelectedKeys(t, lockType) ==> RowLock(k, t[k]) in locks)
  }

  /** The locks read from the rows seen so far. */
  ghost predicate Scanned(t: Table, lockType: GoString, unreadable: set<GoString>, seen: seq<GoString>,
                          locks: seq<DbLock>) {
    && (forall i :: 0 <= i < |locks| ==>
          var k := locks[i].resource.key;
          k in seen && k in t && k !in unreadable && Selected(t[k], lockType) && locks[i] == RowLock(k, t[k]))
    && (forall i, j :: 0 <= i < j < |locks| ==> locks[i].resource.key != locks[j].resource.key)
    && (forall k :: k in seen && k in t && k !in unreadable && Selected(t[k], lockType) ==> RowLock(k, t[k]) in locks)
  }

  lemma ScannedMore(t: Table, lockType: GoString, unreadable: set<GoString>, seen: seq<GoString>, key: GoString,
                    locks: seq<DbLock>, locks': seq<DbLock>)
    requires Scanned(t, lockType, unreadable, seen, locks) && key !in seen && key in t
    requires locks' ==
             if key !in unreadable && Selected(t[key], lockType) then locks + [RowLock(key, t[key])] else locks
    ensures Scanned(t, lockType, unreadable, seen + [key], locks')
  {
    forall k | k in seen + [key] && k in t && k !in unreadable && Selected(t[k], lockType)
      ensures RowLock(k, t[k]) in locks'
    {
      if k == key {
        assert locks'[|locks|] == RowLock(key, t[key]);
      } else {
        assert RowLock(k, t[k]) in locks;
      }
    }
  }

  /** The database object. Transactions replace its table. */
  class SQLDB {
    var table: Table

    constructor ()
      ensures table == map[]
    {
      table := map[];
    }

    method Lock(r: Resource, ttl: int, guid: Option<GoString>) returns (res: Result<DbLock, Error>)
      modifies this
      ensures match LockTx(old(table), r, ttl, guid)
              case Ok(p) => table == p.0 && res == Ok(p.1)
              case Err(e) => table == old(table) && res == Err(e)
    {
      var newLock := false;
      var index, id := 0, [];
      if r.key !in table {
        newLock := true;
      } else {
        var row := table[r.key];
        if row.owner != r.owner && row.owner != [] {
          return Err(LockCollision);
        }
        index, id := row.index, row.id;
      }
      index := index + 1;
      var modifiedId := id;
      if modifiedId == [] {
        if guid.None? {
          return Err(GuidFailure);
        }
        modifiedId := guid.value;
      }
      var lock := DbLock(GetResource(r), ttl, index, modifiedId);
      if newLock {
        table := table + map[lock.resource.key := LockRow(lock)];
      } else {
        var row := table[lock.resource.key];
        table := table[lock.resource.key := row.(owner := lock.resource.owner, value := lock.resource.value,
                       typ := lock.resource.typ, index := lock.index, id := lock.id, ttl := lock.ttl)];
      }
      res := Ok(lock);
    }

    method Release(r: Resource) returns (err: Option<Error>)
      modifies this
      ensures match ReleaseTx(old(table), r)
              case Ok(t) => table == t && err == None
              case Err(e) => table == old(table) && err == Some(e)
    {
      if r.key !in table {
        return Some(ResourceNotFound);
      }
      if table[r.key].owner != r.owner {
        return Some(LockCollision);
      }
      table := map k | k in table && k != r.key :: table[k];
      err := None;
    }

    method Fetch(key: GoString) returns (res: Result<DbLock, Error>)
      ensures res == FetchTx(table, key)
    {
      if key !in table {
        return Err(ResourceNotFound);
      }
      var row := table[key];
      if row.owner == [] {
        return Err(ResourceNotFound);
      }
      res := Ok(RowLock(key, row));
    }

    /** `rows` is the order of the rows in the database; those of another type do not match the query,
        and those in `unreadable` fail to scan and are skipped. */
    method FetchAll(lockType: GoString, rows: seq<GoString>, unreadable: set<GoString>) returns (locks: seq<DbLock>)
      requires forall i, j :: 0 <= i < j < |rows| ==> rows[i] != rows[j]
      requires forall k :: k in rows <==> k in table
      ensures Enumerates(table - unreadable, lockType, locks)
      ensures forall l :: l in locks <==>
                var k := l.resource.key;
                && k in table && k !in unreadable && l == RowLock(k, table[k])
                && table[k].owner != [] && (lockType == [] || table[k].typ == lockType)
    {
      locks := [];
      var n := 0;
      while n < |rows|
        invariant 0 <= n <= |rows|
        invariant Scanned(table, lockType, unreadable, rows[..n], locks)
      {
        var key, row := rows[n], table[rows[n]];
        ghost var seen, was := rows[..n], locks;
        assert rows[..n + 1] == seen + [key];
        if (lockType == [] || row.typ == lockType) && key !in unreadable && row.owner != [] {
          locks := locks + [RowLock(key, row)];
        }
        ScannedMore(table, lockType, unreadable, seen, key, was, locks);
        n := n + 1;
      }
      assert rows[..n] == rows;
      EnumerationIsExact(table - unreadable, lockType, locks);
    }

    /** The number of rows matching the count query, by a scan. */
    method Count(lockType: GoString) returns (count: nat)
      ensures count == |SelectedKeys(table, lockType)|
      ensures count == |set k | k in table && table[k].owner != [] && (lockType == [] || table[k].typ == lockType)|
    {
      count := 0;
      var todo := table.Keys;
      ghost var selected := SelectedKeys(table, lockType);
      while todo != {}
        invariant todo <= table.Keys
        invariant count == |selected - todo|
        decreases todo
      {
        var k :| k in todo;
        ghost var done := selected - todo;
        todo := todo - {k};
        if table[k].owner != [] && (lockType == [] || table[k].typ == lockType) {
          count := count + 1;
          assert selected - todo == done + {k};
        } else {
          assert selected - todo == done;
        }
      }
      assert selected - todo == selected;
      SelectedExact(table, lockType);
    }
  }

  lemma SelectedExact(t: Table, lockType: GoString)
    ensures SelectedKeys(t, lockType) == set k | k in t && t[k].owner != [] && (lockType == [] || t[k].typ == lockType)
  {}

  /** A full answer holds exactly the owned rows of the type. */
  lemma EnumerationIsExact(t: Table, lockType: GoString, locks: seq<DbLock>)
    requires Enumerates(t, lockType, locks)
    ensures forall l :: l in locks <==>
              var k := l.resource.key;
              k in t && l == RowLock(k, t[k]) && t[k].owner != [] && (lockType == [] || t[k].typ == lockType)
  {
    forall l
      ensures l in locks <==>
              l.resource.key in SelectedKeys(t, lockType) && l == RowLock(l.resource.key, t[l.resource.key])
    {
    }
  }

  /** Two queries agree: a full answer has exactly as many locks as the count query reports. */
  lemma CountMatchesFetchAll(t: Table, lockType: GoString, locks: seq<DbLock>)
    requires Enumerates(t, lockType, locks)
    ensures |locks| == |SelectedKeys(t, lockType)|
  {
    var keys := seq(|locks|, i requires 0 <= i < |locks| => locks[i].resource.key);
    DistinctLength(keys);
    assert (set k | k in keys) == SelectedKeys(t, lockType) by {
      forall k | k in SelectedKeys(t, lockType) ensures k in keys {
        var i :| 0 <= i < |locks| && locks[i] == RowLock(k, t[k]);
        assert keys[i] == k;
      }
    }
  }

  lemma {:induction false} DistinctLength<T>(s: seq<T>)
    requires forall i, j :: 0 <= i < j < |s| ==> s[i] != s[j]
    ensures |set x | x in s| == |s|
  {
    if s != [] {
      DistinctLength(s[1..]);
      assert (set x | x in s) == {s[0]} + set x | x in s[1..];
    }
  }

  /** What a lock query answers right after a successful lock: the canonical resource with the
      committed version and ttl, although the row stores no type code. */
  lemma LockThenFetch(t: Table, r: Resource, ttl: int, guid: Option<GoString>)
    requires LockTx(t, r, ttl, guid).Ok? && r.owner != []
    ensures var (t', lock) := LockTx(t, r, ttl, guid).value;
            FetchTx(t', r.key) == Ok(lock) <==> UNKNOWN <= r.typeCode <= PRESENCE
    ensures var (t', lock) := LockTx(t, r, ttl, guid).value;
            && lock.resource == GetResource(r) && lock.ttl == ttl
            && (forall k :: k != r.key ==> FetchTx(t', k) == FetchTx(t, k))
  {
    TypeCodeRecoverable(r);
  }

  /** What Fetch answers after a successful Lock, in terms of the request and the old row: key, owner,
      value and ttl of the request, the type it names or its code stands for, the next index, and the
      row's id or else a new one. The lock that the transaction returns says the same. No other row
      changes. */
  lemma LockStoresRequest(t: Table, r: Resource, ttl: int, guid: Option<GoString>)
    requires LockTx(t, r, ttl, guid).Ok? && r.owner != []
    ensures var (t', lock) := LockTx(t, r, ttl, guid).value;
            && FetchTx(t', r.key).Ok?
            && var f := FetchTx(t', r.key).value;
               && f.resource.key == r.key && f.resource.owner == r.owner && f.resource.value == r.value
               && f.ttl == ttl
               && f.index == (if r.key in t then t[r.key].index + 1 else 1)
               && Some(f.id) == (if r.key in t && t[r.key].id != [] then Some(t[r.key].id) else guid)
               && (Validate(r.typ, r.typeCode).None? ==> f.resource.typ == TypeAsked(r.typ, r.typeCode))
               && (Validate(r.typ, r.typeCode).None? && r.typ != [] ==> f.resource.typ == r.typ)
               && lock == f.(resource := f.resource.(typeCode := lock.resource.typeCode))
               && (forall k :: k != r.key ==> (k in t' <==> k in t) && (k in t ==> t'[k] == t[k]))
  {
    GetResourceKeeps(r);
    if Validate(r.typ, r.typeCode).None? {
      ValidTypeIsAsked(r.typ, r.typeCode);
      TypeNamesDiffer();
    }
  }

  /** Exactly when Lock is refused, and why. */
  lemma LockRefusedIff(t: Table, r: Resource, ttl: int, guid: Option<GoString>)
    ensures LockTx(t, r, ttl, guid) == Err(LockCollision) <==>
            r.key in t && t[r.key].owner != [] && t[r.key].owner != r.owner
    ensures LockTx(t, r, ttl, guid) == Err(GuidFailure) <==>
            && guid == None
            && (r.key !in t || (t[r.key].id == [] && (t[r.key].owner == [] || t[r.key].owner == r.owner)))
    ensures LockTx(t, r, ttl, guid).Err? ==> LockTx(t, r, ttl, guid).error in {LockCollision, GuidFailure}
  {}

  /** Exactly what Release and Fetch do: the owner's release deletes the row and no other; a missing row,
      and for Fetch one without an owner, is not found; another owner's row is a collision. */
  lemma ReleaseAndFetchExact(t: Table, r: Resource)
    ensures ReleaseTx(t, r) == Err(ResourceNotFound) <==> r.key !in t
    ensures ReleaseTx(t, r) == Err(LockCollision) <==> r.key in t && t[r.key].owner != r.owner
    ensures ReleaseTx(t, r).Ok? <==> r.key in t && t[r.key].owner == r.owner
    ensures ReleaseTx(t, r).Ok? ==>
              var t' := ReleaseTx(t, r).value;
              r.key !in t' && forall k :: k != r.key ==> (k in t' <==> k in t) && (k in t ==> t'[k] == t[k])
    ensures FetchTx(t, r.key).Ok? <==> r.key in t && t[r.key].owner != []
    ensures FetchTx(t, r.key).Err? ==> FetchTx(t, r.key).error == ResourceNotFound
  {}
}
