/** The ctime cache (src/cache/cache.go): two tables in the pool's transaction. Times are in nanoseconds. */
module Caches {
  import opened Base
  import opened Text
  import opened Pool

  datatype FileInfo = FileInfo(ino: nat, ctime: int, data: OID, expire: int)

  datatype DirInfo = DirInfo(ino: nat, files: map<nat, FileInfo>)

  /** Each file is recorded under its own inode number. */
  ghost predicate WellKeyed(di: DirInfo) {
    forall i :: i in di.files ==> di.files[i].ino == i
  }

  /** `UnixNano`: a 64-bit number that wraps around. */
  function UnixNano(t: int): int {
    (t + INT64_LIMIT) % UINT64_LIMIT - INT64_LIMIT
  }

  lemma UnixNanoExact(t: int)
    requires IsInt64(t)
    ensures UnixNano(t) == t
  {
  }

  const WEEK := 7 * 24 * 3600 * NANO

  // ---- keys --------------------------------------------------------------------------------

  ghost function Largest(s: set<nat>): (m: nat)
    requires s != {}
    ensures m in s && forall k :: k in s ==> k <= m
  {
    var k :| k in s;
    if s == {k} then k
    else
      var m := Largest(s - {k});
      assert forall j :: j in s ==> j == k || j in s - {k};
      if m > k then m else k
  }

  /** The key SQLite gives a new row: one more than the largest in use. Keys of deleted rows can come back. */
  function NextKey(s: set<nat>): (key: nat)
    ensures key !in s
  {
    if s == {} then 1
    else
      assert Largest(s) in s;
      var m :| m in s && forall k :: k in s ==> k <= m;
      m + 1
  }

  // ---- tables ------------------------------------------------------------------------------

  /** The constraints of the schema and what the operations keep: (fsid, pino) is unique, every cache row belongs
      to an existing directory row, and a directory has at most one row for a file inode. */
  ghost predicate Consistent(t: Tables) {
    && (forall a, b :: a in t.filesystems && b in t.filesystems && t.filesystems[a] == t.filesystems[b] ==> a == b)
    && (forall p :: p in t.ctimeDirs ==> t.ctimeDirs[p].fsid in t.filesystems.Values)
    && (forall p, q :: p in t.ctimeDirs && q in t.ctimeDirs && t.ctimeDirs[p] == t.ctimeDirs[q] ==> p == q)
    && (forall r :: r in t.ctimeCache ==> r.pkey in t.ctimeDirs)
    && (forall r, s :: r in t.ctimeCache && s in t.ctimeCache && r.pkey == s.pkey && r.ino == s.ino ==> r == s)
  }

  function InfoOf(r: CacheRow): FileInfo {
    FileInfo(r.ino, r.ctime, r.oid, r.expire)
  }

  /** The row of a file at a time in a directory with this key. */
  function RowFor(pkey: nat, fi: FileInfo): CacheRow {
    CacheRow(pkey, fi.ino, UnixNano(fi.expire), UnixNano(fi.ctime), fi.data)
  }

  function RowsFor(pkey: nat, base: int, files: map<nat, FileInfo>): set<CacheRow> {
    set i | i in files && files[i].expire >= base :: RowFor(pkey, files[i])
  }

  /** The rows of some of the files. */
  function RowsOf(pkey: nat, base: int, files: map<nat, FileInfo>, some: set<nat>): set<CacheRow> {
    set i | i in some && i in files && files[i].expire >= base :: RowFor(pkey, files[i])
  }

  /** All rows of a directory, by its filesystem and inode. */
  ghost function DirRows(t: Tables, key: DirKey): set<CacheRow> {
    set r | r in t.ctimeCache && r.pkey in t.ctimeDirs && t.ctimeDirs[r.pkey] == key
      && key.fsid in t.filesystems.Values
  }

  /** What `GetDir` finds: the entries of the directory that have not expired, by inode. */
  ghost function Entries(t: Tables, key: DirKey, base: int): set<FileInfo> {
    set r | r in DirRows(t, key) && r.expire >= base :: InfoOf(r)
  }

  /** All entries of a directory, expired or not. */
  ghost function Infos(t: Tables, key: DirKey): set<FileInfo> {
    set r | r in DirRows(t, key) :: InfoOf(r)
  }

  lemma EntriesOfInfos(t: Tables, key: DirKey, at: int)
    ensures Entries(t, key, at) == set fi | fi in Infos(t, key) && fi.expire >= at
  {
    hide DirRows;
    forall fi ensures fi in Entries(t, key, at) <==> fi in Infos(t, key) && fi.expire >= at {
      if fi in Infos(t, key) && fi.expire >= at {
        var r :| r in DirRows(t, key) && fi == InfoOf(r);
        assert InfoOf(r) in Entries(t, key, at);
      }
    }
  }

  function WithDir(t: Tables, key: DirKey): Tables {
    if key in t.ctimeDirs.Values then t else t.(ctimeDirs := t.ctimeDirs[NextKey(t.ctimeDirs.Keys) := key])
  }

  ghost function Least(s: set<nat>): (m: nat)
    requires s != {}
    ensures m in s && forall k :: k in s ==> m <= k
  {
    var k :| k in s;
    if s == {k} then k
    else
      var m := Least(s - {k});
      assert forall j :: j in s ==> j == k || j in s - {k};
      if m < k then m else k
  }

  /** The row key of a directory, the first one should there be several. */
  function KeyOf(t: Tables, key: DirKey): (pkey: nat)
    requires key in t.ctimeDirs.Values
    ensures pkey in t.ctimeDirs && t.ctimeDirs[pkey] == key
  {
    var keys := set p | p in t.ctimeDirs && t.ctimeDirs[p] == key;
    assert keys != {} by {
      var p :| p in t.ctimeDirs && t.ctimeDirs[p] == key;
      assert p in keys;
    }
    assert Least(keys) in keys;
    var p :| p in keys && forall q :: q in keys ==> p <= q;
    p
  }

  lemma WithDirHas(t: Tables, key: DirKey)
    ensures key in WithDir(t, key).ctimeDirs.Values
  {
    if key !in t.ctimeDirs.Values {
      assert NextKey(t.ctimeDirs.Keys) in WithDir(t, key).ctimeDirs;
    }
  }

  /** The tables after writing some entries of a directory instead of those it had. */
  function Rewritten(t: Tables, key: DirKey, base: int, files: map<nat, FileInfo>): Tables {
    WithDirHas(t, key);
    var u := WithDir(t, key);
    var pkey := KeyOf(u, key);
    u.(ctimeCache := (set r | r in t.ctimeCache && r.pkey != pkey) + RowsFor(pkey, base, files))
  }

  ghost function Expired(t: Tables, now: int): Tables {
    var rows := set r | r in t.ctimeCache && r.expire >= now;
    t.(ctimeCache := rows,
       ctimeDirs := map p | p in t.ctimeDirs && (exists r :: r in rows && r.pkey == p) :: t.ctimeDirs[p])
  }

  // ---- what the operations keep and do -----------------------------------------------------

  lemma WithDirConsistent(t: Tables, key: DirKey)
    requires Consistent(t) && key.fsid in t.filesystems.Values
    ensures Consistent(WithDir(t, key))
  {
    if key !in t.ctimeDirs.Values {
      assert forall p :: p in t.ctimeDirs ==> t.ctimeDirs[p] != key;
    }
  }

  /** New rows of one directory instead of its old ones. */
  lemma RowsConsistent(u: Tables, pkey: nat, base: int, files: map<nat, FileInfo>)
    requires Consistent(u) && pkey in u.ctimeDirs && forall i :: i in files ==> files[i].ino == i
    ensures Consistent(u.(ctimeCache := (set r | r in u.ctimeCache && r.pkey != pkey) + RowsFor(pkey, base, files)))
  {
    hide UnixNano;
  }

  lemma RewrittenConsistent(t: Tables, key: DirKey, base: int, files: map<nat, FileInfo>)
    requires Consistent(t) && key.fsid in t.filesystems.Values
    requires forall i :: i in files ==> files[i].ino == i
    ensures Consistent(Rewritten(t, key, base, files))
  {
    hide Consistent, RowsFor;
    WithDirHas(t, key);
    WithDirConsistent(t, key);
    var u := WithDir(t, key);
    assert u.ctimeCache == t.ctimeCache;
    RowsConsistent(u, KeyOf(u, key), base, files);
  }

  /** The files that have not expired, as a cache that stores nanoseconds in 64 bits gives them back. */
  ghost function Written(files: map<nat, FileInfo>, base: int): set<FileInfo> {
    set i | i in files && files[i].expire >= base :: InfoOf(RowFor(0, files[i]))
  }

  /** An entry is written exactly for each file that has not expired, and holds its inode, its identifier, and its two
      times in the nanoseconds of the column. */
  lemma WrittenExactly(files: map<nat, FileInfo>, base: int, fi: FileInfo)
    requires forall i :: i in files ==> files[i].ino == i
    ensures fi in Written(files, base) <==>
      fi.ino in files &&
      var f := files[fi.ino];
      base <= f.expire && fi.data == f.data && fi.ctime == UnixNano(f.ctime) && fi.expire == UnixNano(f.expire)
  {
    hide UnixNano;
    if fi.ino in files && files[fi.ino].expire >= base {
      assert InfoOf(RowFor(0, files[fi.ino])) in Written(files, base);
    }
  }

  /** Writing a directory replaces its entries by exactly the files that have not expired, and no other directory
      of any filesystem gains, loses or shares an entry, even when the key of a deleted directory is used again. */
  lemma RewrittenInfos(t: Tables, key: DirKey, base: int, files: map<nat, FileInfo>, other: DirKey)
    requires Consistent(t) && key.fsid in t.filesystems.Values
    requires forall i :: i in files ==> files[i].ino == i
    ensures Infos(Rewritten(t, key, base, files), other) ==
      if other == key then Written(files, base) else Infos(t, other)
  {
    hide Consistent, Infos, Written, RowsFor;
    WithDirHas(t, key);
    WithDirConsistent(t, key);
    var u := WithDir(t, key);
    if other == key {
      OwnInfos(u, key, KeyOf(u, key), base, files);
    } else {
      OtherRows(t, key, base, files, other);
      EqualRows(t, Rewritten(t, key, base, files), other);
    }
  }

  lemma EqualRows(t: Tables, u: Tables, key: DirKey)
    requires DirRows(t, key) == DirRows(u, key)
    ensures Infos(t, key) == Infos(u, key)
  {
  }

  lemma OwnInfos(u: Tables, key: DirKey, pkey: nat, base: int, files: map<nat, FileInfo>)
    requires Consistent(u) && key.fsid in u.filesystems.Values && pkey in u.ctimeDirs && u.ctimeDirs[pkey] == key
    ensures Infos(u.(ctimeCache := (set r | r in u.ctimeCache && r.pkey != pkey) + RowsFor(pkey, base, files)), key)
         == Written(files, base)
  {
    hide UnixNano;
    var v := u.(ctimeCache := (set r | r in u.ctimeCache && r.pkey != pkey) + RowsFor(pkey, base, files));
    forall fi ensures fi in Infos(v, key) <==> fi in Written(files, base) {
      if fi in Written(files, base) {
        var i :| i in files && files[i].expire >= base && fi == InfoOf(RowFor(0, files[i]));
        var r := RowFor(pkey, files[i]);
        assert r in RowsFor(pkey, base, files) && r in DirRows(v, key) && InfoOf(r) == fi;
      }
      if fi in Infos(v, key) {
        var r :| r in DirRows(v, key) && InfoOf(r) == fi;
        assert r.pkey == pkey && r in RowsFor(pkey, base, files);
        var i :| i in files && files[i].expire >= base && RowFor(pkey, files[i]) == r;
        assert fi == InfoOf(RowFor(0, files[i]));
      }
    }
  }

  lemma OtherRows(t: Tables, key: DirKey, base: int, files: map<nat, FileInfo>, other: DirKey)
    requires Consistent(t) && key.fsid in t.filesystems.Values && other != key
    ensures DirRows(t, other) == DirRows(Rewritten(t, key, base, files), other)
  {
    var u, v := WithDir(t, key), Rewritten(t, key, base, files);
    forall r ensures r in DirRows(v, other) <==> r in DirRows(t, other) {
      if r in DirRows(t, other) {
        assert r.pkey in u.ctimeDirs && u.ctimeDirs[r.pkey] == other;
      }
    }
  }

  /** Expiry keeps the constraints, drops exactly the entries that have expired, and leaves every directory row
      with an entry that has not. */
  lemma ExpiredEntries(t: Tables, now: int, key: DirKey, at: int)
    requires Consistent(t)
    ensures Consistent(Expired(t, now))
    ensures Entries(Expired(t, now), key, at) == set fi | fi in Entries(t, key, at) && fi.expire >= now
    ensures forall p :: p in Expired(t, now).ctimeDirs ==>
      exists r :: r in Expired(t, now).ctimeCache && r.pkey == p && r.expire >= now
  {
    var u := Expired(t, now);
    forall r ensures r in DirRows(u, key) <==> r in DirRows(t, key) && r.expire >= now {
      if r in DirRows(t, key) && r.expire >= now {
        assert r in u.ctimeCache;
        assert r.pkey in u.ctimeDirs;
      }
    }
    var want := set fi | fi in Entries(t, key, at) && fi.expire >= now;
    forall fi ensures fi in Entries(u, key, at) <==> fi in want {
      if fi in want {
        var r :| r in DirRows(t, key) && r.expire >= at && InfoOf(r) == fi;
        assert r in DirRows(u, key);
      }
    }
  }

  // ---- the cache ---------------------------------------------------------------------------

  /** What a failing `UpdateDir` may leave: some of the old entries and some of the new ones. */
  ghost predicate Partly(t: Tables, u: Tables, key: DirKey, files: map<nat, FileInfo>) {
    && u.blobs == t.blobs && u.filesystems == t.filesystems
    && forall r :: r in u.ctimeCache ==> r.pkey in u.ctimeDirs && OldOrNew(t, u, key, files, r)
  }

  ghost predicate OldOrNew(t: Tables, u: Tables, key: DirKey, files: map<nat, FileInfo>, r: CacheRow)
    requires r.pkey in u.ctimeDirs
  {
    || (r in t.ctimeCache && r.pkey in t.ctimeDirs && u.ctimeDirs[r.pkey] == t.ctimeDirs[r.pkey])
    || (u.ctimeDirs[r.pkey] == key && exists i :: i in files && r == RowFor(r.pkey, files[i]))
  }

  lemma PartlySelf(t: Tables, key: DirKey, files: map<nat, FileInfo>)
    requires Consistent(t)
    ensures Partly(t, t, key, files)
  {
  }

  lemma PartlyAt(t: Tables, key: DirKey, base: int, files: map<nat, FileInfo>, pkey: nat, rows: set<CacheRow>)
    requires Consistent(t) && key.fsid in t.filesystems.Values && forall i :: i in files ==> files[i].ino == i
    requires pkey in WithDir(t, key).ctimeDirs && WithDir(t, key).ctimeDirs[pkey] == key
    requires rows <= t.ctimeCache || rows <= (set r | r in t.ctimeCache && r.pkey != pkey) + RowsFor(pkey, base, files)
    ensures var u := WithDir(t, key).(ctimeCache := rows); Consistent(u) && Partly(t, u, key, files)
  {
    hide UnixNano, NextKey, DirRows;
    var u := WithDir(t, key).(ctimeCache := rows);
    assert key !in t.ctimeDirs.Values ==> forall p :: p in t.ctimeDirs ==> t.ctimeDirs[p] != key;
    forall r | r in rows ensures r.pkey in u.ctimeDirs && OldOrNew(t, u, key, files, r) {
      if r !in t.ctimeCache {
        assert r in RowsFor(pkey, base, files);
        var i :| i in files && r == RowFor(pkey, files[i]);
      }
    }
    forall r, s | r in rows && s in rows && r.pkey == s.pkey && r.ino == s.ino ensures r == s {
      if r in t.ctimeCache && s in t.ctimeCache {
      } else {
        var i :| i in files && r == RowFor(pkey, files[i]);
        var j :| j in files && s == RowFor(pkey, files[j]);
      }
    }
  }

  /** The rows one file adds. */
  lemma RowsOfOne(pkey: nat, base: int, files: map<nat, FileInfo>, done: set<nat>, i: nat)
    requires i in files
    ensures RowsOf(pkey, base, files, done + {i})
         == RowsOf(pkey, base, files, done) + if files[i].expire >= base then {RowFor(pkey, files[i])} else {}
  {
  }

  lemma RowsOfAll(pkey: nat, base: int, files: map<nat, FileInfo>, done: set<nat>)
    ensures RowsOf(pkey, base, files, done) <= RowsFor(pkey, base, files)
    ensures RowsOf(pkey, base, files, {}) == {}
    ensures RowsOf(pkey, base, files, files.Keys) == RowsFor(pkey, base, files)
  {
  }

  /** The inode numbers of those that have not expired are ones the driver takes: below 2^63. */
  predicate InosFit(files: map<nat, FileInfo>, some: set<nat>, base: int) {
    forall i :: i in some && i in files && files[i].expire >= base ==> i < INT64_LIMIT
  }

  /** The driver takes all numbers of an update. */
  predicate Taken(ino: nat, files: map<nat, FileInfo>, base: int) {
    ino < INT64_LIMIT && InosFit(files, files.Keys, base)
  }

  class Cache {
    const pool: SqlPool
    const fsid: nat
    var baseTime: int

    ghost predicate Valid()
      reads this, pool
    {
      Consistent(pool.work) && fsid in pool.work.filesystems.Values
    }

    /** `NewCache` once the filesystem has a row. */
    constructor (pool: SqlPool, fsid: nat, now: int)
      requires Consistent(pool.work) && fsid in pool.work.filesystems.Values
      ensures this.pool == pool && this.fsid == fsid && baseTime == now && Valid()
    {
      this.pool, this.fsid, baseTime := pool, fsid, now;
    }

    /** `UpdateDir`. A failing statement leaves what was done so far in the transaction. */
    method UpdateDir(di: DirInfo) returns (ok: bool)
      requires Valid() && pool.Valid() && WellKeyed(di)
      modifies pool`work, pool`faults
      ensures pool.Valid() && Valid() && pool.View() == old(pool.View()) && pool.Saved() == old(pool.Saved())
      ensures pool.faults >= old(pool.faults) && (ok ==> Taken(di.ino, di.files, baseTime))
      ensures !ok ==> !pool.live || pool.faults > old(pool.faults) || !Taken(di.ino, di.files, baseTime)
      ensures ok ==> pool.work == Rewritten(old(pool.work), DirKey(fsid, di.ino), baseTime, di.files)
      ensures Partly(old(pool.work), pool.work, DirKey(fsid, di.ino), di.files)
    {
      hide Consistent, Partly, Rewritten, SqlPool.Valid;
      ghost var t := pool.work;
      var key := DirKey(fsid, di.ino);
      ok := false;
      PartlySelf(t, key, di.files);
      WithDirHas(t, key);
      PartlyAt(t, key, baseTime, di.files, KeyOf(WithDir(t, key), key), t.ctimeCache);
      var failed := pool.Fails();
      if failed || !pool.live || di.ino >= INT64_LIMIT {
        return false;
      }
      var w := AddDirectory(pool.work, key);
      var pkey :| pkey in w.ctimeDirs && w.ctimeDirs[pkey] == key;
      failed := pool.Fails();
      if !failed {
        w, ok := InsertFiles(t, w, key, pkey, di);
      }
      pool.UseTables(w);
    }

    /** INSERT OR IGNORE INTO ctime_dirs. */
    method AddDirectory(t: Tables, key: DirKey) returns (w: Tables)
      ensures w == WithDir(t, key)
      ensures exists p :: p in w.ctimeDirs && w.ctimeDirs[p] == key
    {
      w := t;
      if !(exists p :: p in t.ctimeDirs && t.ctimeDirs[p] == key) {
        var next := NextKey(t.ctimeDirs.Keys);
        w := t.(ctimeDirs := t.ctimeDirs[next := key]);
        assert next in w.ctimeDirs;
      }
    }

    /** DELETE the old rows, then INSERT one row per file. */
    method InsertFiles(ghost t: Tables, u: Tables, key: DirKey, pkey: nat, di: DirInfo) returns (w: Tables, ok: bool)
      requires Consistent(t) && fsid in t.filesystems.Values && key == DirKey(fsid, di.ino) && WellKeyed(di)
      requires u == WithDir(t, key) && pkey in u.ctimeDirs && u.ctimeDirs[pkey] == key && pool.Valid()
      modifies pool`faults
      ensures pool.Valid() && pool.Snap() == old(pool.Snap()).(faults := pool.faults)
      ensures pool.faults >= old(pool.faults)
      ensures !ok ==> pool.faults > old(pool.faults) || !InosFit(di.files, di.files.Keys, baseTime)
      ensures Consistent(w) && Partly(t, w, key, di.files) && w.blobs == t.blobs && w.filesystems == t.filesystems
      ensures ok ==> w == Rewritten(t, key, baseTime, di.files) && InosFit(di.files, di.files.Keys, baseTime)
    {
      hide Consistent, Partly, RowsFor, SqlPool.Valid;
      var kept := set r | r in u.ctimeCache && r.pkey != pkey;
      var rows;
      rows, ok := InsertRows(pkey, di);
      w := u.(ctimeCache := kept + rows);
      assert u.ctimeCache == t.ctimeCache;
      PartlyAt(t, key, baseTime, di.files, pkey, w.ctimeCache);
      KeyUnique(t, key, pkey);
    }

    /** The INSERT loop, in the arbitrary order of the map. */
    method InsertRows(pkey: nat, di: DirInfo) returns (rows: set<CacheRow>, ok: bool)
      requires pool.Valid()
      modifies pool`faults
      ensures pool.Valid() && pool.Snap() == old(pool.Snap()).(faults := pool.faults)
      ensures pool.faults >= old(pool.faults)
      ensures !ok ==> pool.faults > old(pool.faults) || !InosFit(di.files, di.files.Keys, baseTime)
      ensures rows <= RowsFor(pkey, baseTime, di.files)
      ensures ok ==> rows == RowsFor(pkey, baseTime, di.files) && InosFit(di.files, di.files.Keys, baseTime)
    {
      hide RowsFor, RowsOf, SqlPool.Valid;
      rows := {};
      var rest := di.files.Keys;
      ghost var done: set<nat> := {};
      RowsOfAll(pkey, baseTime, di.files, {});
      while rest != {}
        invariant done + rest == di.files.Keys && rows == RowsOf(pkey, baseTime, di.files, done)
        invariant InosFit(di.files, done, baseTime)
        invariant pool.Valid() && pool.Snap() == old(pool.Snap()).(faults := pool.faults)
        invariant pool.faults >= old(pool.faults)
        decreases |rest|
      {
        var i :| i in rest;
        var fi := di.files[i];
        RowsOfOne(pkey, baseTime, di.files, done, i);
        if fi.expire >= baseTime {
          var failed := pool.Fails();
          if failed || i >= INT64_LIMIT {
            RowsOfAll(pkey, baseTime, di.files, done);
            return rows, false;
          }
          rows := rows + {RowFor(pkey, fi)};
        }
        rest, done := rest - {i}, done + {i};
      }
      assert done == di.files.Keys;
      ok := true;
    }

    lemma FoundEntries(t: Tables, key: DirKey, at: int, files: map<nat, FileInfo>)
      requires forall i :: i in files ==>
        exists r :: r in DirRows(t, key) && r.expire >= at && r.ino == i && files[i] == InfoOf(r)
      requires forall r :: r in DirRows(t, key) && r.expire >= at ==> r.ino in files && files[r.ino] == InfoOf(r)
      ensures files.Values == Entries(t, key, at)
    {
      hide DirRows;
      forall fi ensures fi in files.Values <==> fi in Entries(t, key, at) {
        if fi in Entries(t, key, at) {
          var row :| row in DirRows(t, key) && row.expire >= at && fi == InfoOf(row);
          assert row.ino in files;
        }
      }
    }

    /** `GetDir`: the entries that have not expired, by inode. */
    method GetDir(ino: nat) returns (r: Option<DirInfo>)
      requires Valid() && pool.Valid()
      modifies pool`faults
      ensures pool.Valid() && pool.Snap() == old(pool.Snap()).(faults := pool.faults) && pool.faults >= old(pool.faults)
      ensures r.None? ==> !pool.live || pool.faults > old(pool.faults) || ino >= INT64_LIMIT
      ensures r.Some? ==> ino < INT64_LIMIT
      ensures r.Some? ==> pool.live && r.value.ino == ino && WellKeyed(r.value)
      ensures r.Some? ==> r.value.files.Values == Entries(pool.work, DirKey(fsid, ino), baseTime)
    {
      hide SqlPool.Valid;
      var failed := pool.Fails();
      if failed || !pool.live || ino >= INT64_LIMIT {
        return None;
      }
      ghost var t, key := pool.work, DirKey(fsid, ino);
      var rest := set r | r in pool.work.ctimeCache && r.pkey in pool.work.ctimeDirs
        && pool.work.ctimeDirs[r.pkey] == DirKey(fsid, ino);
      ghost var all := rest;
      assert all == DirRows(t, key);
      var files: map<nat, FileInfo> := map[];
      while rest != {}
        invariant rest <= all
        invariant forall i :: i in files ==>
          exists r :: r in all - rest && r.expire >= baseTime && r.ino == i && files[i] == InfoOf(r)
        invariant forall r :: r in all - rest && r.expire >= baseTime ==> r.ino in files && files[r.ino] == InfoOf(r)
        decreases |rest|
      {
        var row :| row in rest;
        rest := rest - {row};
        if row.expire >= baseTime {
          files := files[row.ino := InfoOf(row)];
        }
      }
      FoundEntries(t, key, baseTime, files);
      return Some(DirInfo(ino, files));
    }
  }

  function WithFilesystem(t: Tables, uuid: Bytes): Tables {
    if uuid in t.filesystems then t
    else t.(filesystems := t.filesystems[uuid := NextKey(t.filesystems.Values)])
  }

  /** A filesystem seen for the first time starts with no entries; the others keep theirs. */
  lemma NewFilesystem(t: Tables, uuid: Bytes, key: DirKey)
    requires Consistent(t)
    ensures var u := WithFilesystem(t, uuid);
      Consistent(u) && uuid in u.filesystems && Infos(u, key) == Infos(t, key)
  {
    var u := WithFilesystem(t, uuid);
    if uuid !in t.filesystems {
      assert forall v :: v in t.filesystems ==> t.filesystems[v] in t.filesystems.Values;
      assert forall v :: v in t.filesystems ==> v in u.filesystems && u.filesystems[v] == t.filesystems[v];
      assert DirRows(u, key) == DirRows(t, key);
    }
  }

  /** `NewCache`. */
  method NewCache(pool: SqlPool, uuid: Bytes, now: int) returns (c: Cache?)
    requires pool.Valid() && Consistent(pool.work)
    modifies pool`work, pool`faults
    ensures pool.Valid() && Consistent(pool.work) && pool.View() == old(pool.View())
    ensures pool.Saved() == old(pool.Saved())
    ensures pool.faults >= old(pool.faults) && (c == null ==> !pool.live || pool.faults > old(pool.faults))
    ensures c == null ==> pool.work == old(pool.work) || pool.work == WithFilesystem(old(pool.work), uuid)
    ensures c != null ==>
      && fresh(c) && c.pool == pool && c.Valid() && c.baseTime == now && pool.live
      && pool.work == WithFilesystem(old(pool.work), uuid) && c.fsid == pool.work.filesystems[uuid]
  {
    hide SqlPool.Valid, Consistent;
    var failed := pool.Fails();
    if failed || !pool.live {
      return null;
    }
    ghost var t := pool.work;
    NewFilesystem(t, uuid, DirKey(0, 0));
    var w := pool.work;
    if uuid !in w.filesystems {
      w := w.(filesystems := w.filesystems[uuid := NextKey(w.filesystems.Values)]);
    }
    pool.UseTables(w);
    failed := pool.Fails();
    if failed {
      return null;
    }
    c := new Cache(pool, w.filesystems[uuid], now);
  }

  lemma ExpiredDirs(t: Tables, now: int, rows: set<CacheRow>, used: set<nat>)
    requires rows == set r | r in t.ctimeCache && r.expire >= now
    requires used == set r | r in rows :: r.pkey
    ensures Expired(t, now) ==
      t.(ctimeCache := rows, ctimeDirs := map p | p in t.ctimeDirs && p in used :: t.ctimeDirs[p])
  {
    assert forall p :: p in used <==> exists r :: r in rows && r.pkey == p;
  }

  ghost predicate Fewer(t: Tables, u: Tables) {
    && u.blobs == t.blobs && u.filesystems == t.filesystems && u.ctimeCache <= t.ctimeCache
    && u.ctimeDirs.Keys <= t.ctimeDirs.Keys && forall p :: p in u.ctimeDirs ==> u.ctimeDirs[p] == t.ctimeDirs[p]
  }

  lemma ExpiredFewer(t: Tables, now: int)
    requires Consistent(t)
    ensures Fewer(t, Expired(t, now)) && Consistent(Expired(t, now))
  {
    hide Entries;
    ExpiredEntries(t, now, DirKey(0, 0), 0);
  }

  lemma RowsFewer(t: Tables, rows: set<CacheRow>)
    requires Consistent(t) && rows <= t.ctimeCache
    ensures Fewer(t, t.(ctimeCache := rows)) && Consistent(t.(ctimeCache := rows))
  {
  }

  /** `RunExpire`: two DELETE statements; the first alone leaves directories without entries. */
  method RunExpire(pool: SqlPool, now: int) returns (ok: bool)
    requires pool.Valid() && Consistent(pool.work)
    modifies pool`work, pool`faults
    ensures pool.Valid() && Consistent(pool.work) && pool.View() == old(pool.View())
    ensures pool.Saved() == old(pool.Saved())
    ensures pool.faults >= old(pool.faults) && (!ok ==> !pool.live || pool.faults > old(pool.faults))
    ensures Fewer(old(pool.work), pool.work)
    ensures ok ==> pool.work == Expired(old(pool.work), now)
  {
    hide SqlPool.Valid, Consistent, Expired, SqlPool.View, SqlPool.Saved;
    var t := pool.work;
    RowsFewer(t, t.ctimeCache);
    var failed := pool.Fails();
    if failed || !pool.live {
      return false;
    }
    var rows := set r | r in t.ctimeCache && r.expire >= now;
    RowsFewer(t, rows);
    failed := pool.Fails();
    if failed {
      pool.UseTables(t.(ctimeCache := rows));
      return false;
    }
    var used := set r | r in rows :: r.pkey;
    var dirs := map p | p in t.ctimeDirs && p in used :: t.ctimeDirs[p];
    ExpiredDirs(t, now, rows, used);
    ExpiredFewer(t, now);
    pool.UseTables(t.(ctimeCache := rows, ctimeDirs := dirs));
    return true;
  }

  lemma KeyUnique(t: Tables, key: DirKey, pkey: nat)
    requires Consistent(t) && key.fsid in t.filesystems.Values
    requires pkey in WithDir(t, key).ctimeDirs && WithDir(t, key).ctimeDirs[pkey] == key
    ensures key in WithDir(t, key).ctimeDirs.Values && KeyOf(WithDir(t, key), key) == pkey
  {
    var u := WithDir(t, key);
    assert key !in t.ctimeDirs.Values ==> forall p :: p in t.ctimeDirs ==> t.ctimeDirs[p] != key;
  }
}