/** The storage pool (src/pool/sql-pool.go): rows in a transaction, side files outside of it. */
module Pool {
  import opened Base
  import opened Chunks
  import opened Text

  // ---- the tables --------------------------------------------------------------------------

  /** A row of `blobs`; `data` is absent when the column is NULL. */
  datatype Row = Row(kind: Kind, size: nat, zsize: nat, data: Option<Bytes>)

  datatype DirKey = DirKey(fsid: nat, pino: nat)

  datatype CacheRow = CacheRow(pkey: nat, ino: nat, expire: int, ctime: int, oid: OID)

  /** The database: `blobs`, `filesystems` by uuid, `ctime_dirs` by pkey, and `ctime_cache`. */
  datatype Tables = Tables(
    blobs: map<OID, Row>,
    filesystems: map<Bytes, nat>,
    ctimeDirs: map<nat, DirKey>,
    ctimeCache: set<CacheRow>)

  // ---- representation ----------------------------------------------------------------------

  /** Compressed or not, data longer than this goes to a side file. */
  const INLINE_LIMIT := 100000

  function DirName(base: Bytes, oid: OID): Bytes {
    base + "/blobs/" + Hex(oid[..1])
  }

  function FileName(base: Bytes, oid: OID): Bytes {
    DirName(base, oid) + "/" + Hex(oid[1..])
  }

  /** The first two digits of the identifier name the directory of a side file, the others the file. */
  lemma FileNameText(base: Bytes, oid: OID)
    ensures FileName(base, oid) == base + "/blobs/" + OidText(oid)[..2] + "/" + OidText(oid)[2..]
  {
    assert oid[..1][1..] == [];
    assert Hex(oid[..1]) == OidText(oid)[..2];
  }

  lemma FileNameInjective(base: Bytes, a: OID, b: OID)
    requires FileName(base, a) == FileName(base, b)
    ensures a == b
  {
    var n := |base| + 7;
    var fa, fb := FileName(base, a), FileName(base, b);
    assert fa[n..n + 2] == Hex(a[..1]) && fb[n..n + 2] == Hex(b[..1]);
    assert fa[n + 3..] == Hex(a[1..]) && fb[n + 3..] == Hex(b[1..]);
    HexRoundTrip(a[..1]);
    HexRoundTrip(b[..1]);
    HexRoundTrip(a[1..]);
    HexRoundTrip(b[1..]);
    assert a == a[..1] + a[1..] && b == b[..1] + b[1..];
  }

  /** The bytes a chunk is stored as: compressed when that is shorter than the length field. */
  function StoredBytes(z: Codec, ch: Chunk): Bytes {
    var zdata := ch.ZData(z);
    if zdata.Some? && |zdata.value| < ch.DataLen() then zdata.value else ch.Data(z)
  }

  function StoredSize(z: Codec, ch: Chunk): nat {
    var zdata := ch.ZData(z);
    if zdata.Some? && |zdata.value| < ch.DataLen() then |zdata.value| % UINT32 else ch.DataLen()
  }

  /** The row `Insert` writes. The database driver binds an empty slice as NULL. */
  function RowOf(z: Codec, ch: Chunk): Row {
    var b, zsize := StoredBytes(z, ch), StoredSize(z, ch);
    Row(ch.kind, ch.DataLen(), zsize, if zsize > INLINE_LIMIT || b == [] then None else Some(b))
  }

  /** The two forms of the data of a chunk. */
  function Deflated(z: Codec, ch: Chunk): Bytes {
    if ch.Plain? then z.deflate(ch.data) else ch.zdata
  }

  function Inflated(z: Codec, ch: Chunk): Bytes {
    if ch.Plain? then ch.data else z.inflate(ch.zdata)
  }

  function Min(a: nat, b: nat): nat {
    if a < b then a else b
  }

  /** A row holds the length of the data and that of the shorter of the two forms, and this form, in the row or in a
      side file when it is longer than 100000 bytes. An empty column is NULL. */
  ghost predicate Compact(z: Codec, base: Bytes, ch: Chunk, row: Row, files: map<Bytes, Bytes>) {
    var packed, data := Deflated(z, ch), Inflated(z, ch);
    var shorter := if |packed| < |data| then packed else data;
    && row.kind == ch.kind && row.size == |data| && row.zsize == Min(|packed|, |data|) == |shorter|
    && (if |shorter| > 100000 then
          row.data == None && FileName(base, ch.oid) in files && files[FileName(base, ch.oid)] == shorter
        else row.data == if shorter == [] then None else Some(shorter))
  }

  /** An insert of a new chunk stores it in the shorter form, and writes a side file exactly when that is long. */
  lemma InsertCompact(z: Codec, base: Bytes, s: Disk, ch: Chunk, t: Disk)
    requires ch.Fits(z) && InsertStep(z, base, s, ch, true, t) && ch.oid !in s.work.blobs
    ensures ch.oid in t.work.blobs && Compact(z, base, ch, t.work.blobs[ch.oid], t.files)
    ensures t.work.blobs[ch.oid].zsize <= 100000 ==> t.files == s.files
  {
  }

  datatype Found = Chunk(chunk: Chunk) | NoFile | SizePanic

  /** What `Search` makes of a row and the side files. */
  function SearchRow(base: Bytes, files: map<Bytes, Bytes>, oid: OID, row: Row): Found {
    if row.size == 0 then Found.Chunk(Plain(row.kind, oid, []))
    else
      var name := FileName(base, oid);
      if row.data.None? && name !in files then NoFile
      else if row.data.None? && |files[name]| != row.zsize then SizePanic
      else
        var b := if row.data.Some? then row.data.value else files[name];
        Found.Chunk(if row.size == row.zsize then Plain(row.kind, oid, b) else Zipped(row.kind, oid, row.size, b))
  }

  /** A row that reads back: its side file, when it needs one, has exactly `zsize` bytes, and they decompress. */
  ghost predicate Readable(z: Codec, base: Bytes, files: map<Bytes, Bytes>, oid: OID, row: Row) {
    && (row.size != 0 && row.data.None? ==>
          FileName(base, oid) in files && |files[FileName(base, oid)]| == row.zsize)
    && var found := SearchRow(base, files, oid, row);
       found.Chunk? && found.chunk.Fits(z)
  }

  ghost predicate AllReadable(z: Codec, base: Bytes, files: map<Bytes, Bytes>, rows: map<OID, Row>) {
    forall oid :: oid in rows ==> Readable(z, base, files, oid, rows[oid])
  }

  /** The map from identifier to kind and data that rows and files stand for. */
  ghost function Abstract(z: Codec, base: Bytes, files: map<Bytes, Bytes>, rows: map<OID, Row>): (m: map<OID, Content>)
    requires AllReadable(z, base, files, rows)
    ensures m.Keys == rows.Keys
  {
    map oid | oid in rows :: SearchRow(base, files, oid, rows[oid]).chunk.Meaning(z)
  }

  /** Equal sizes mark exactly the uncompressed rows, so a stored chunk reads back as itself. */
  lemma StoreRoundTrip(z: Codec, base: Bytes, files: map<Bytes, Bytes>, ch: Chunk)
    requires Lossless(z) && ch.Fits(z)
    requires StoredSize(z, ch) > INLINE_LIMIT ==>
      FileName(base, ch.oid) in files && files[FileName(base, ch.oid)] == StoredBytes(z, ch)
    ensures Readable(z, base, files, ch.oid, RowOf(z, ch))
    ensures var found := SearchRow(base, files, ch.oid, RowOf(z, ch)).chunk;
      found.oid == ch.oid && found.Meaning(z) == ch.Meaning(z)
  {
    if ch.Plain? && ch.data != [] {
      assert z.inflate(z.deflate(ch.data)) == ch.data && z.deflate(ch.data) != [];
    }
  }

  // ---- steps -------------------------------------------------------------------------------

  /** What is on disk, and what the open transaction sees. Side files are outside of the transaction.
      A transaction that could not be committed or begun is no longer `live`, and every call on it fails. */
  datatype Disk = Disk(committed: Tables, work: Tables, live: bool, files: map<Bytes, Bytes>, dirs: set<Bytes>)

  datatype Op =
    | Insert(chunk: Chunk, ok: bool)
    | Flush(ok: bool)
    | Reopen(ok: bool)
    | UseTables

  ghost predicate SameBut<K(!new), V(!new)>(a: map<K, V>, b: map<K, V>, k: K) {
    forall x :: x != k ==> (x in a <==> x in b) && (x in a ==> a[x] == b[x])
  }

  ghost predicate SubMap<K(!new), V(!new)>(a: map<K, V>, b: map<K, V>) {
    forall x :: x in a ==> x in b && a[x] == b[x]
  }

  /** `Insert`: nothing for an identifier that is present; else perhaps a side file, then the row.
      A failing call may leave a missing, torn or complete side file, but no row. */
  ghost predicate InsertStep(z: Codec, base: Bytes, s: Disk, ch: Chunk, ok: bool, t: Disk) {
    if !s.live || ch.oid in s.work.blobs then t == s && (ok ==> s.live)
    else
      && t.committed == s.committed && t.live == s.live
      && SameBut(s.files, t.files, FileName(base, ch.oid))
      && s.dirs <= t.dirs
      && (StoredSize(z, ch) <= INLINE_LIMIT ==> t.files == s.files)
      && (ok && StoredSize(z, ch) > INLINE_LIMIT ==>
            FileName(base, ch.oid) in t.files && t.files[FileName(base, ch.oid)] == StoredBytes(z, ch))
      && t.work == if ok then s.work.(blobs := s.work.blobs[ch.oid := RowOf(z, ch)]) else s.work
  }

  /** `Flush`: commit and begin anew. Either half may fail, and then the pool has no usable transaction. */
  ghost predicate FlushStep(s: Disk, ok: bool, t: Disk) {
    if !s.live then !ok && t == s
    else if ok then t == s.(committed := s.work)
    else t == s.(live := false) || t == s.(committed := s.work, live := false)
  }

  /** A crash, or `Close` without `Flush`, followed by `OpenSqlPool`, which may fail: what was not committed is gone,
      side files stay. */
  ghost predicate ReopenStep(s: Disk, ok: bool, t: Disk) {
    t == s.(work := s.committed, live := ok)
  }

  ghost predicate Step(z: Codec, base: Bytes, s: Disk, op: Op, t: Disk) {
    match op
    case Insert(ch, ok) => ch.Fits(z) && InsertStep(z, base, s, ch, ok, t)
    case Flush(ok) => FlushStep(s, ok, t)
    case Reopen(ok) => ReopenStep(s, ok, t)
    case UseTables => t == s.(work := t.work) && t.work.blobs == s.work.blobs
  }

  ghost predicate IsRun(z: Codec, base: Bytes, states: seq<Disk>, ops: seq<Op>) {
    && |states| == |ops| + 1
    && forall i {:trigger ops[i]} :: 0 <= i < |ops| ==> Step(z, base, states[i], ops[i], states[i + 1])
  }

  ghost predicate Sound(z: Codec, base: Bytes, d: Disk) {
    && AllReadable(z, base, d.files, d.committed.blobs)
    && AllReadable(z, base, d.files, d.work.blobs)
    && SubMap(d.committed.blobs, d.work.blobs)
  }

  /** The stored bytes of a row, wherever they are. */
  function BytesOfRow(base: Bytes, files: map<Bytes, Bytes>, oid: OID, row: Row): Bytes {
    if row.data.Some? then row.data.value
    else if FileName(base, oid) in files then files[FileName(base, oid)]
    else []
  }

  /** Committed rows of `s` are committed in `t`, and unless empty they still have the very bytes they had. */
  ghost predicate Keeps(base: Bytes, s: Disk, t: Disk) {
    && SubMap(s.committed.blobs, t.committed.blobs)
    && forall oid :: oid in s.committed.blobs && s.committed.blobs[oid].size != 0 ==>
         BytesOfRow(base, t.files, oid, s.committed.blobs[oid])
         == BytesOfRow(base, s.files, oid, s.committed.blobs[oid])
  }

  lemma OtherFilesKept(base: Bytes, f: map<Bytes, Bytes>, g: map<Bytes, Bytes>, changed: OID, oid: OID, row: Row)
    requires SameBut(f, g, FileName(base, changed)) && oid != changed
    ensures SearchRow(base, g, oid, row) == SearchRow(base, f, oid, row)
    ensures BytesOfRow(base, g, oid, row) == BytesOfRow(base, f, oid, row)
  {
    if FileName(base, oid) == FileName(base, changed) {
      FileNameInjective(base, oid, changed);
    }
  }

  /** Every step keeps rows and side files together. */
  lemma StepSound(z: Codec, base: Bytes, s: Disk, op: Op, t: Disk)
    requires Lossless(z) && Sound(z, base, s) && Step(z, base, s, op, t)
    ensures Sound(z, base, t) && Keeps(base, s, t)
  {
    if op.Insert? && s.live && op.chunk.oid !in s.work.blobs {
      var ch := op.chunk;
      forall oid | oid in s.work.blobs
        ensures Readable(z, base, t.files, oid, s.work.blobs[oid])
        ensures BytesOfRow(base, t.files, oid, s.work.blobs[oid]) == BytesOfRow(base, s.files, oid, s.work.blobs[oid])
      {
        OtherFilesKept(base, s.files, t.files, ch.oid, oid, s.work.blobs[oid]);
      }
      if op.ok {
        StoreRoundTrip(z, base, t.files, ch);
      }
    }
  }

  lemma KeepsSelf(base: Bytes, s: Disk)
    ensures Keeps(base, s, s)
  {
  }

  lemma KeepsTransitive(base: Bytes, s: Disk, t: Disk, u: Disk)
    requires Keeps(base, s, t) && Keeps(base, t, u)
    ensures Keeps(base, s, u)
  {
  }

  lemma {:induction false} RunKeeps(z: Codec, base: Bytes, states: seq<Disk>, ops: seq<Op>, i: nat, j: nat)
    requires i <= j < |states|
    requires Lossless(z) && IsRun(z, base, states, ops) && Sound(z, base, states[i])
    ensures Sound(z, base, states[j]) && Keeps(base, states[i], states[j])
  {
    hide Sound, Keeps, Step, Lossless;
    if i == j {
      KeepsSelf(base, states[i]);
    } else {
      RunKeeps(z, base, states, ops, i, j - 1);
      var op := ops[j - 1];
      StepSound(z, base, states[j - 1], op, states[j]);
      KeepsTransitive(base, states[i], states[j - 1], states[j]);
    }
  }

  /** Crash safety, over every interleaving of inserts that work, fail or tear their file, flushes that work
      or fail, crashes and reopens: a row committed at any point `i` is still there at any later point `j`, its
      side file has the bytes and the length it was committed with, and searching for it neither misses the
      file nor panics on its size. */
  lemma RunSound(z: Codec, base: Bytes, states: seq<Disk>, ops: seq<Op>, i: nat, j: nat, oid: OID)
    requires Lossless(z) && IsRun(z, base, states, ops) && Sound(z, base, states[0])
    requires i <= j < |states| && oid in states[i].committed.blobs
    ensures var row := states[i].committed.blobs[oid];
      && oid in states[j].committed.blobs && states[j].committed.blobs[oid] == row
      && SearchRow(base, states[j].files, oid, row) == SearchRow(base, states[i].files, oid, row)
      && SearchRow(base, states[j].files, oid, row).Chunk?
  {
    RunKeeps(z, base, states, ops, 0, i);
    RunKeeps(z, base, states, ops, i, j);
    var row := states[i].committed.blobs[oid];
    assert Readable(z, base, states[i].files, oid, row);
    assert Readable(z, base, states[j].files, oid, row);
  }

  // ---- the pool ----------------------------------------------------------------------------

  /** A pool as its clients see it: the content under each identifier, and when each one arrived. */
  datatype Repo = Repo(store: map<OID, Content>, rank: map<OID, nat>, clock: nat)

  ghost function Put(r: Repo, oid: OID, c: Content): Repo {
    if oid in r.store then r else Repo(r.store[oid := c], r.rank[oid := r.clock], r.clock + 1)
  }

  ghost predicate Extends(r: Repo, s: Repo) {
    && SubMap(r.store, s.store)
    && (forall oid :: oid in r.store && oid in r.rank ==> oid in s.rank && r.rank[oid] == s.rank[oid])
    && r.clock <= s.clock
  }

  /** All of a pool that clients rely on. */
  datatype Snapshot = Snapshot(
    view: Repo, saved: Repo, clash: bool, committed: Tables, live: bool, others: Tables, inserts: nat, faults: nat,
    readings: nat)

  /** Only chunks were added: nothing stored was lost or changed, and the other tables are as before. */
  ghost predicate Grew(s: Snapshot, t: Snapshot) {
    && Extends(s.view, t.view)
    && Extends(s.saved, t.saved) && s.saved.store == t.saved.store
    && (s.clash ==> t.clash)
    && s.committed == t.committed && s.live == t.live && s.others == t.others
    && s.inserts <= t.inserts && s.faults <= t.faults && s.readings <= t.readings
  }

  /** Something in the environment failed between the two, or had failed before. */
  predicate Excused(s: Snapshot, t: Snapshot) {
    !s.live || s.faults < t.faults
  }

  lemma ExcusedAlong(s: Snapshot, t: Snapshot, u: Snapshot)
    requires Grew(s, t) && Grew(t, u) && (Excused(s, t) || Excused(t, u))
    ensures Excused(s, u)
  {
  }

  lemma GrewStore(s: Snapshot, t: Snapshot)
    requires Grew(s, t)
    ensures SubMap(s.view.store, t.view.store) && (!t.clash ==> !s.clash)
  {
  }

  lemma GrewSelf(s: Snapshot)
    ensures Grew(s, s)
  {
  }

  lemma GrewFaults(s: Snapshot, t: Snapshot)
    requires t == s.(faults := t.faults, readings := t.readings) && s.faults <= t.faults && s.readings <= t.readings
    ensures Grew(s, t)
  {
  }

  lemma GrewTransitive(s: Snapshot, t: Snapshot, u: Snapshot)
    requires Grew(s, t) && Grew(t, u)
    ensures Grew(s, u)
  {
  }

  lemma InsertGrows(s: Snapshot, t: Snapshot, oid: OID, c: Content, ok: bool)
    requires t.view == if ok then Put(s.view, oid, c) else s.view
    requires s.saved.rank == s.view.rank && s.saved.clock == s.view.clock
    requires t.saved == Repo(s.saved.store, t.view.rank, t.view.clock)
    requires SubKeys(s.saved.store, s.view.store) && (s.clash ==> t.clash) && s.inserts <= t.inserts
    requires s.faults <= t.faults && s.readings <= t.readings
    requires t.committed == s.committed && t.live == s.live && t.others == s.others
    ensures Grew(s, t)
  {
  }

  ghost predicate SubKeys(a: map<OID, Content>, b: map<OID, Content>) {
    a.Keys <= b.Keys
  }

  /** The content already stored under this identifier is another one. */
  ghost predicate Clashes(r: Repo, oid: OID, c: Content) {
    oid in r.store && r.store[oid] != c
  }

  lemma OthersKept(z: Codec, base: Bytes, f: map<Bytes, Bytes>, g: map<Bytes, Bytes>, rows: map<OID, Row>, changed: OID)
    requires AllReadable(z, base, f, rows) && SameBut(f, g, FileName(base, changed)) && changed !in rows
    ensures AllReadable(z, base, g, rows) && Abstract(z, base, g, rows) == Abstract(z, base, f, rows)
  {
    forall oid | oid in rows
      ensures Readable(z, base, g, oid, rows[oid])
      ensures SearchRow(base, g, oid, rows[oid]) == SearchRow(base, f, oid, rows[oid])
    {
      assert Readable(z, base, f, oid, rows[oid]);
      OtherFilesKept(base, f, g, changed, oid, rows[oid]);
    }
  }

  lemma AddedRow(z: Codec, base: Bytes, g: map<Bytes, Bytes>, rows: map<OID, Row>, oid: OID, row: Row)
    requires AllReadable(z, base, g, rows) && Readable(z, base, g, oid, row) && oid !in rows
    ensures AllReadable(z, base, g, rows[oid := row])
    ensures Abstract(z, base, g, rows[oid := row])
         == Abstract(z, base, g, rows)[oid := SearchRow(base, g, oid, row).chunk.Meaning(z)]
  {
  }

  /** Rows and files refine the grow-only map: what is found under an identifier is the first chunk put there. */
  lemma InsertRefines(z: Codec, base: Bytes, s: Disk, ch: Chunk, ok: bool, t: Disk)
    requires Lossless(z) && Sound(z, base, s) && ch.Fits(z) && InsertStep(z, base, s, ch, ok, t)
    ensures Sound(z, base, t)
    ensures var before := Abstract(z, base, s.files, s.work.blobs);
      Abstract(z, base, t.files, t.work.blobs)
        == if ok && ch.oid !in before then before[ch.oid := ch.Meaning(z)] else before
    ensures Abstract(z, base, t.files, t.committed.blobs) == Abstract(z, base, s.files, s.committed.blobs)
  {
    StepSound(z, base, s, Op.Insert(ch, ok), t);
    if s.live && ch.oid !in s.work.blobs {
      OthersKept(z, base, s.files, t.files, s.work.blobs, ch.oid);
      OthersKept(z, base, s.files, t.files, s.committed.blobs, ch.oid);
      if ok {
        StoreRoundTrip(z, base, t.files, ch);
        AddedRow(z, base, t.files, s.work.blobs, ch.oid, RowOf(z, ch));
      }
    }
  }

  class SqlPool {
    const z: Codec
    const base: Bytes

    var committed: Tables
    var work: Tables
    var live: bool
    var files: map<Bytes, Bytes>
    var dirs: set<Bytes>

    // What the proofs follow: arrival times, whether an insert was ever skipped for a different
    // chunk with the same identifier, and the numbers of inserts that succeeded, of calls into the file
    // system or the database that failed, and of files that were opened to be read into the pool.
    ghost var rank: map<OID, nat>
    ghost var clock: nat
    ghost var clash: bool
    ghost var inserts: nat
    ghost var faults: nat
    ghost var readings: nat

    ghost function State(): Disk
      reads this
    {
      Disk(committed, work, live, files, dirs)
    }

    ghost predicate Valid()
      reads this
    {
      && Lossless(z)
      && Sound(z, base, State())
      && forall oid :: oid in work.blobs ==> oid in rank && rank[oid] < clock
    }

    ghost function View(): Repo
      reads this
      requires Valid()
    {
      Repo(Abstract(z, base, files, work.blobs), rank, clock)
    }

    ghost function Snap(): Snapshot
      reads this
      requires Valid()
    {
      Snapshot(View(), Saved(), clash, committed, live, work.(blobs := map[]), inserts, faults, readings)
    }

    /** What a crash leaves. */
    ghost function Saved(): Repo
      reads this
      requires Valid()
    {
      Repo(Abstract(z, base, files, committed.blobs), rank, clock)
    }

    /** `CreateSqlPool` and `OpenSqlPool` on a fresh directory. */
    constructor (z: Codec, base: Bytes)
      requires Lossless(z)
      ensures Valid() && live && !clash && inserts == 0 && faults == 0
      ensures View().store == map[] && this.z == z && this.base == base
      ensures committed == work == Tables(map[], map[], map[], {})
    {
      this.z, this.base := z, base;
      committed, work := Tables(map[], map[], map[], {}), Tables(map[], map[], map[], {});
      live, files, dirs := true, map[], {base, base + "/blobs"};
      rank, clock, clash, inserts, faults, readings := map[], 0, false, 0, 0, 0;
    }

    /** A call into the file system or the database that may fail. */
    method Fails() returns (failed: bool)
      modifies this`faults
      ensures faults == old(faults) + if failed then 1 else 0
      ensures old(Valid()) ==> Valid() && Snap() == old(Snap()).(faults := faults)
    {
      failed := EnvFails();
      faults := faults + if failed then 1 else 0;
    }

    ghost method CountReading()
      modifies this`readings
      ensures readings == old(readings) + 1
      ensures old(Valid()) ==> Valid() && Snap() == old(Snap()).(readings := readings)
    {
      readings := readings + 1;
    }

    /** `ioutil.WriteFile`: needs the directory; when it fails it may leave any content behind. */
    method WriteFile(dir: Bytes, name: Bytes, data: Bytes) returns (ok: bool)
      modifies this`files, this`faults
      ensures SameBut(old(files), files, name) && faults >= old(faults)
      ensures ok ==> name in files && files[name] == data
      ensures !ok ==> dir !in dirs || faults > old(faults)
    {
      hide SqlPool.Valid;
      if dir !in dirs {
        return false;
      }
      var failed := Fails();
      if failed {
        var untouched := EnvFails();
        if !untouched {
          var torn: Bytes := *;
          files := files[name := torn];
        }
        return false;
      }
      files := files[name := data];
      return true;
    }

    method Mkdir(dir: Bytes) returns (ok: bool)
      modifies this`dirs, this`faults
      ensures old(dirs) <= dirs && faults >= old(faults)
      ensures if ok then dir in dirs else dir in old(dirs) || faults > old(faults)
    {
      hide SqlPool.Valid;
      if dir in dirs {
        return false;
      }
      var failed := Fails();
      if failed {
        return false;
      }
      dirs := dirs + {dir};
      return true;
    }

    method Contains(oid: OID) returns (r: Option<bool>)
      modifies this`faults
      ensures r.Some? ==> live && r.value == (oid in work.blobs)
      ensures faults >= old(faults) && (r.None? ==> !live || faults > old(faults))
    {
      hide SqlPool.Valid;
      var failed := Fails();
      if failed || !live {
        return None;
      }
      return Some(oid in work.blobs);
    }

    method Insert(ch: Chunk) returns (ok: bool)
      requires Valid() && ch.Fits(z)
      modifies this
      ensures Valid()
      ensures InsertStep(z, base, old(State()), ch, ok, State())
      ensures ok && ch.oid !in old(work.blobs) ==>
        ch.oid in work.blobs && Compact(z, base, ch, work.blobs[ch.oid], files)
        && (work.blobs[ch.oid].zsize <= 100000 ==> files == old(files))
      ensures View() == if ok then Put(old(View()), ch.oid, ch.Meaning(z)) else old(View())
      ensures clash == (old(clash) || (ok && Clashes(old(View()), ch.oid, ch.Meaning(z))))
      ensures inserts == old(inserts) + if ok then 1 else 0
      ensures Grew(old(Snap()), Snap()) && (!ok ==> Excused(old(Snap()), Snap()))
    {
      hide Grew, Extends, Clashes, SearchRow, Lossless, Compact;
      ghost var before, snap := View(), Snap();
      ghost var s := State();
      ok := InsertRow(ch);
      InsertRefines(z, base, s, ch, ok, State());
      if ok && ch.oid !in s.work.blobs {
        InsertCompact(z, base, s, ch, State());
      }
      if ok {
        Arrived(before, ch.oid, ch.Meaning(z));
      }
      InsertGrows(snap, Snap(), ch.oid, ch.Meaning(z), ok);
    }

    ghost method Arrived(before: Repo, oid: OID, c: Content)
      requires Lossless(z) && Sound(z, base, State()) && before.rank == rank && before.clock == clock
      requires forall id :: id in before.store ==> id in rank && rank[id] < clock
      requires Abstract(z, base, files, work.blobs) == Put(before, oid, c).store
      modifies `rank, `clock, `clash, `inserts
      ensures Valid() && View() == Put(before, oid, c)
      ensures clash == (old(clash) || Clashes(before, oid, c)) && inserts == old(inserts) + 1
    {
      hide Lossless, Readable, Abstract, Sound;
      clash := clash || Clashes(before, oid, c);
      inserts := inserts + 1;
      if oid !in before.store {
        rank, clock := rank[oid := clock], clock + 1;
      }
    }

    /** The side file of an identifier, and its directory when the first attempt fails. */
    method WriteSideFile(oid: OID, data: Bytes) returns (ok: bool)
      modifies this`files, this`dirs, this`faults
      ensures SameBut(old(files), files, FileName(base, oid)) && old(dirs) <= dirs && faults >= old(faults)
      ensures if ok then FileName(base, oid) in files && files[FileName(base, oid)] == data else faults > old(faults)
    {
      hide SqlPool.Valid;
      var dir, file := DirName(base, oid), FileName(base, oid);
      ok := WriteFile(dir, file, data);
      if !ok {
        var made := Mkdir(dir);
        if !made {
          return false;
        }
        ok := WriteFile(dir, file, data);
      }
    }

    method InsertRow(ch: Chunk) returns (ok: bool)
      requires Valid() && ch.Fits(z)
      modifies `work, `files, `dirs, `faults
      ensures InsertStep(z, base, old(State()), ch, ok, State())
      ensures faults >= old(faults) && (!ok ==> !live || faults > old(faults))
    {
      hide SqlPool.Valid, SqlPool.Snap, Lossless;
      var has := Contains(ch.oid);
      if has.None? || has.value {
        return has.Some?;
      }
      var zdata := ch.ZData(z);
      var zsize, data;
      if zdata.Some? && |zdata.value| < ch.DataLen() {
        zsize, data := |zdata.value| % UINT32, zdata.value;
      } else {
        zsize, data := ch.DataLen(), ch.Data(z);
      }
      var column := if data == [] then None else Some(data);
      if zsize > INLINE_LIMIT {
        ok := WriteSideFile(ch.oid, data);
        if !ok {
          return false;
        }
        column := None;
      }
      var failed := Fails();
      if failed {
        return false;
      }
      work := work.(blobs := work.blobs[ch.oid := Row(ch.kind, ch.DataLen(), zsize, column)]);
      return true;
    }

    /** Finds what the pool holds under an identifier; the size panic is unreachable. */
    method Search(oid: OID) returns (r: Option<Chunk>)
      requires Valid()
      ensures r.Some? <==> live && oid in View().store
      ensures r.Some? ==> r.value.oid == oid && r.value.Fits(z) && r.value.Meaning(z) == View().store[oid]
    {
      if !live || oid !in work.blobs {
        return None;
      }
      var row := work.blobs[oid];
      assert Readable(z, base, files, oid, row);
      if row.size == 0 {
        return Some(Plain(row.kind, oid, []));
      }
      var data;
      if row.data.None? {
        data := files[FileName(base, oid)];
        assert |data| == row.zsize;
      } else {
        data := row.data.value;
      }
      if row.size == row.zsize {
        r := Some(Plain(row.kind, oid, data));
      } else {
        r := Some(Zipped(row.kind, oid, row.size, data));
      }
    }

    method Flush() returns (ok: bool)
      requires Valid()
      modifies this`committed, this`live, this`faults
      ensures Valid() && FlushStep(old(State()), ok, State()) && View() == old(View())
      ensures if ok then committed == work && Saved() == View()
              else (committed == work && Saved() == View()) || (committed == old(committed) && Saved() == old(Saved()))
      ensures faults >= old(faults) && (!ok ==> Excused(old(Snap()), Snap()))
    {
      if !live {
        return false;
      }
      var failed := Fails();
      if failed {
        var reached := EnvFails();
        if reached {
          committed := work;
        }
        live := false;
        return false;
      }
      committed := work;
      return true;
    }

    /** A crash, or `Close`, then opening the pool again. */
    method Reopen() returns (ok: bool)
      requires Valid()
      modifies this`work, this`live, this`faults
      ensures Valid() && ReopenStep(old(State()), ok, State()) && View() == Saved() == old(Saved())
      ensures faults == old(faults) + if ok then 0 else 1
    {
      var failed := Fails();
      ok := !failed;
      work, live := committed, ok;
    }

    /** Access for the cache, which keeps its tables in the same transaction. */
    method UseTables(w: Tables)
      requires Valid() && w.blobs == work.blobs
      modifies this`work
      ensures Valid() && work == w && View() == old(View()) && Saved() == old(Saved())
    {
      work := w;
    }
  }
}
