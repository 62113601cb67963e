/** Runs of backups, expiries, crashes and restarts over one pool (src/godump/dump/dump.go:39-118,
    src/godump/cachecmd/expire.go). */
module Runs {
  import opened Base
  import opened Text
  import opened Chunks
  import opened Pool
  import opened Props
  import opened Decode
  import opened Visitors
  import opened Stories
  import opened Caches
  import opened Trees
  import opened Dumps
  import opened Telling
  import opened Memories

  /** What a file contains, by filesystem, directory inode, file inode and the 64 bits of nanoseconds that the cache
      keeps of its ctime: over a whole run, bytes differ only when those do, and with `cut` the pieces in which the file
      is read as well. */
  datatype World = World(files: (Bytes, nat, nat, int) -> seq<Bytes>, cut: Option<Hash>) {
    ghost predicate Same(pieces: seq<Bytes>, uuid: Bytes, pino: nat, ino: nat, ctime: int) {
      && Concat(pieces) == Concat(files(uuid, pino, ino, ctime))
      && (cut.Some? ==> pieces == files(uuid, pino, ino, ctime))
    }

    ghost function Links(): Fit {
      LinksOf(cut)
    }
  }

  /** The same by the numbers the cache tables give to filesystems. */
  ghost function TruthOf(world: World, filesystems: map<Bytes, nat>): Truth {
    Truth((key: DirKey, ino: nat, ctime: int) =>
            if key.fsid in filesystems.Values then world.files(UuidOf(filesystems, key.fsid), key.pino, ino, ctime)
            else [],
          world.cut)
  }

  ghost function UuidOf(filesystems: map<Bytes, nat>, fsid: nat): (uuid: Bytes)
    requires fsid in filesystems.Values
    ensures uuid in filesystems && filesystems[uuid] == fsid
  {
    var u :| u in filesystems && filesystems[u] == fsid;
    u
  }

  /** The files of a tree on a filesystem contain what the world says. */
  ghost predicate WorldTrue(t: Tree, world: World, uuid: Bytes, dev: nat) {
    t.Dir? && t.st.dev == dev ==>
      forall i :: 0 <= i < |t.kids| ==>
        var c := t.kids[i].node;
        && (c.Reg? ==> world.Same(c.pieces, uuid, t.st.ino, c.st.ino, UnixNano(c.st.ctime.Nanos())))
        && WorldTrue(c, world, uuid, dev)
  }

  ghost predicate InjectiveIds(filesystems: map<Bytes, nat>) {
    forall a, b :: a in filesystems && b in filesystems && filesystems[a] == filesystems[b] ==> a == b
  }

  lemma {:induction false} WorldToTruth(t: Tree, world: World, uuid: Bytes, dev: nat, filesystems: map<Bytes, nat>)
    requires InjectiveIds(filesystems) && uuid in filesystems && WorldTrue(t, world, uuid, dev)
    ensures TreeTrue(t, TruthOf(world, filesystems), filesystems[uuid], dev)
    decreases t
  {
    if t.Dir? && t.st.dev == dev {
      assert filesystems[uuid] in filesystems.Values && UuidOf(filesystems, filesystems[uuid]) == uuid;
      forall i | 0 <= i < |t.kids|
        ensures TreeTrue(t.kids[i].node, TruthOf(world, filesystems), filesystems[uuid], dev)
      {
        WorldToTruth(t.kids[i].node, world, uuid, dev, filesystems);
      }
    }
  }

  /** Tables and chunks that belong together: closed, consistent, and every cached identifier true. */
  ghost predicate TablesSafe(t: Tables, r: Repo, exact: bool, world: World) {
    Closed(r) && Consistent(t) && CacheTrue(t, r, exact, TruthOf(world, t.filesystems))
  }

  /** The invariant of a run: it holds of what the transaction sees and of what a crash would leave. */
  ghost predicate Safe(pool: SqlPool, world: World)
    reads pool
  {
    && pool.Valid()
    && TablesSafe(pool.work, pool.View(), !pool.clash, world)
    && TablesSafe(pool.committed, pool.Saved(), !pool.clash, world)
  }

  /** A new filesystem number changes nothing for the directories cached so far. */
  lemma TruthKept(t: Tables, uuid: Bytes, r: Repo, exact: bool, world: World)
    requires TablesSafe(t, r, exact, world)
    ensures TablesSafe(WithFilesystem(t, uuid), r, exact, world)
    ensures InjectiveIds(WithFilesystem(t, uuid).filesystems)
  {
    hide Closed;
    var u := WithFilesystem(t, uuid);
    NewFilesystem(t, uuid, DirKey(0, 0));
    forall row | row in t.ctimeCache
      ensures FileTrue(r, exact, TruthOf(world, u.filesystems), t.ctimeDirs[row.pkey], row.ino, row.ctime, row.oid)
    {
      var key := t.ctimeDirs[row.pkey];
      SameUuid(t.filesystems, u.filesystems, key.fsid);
      assert TruthOf(world, u.filesystems).files(key, row.ino, row.ctime)
          == TruthOf(world, t.filesystems).files(key, row.ino, row.ctime);
    }
  }

  lemma SameUuid(f: map<Bytes, nat>, g: map<Bytes, nat>, fsid: nat)
    requires InjectiveIds(g) && fsid in f.Values && forall u :: u in f ==> u in g && g[u] == f[u]
    ensures fsid in g.Values && UuidOf(g, fsid) == UuidOf(f, fsid)
  {
    assert g[UuidOf(f, fsid)] == fsid;
  }

  lemma SafeAdvances(t: Tables, r: Repo, e: bool, s: Repo, g: bool, world: World)
    requires TablesSafe(t, r, e, world) && Extends(r, s) && r.store == s.store && (g ==> e)
    ensures TablesSafe(t, s, g, world)
  {
    hide CacheTrue, Consistent;
    forall oid ensures GroundedAt(s, oid) {
      assert GroundedAt(r, oid);
    }
    CacheTrueGrows(t, r, e, s, g, TruthOf(world, t.filesystems));
  }

  /** The closure part of `Safe`. */
  lemma SafeCloses(pool: SqlPool, world: World)
    requires Safe(pool, world)
    ensures Closed(pool.View()) && Closed(pool.Saved())
  {
  }

  /** A crash, or closing the pool without a flush, and opening it again, which may fail. */
  method Restart(pool: SqlPool, ghost world: World)
    requires Safe(pool, world)
    modifies pool
    ensures Safe(pool, world) && pool.View() == pool.Saved() == old(pool.Saved())
    ensures pool.work == pool.committed == old(pool.committed) && pool.clash == old(pool.clash)
    ensures pool.faults == old(pool.faults) + if pool.live then 0 else 1
  {
    hide SqlPool.Valid, TablesSafe;
    var _ := pool.Reopen();
  }

  // ---- a backup ----------------------------------------------------------------------------

  /** The properties of a "back" node. */
  function BackProps(head: OID, uuid: Bytes, ms: int, props: map<Bytes, Bytes>): PropertyMap {
    PropertyMap("back", props["hash" := OidText(head)]["_date" := SignedDecimal(ms)]["fsuuid" := uuid])
  }

  /** The node can be encoded, and fits a chunk; the date is a 64-bit number. */
  ghost predicate HeaderFits(uuid: Bytes, ms: int, props: map<Bytes, Bytes>) {
    IsInt64(ms) && forall head: OID :: BackFits(BackProps(head, uuid, ms, props))
  }

  ghost predicate BackFits(p: PropertyMap) {
    Encodable(p) && |Encoded(p)| < UINT32
  }

  lemma BackRoom(head: OID, uuid: Bytes, ms: int, props: map<Bytes, Bytes>)
    requires Short(props) && |props| <= 65000 && |uuid| <= 0xFFFF && IsInt64(ms)
    ensures BackFits(BackProps(head, uuid, ms, props))
  {
    hide Short;
    OidTextRoundTrip(head);
    Digits20(if ms < 0 then -ms else ms);
    var m1 := props["hash" := OidText(head)];
    var m2 := m1["_date" := SignedDecimal(ms)];
    ShortUpdate(props, "hash", OidText(head));
    ShortUpdate(m1, "_date", SignedDecimal(ms));
    ShortUpdate(m2, "fsuuid", uuid);
    ShortEncodes(BackProps(head, uuid, ms, props));
  }

  /** 65000 properties with names of up to 255 and values of up to 65535 bytes always fit. */
  lemma HeaderRoom(uuid: Bytes, ms: int, props: map<Bytes, Bytes>)
    requires Short(props) && |props| <= 65000 && |uuid| <= 0xFFFF && IsInt64(ms)
    ensures HeaderFits(uuid, ms, props)
  {
    hide Short, BackFits, BackProps;
    forall head: OID ensures BackFits(BackProps(head, uuid, ms, props)) {
      BackRoom(head, uuid, ms, props);
    }
  }

  /** The properties of the user, with what a backup sets itself. */
  predicate HeaderOf(m: map<Bytes, Bytes>, head: OID, uuid: Bytes, props: map<Bytes, Bytes>) {
    && "hash" in m && m["hash"] == OidText(head) && "fsuuid" in m && m["fsuuid"] == uuid
    && (forall k :: k in m && k !in {"hash", "fsuuid"} ==> k in props && m[k] == props[k])
    && (forall k :: k in props && k !in {"hash", "fsuuid", "_date"} ==> k in m)
    && "_date" !in m
  }

  /** A "back" node holds every property of the user but those of the three names that it sets, and no other. */
  lemma BackHolds(head: OID, uuid: Bytes, ms: int, props: map<Bytes, Bytes>)
    ensures var p := BackProps(head, uuid, ms, props);
      && p.kind == "back" && "_date" in p.props && p.props["_date"] == SignedDecimal(ms)
      && HeaderOf(p.props - {"_date"}, head, uuid, props)
  {
    hide OidText, SignedDecimal;
    assert "hash" != "_date" && "hash" != "fsuuid" && "_date" != "fsuuid";
  }

  lemma BackReads(head: OID, uuid: Bytes, ms: int, props: map<Bytes, Bytes>)
    requires HeaderFits(uuid, ms, props)
    ensures var p := BackProps(head, uuid, ms, props);
      && Decoded(Encoded(p)) == Some(p)
      && "_date" in p.props && ParseInt(p.props["_date"]) == Some(ms)
      && "hash" in p.props && ParseOid(p.props["hash"]) == Some(head)
      && Refs(Content("back", Encoded(p))) == [head] && BackFits(p)
  {
    hide Short, Encoded, Decoded, HandlerOf, Encodable, ParseInt, ParseOid;
    KnownKinds();
    var p := BackProps(head, uuid, ms, props);
    assert BackFits(p);
    DecodeEncode(p);
    OidTextRoundTrip(head);
    ParseIntRoundTrip(ms);
    assert "hash" != "_date" && "hash" != "fsuuid" && "_date" != "fsuuid";
    assert p.Get("hash") == OidText(head);
  }

  /** The identifier is that of a backup of the tree: walking it calls Back with the date and the properties,
      then gives the traversal of the tree. */
  ghost predicate Recorded(r: Repo, id: OID, tree: Tree, uuid: Bytes, ms: int, props: map<Bytes, Bytes>)
    requires Closed(r)
  {
    RecordedAs(r, id, tree, uuid, ms, props, ANY)
  }

  /** The same, with file identifiers of which more is known. */
  ghost predicate RecordedAs(r: Repo, id: OID, tree: Tree, uuid: Bytes, ms: int, props: map<Bytes, Bytes>, fit: Fit)
    requires Closed(r)
  {
    id in r.store && exists head: OID :: head in r.store && RecordedAt(r, id, head, tree, uuid, ms, props, fit)
  }

  ghost predicate RecordedAt(r: Repo, id: OID, head: OID, tree: Tree, uuid: Bytes, ms: int, props: map<Bytes, Bytes>,
                             fit: Fit)
    requires Closed(r)
  {
    && Tells(Story(r, head), Visible(tree, tree.st.dev), fit)
    && Story(r, id)
       == [Emit(Back(id, ms * 1_000_000, BackProps(head, uuid, ms, props).props - {"_date"}), true, Story(r, head))]
  }

  lemma RecordedAny(r: Repo, id: OID, tree: Tree, uuid: Bytes, ms: int, props: map<Bytes, Bytes>, fit: Fit)
    requires Closed(r) && RecordedAs(r, id, tree, uuid, ms, props, fit)
    ensures Recorded(r, id, tree, uuid, ms, props)
  {
    hide Story, Tells, Closed, BackProps, Visible;
    var head: OID :| head in r.store && RecordedAt(r, id, head, tree, uuid, ms, props, fit);
    TellsAny(Story(r, head), Visible(tree, tree.st.dev), fit);
    assert RecordedAt(r, id, head, tree, uuid, ms, props, ANY);
  }

  lemma RecordedGrows(r: Repo, s: Repo, id: OID, tree: Tree, uuid: Bytes, ms: int, props: map<Bytes, Bytes>, fit: Fit)
    requires Closed(r) && Closed(s) && Extends(r, s) && RecordedAs(r, id, tree, uuid, ms, props, fit)
    ensures RecordedAs(s, id, tree, uuid, ms, props, fit)
  {
    hide Story, Tells, Closed, BackProps;
    var head: OID :| head in r.store && RecordedAt(r, id, head, tree, uuid, ms, props, fit);
    StoryStable(r, s, head);
    StoryStable(r, s, id);
    assert RecordedAt(s, id, head, tree, uuid, ms, props, fit);
  }

  /** The identifier of a backup as a function of what it records. */
  ghost function BackupId(hash: Hash, tree: Tree, uuid: Bytes, ms: int, props: map<Bytes, Bytes>): OID {
    BackOid(hash, NodeId(hash, Visible(tree, tree.st.dev)), uuid, ms, props)
  }

  ghost function BackOid(hash: Hash, head: OID, uuid: Bytes, ms: int, props: map<Bytes, Bytes>): OID {
    hash("back", Encoded(BackProps(head, uuid, ms, props)))
  }

  ghost predicate BackIn(r: Repo, id: OID, head: OID, uuid: Bytes, ms: int, props: map<Bytes, Bytes>) {
    id in r.store && r.store[id] == Content("back", Encoded(BackProps(head, uuid, ms, props)))
  }

  lemma BackRecorded(r: Repo, s: Repo, id: OID, head: OID, tree: Tree, uuid: Bytes, ms: int, props: map<Bytes, Bytes>,
                     truth: Truth)
    requires Closed(r) && Closed(s) && Extends(r, s) && Told(r, true, truth, head, Visible(tree, tree.st.dev))
    requires HeaderFits(uuid, ms, props) && BackIn(s, id, head, uuid, ms, props)
    ensures RecordedAs(s, id, tree, uuid, ms, props, truth.Links())
  {
    hide Story, Tells, Closed, BackProps, Encoded, Decoded, ParseInt, ParseOid, Refs, HeaderFits, NodeId;
    BackReads(head, uuid, ms, props);
    StoryStable(r, s, head);
    StoryOfBack(s, id, BackProps(head, uuid, ms, props), ms, head);
    assert RecordedAt(s, id, head, tree, uuid, ms, props, truth.Links());
  }

  /** The "back" node of a stored tree. */
  method WriteBack(b: Backup, head: OID, uuid: Bytes, ms: int, props: map<Bytes, Bytes>, ghost truth: Truth)
    returns (id: Option<OID>)
    requires b.Valid(truth) && head in b.pool.View().store && HeaderFits(uuid, ms, props)
    modifies b.pool
    ensures b.Valid(truth) && Grew(old(b.pool.Snap()), b.pool.Snap())
    ensures id.Some? ==> id.value == BackOid(b.hash, head, uuid, ms, props)
    ensures id.Some? && !b.pool.clash ==> BackIn(b.pool.View(), id.value, head, uuid, ms, props)
    ensures id.None? ==> Excused(old(b.pool.Snap()), b.pool.Snap())
  {
    hide SqlPool.Valid, Closed, Consistent, CacheTrue, HeaderFits, Grew, BackProps, Refs, Encoded, Decoded, Encodable;
    BackReads(head, uuid, ms, props);
    id := b.WriteNode("back", BackProps(head, uuid, ms, props), truth);
  }

  /** The tree, then its "back" node. */
  method StoreBackup(b: Backup, root: Tree, uuid: Bytes, ms: int, props: map<Bytes, Bytes>, ghost truth: Truth)
    returns (id: Option<OID>)
    requires b.Valid(truth) && root.Dir? && Fits(root) && TreeTrue(root, truth, b.cache.fsid, b.rootDev)
    requires b.rootDev == root.st.dev && HeaderFits(uuid, ms, props)
    modifies b.pool, b`read
    ensures b.Valid(truth) && Advanced(old(b.pool.Snap()), b.pool.Snap())
    ensures id.Some? && !b.pool.clash ==> RecordedAs(b.pool.View(), id.value, root, uuid, ms, props, truth.Links())
    ensures id.Some? && !b.pool.clash && truth.cut.Some? ==> id.value == BackupId(b.hash, root, uuid, ms, props)
    ensures id.None? && InosBelow(Visible(root, b.rootDev)) ==> Excused(old(b.pool.Snap()), b.pool.Snap())
    ensures id.Some? ==> InosBelow(Visible(root, b.rootDev))
    ensures id.Some? ==> b.Passed(old(b.pool.Snap()), b.pool.Snap(), Left(Visible(root, b.rootDev)))
  {
    hide SqlPool.Valid, Closed, Consistent, CacheTrue, Fits, TreeTrue, Backup.Passed, Left, Visible, InosBelow;
    hide HeaderFits, Told, Grew, Advanced, Extends;
    hide BackIn, RecordedAs, Excused, BackOid, NodeId;
    ghost var s := b.pool.Snap();
    var head := b.Directory(root, truth);
    ghost var t := b.pool.Snap();
    if head.None? {
      return None;
    }
    ToldStored(t.view, !t.clash, truth, head.value, Visible(root, b.rootDev));
    id := WriteBack(b, head.value, uuid, ms, props, truth);
    ghost var u := b.pool.Snap();
    GrewAdvanced(t, u);
    AdvancedStore(t, u);
    AdvancedTransitive(s, t, u);
    b.PassedNone(t, u);
    b.PassedFurther(s, t, u, Left(Visible(root, b.rootDev)));
    if id.None? {
      ExcusedAdvance(s, t, u);
    }
    if id.Some? && !u.clash {
      AdvancedExact(t, u);
      BackRecorded(t.view, u.view, id.value, head.value, root, uuid, ms, props, truth);
      ToldId(t.view, truth, head.value, Visible(root, b.rootDev));
    }
  }

  lemma AdvancedExact(s: Snapshot, t: Snapshot)
    requires Advanced(s, t) && !t.clash
    ensures !s.clash
  {
  }

  lemma ToldId(r: Repo, truth: Truth, oid: OID, t: Tree)
    requires Closed(r) && Told(r, true, truth, oid, t)
    ensures truth.cut.Some? ==> oid == NodeId(truth.cut.value, t)
  {
  }

  lemma SafeIsSane(s: Snapshot, work: Tables, world: World, fsid: nat)
    requires TablesSafe(work, s.view, !s.clash, world) && fsid in work.filesystems.Values
    requires s.others == work.(blobs := map[])
    ensures Sane(s, fsid, TruthOf(world, work.filesystems))
  {
    hide CacheTrue, Consistent;
    SameTables(work, s.others);
    CacheTrueTables(work, s.others, s.view, !s.clash, TruthOf(world, work.filesystems));
  }

  lemma SaneIsSafe(s: Snapshot, t: Snapshot, work: Tables, world: World, fsid: nat)
    requires Sane(t, fsid, TruthOf(world, s.others.filesystems)) && Advanced(s, t) && t.others == work.(blobs := map[])
    requires TablesSafe(s.committed, s.saved, !s.clash, world)
    ensures TablesSafe(work, t.view, !t.clash, world) && TablesSafe(t.committed, t.saved, !t.clash, world)
    ensures Kept(s, t)
  {
    hide CacheTrue, Consistent, Closed;
    SameTables(work, t.others);
    CacheTrueTables(work, t.others, t.view, !t.clash, TruthOf(world, work.filesystems));
    SafeAdvances(s.committed, s.saved, !s.clash, t.saved, !t.clash, world);
  }

  /** What a backup did to the tables, numbering its filesystem first. */
  lemma BackupLeaves(t: Tables, uuid: Bytes, u: Tables, s: Snapshot, v: Snapshot, base: int, dirs: seq<Place>)
    requires Consistent(t) && s.others == WithFilesystem(t, uuid).(blobs := map[]) && v.others == u.(blobs := map[])
    requires uuid in u.filesystems && Leaves(s.others, v.others, u.filesystems[uuid], base, dirs, ANY)
    ensures Leaves(t, u, u.filesystems[uuid], base, dirs, ANY)
  {
    hide Leaves, Consistent, WithFilesystem;
    var w, fsid := WithFilesystem(t, uuid), u.filesystems[uuid];
    LeavesTables(s.others, v.others, w, u, fsid, base, dirs, ANY);
    LeavesNumbered(t, uuid, u, fsid, base, dirs, ANY);
  }

  lemma NumberedRenewed(t: Tables, uuid: Bytes, now: int)
    requires Consistent(t)
    ensures Renewed(t, t, now, {}) && Renewed(t, WithFilesystem(t, uuid), now, {})
  {
    hide Consistent, WithFilesystem, Renewed;
    forall key: DirKey ensures Infos(WithFilesystem(t, uuid), key) == Infos(t, key) {
      NewFilesystem(t, uuid, key);
    }
    NothingRenewed(t, t, now);
    NothingRenewed(t, WithFilesystem(t, uuid), now);
  }

  /** Numbering the filesystem first makes no entry older or newer. */
  lemma BackupRenews(t: Tables, uuid: Bytes, u: Tables, s: Snapshot, v: Snapshot, base: int, read: set<FileAt>)
    requires Consistent(t) && s.others == WithFilesystem(t, uuid).(blobs := map[]) && v.others == u.(blobs := map[])
    requires Paced(s, v, base, read)
    ensures Renewed(t, u, base, read) && s.readings + |read| <= v.readings
  {
    hide Renewed, Consistent, WithFilesystem;
    forall key: DirKey ensures Infos(s.others, key) == Infos(t, key) && Infos(v.others, key) == Infos(u, key) {
      NewFilesystem(t, uuid, key);
      SameInfos(WithFilesystem(t, uuid), s.others, key);
      SameInfos(u, v.others, key);
    }
    RenewedFrom(t, s.others, v.others, base, read);
    RenewedSame(t, v.others, u, base, read);
  }

  /** With times that fit their column, `GetDir` then finds the files of the tree, with identifiers of their bytes. */
  lemma BackupDecides(t: Tables, u: Tables, r: Repo, world: World, uuid: Bytes, base: int, tree: Tree)
    requires TablesSafe(u, r, true, world) && uuid in u.filesystems && WorldTrue(tree, world, uuid, tree.st.dev)
    requires Leaves(t, u, u.filesystems[uuid], base, Left(Visible(tree, tree.st.dev)), ANY)
    requires IsInt64(base) && IsInt64(base + 6 * WEEK)
    ensures Decided(t, u, u.filesystems[uuid], base, Left(Visible(tree, tree.st.dev)), Reads(r))
  {
    hide Leaves, Decided, CacheTrue, Closed, Left, Visible, WorldTrue;
    LeavesDecided(t, u, u.filesystems[uuid], base, Left(Visible(tree, tree.st.dev)), ANY);
    WorldToTruth(tree, world, uuid, tree.st.dev, u.filesystems);
    DecidedReads(t, u, r, TruthOf(world, u.filesystems), u.filesystems[uuid], base, tree, tree.st.dev);
  }

  /** A backup but for the flush. */
  method MakeBackup(pool: SqlPool, hash: Hash, root: Tree, uuid: Bytes, now: int, ms: int, props: map<Bytes, Bytes>,
                    ghost world: World) returns (id: Option<OID>, ghost read: set<FileAt>)
    requires Safe(pool, world) && root.Dir? && Fits(root) && WorldTrue(root, world, uuid, root.st.dev)
    requires HeaderFits(uuid, ms, props) && (world.cut.Some? ==> world.cut.value == hash)
    modifies pool
    ensures Safe(pool, world) && Kept(old(pool.Snap()), pool.Snap())
    ensures id.Some? && !pool.clash ==> RecordedAs(pool.View(), id.value, root, uuid, ms, props, world.Links())
    ensures id.Some? && !pool.clash && world.cut.Some? ==> id.value == BackupId(hash, root, uuid, ms, props)
    ensures id.None? && InosBelow(Visible(root, root.st.dev)) ==> Excused(old(pool.Snap()), pool.Snap())
    ensures id.Some? ==> InosBelow(Visible(root, root.st.dev))
    ensures id.Some? ==> uuid in pool.work.filesystems
    ensures id.Some? ==>
      Leaves(old(pool.work), pool.work, pool.work.filesystems[uuid], now, Left(Visible(root, root.st.dev)), ANY)
    ensures Renewed(old(pool.work), pool.work, now, read) && old(pool.readings) + |read| <= pool.readings
  {
    hide Paced, Renewed, SqlPool.Valid, Closed, Consistent, CacheTrue, Fits, WorldTrue, Leaves, Left, Visible;
    hide HeaderFits, TablesSafe, Advanced, Sane, RecordedAs, BackupId;
    hide Extends, Grew, InosBelow;
    ghost var s, w := pool.Snap(), pool.work;
    KeptSelf(s);
    SafeConsistent(w, s.view, !s.clash, world);
    TruthKept(w, uuid, s.view, !s.clash, world);
    read := {};
    NumberedRenewed(w, uuid, now);
    var cache := NewCache(pool, uuid, now);
    if cache == null {
      return None, {};
    }
    ghost var fs, t := pool.work.filesystems, pool.Snap();
    WorldToTruth(root, world, uuid, root.st.dev, fs);
    assert fs[uuid] in fs.Values;
    SafeIsSane(t, pool.work, world, cache.fsid);
    var backup := new Backup(pool, hash, cache, root.st.dev);
    id := StoreBackup(backup, root, uuid, ms, props, TruthOf(world, fs));
    ghost var u := pool.Snap();
    SaneIsSafe(t, u, pool.work, world, cache.fsid);
    read := backup.read;
    BackupRenews(w, uuid, pool.work, t, u, now, read);
    SameFilesystems(t, u);
    if id.Some? {
      BackupLeaves(w, uuid, pool.work, t, u, now, Left(Visible(root, root.st.dev)));
    }
  }

  /** A backup: the tree, then the "back" node, then the flush. Whatever the cache held and however the backup
      ends, the pool stays safe; when it succeeds, it is committed and records exactly the visible tree, the same
      as a backup without a cache would; when the pieces of files are fixed by their ctimes, its identifier is a
      function of the visible tree, date and properties alone. It succeeds exactly for trees with inode numbers that
      the database driver takes, unless a call fails. */
  method RunBackup(pool: SqlPool, hash: Hash, root: Tree, uuid: Bytes, now: int, ms: int, props: map<Bytes, Bytes>,
                   ghost world: World) returns (id: Option<OID>, ghost read: set<FileAt>)
    requires Safe(pool, world) && root.Dir? && Fits(root) && WorldTrue(root, world, uuid, root.st.dev)
    requires HeaderFits(uuid, ms, props) && (world.cut.Some? ==> world.cut.value == hash)
    modifies pool
    ensures Safe(pool, world) && Kept(old(pool.Snap()), pool.Snap())
    ensures id.Some? ==> pool.committed == pool.work && pool.Saved() == pool.View()
    ensures id.Some? && !pool.clash ==> RecordedAs(pool.View(), id.value, root, uuid, ms, props, world.Links())
    ensures id.Some? && !pool.clash && world.cut.Some? ==> id.value == BackupId(hash, root, uuid, ms, props)
    ensures id.None? && InosBelow(Visible(root, root.st.dev)) ==> Excused(old(pool.Snap()), pool.Snap())
    ensures id.Some? ==> InosBelow(Visible(root, root.st.dev))
    ensures id.Some? ==> uuid in pool.work.filesystems
    ensures id.Some? ==>
      Leaves(old(pool.work), pool.work, pool.work.filesystems[uuid], now, Left(Visible(root, root.st.dev)), ANY)
    ensures id.Some? && !pool.clash && IsInt64(now) && IsInt64(now + 6 * WEEK) ==>
      Decided(old(pool.work), pool.work, pool.work.filesystems[uuid], now, Left(Visible(root, root.st.dev)),
              Reads(pool.View()))
    ensures Renewed(old(pool.work), pool.work, now, read) && old(pool.readings) + |read| <= pool.readings
  {
    hide Renewed, Decided, SqlPool.Valid, Fits, WorldTrue, Leaves, Left, Visible;
    hide HeaderFits, TablesSafe, RecordedAs, BackupId, Extends, InosBelow;
    ghost var s, w := pool.Snap(), pool.work;
    id, read := MakeBackup(pool, hash, root, uuid, now, ms, props, world);
    if id.None? {
      return;
    }
    ghost var u := pool.Snap();
    SavedInView(pool);
    var ok := pool.Flush();
    KeptFlushed(s, u, pool.Snap());
    id := if ok then id else None;
    if !pool.clash && IsInt64(now) && IsInt64(now + 6 * WEEK) {
      BackupDecides(w, pool.work, pool.View(), world, uuid, now, root);
    }
  }

  /** What is committed is in the transaction. */
  lemma SavedInView(pool: SqlPool)
    requires pool.Valid()
    ensures Extends(pool.Saved(), pool.View())
  {
    hide Lossless, Readable;
    forall oid | oid in pool.committed.blobs
      ensures oid in pool.work.blobs && pool.Saved().store[oid] == pool.View().store[oid]
    {
      assert pool.committed.blobs[oid] == pool.work.blobs[oid];
    }
  }

  lemma KeptFlushed(s: Snapshot, t: Snapshot, u: Snapshot)
    requires Kept(s, t) && Extends(t.saved, t.view) && u.view == t.view && (u.saved == t.view || u.saved == t.saved)
    requires u.clash == t.clash && t.faults <= u.faults && (t.live && !u.live ==> t.faults < u.faults)
    ensures Kept(s, u)
  {
  }

  lemma SameFilesystems(s: Snapshot, t: Snapshot)
    requires Advanced(s, t)
    ensures t.others.filesystems == s.others.filesystems
  {
  }

  lemma SafeConsistent(t: Tables, r: Repo, exact: bool, world: World)
    requires TablesSafe(t, r, exact, world)
    ensures Consistent(t)
  {
  }

  lemma KeptSelf(s: Snapshot)
    ensures Kept(s, s)
  {
  }

  /** Every chunk stays, in the transaction and on disk; the pool only stops being usable when something fails. */
  ghost predicate Kept(s: Snapshot, t: Snapshot) {
    && Extends(s.view, t.view) && Extends(s.saved, t.saved) && (s.clash ==> t.clash)
    && s.faults <= t.faults && (s.live && !t.live ==> s.faults < t.faults)
  }

  lemma RowsKeyed(t: Tables)
    requires Consistent(t)
    ensures forall row :: row in t.ctimeCache ==> row.pkey in t.ctimeDirs
  {
  }

  /** `expire`: the expired entries go, and what is left is flushed. */
  method Expire(pool: SqlPool, now: int, ghost world: World) returns (ok: bool)
    requires Safe(pool, world)
    modifies pool
    ensures Safe(pool, world) && pool.View() == old(pool.View()) && Kept(old(pool.Snap()), pool.Snap())
    ensures ok ==> pool.committed == pool.work && pool.work == Expired(old(pool.work), now)
    ensures !ok ==> Excused(old(pool.Snap()), pool.Snap())
  {
    hide SqlPool.Valid, Closed, Consistent, FileTrue, Extends, Expired;
    ghost var s, t := pool.Snap(), pool.work;
    KeptSelf(s);
    SavedInView(pool);
    ok := RunExpire(pool, now);
    RowsKeyed(pool.work);
    SubTrue(t, pool.work, pool.View(), !pool.clash, TruthOf(world, t.filesystems));
    if !ok {
      return;
    }
    ghost var u := pool.Snap();
    ok := pool.Flush();
    KeptFlushed(s, u, pool.Snap());
  }
}
