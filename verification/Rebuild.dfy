/** Regenerating the cache in a pool (src/godump/cachecmd/regen.go), and why backups can rely on it. */
module Rebuilds {
  import opened Base
  import opened Text
  import opened Pool
  import opened Decode
  import opened Visitors
  import opened Stories
  import opened Files
  import opened Caches
  import opened Trees
  import opened Memories
  import opened Dumps
  import opened Runs
  import opened Regens
  import opened Recovery

  // ---- any walk ----------------------------------------------------------------------------

  /** Nothing is stated about contents. */
  ghost function NoTruth(): Truth {
    Truth((key: DirKey, ino: nat, ctime: int) => [], None)
  }

  lemma InexactTruth(t: Tables, r: Repo, e: bool, a: Truth, b: Truth)
    requires Closed(r) && CacheTrue(t, r, e, a)
    ensures CacheTrue(t, r, false, b)
  {
    hide Closed;
  }

  ghost predicate Stored(r: Repo, files: map<nat, FileInfo>) {
    forall i :: i in files ==> files[i].ino == i && files[i].data in r.store
  }

  /** The tables are consistent and name only stored chunks, also in the directories being collected. */
  ghost predicate Collectable(r: Repo, blobs: map<OID, Row>, st: Regen)
    requires Closed(r)
  {
    && Consistent(st.t) && st.t.blobs == blobs && CacheTrue(st.t, r, false, NoTruth())
    && (st.cache.Some? ==> st.cache.value.fsid in st.t.filesystems.Values)
    && forall i :: 0 <= i < |st.dirs| ==> Stored(r, st.dirs[i].files)
  }

  ghost predicate FileStored(r: Repo, e: Event) {
    e.Open? && ParseOid(e.props.Get("data")).Some? ==> ParseOid(e.props.Get("data")).value in r.store
  }

  lemma {:induction false} LinkedAllowed(r: Repo, steps: seq<Step>)
    requires Closed(r) && Linked(r, steps)
    ensures Allowed(steps, e => FileStored(r, e))
  {
    hide Closed, ParseOid, Story;
    forall i | 0 <= i < |steps| ensures AllowedStep(steps[i], e => FileStored(r, e)) {
      assert LinkedStep(r, steps[i]);
      if !steps[i].Halt? {
        LinkedAllowed(r, steps[i].inner);
      }
    }
  }

  lemma WrittenCollectable(r: Repo, t: Tables, key: DirKey, base: int, files: map<nat, FileInfo>)
    requires Closed(r) && Consistent(t) && CacheTrue(t, r, false, NoTruth()) && Stored(r, files)
    requires key.fsid in t.filesystems.Values
    ensures var u := Rewritten(t, key, base, files);
      Consistent(u) && u.blobs == t.blobs && u.filesystems == t.filesystems && CacheTrue(u, r, false, NoTruth())
  {
    hide Closed, Consistent, CacheTrue, RowsFor, Partly;
    RewrittenConsistent(t, key, base, files);
    WithDirHas(t, key);
    var u := WithDir(t, key);
    PartlyAt(t, key, base, files, KeyOf(u, key), Rewritten(t, key, base, files).ctimeCache);
    PartlyTrue(t, Rewritten(t, key, base, files), key, files, r, false, NoTruth());
  }

  lemma NumberedCollectable(r: Repo, t: Tables, uuid: Bytes)
    requires Closed(r) && Consistent(t) && CacheTrue(t, r, false, NoTruth())
    ensures var u := WithFilesystem(t, uuid);
      && Consistent(u) && u.blobs == t.blobs && CacheTrue(u, r, false, NoTruth())
      && u.filesystems[uuid] in u.filesystems.Values
  {
    hide Closed, Consistent;
    NewFilesystem(t, uuid, DirKey(0, 0));
  }

  lemma ReactCollects(r: Repo, blobs: map<OID, Row>, age: Ages, st: Regen, e: Event)
    requires Closed(r) && Collectable(r, blobs, st) && FileStored(r, e)
    ensures Collectable(r, blobs, React(age, st, e).0)
  {
    hide Closed, Consistent, CacheTrue, Rewritten, WithFilesystem, ParseOid, ParseUint, Timestamp;
    match e
    case Back(_, date, header) =>
      if "fsuuid" in header {
        NumberedCollectable(r, st.t, header["fsuuid"]);
      }
    case Leave(_) =>
      if st.dirs != [] && st.cache.Some? {
        var ref, info := st.cache.value, st.dirs[|st.dirs| - 1];
        WrittenCollectable(r, st.t, DirKey(ref.fsid, info.ino), ref.base, info.files);
      }
    case _ =>
  }

  lemma StartCollectable(r: Repo, t: Tables)
    requires Closed(r) && Consistent(t) && CacheTrue(t, r, false, NoTruth())
    ensures Collectable(r, t.blobs, Regen(t, None, []))
  {
  }

  /** Whatever backup is walked, and wherever the walk stops, the tables stay consistent and name stored chunks. */
  lemma RegenCollects(r: Repo, t: Tables, age: Ages, id: OID)
    requires Closed(r) && Consistent(t) && CacheTrue(t, r, false, NoTruth())
    ensures Collectable(r, t.blobs, Run(Story(r, id), Regenerator(age), [], Regen(t, None, [])).st)
  {
    hide Closed, Consistent, CacheTrue, React, Linked, FileStored, Collectable;
    ClosedIsRanked(r);
    StoryLinked(r, id);
    LinkedAllowed(r, Story(r, id));
    var inv, ok := (st: Regen) => Collectable(r, t.blobs, st), e => FileStored(r, e);
    assert Maintains(Regenerator(age), inv, ok) by {
      forall st: Regen, path: seq<Bytes>, e: Event | inv(st) && ok(e)
        ensures inv(Regenerator(age).react(st, path, e).0)
      {
        ReactCollects(r, t.blobs, age, st, e);
      }
    }
    StartCollectable(r, t);
    RunMaintains(Story(r, id), Regenerator(age), [], Regen(t, None, []), inv, ok);
  }

  // ---- the walk of a recorded backup -------------------------------------------------------

  /** An entry read from the files of a directory is true. */
  lemma RightTrue(r: Repo, truth: Truth, fsid: nat, base: int, d: Place, fi: FileInfo, info: FileInfo)
    requires Closed(r) && PlaceTrue(d, truth, fsid) && EntryForSome(fi, d.kids, base, ReadsAnd(r, truth.Links()))
    requires info == InfoOf(RowFor(0, fi))
    ensures FileTrue(r, true, truth, DirKey(fsid, d.ino), info.ino, info.ctime, info.data)
  {
    hide Closed, BlobData, Story, UnixNano, FileRoot;
    var j :| 0 <= j < |d.kids| && EntryFor(fi, d.kids[j].node, base, ReadsAnd(r, truth.Links()));
    var c := d.kids[j].node;
    assert Reads(r)(fi.data, c) && truth.Links()(fi.data, c);
    assert truth.Same(c.pieces, DirKey(fsid, d.ino), c.st.ino, UnixNano(c.st.ctime.Nanos()));
  }

  lemma InfoTrue(t: Tables, r: Repo, truth: Truth, key: DirKey, info: FileInfo)
    requires Closed(r) && CacheTrue(t, r, true, truth) && info in Infos(t, key)
    ensures FileTrue(r, true, truth, key, info.ino, info.ctime, info.data)
  {
    hide Closed, FileTrue;
  }

  /** The cache left by a walk over true files is true. */
  lemma LeavesTrue(t: Tables, u: Tables, r: Repo, truth: Truth, fsid: nat, base: int, tree: Tree, dev: nat)
    requires Closed(r) && CacheTrue(t, r, true, truth) && CacheTrue(u, r, false, NoTruth()) && Consistent(u)
    requires TreeTrue(tree, truth, fsid, dev)
    requires Leaves(t, u, fsid, base, Left(Visible(tree, dev)), ReadsAnd(r, truth.Links()))
    ensures CacheTrue(u, r, true, truth)
  {
    hide Closed, FileTrue, TreeTrue, Left, Visible, LastOf, PlaceTrue, EntryForSome, Infos;
    var dirs := Left(Visible(tree, dev));
    forall row | row in u.ctimeCache
      ensures FileTrue(r, true, truth, u.ctimeDirs[row.pkey], row.ino, row.ctime, row.oid)
    {
      var key, info := u.ctimeDirs[row.pkey], InfoOf(row);
      RowInfo(u, row);
      assert LeavesAt(t, u, fsid, base, dirs, ReadsAnd(r, truth.Links()), key);
      if Deciding(dirs, fsid, key).None? {
        InfoTrue(t, r, truth, key, info);
      } else {
        LastOfIn(dirs, key.pino);
        var d := LastOf(dirs, key.pino).value;
        PlacesTrue(tree, truth, fsid, dev, d);
        var files: map<nat, FileInfo> :|
          Gathered(files, d.kids, base, ReadsAnd(r, truth.Links())) && Infos(u, key) == Written(files, base);
        var i :| i in files && info == InfoOf(RowFor(0, files[i]));
        RightTrue(r, truth, fsid, base, d, files[i], info);
      }
    }
  }

  lemma RowInfo(u: Tables, row: CacheRow)
    requires Consistent(u) && row in u.ctimeCache
    ensures InfoOf(row) in Infos(u, u.ctimeDirs[row.pkey])
  {
    assert row in DirRows(u, u.ctimeDirs[row.pkey]);
  }

  lemma RegenTrue(r: Repo, id: OID, t: Tables, age: Ages, tree: Tree, uuid: Bytes, ms: int, props: map<Bytes, Bytes>,
                  world: World)
    requires TablesSafe(t, r, true, world) && RecordedAs(r, id, tree, uuid, ms, props, world.Links()) && tree.Dir?
    requires Storable(Visible(tree, tree.st.dev)) && WorldTrue(tree, world, uuid, tree.st.dev)
    ensures var run := Run(Story(r, id), Regenerator(age), [], Regen(t, None, []));
      run.reply.Continue? ==> TablesSafe(run.st.t, r, true, world)
  {
    hide InosBelow, Closed, Consistent, CacheTrue, WithFilesystem, Storable, Leaves, Decided, Left;
    hide Visible, RecordedAs, WorldTrue;
    var run, truth := Run(Story(r, id), Regenerator(age), [], Regen(t, None, [])), TruthOf(world, t.filesystems);
    InexactTruth(t, r, true, truth, NoTruth());
    RegenCollects(r, t, age, id);
    RegenRebuilds(r, id, t, age, tree, uuid, ms, props, world.Links());
    if !run.reply.Continue? {
      return;
    }
    TruthKept(t, uuid, r, true, world);
    var w, u := WithFilesystem(t, uuid), run.st.t;
    SameCache(t, uuid);
    CacheTrueTables(t, w, r, true, TruthOf(world, w.filesystems));
    WorldToTruth(tree, world, uuid, tree.st.dev, u.filesystems);
    LeavesTrue(t, u, r, TruthOf(world, u.filesystems), u.filesystems[uuid], ms * 1_000_000, tree, tree.st.dev);
  }

  lemma SameCache(t: Tables, uuid: Bytes)
    ensures var u := WithFilesystem(t, uuid);
      u.ctimeDirs == t.ctimeDirs && u.ctimeCache == t.ctimeCache && uuid in u.filesystems
  {
  }

  lemma RegenSafe(r: Repo, id: OID, t: Tables, age: Ages, exact: bool, world: World)
    requires TablesSafe(t, r, exact, world)
    ensures var u := Run(Story(r, id), Regenerator(age), [], Regen(t, None, [])).st.t;
      TablesSafe(u, r, false, world) && u.blobs == t.blobs
  {
    hide Closed, Consistent, CacheTrue;
    InexactTruth(t, r, exact, TruthOf(world, t.filesystems), NoTruth());
    RegenCollects(r, t, age, id);
    var u := Run(Story(r, id), Regenerator(age), [], Regen(t, None, [])).st.t;
    InexactTruth(u, r, false, NoTruth(), TruthOf(world, u.filesystems));
  }

  /** How regenerating ends, with or without knowing what is recorded. */
  lemma RegenEnds(r: Repo, id: OID, t: Tables, age: Ages, exact: bool, tree: Tree, uuid: Bytes, ms: int,
                  props: map<Bytes, Bytes>, world: World)
    requires TablesSafe(t, r, exact, world)
    requires exact ==> RecordedAs(r, id, tree, uuid, ms, props, world.Links()) && tree.Dir?
    requires exact ==> Storable(Visible(tree, tree.st.dev)) && WorldTrue(tree, world, uuid, tree.st.dev)
    ensures var run := Run(Story(r, id), Regenerator(age), [], Regen(t, None, []));
      && run.st.t.blobs == t.blobs && (run.reply.Continue? ==> TablesSafe(run.st.t, r, exact, world))
      && (exact ==> (run.reply.Continue? <==> InosBelow(Visible(tree, tree.st.dev))))
      && (exact && run.reply.Continue? ==> RegenLeaves(t, run.st.t, r, uuid, ms, tree, world))
  {
    hide Closed, Consistent, CacheTrue, RecordedAs, Storable, WorldTrue, Leaves, Decided, Left, Visible, InosBelow;
    RegenSafe(r, id, t, age, exact, world);
    if exact {
      RegenTrue(r, id, t, age, tree, uuid, ms, props, world);
      RegenRebuilds(r, id, t, age, tree, uuid, ms, props, world.Links());
    }
  }

  /** The tables after regenerating from a backup of the tree. */
  ghost predicate RegenLeaves(t: Tables, u: Tables, r: Repo, uuid: Bytes, ms: int, tree: Tree, world: World)
    requires Closed(r)
  {
    uuid in u.filesystems &&
    Leaves(t, u, u.filesystems[uuid], ms * 1_000_000, Left(Visible(tree, tree.st.dev)), ReadsAnd(r, world.Links()))
  }

  lemma RegeneratorIgnoresRaw(age: Ages)
    ensures IgnoresRaw(Regenerator(age))
  {
    hide ParseUint, FileOf, Rewritten, WithFilesystem;
  }

  /** `regen` on an identifier that a backup reported. A failing callback or statement ends the program, and the
      transaction is rolled back. On success the cache is committed and what the backup would have left in it; either
      way every cached identifier stays true, so later backups can use them. */
  method Regenerate(pool: SqlPool, id: OID, age: Ages, ghost tree: Tree, ghost uuid: Bytes, ghost ms: int,
                    ghost props: map<Bytes, Bytes>, ghost world: World) returns (ok: bool)
    requires Safe(pool, world) && Closed(pool.View())
    requires !pool.clash ==> RecordedAs(pool.View(), id, tree, uuid, ms, props, world.Links())
    requires !pool.clash ==> tree.Dir? && Storable(Visible(tree, tree.st.dev))
    requires !pool.clash ==> WorldTrue(tree, world, uuid, tree.st.dev)
    modifies pool
    ensures Safe(pool, world) && pool.clash == old(pool.clash) && pool.faults >= old(pool.faults)
    ensures pool.live || pool.faults > old(pool.faults)
    ensures pool.work == pool.committed && pool.View() == pool.Saved()
    ensures pool.View() == old(pool.View()) || (!ok && pool.View() == old(pool.Saved()))
    ensures !ok && !pool.clash && InosBelow(Visible(tree, tree.st.dev)) ==>
      !old(pool.live) || pool.faults > old(pool.faults)
    ensures ok && !pool.clash ==> InosBelow(Visible(tree, tree.st.dev))
    ensures Closed(pool.View())
    ensures ok && !pool.clash ==> RegenLeaves(old(pool.work), pool.work, pool.View(), uuid, ms, tree, world)
  {
    hide SqlPool.Valid, TablesSafe, Closed, RecordedAs, Storable, WorldTrue, RegenLeaves, Visible;
    hide Regenerator, InosBelow;
    var failed := pool.Fails();
    if failed || !pool.live {
      Restart(pool, world);
      SafeCloses(pool, world);
      return false;
    }
    ghost var w, r := pool.work, pool.View();
    RegeneratorIgnoresRaw(age);
    RegenEnds(r, id, w, age, !pool.clash, tree, uuid, ms, props, world);
    var end, reply, _ := Recovery.Visit(pool, id, Regenerator(age), Regen(pool.work, None, []));
    if !reply.Continue? {
      Restart(pool, world);
      SafeCloses(pool, world);
      return false;
    }
    pool.UseTables(end.t);
    assert Safe(pool, world);
    ok := pool.Flush();
    if !ok {
      Restart(pool, world);
    }
    SafeCloses(pool, world);
  }
}
