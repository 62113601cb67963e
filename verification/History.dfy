/** Histories of backups, expiries, cache regenerations and crashes over one pool. */
module Histories {
  import opened Base
  import opened Chunks
  import opened Pool
  import opened Decode
  import opened Caches
  import opened Trees
  import opened Memories
  import opened Runs
  import opened Regens
  import opened Rebuilds

  /** `Rebuild` regenerates the cache from what an earlier job reported. */
  datatype Job =
    | BackUp(root: Tree, uuid: Bytes, now: int, ms: int, props: map<Bytes, Bytes>)
    | ExpireAt(now: int)
    | Rebuild(of: nat, age: Ages)
    | Crash
  {
    /** What a backup sees of its tree. */
    function Seen(): Tree
      requires BackUp?
    {
      Visible(root, root.st.dev)
    }
  }

  ghost predicate Doable(job: Job, world: World) {
    job.BackUp? ==>
      && job.root.Dir? && Fits(job.root) && WorldTrue(job.root, world, job.uuid, job.root.st.dev)
      && HeaderFits(job.uuid, job.ms, job.props)
  }

  /** Every backup that reported success is there. */
  ghost predicate AllRecorded(r: Repo, jobs: seq<Job>, ids: seq<Option<OID>>, world: World)
    requires Closed(r) && |ids| <= |jobs|
  {
    forall i :: 0 <= i < |ids| ==> ids[i].Some? ==> JobRecorded(r, jobs[i], ids[i].value, world)
  }

  ghost predicate JobRecorded(r: Repo, job: Job, id: OID, world: World)
    requires Closed(r)
  {
    && job.BackUp? && RecordedAs(r, id, job.root, job.uuid, job.ms, job.props, world.Links())
    && (world.cut.Some? ==> id == BackupId(world.cut.value, job.root, job.uuid, job.ms, job.props))
  }

  lemma AllRecordedGrows(r: Repo, s: Repo, jobs: seq<Job>, ids: seq<Option<OID>>, world: World)
    requires Closed(r) && Closed(s) && Extends(r, s) && |ids| <= |jobs| && AllRecorded(r, jobs, ids, world)
    ensures AllRecorded(s, jobs, ids, world)
  {
    hide RecordedAs, Closed, Extends, BackupId;
    forall i | 0 <= i < |ids| && ids[i].Some? ensures JobRecorded(s, jobs[i], ids[i].value, world) {
      var j := jobs[i];
      RecordedGrows(r, s, ids[i].value, j.root, j.uuid, j.ms, j.props, world.Links());
    }
  }

  lemma AllRecordedSnoc(r: Repo, jobs: seq<Job>, ids: seq<Option<OID>>, id: Option<OID>, world: World)
    requires Closed(r) && |ids| < |jobs| && AllRecorded(r, jobs, ids, world)
    requires id.Some? ==> JobRecorded(r, jobs[|ids|], id.value, world)
    ensures AllRecorded(r, jobs, ids + [id], world)
  {
    hide JobRecorded, Closed;
  }

  lemma {:induction false} FitsStorable(t: Tree, dev: nat)
    requires Fits(t)
    ensures Storable(Visible(t, dev))
    decreases t
  {
    if t.Dir? && t.st.dev == dev {
      forall i | 0 <= i < |t.kids| ensures Storable(Visible(t.kids[i].node, dev)) {
        FitsStorable(t.kids[i].node, dev);
      }
    }
  }

  ghost predicate AllDoable(jobs: seq<Job>, world: World) {
    forall i :: 0 <= i < |jobs| ==> Doable(jobs[i], world)
  }

  /** Only backups report identifiers, of trees whose inode numbers the driver takes, and while no chunks clash they are
      recorded. */
  ghost predicate Reported(pool: SqlPool, jobs: seq<Job>, ids: seq<Option<OID>>, world: World)
    requires pool.Valid() && Closed(pool.View()) && Closed(pool.Saved())
    reads pool
  {
    && |ids| <= |jobs|
    && (forall i :: 0 <= i < |ids| && ids[i].Some? ==> jobs[i].BackUp? && InosBelow(jobs[i].Seen()))
    && (!pool.clash ==> AllRecorded(pool.View(), jobs, ids, world) && AllRecorded(pool.Saved(), jobs, ids, world))
  }

  /** Regenerating the cache from the identifier a job reported. */
  method DoRebuild(pool: SqlPool, of: nat, age: Ages, jobs: seq<Job>, ids: seq<Option<OID>>, ghost world: World)
    returns (ok: bool)
    requires Safe(pool, world) && Closed(pool.View()) && Closed(pool.Saved())
    requires AllDoable(jobs, world) && Reported(pool, jobs, ids, world) && of < |ids| && ids[of].Some?
    modifies pool
    ensures Safe(pool, world) && Closed(pool.View()) && Closed(pool.Saved()) && Reported(pool, jobs, ids, world)
    ensures pool.faults >= old(pool.faults) && pool.clash == old(pool.clash)
    ensures pool.live || pool.faults > old(pool.faults)
    ensures !ok && !pool.clash ==> !old(pool.live) || pool.faults > old(pool.faults)
  {
    hide SqlPool.Valid, Closed, TablesSafe, RecordedAs, WorldTrue, Fits, HeaderFits, Storable, Visible;
    hide RegenLeaves, InosBelow;
    ghost var job := jobs[of];
    assert Doable(job, world);
    if !pool.clash {
      assert JobRecorded(pool.View(), job, ids[of].value, world);
    }
    FitsStorable(job.root, job.root.st.dev);
    ok := Regenerate(pool, ids[of].value, age, job.root, job.uuid, job.ms, job.props, world);
  }

  /** The job regenerates the cache from what an earlier job reported. */
  predicate Rebuildable(jobs: seq<Job>, ids: seq<Option<OID>>, i: nat)
    requires i < |jobs|
  {
    jobs[i].Rebuild? && jobs[i].of < i && jobs[i].of < |ids| && ids[jobs[i].of].Some?
  }

  /** One job: everything recorded before stays recorded, in the transaction and on disk. */
  method DoJob(pool: SqlPool, hash: Hash, jobs: seq<Job>, ids: seq<Option<OID>>, ghost world: World)
    returns (id: Option<OID>, ok: bool)
    requires Safe(pool, world) && Closed(pool.View()) && Closed(pool.Saved())
    requires AllDoable(jobs, world) && Reported(pool, jobs, ids, world) && |ids| < |jobs|
    requires world.cut.Some? ==> world.cut.value == hash
    modifies pool
    ensures Safe(pool, world) && Closed(pool.View()) && Closed(pool.Saved()) && Reported(pool, jobs, ids + [id], world)
    ensures pool.faults >= old(pool.faults) && (pool.faults == old(pool.faults) && old(pool.live) ==> pool.live)
    ensures old(pool.clash) ==> pool.clash
    ensures jobs[|ids|].BackUp? && id.None? && InosBelow(jobs[|ids|].Seen()) ==>
      !old(pool.live) || pool.faults > old(pool.faults)
    ensures Rebuildable(jobs, ids, |ids|) && !ok && !pool.clash ==> !old(pool.live) || pool.faults > old(pool.faults)
  {
    hide SqlPool.Valid, Closed, TablesSafe, AllRecorded, RecordedAs, BackupId, WorldTrue, Fits, HeaderFits, Extends;
    hide Leaves, Decided, Renewed, RegenLeaves, Left, Visible, AllDoable, Expired, InosBelow;
    ghost var v, d := pool.View(), pool.Saved();
    id, ok := None, true;
    var job := jobs[|ids|];
    if job.BackUp? {
      DoableAt(jobs, |ids|, world);
      var made, _ := RunBackup(pool, hash, job.root, job.uuid, job.now, job.ms, job.props, world);
      id := made;
      SafeCloses(pool, world);
      if !pool.clash {
        AllRecordedGrows(v, pool.View(), jobs, ids, world);
        AllRecordedGrows(d, pool.Saved(), jobs, ids, world);
      }
    } else if job.ExpireAt? {
      var _ := Expire(pool, job.now, world);
      SafeCloses(pool, world);
      if !pool.clash {
        AllRecordedGrows(d, pool.Saved(), jobs, ids, world);
      }
    } else if job.Crash? {
      Restart(pool, world);
    } else if job.of < |ids| && ids[job.of].Some? {
      ok := DoRebuild(pool, job.of, job.age, jobs, ids, world);
    }
    if !pool.clash {
      AllRecordedSnoc(pool.View(), jobs, ids, id, world);
      AllRecordedSnoc(pool.Saved(), jobs, ids, id, world);
    }
  }

  lemma DoableAt(jobs: seq<Job>, i: nat, world: World)
    requires i < |jobs| && AllDoable(jobs, world)
    ensures Doable(jobs[i], world)
  {
  }

  lemma FreshSafe(pool: SqlPool, world: World)
    requires pool.Valid() && pool.View().store == map[]
    requires pool.committed == pool.work == Tables(map[], map[], map[], {})
    ensures Safe(pool, world) && Closed(pool.View()) && Closed(pool.Saved())
  {
    hide SqlPool.Valid;
    assert pool.Saved().store.Keys == {};
    forall oid ensures GroundedAt(pool.View(), oid) && GroundedAt(pool.Saved(), oid) {
    }
  }

  /** Any history of backups, expiries, cache regenerations and crashes on a new pool: at its end every backup that
      reported success still walks as the tree it was made from, in the running pool and in what a crash would leave,
      unless two different chunks shared a hash. While no call into the file system or the database fails, a backup
      succeeds exactly when the driver takes the inode numbers of its tree, and a regeneration from a reported backup
      succeeds always. */
  method History(z: Codec, base: Bytes, hash: Hash, jobs: seq<Job>, ghost world: World)
    returns (pool: SqlPool, ids: seq<Option<OID>>, oks: seq<bool>)
    requires Lossless(z) && AllDoable(jobs, world) && (world.cut.Some? ==> world.cut.value == hash)
    ensures Safe(pool, world) && Closed(pool.View()) && Closed(pool.Saved()) && |ids| == |oks| == |jobs|
    ensures !pool.clash ==> AllRecorded(pool.View(), jobs, ids, world) && AllRecorded(pool.Saved(), jobs, ids, world)
    ensures forall i :: 0 <= i < |jobs| && ids[i].Some? ==> jobs[i].BackUp? && InosBelow(jobs[i].Seen())
    ensures pool.faults == 0 ==>
      forall i :: 0 <= i < |jobs| && jobs[i].BackUp? ==> (ids[i].Some? <==> InosBelow(jobs[i].Seen()))
    ensures pool.faults == 0 && !pool.clash ==> forall i :: 0 <= i < |jobs| && Rebuildable(jobs, ids, i) ==> oks[i]
  {
    hide InosBelow, Visible, SqlPool.Valid, Lossless, Closed, TablesSafe, AllRecorded, AllDoable;
    pool := new SqlPool(z, base);
    FreshSafe(pool, world);
    ids, oks := [], [];
    NoneRecorded(pool.View(), jobs, world);
    NoneRecorded(pool.Saved(), jobs, world);
    for i := 0 to |jobs|
      invariant |ids| == |oks| == i && fresh(pool)
      invariant Safe(pool, world) && Closed(pool.View()) && Closed(pool.Saved()) && Reported(pool, jobs, ids, world)
      invariant pool.faults == 0 ==> pool.live
      invariant pool.faults == 0 ==>
        forall j :: 0 <= j < i && jobs[j].BackUp? && InosBelow(jobs[j].Seen()) ==> ids[j].Some?
      invariant pool.faults == 0 && !pool.clash ==> forall j :: 0 <= j < i && Rebuildable(jobs, ids, j) ==> oks[j]
    {
      var id, ok := DoJob(pool, hash, jobs, ids, world);
      ids, oks := ids + [id], oks + [ok];
    }
  }

  lemma NoneRecorded(r: Repo, jobs: seq<Job>, world: World)
    requires Closed(r)
    ensures AllRecorded(r, jobs, [], world)
  {
  }
}
