/** Storing file data (src/store/file.go). */
module Files {
  import opened Base
  import opened Chunks
  import opened Pool
  import opened Decode
  import opened Visitors
  import opened Stories
  import opened Indirect
  import opened Heights
  import opened Capacity
  import opened IndirectWriters

  /** The read buffer, and the byte limit of an indirect chunk. */
  const BUFFER := 0x4_0000

  function FileFamily(hash: Hash): Family {
    Family(BUFFER / OID_LEN, hash, "ind")
  }

  function BlobOids(hash: Hash, pieces: seq<Bytes>): (oids: seq<OID>)
    ensures |oids| == |pieces| && forall i :: 0 <= i < |pieces| ==> oids[i] == hash("blob", pieces[i])
  {
    seq(|pieces|, i requires 0 <= i < |pieces| => hash("blob", pieces[i]))
  }

  /** What `WriteFile` returns for the pieces the file was read in. */
  ghost function FileRoot(hash: Hash, pieces: seq<Bytes>): OID {
    if pieces == [] then hash("null", []) else FileFamily(hash).Root(0, BlobOids(hash, pieces))
  }

  ghost predicate BlobsIn(hash: Hash, store: map<OID, Content>, exact: bool, pieces: seq<Bytes>) {
    forall i {:trigger pieces[i]} :: 0 <= i < |pieces| ==>
      && hash("blob", pieces[i]) in store
      && (exact ==> store[hash("blob", pieces[i])] == Content("blob", pieces[i]))
  }

  /** The bytes of a file told as blobs, and nothing if anything else is told. */
  function BlobData(steps: seq<Step>): Option<Bytes> {
    if steps == [] then Some([])
    else
      var first, rest := steps[0], BlobData(steps[1..]);
      if first.Emit? && first.event.Blob? && !first.soft && first.inner == [] && rest.Some?
      then Some(first.event.data + rest.value)
      else None
  }

  lemma BlobsGrow(hash: Hash, s: map<OID, Content>, e: bool, t: map<OID, Content>, g: bool, pieces: seq<Bytes>)
    requires SubMap(s, t) && (g ==> e) && BlobsIn(hash, s, e, pieces)
    ensures BlobsIn(hash, t, g, pieces)
  {
  }

  lemma {:induction false} BlobsStory(hash: Hash, r: Repo, pieces: seq<Bytes>)
    requires Closed(r) && BlobsIn(hash, r.store, true, pieces)
    ensures BlobData(StoryAll(r, BlobOids(hash, pieces))) == Some(Concat(pieces))
  {
    if pieces != [] {
      var oid, rest := hash("blob", pieces[0]), pieces[1..];
      assert BlobsIn(hash, r.store, true, rest) by {
        forall i | 0 <= i < |rest| ensures rest[i] == pieces[i + 1] { }
      }
      BlobsStory(hash, r, rest);
      StoryOfBlob(r, oid, pieces[0]);
      var oids := BlobOids(hash, pieces);
      assert oids[1..] == BlobOids(hash, rest);
      var steps := StoryAll(r, oids);
      assert steps == [Emit(Blob(oid, pieces[0]), false, [])] + StoryAll(r, BlobOids(hash, rest));
      assert steps[1..] == StoryAll(r, BlobOids(hash, rest));
    }
  }

  /** A stored file of at most k^4 blobs is told as its bytes. */
  lemma FileStory(hash: Hash, r: Repo, pieces: seq<Bytes>)
    requires Closed(r) && BlobsIn(hash, r.store, true, pieces)
    requires |pieces| <= Limit(FileFamily(hash).k, "ind")
    requires Finalized(FileFamily(hash), r.store, true, BlobOids(hash, pieces), FileRoot(hash, pieces))
    ensures BlobData(Story(r, FileRoot(hash, pieces))) == Some(Concat(pieces))
  {
    hide Pow, HandlerOf, Family.Root, Family.TreeIn;
    if pieces == [] {
      StoryOfEmpty(r, FileRoot(hash, pieces));
    } else {
      var f := FileFamily(hash);
      assert f.k == 13107 && BlobOids(hash, pieces) != [];
      BelowCapacity(f, r, BlobOids(hash, pieces));
      BlobsStory(hash, r, pieces);
    }
  }

  lemma BlobSnoc(hash: Hash, store: map<OID, Content>, exact: bool, pieces: seq<Bytes>, n: nat)
    requires n < |pieces| && BlobsIn(hash, store, exact, pieces[..n])
    requires hash("blob", pieces[n]) in store
    requires (exact ==> store[hash("blob", pieces[n])] == Content("blob", pieces[n]))
    ensures BlobsIn(hash, store, exact, pieces[..n + 1])
    ensures BlobOids(hash, pieces[..n + 1]) == BlobOids(hash, pieces[..n]) + [hash("blob", pieces[n])]
  {
    forall i | 0 <= i < n ensures pieces[..n + 1][i] == pieces[..n][i] { }
  }

  /** Opening a file, a second time should the first fail. */
  method OpenFile(pool: SqlPool) returns (ok: bool)
    requires pool.Valid()
    modifies pool`faults, pool`readings
    ensures pool.Valid() && pool.View() == old(pool.View()) && Grew(old(pool.Snap()), pool.Snap())
    ensures pool.clash == old(pool.clash) && pool.readings == old(pool.readings) + 1
    ensures !ok ==> Excused(old(pool.Snap()), pool.Snap())
  {
    hide SqlPool.Valid, Grew;
    ghost var s := pool.Snap();
    pool.CountReading();
    var failed := pool.Fails();
    if failed {
      failed := pool.Fails();
    }
    GrewFaults(s, pool.Snap());
    ok := !failed;
  }

  /** The read loop and what follows it. */
  method StorePieces(pool: SqlPool, hash: Hash, pieces: seq<Bytes>) returns (st: Status, root: OID)
    requires pool.Valid() && Closed(pool.View()) && forall i :: 0 <= i < |pieces| ==> |pieces[i]| <= BUFFER
    modifies pool
    ensures pool.Valid() && Closed(pool.View()) && Grew(old(pool.Snap()), pool.Snap())
    ensures st.Done? ==> root == FileRoot(hash, pieces) && root in pool.View().store
    ensures st.PoolError? ==> Excused(old(pool.Snap()), pool.Snap())
    ensures st.Panicked? ==> |pieces| > Pow(FileFamily(hash).k, 10)
    ensures st.Done? && !pool.clash && |pieces| <= Limit(FileFamily(hash).k, "ind") ==>
      BlobData(Story(pool.View(), root)) == Some(Concat(pieces))
  {
    hide SqlPool.Valid, Closed, Grew, SubMap, KeptIn, Buffers, BlobsIn, BlobOids, Pow, BlobData, Finalized, Excused;
    ghost var f, s := FileFamily(hash), pool.Snap();
    GrewSelf(s);
    root := hash("null", []);
    var ind := new IndirectWriter(pool, hash, "ind", BUFFER);
    assert pieces[..0] == [];
    NoBlobs(hash, pool.View().store, !pool.clash);
    var n := 0;
    while n < |pieces|
      invariant n <= |pieces|
      invariant pool.Valid() && Closed(pool.View()) && Grew(s, pool.Snap())
      invariant fresh(ind) && ind.pool == pool && ind.Shape() == f
      invariant ind.Valid() && ind.Kept() && ind.done == 0
      invariant ind.leaves == BlobOids(hash, pieces[..n])
      invariant BlobsIn(hash, pool.View().store, !pool.clash, pieces[..n])
    {
      st := StorePiece(pool, hash, pieces, n, ind, s);
      if !st.Done? {
        return;
      }
      n := n + 1;
    }
    assert pieces[..n] == pieces;
    st := ReadFile(pool, s);
    if !st.Done? {
      return;
    }
    ghost var t := pool.Snap();
    st, root := ind.Finalize();
    GrewTransitive(s, t, pool.Snap());
    if st.PoolError? {
      ExcusedAlong(s, t, pool.Snap());
    }
    GrewStore(t, pool.Snap());
    BlobsGrow(hash, t.view.store, !t.clash, pool.View().store, !pool.clash, pieces);
    if st.Done? {
      RootIsFileRoot(hash, pool.View().store, !pool.clash, pieces, root);
      if !pool.clash && |pieces| <= Limit(FileFamily(hash).k, "ind") {
        FileStory(hash, pool.View(), pieces);
      }
    }
  }

  /** `WriteFile`; `pieces` are the pieces that successive reads of the file return, short ones included, unless opening
      or reading fails. */
  method WriteFile(pool: SqlPool, hash: Hash, pieces: seq<Bytes>) returns (st: Status, root: OID)
    requires pool.Valid() && Closed(pool.View()) && forall i :: 0 <= i < |pieces| ==> |pieces[i]| <= BUFFER
    modifies pool
    ensures pool.Valid() && Closed(pool.View()) && Grew(old(pool.Snap()), pool.Snap())
    ensures old(pool.readings) < pool.readings
    ensures st.Done? ==> root == FileRoot(hash, pieces) && root in pool.View().store
    ensures st.PoolError? ==> Excused(old(pool.Snap()), pool.Snap())
    ensures st.Panicked? ==> |pieces| > Pow(FileFamily(hash).k, 10)
    ensures st.Done? && !pool.clash && |pieces| <= Limit(FileFamily(hash).k, "ind") ==>
      BlobData(Story(pool.View(), root)) == Some(Concat(pieces))
  {
    hide SqlPool.Valid, Closed, Grew, Pow, Limit, BlobData, FileRoot, Story, Concat;
    ghost var s := pool.Snap();
    root := hash("null", []);
    var ok := OpenFile(pool);
    if !ok {
      return PoolError, root;
    }
    ghost var t := pool.Snap();
    st, root := StorePieces(pool, hash, pieces);
    GrewTransitive(s, t, pool.Snap());
    GrewReadings(t, pool.Snap());
    if st.PoolError? {
      ExcusedAlong(s, t, pool.Snap());
    }
  }

  lemma GrewReadings(s: Snapshot, t: Snapshot)
    requires Grew(s, t)
    ensures s.readings <= t.readings
  {
  }

  /** An empty file is an empty null chunk, one piece its blob, and up to 13107 pieces one indirect chunk of their
      identifiers. */
  lemma SmallFile(hash: Hash, pieces: seq<Bytes>)
    requires |pieces| <= 13107
    ensures FileRoot(hash, pieces) ==
      if |pieces| == 0 then hash("null", [])
      else if |pieces| == 1 then hash("blob", pieces[0])
      else hash("ind0", Flatten(BlobOids(hash, pieces)))
  {
    assert pieces != [] ==> BlobOids(hash, pieces) != [];
    if pieces != [] {
      SmallRoot(FileFamily(hash), BlobOids(hash, pieces));
      assert "ind" + "0" == "ind0";
    }
  }

  lemma NoBlobs(hash: Hash, store: map<OID, Content>, exact: bool)
    ensures BlobsIn(hash, store, exact, []) && BlobOids(hash, []) == []
  {
  }

  lemma RootIsFileRoot(hash: Hash, store: map<OID, Content>, exact: bool, pieces: seq<Bytes>, root: OID)
    requires Finalized(FileFamily(hash), store, exact, BlobOids(hash, pieces), root)
    ensures root == FileRoot(hash, pieces) && root in store
  {
  }

  /** A read that returns data or the end of the file, or fails. */
  method ReadFile(pool: SqlPool, ghost s: Snapshot) returns (st: Status)
    requires pool.Valid() && Grew(s, pool.Snap())
    modifies pool`faults
    ensures pool.Valid() && Grew(s, pool.Snap()) && Grew(old(pool.Snap()), pool.Snap())
    ensures pool.Snap() == old(pool.Snap()).(faults := pool.faults) && !st.Panicked?
    ensures st.PoolError? ==> Excused(s, pool.Snap())
  {
    hide SqlPool.Valid, Grew;
    ghost var a := pool.Snap();
    var failed := pool.Fails();
    GrewFaults(a, pool.Snap());
    GrewTransitive(s, a, pool.Snap());
    if failed {
      ExcusedAlong(s, a, pool.Snap());
    }
    st := if failed then PoolError else Done;
  }

  /** One turn of the read loop. */
  method StorePiece(pool: SqlPool, hash: Hash, pieces: seq<Bytes>, n: nat, ind: IndirectWriter, ghost s: Snapshot)
    returns (st: Status)
    requires pool.Valid() && Closed(pool.View()) && Grew(s, pool.Snap()) && n < |pieces| && |pieces[n]| <= BUFFER
    requires ind.pool == pool && ind.Shape() == FileFamily(hash) && ind.Valid() && ind.Kept() && ind.done == 0
    requires ind.leaves == BlobOids(hash, pieces[..n]) && BlobsIn(hash, pool.View().store, !pool.clash, pieces[..n])
    modifies ind, pool
    ensures pool.Valid() && Closed(pool.View()) && Grew(s, pool.Snap())
    ensures ind.Valid() && ind.Kept() && ind.done == 0
    ensures st.PoolError? ==> Excused(s, pool.Snap())
    ensures st.Panicked? ==> n >= Pow(FileFamily(hash).k, 10)
    ensures st.Done? ==>
      ind.leaves == BlobOids(hash, pieces[..n + 1]) && BlobsIn(hash, pool.View().store, !pool.clash, pieces[..n + 1])
  {
    hide SqlPool.Valid, Closed, Grew, SubMap, KeptIn, Buffers, BlobsIn, BlobOids, Excused, IndirectWriter.Valid;
    ghost var f := ind.Shape();
    WriterShape(ind);
    st := ReadFile(pool, s);
    if !st.Done? {
      return;
    }
    ghost var a := pool.Snap();
    var ok, oid := StoreBlob(pool, hash, pieces[n]);
    ghost var b := pool.Snap();
    GrewTransitive(s, a, b);
    GrewStore(a, b);
    KeptGrows(f, a.view.store, !a.clash, b.view.store, !b.clash, ind.done, ind.leaves);
    if !ok {
      ExcusedAlong(s, a, b);
      return PoolError;
    }
    BlobsGrow(hash, a.view.store, !a.clash, b.view.store, !b.clash, pieces[..n]);
    BlobSnoc(hash, b.view.store, !b.clash, pieces, n);
    BlobOidsLength(hash, pieces[..n]);
    st := ind.Add(oid);
    GrewTransitive(s, b, pool.Snap());
    GrewStore(b, pool.Snap());
    BlobsGrow(hash, b.view.store, !b.clash, pool.View().store, !pool.clash, pieces[..n + 1]);
    if st.PoolError? {
      ExcusedAlong(s, b, pool.Snap());
    }
  }

  lemma BlobOidsLength(hash: Hash, pieces: seq<Bytes>)
    ensures |BlobOids(hash, pieces)| == |pieces|
  {
  }

  /** Inserts one piece of a file. */
  method StoreBlob(pool: SqlPool, hash: Hash, data: Bytes) returns (ok: bool, oid: OID)
    requires pool.Valid() && Closed(pool.View()) && |data| <= BUFFER
    modifies pool
    ensures pool.Valid() && Closed(pool.View()) && Grew(old(pool.Snap()), pool.Snap()) && oid == hash("blob", data)
    ensures ok ==> oid in pool.View().store && (!pool.clash ==> pool.View().store[oid] == Content("blob", data))
    ensures !ok ==> Excused(old(pool.Snap()), pool.Snap())
  {
    hide SqlPool.Valid, Closed, Grew, HandlerOf;
    KnownKinds();
    var ch := NewChunk(hash, "blob", data);
    oid := ch.value.oid;
    assert ch.value.Meaning(pool.z) == Content("blob", data);
    PutClosed(pool.View(), oid, Content("blob", data));
    ok := pool.Insert(ch.value);
  }
}
