/** The online writer of indirect chunks (src/store/indirect.go). */
module IndirectWriters {
  import opened Base
  import opened Chunks
  import opened Text
  import opened Pool
  import opened Decode
  import opened Stories
  import opened Indirect
  import opened Heights

  /** How a call ends: nil, an error from the pool, or the panic of `NewChunk` on a kind that is not four bytes. */
  datatype Status = Done | PoolError | Panicked

  class IndirectWriter {
    const pool: SqlPool
    const hash: Hash
    const prefix: Bytes
    const limit: nat

    var tree: seq<Bytes>

    ghost var leaves: seq<OID>   // the identifiers added
    ghost var done: nat          // the levels Finalize has emptied

    ghost function Shape(): Family {
      Family(limit / OID_LEN, hash, prefix)
    }

    /** The level buffers in closed form: `done` emptied levels, then those of the row of blocks above. */
    ghost predicate Valid()
      reads this
    {
      && |prefix| == 3 && limit == OID_LEN * Shape().k < UINT32 && Shape().k >= 1
      && Buffers(Shape(), done, leaves, tree)
    }

    /** The pool holds every chunk written and every identifier in the levels. */
    ghost predicate Kept()
      reads this, pool
      requires Valid() && pool.Valid()
    {
      KeptIn(Shape(), pool.View().store, !pool.clash, done, leaves)
    }

    /** `NewIndirectWriter`; a limit below one identifier would make `Add` recurse forever. */
    constructor (pool: SqlPool, hash: Hash, prefix: Bytes, limit: nat)
      requires |prefix| == 3 && OID_LEN <= limit < UINT32 && pool.Valid()
      ensures this.pool == pool && this.hash == hash && this.prefix == prefix && pool.Valid()
      ensures Valid() && leaves == [] && done == 0 && Kept()
      ensures Shape().k == limit / OID_LEN
    {
      this.pool, this.hash, this.prefix := pool, hash, prefix;
      this.limit := (limit / OID_LEN) * OID_LEN;
      tree, leaves, done := [], [], 0;
    }

    /** What the inner methods rely on; they work on one level and those above it. */
    ghost predicate Base()
      reads this, pool
    {
      && |prefix| == 3 && limit == OID_LEN * Shape().k < UINT32 && Shape().k >= 1
      && pool.Valid() && Closed(pool.View())
    }

    ghost predicate Stored(level: nat, us: seq<OID>)
      reads this, pool
      requires Base()
    {
      Shape().LevelsIn(pool.View().store, !pool.clash, level, us)
    }

    /** Inserts the chunk of a full or purged level. */
    method WriteBlock(level: nat, ghost us: seq<OID>) returns (st: Status, oid: OID)
      requires Base() && us != [] && Stored(level, us)
      requires level < |tree| && tree[level] == Flatten(Shape().Last(us))
      modifies pool
      ensures Base() && Grew(old(pool.Snap()), pool.Snap()) && Stored(level + 1, Shape().Carry(level, us))
      ensures st.Done? ==>
        && oid == Shape().Block(level, Shape().Last(us))
        && Shape().BlockIn(pool.View().store, !pool.clash, level, Shape().Last(us))
      ensures pool.inserts == old(pool.inserts) + if st.Done? then 1 else 0
      ensures st.PoolError? ==> Excused(old(pool.Snap()), pool.Snap())
      ensures st.Panicked? ==> level >= 10
    {
      hide SqlPool.Valid, GroundedAt, Closed, Grew, SubMap, Family.Levels, Flatten, IndRefs, HandlerOf;
      ghost var f, s := Shape(), pool.Snap();
      GrewSelf(s);
      KindLength(prefix, level);
      oid := hash(KindName(level), tree[level]);
      var ch := NewChunk(hash, KindName(level), tree[level]);
      if ch.None? {
        return Panicked, oid;
      }
      var content := Content(KindName(level), tree[level]);
      LevelKind(prefix, level);
      LastIn(f, s.view.store, us);
      IndRefsFlatten(f.Last(us));
      PutClosed(s.view, oid, content);
      assert ch.value.Meaning(pool.z) == content;
      var ok := pool.Insert(ch.value);
      GrewStore(s, pool.Snap());
      f.LevelsGrow(s.view.store, !s.clash, pool.View().store, !pool.clash, level + 1, f.Carry(level, us));
      st := if ok then Done else PoolError;
    }

    /** Whether `room` writes out a level. */
    ghost predicate Flushes(purge: bool, us: seq<OID>)
      requires Shape().k >= 1
    {
      if purge then |us| >= 2 else us != [] && |Shape().Last(us)| == Shape().k
    }

    /** `room`, for a level whose buffers and those above are `Levels(us)`, or one that was emptied. */
    method Room(level: nat, purge: bool, ghost us: seq<OID>) returns (st: Status)
      requires Base() && level <= |tree| && Stored(level, us) && (purge ==> level < |tree|)
      requires tree[level..] == Shape().Levels(level, us) || (us == [] && level < |tree| && tree[level] == [])
      modifies this`tree, pool
      ensures Base() && Grew(old(pool.Snap()), pool.Snap())
      ensures !Flushes(purge, us) ==>
        st.Done? && pool.Snap() == old(pool.Snap()) && tree == old(tree) + if level == old(|tree|) then [[]] else []
      ensures Flushes(purge, us) && st.Done? ==>
        && Cleared(Shape(), level, us, old(tree), tree)
        && Shape().BlockIn(pool.View().store, !pool.clash, level, Shape().Last(us))
        && Stored(level + 1, Shape().Up(level, us))
        && pool.inserts == old(pool.inserts) + FlushCost(Shape(), level, us)
      ensures !st.Done? ==> tree == old(tree)
      ensures st.PoolError? ==> Excused(old(pool.Snap()), pool.Snap())
      ensures st.Panicked? ==> us != [] && |us| >= TooMany(Shape().k, level) + if purge then 1 else 0
      decreases |tree| - level, 1
    {
      if level >= |tree| {
        tree := tree + [[]];
      }
      var llimit := limit;
      if purge {
        llimit := if level == |tree| - 1 then 2 * OID_LEN else OID_LEN;
      }
      if us != [] {
        LevelsAt(Shape(), level, us, tree);
      }
      if |tree[level]| >= llimit {
        st := FlushLevel(level, us);
      } else {
        st := Done;
      }
    }

    /** The part of `room` that writes a level out, passes its block upwards, and only then clears it. */
    method FlushLevel(level: nat, ghost us: seq<OID>) returns (st: Status)
      requires Base() && level < |tree| && us != [] && Stored(level, us)
      requires tree[level..] == Shape().Levels(level, us)
      modifies this`tree, pool
      ensures Base() && Grew(old(pool.Snap()), pool.Snap())
      ensures st.Done? ==>
        && Cleared(Shape(), level, us, old(tree), tree)
        && Shape().BlockIn(pool.View().store, !pool.clash, level, Shape().Last(us))
        && Stored(level + 1, Shape().Up(level, us))
        && pool.inserts == old(pool.inserts) + FlushCost(Shape(), level, us)
      ensures !st.Done? ==> tree == old(tree)
      ensures st.PoolError? ==> Excused(old(pool.Snap()), pool.Snap())
      ensures st.Panicked? ==> level >= 10 || |us| > TooMany(Shape().k, level)
      decreases |tree| - level, 0
    {
      hide SqlPool.Valid, Closed, Grew, SubMap, Cleared, Family.Levels, Family.LevelsIn;
      ghost var f, last, above := Shape(), Shape().Last(us), Shape().Carry(level, us);
      ghost var s, before := pool.Snap(), tree;
      LevelsAt(f, level, us, tree);
      var oid;
      st, oid := WriteBlock(level, us);
      if !st.Done? {
        return;
      }
      ghost var t := pool.Snap();
      assert above + [oid] == f.Up(level, us);
      st := Push(oid, level + 1, above);
      ghost var u := pool.Snap();
      GrewTransitive(s, t, u);
      GrewStore(t, u);
      if !st.Done? {
        if st.Panicked? {
          TooManyUp(f, level, us);
        } else {
          ExcusedAlong(s, t, u);
        }
        return;
      }
      f.BlockInGrows(t.view.store, !t.clash, u.view.store, !u.clash, level, last);
      ClearedAt(f, level, us, before, tree);
      tree := tree[level := []];
    }

    /** `push`: the identifier joins the row entering at `level`; lower levels are not touched. */
    method Push(oid: OID, level: nat, ghost us: seq<OID>) returns (st: Status)
      requires Base() && level <= |tree| && Stored(level, us) && oid in pool.View().store
      requires tree[level..] == Shape().Levels(level, us)
      modifies this`tree, pool
      ensures Base() && Grew(old(pool.Snap()), pool.Snap())
      ensures st.Done? ==> Pushed(Shape(), level, us, oid, old(tree), tree) && Stored(level, us + [oid])
      ensures !st.Done? ==> tree == old(tree)
      ensures st.Done? ==>
        pool.inserts == old(pool.inserts) + Shape().Work(level, us + [oid]) - Shape().Work(level, us)
      ensures st.PoolError? ==> Excused(old(pool.Snap()), pool.Snap())
      ensures st.Panicked? ==> us != [] && |us| >= TooMany(Shape().k, level)
      decreases |tree| - level, 2
    {
      hide SqlPool.Valid, Closed, Grew, SubMap, Excused, Flatten, TooMany, Family.LevelsIn;
      ghost var f, before, s := Shape(), tree, pool.Snap();
      st := Room(level, false, us);
      if !st.Done? {
        return;
      }
      GrewStore(s, pool.Snap());
      f.LevelsGrow(s.view.store, !s.clash, pool.View().store, !pool.clash, level, us);
      f.LevelsInSnoc(pool.View().store, !pool.clash, level, us, oid);
      PushedAt(f, level, us, oid, before, tree);
      WorkSnoc(f, level, us, oid);
      assert |tree[level]| + OID_LEN <= limit;
      tree := tree[level := tree[level] + oid];
    }

    function KindName(level: nat): Bytes {
      prefix + Decimal(level)
    }

    /** `Add`: all or nothing. A panic needs at least k^10 identifiers. */
    method Add(oid: OID) returns (st: Status)
      requires Valid() && pool.Valid() && Closed(pool.View()) && Kept() && done == 0 && oid in pool.View().store
      modifies this, pool
      ensures Valid() && pool.Valid() && Closed(pool.View()) && Kept() && Grew(old(pool.Snap()), pool.Snap())
      ensures done == 0 && leaves == old(leaves) + if st.Done? then [oid] else []
      ensures !st.Done? ==> tree == old(tree)
      ensures st.Done? ==>
        pool.inserts == old(pool.inserts) + Shape().Made(0, leaves) - Shape().Made(0, old(leaves))
      ensures st.PoolError? ==> Excused(old(pool.Snap()), pool.Snap())
      ensures st.Panicked? ==> |leaves| >= Pow(Shape().k, 10)
    {
      hide SqlPool.Valid, Closed, Grew, SubMap, Family.Levels, Family.LevelsIn;
      hide Family.Made, Excused, Pow, Buffers, KeptIn;
      ghost var f, s := Shape(), pool.Snap();
      AtBottom(f, leaves, tree, s.view.store, !s.clash);
      assert tree[0..] == tree;
      st := Push(oid, 0, leaves);
      GrewStore(s, pool.Snap());
      KeptGrows(f, s.view.store, !s.clash, pool.View().store, !pool.clash, 0, leaves);
      if st.Done? {
        leaves := leaves + [oid];
        assert tree[0..] == tree;
        AtBottom(f, leaves, tree, pool.View().store, !pool.clash);
      }
    }

    ghost predicate Empty(store: map<OID, Content>, exact: bool) {
      hash("null", []) in store && (exact ==> store[hash("null", [])] == Content("null", []))
    }

    /** The root of nothing. */
    method InsertNull() returns (st: Status)
      requires Valid() && pool.Valid() && Closed(pool.View()) && Kept()
      modifies pool
      ensures Valid() && pool.Valid() && Closed(pool.View()) && Kept()
      ensures Grew(old(pool.Snap()), pool.Snap()) && !st.Panicked?
      ensures st.PoolError? ==> Excused(old(pool.Snap()), pool.Snap())
      ensures st.Done? ==> Empty(pool.View().store, !pool.clash)
    {
      hide SqlPool.Valid, Closed, Grew, KeptIn, Buffers, Excused, SubMap;
      ghost var s := pool.Snap();
      NullRefs();
      var ch := NewChunk(hash, "null", []);
      assert ch.value.Meaning(pool.z) == Content("null", []);
      PutClosed(pool.View(), ch.value.oid, Content("null", []));
      var ok := pool.Insert(ch.value);
      GrewStore(s, pool.Snap());
      KeptGrows(Shape(), s.view.store, !s.clash, pool.View().store, !pool.clash, done, leaves);
      st := if ok then Done else PoolError;
    }

    lemma NullRefs()
      ensures Refs(Content("null", [])) == []
    {
    }

    /** `room` called for purging: an emptied level, or the lowest one that is not. */
    method PurgeRoom(i: nat, ghost row: seq<OID>, ghost start: Snapshot) returns (st: Status)
      requires Valid() && pool.Valid() && Closed(pool.View()) && Kept() && Grew(start, pool.Snap())
      requires leaves != [] && i <= done && i < |tree| && row == if i < done then [] else Shape().Row(done, leaves)
      modifies this`tree, pool
      ensures Base() && Grew(start, pool.Snap())
      ensures KeptIn(Shape(), pool.View().store, !pool.clash, done, leaves)
      ensures !Flushes(true, row) ==> st.Done? && tree == old(tree) && pool.inserts == old(pool.inserts)
      ensures Flushes(true, row) && st.Done? ==>
        && Cleared(Shape(), i, row, old(tree), tree)
        && Shape().BlockIn(pool.View().store, !pool.clash, i, Shape().Last(row))
        && Stored(i + 1, Shape().Up(i, row))
        && pool.inserts == old(pool.inserts) + FlushCost(Shape(), i, row)
      ensures !st.Done? ==> tree == old(tree)
      ensures st.PoolError? ==> Excused(start, pool.Snap())
      ensures st.Panicked? ==> |leaves| > Pow(Shape().k, 10)
    {
      hide SqlPool.Valid, Closed, Grew, SubMap, Cleared, FlushCost, KeptIn, Buffers, Excused, Pow;
      hide Family.Levels, Family.Row, Family.Up, Family.Last, Family.LevelsIn, Family.RowsIn, Family.BlockIn;
      ghost var f, s, before := Shape(), pool.Snap(), tree;
      KeptParts(f, s.view.store, !s.clash, done, leaves);
      BufferAt(f, i, done, leaves, tree);
      assert before + [] == before;
      st := Room(i, true, row);
      GrewTransitive(start, s, pool.Snap());
      if st.PoolError? {
        ExcusedAlong(start, s, pool.Snap());
      }
      GrewStore(s, pool.Snap());
      KeptGrows(f, s.view.store, !s.clash, pool.View().store, !pool.clash, done, leaves);
      if st.Panicked? {
        PanicBound(f, done, leaves);
      }
    }

    /** One turn of the loop in `Finalize`. */
    method PurgeLevel(i: nat, ghost start: Snapshot) returns (st: Status)
      requires Valid() && pool.Valid() && Closed(pool.View()) && Kept() && Grew(start, pool.Snap())
      requires leaves != [] && i <= done && i < |tree| && (Shape().k >= 2 || |leaves| == 1)
      modifies this, pool
      ensures Valid() && pool.Valid() && Closed(pool.View()) && Kept() && Grew(start, pool.Snap())
      ensures leaves == old(leaves)
      ensures st.Done? && i < old(done) ==> done == old(done) && tree == old(tree)
      ensures st.Done? && i == old(done) && |Shape().Row(i, leaves)| == 1 ==> done == i && |tree| == i + 1
      ensures st.Done? && i == old(done) && |Shape().Row(i, leaves)| >= 2 ==> done == i + 1
      ensures !st.Done? ==> done == old(done) && tree == old(tree)
      ensures st.Done? ==>
        pool.inserts == old(pool.inserts) + Shape().Made(done, leaves) - Shape().Made(old(done), leaves)
      ensures st.PoolError? ==> Excused(start, pool.Snap())
      ensures st.Panicked? ==> |leaves| > Pow(Shape().k, 10)
    {
      hide SqlPool.Valid, Closed, Grew, SubMap, Cleared, FlushCost, KeptIn, Buffers, Excused, Pow;
      hide Family.Levels, Family.Row, Family.Up, Family.Last;
      hide Family.Made, Family.LevelsIn, Family.RowsIn, Family.BlockIn;
      ghost var f, before := Shape(), tree;
      ghost var row := f.Row(done, leaves);
      BufferAt(f, i, done, leaves, tree);
      st := PurgeRoom(i, if i < done then [] else row, start);
      if st.Done? && i == done && |row| >= 2 {
        OneLevelUp(f, done, leaves, before, tree);
        KeptUp(f, pool.View().store, !pool.clash, done, leaves);
        done := done + 1;
      }
    }

    /** `Finalize`: the loop ends although the tree grows under it; the root is that of the offline algorithm,
        and the top level is left with it alone. A failed call can be repeated and then gives the same root. */
    method Finalize() returns (st: Status, root: OID)
      requires Valid() && pool.Valid() && Closed(pool.View()) && Kept()
      requires Shape().k >= 2 || |leaves| <= 1
      modifies this, pool
      ensures Valid() && pool.Valid() && Closed(pool.View()) && Kept() && Grew(old(pool.Snap()), pool.Snap())
      ensures leaves == old(leaves) && done >= old(done)
      ensures st.Done? ==> Finalized(Shape(), pool.View().store, !pool.clash, leaves, root)
      ensures st.Done? && leaves != [] ==> OnlyRoot(Shape().k, |leaves|, done, tree, root)
      ensures st.Done? && leaves != [] ==>
        pool.inserts == old(pool.inserts) + Shape().Made(done, leaves) - Shape().Made(old(done), leaves)
      ensures st.PoolError? ==> Excused(old(pool.Snap()), pool.Snap())
      ensures st.Panicked? ==> |leaves| > Pow(Shape().k, 10)
    {
      hide SqlPool.Valid, Closed, Grew, KeptIn, Buffers;
      hide Family.Levels, Family.Row, Family.Made, Family.TreeIn, Family.Root;
      hide Excused, Pow;
      root := hash("null", []);
      NoBuffers(Shape(), done, leaves, tree);
      if |tree| == 0 {
        st := InsertNull();
        return;
      }
      st := PurgeAll();
      if st.Done? {
        RootReached(Shape(), pool.View().store, !pool.clash, done, leaves, tree);
        root := tree[|tree| - 1][..OID_LEN];
      }
    }

    /** The loop in `Finalize`. */
    method PurgeAll() returns (st: Status)
      requires Valid() && pool.Valid() && Closed(pool.View()) && Kept()
      requires leaves != [] && (Shape().k >= 2 || |leaves| == 1)
      modifies this, pool
      ensures Valid() && pool.Valid() && Closed(pool.View()) && Kept() && Grew(old(pool.Snap()), pool.Snap())
      ensures leaves == old(leaves) && done >= old(done)
      ensures st.Done? ==> |tree| == done + 1 && |Shape().Row(done, leaves)| == 1
      ensures st.Done? ==>
        pool.inserts == old(pool.inserts) + Shape().Made(done, leaves) - Shape().Made(old(done), leaves)
      ensures st.PoolError? ==> Excused(old(pool.Snap()), pool.Snap())
      ensures st.Panicked? ==> |leaves| > Pow(Shape().k, 10)
    {
      hide SqlPool.Valid, Closed, Grew, KeptIn, Buffers, Family.Levels, Family.Row, Family.Made;
      ghost var f, start := Shape(), pool.Snap();
      ghost var done0, inserts0 := done, pool.inserts;
      GrewSelf(start);
      var i := 0;
      while i < |tree|
        invariant Valid() && pool.Valid() && Closed(pool.View()) && Kept() && Grew(start, pool.Snap())
        invariant leaves == old(leaves) && leaves != [] && done >= done0
        invariant i <= done || (i == done + 1 == |tree| && |f.Row(done, leaves)| == 1)
        invariant pool.inserts == inserts0 + f.Made(done, leaves) - f.Made(done0, leaves)
        decreases |f.Row(done, leaves)|, done + 1 - i
      {
        RowShrinks(f, done, leaves, tree);
        st := PurgeLevel(i, start);
        if !st.Done? {
          return;
        }
        i := i + 1;
      }
      RowShrinks(f, done, leaves, tree);
      st := Done;
    }
  }

  lemma WriterShape(ind: IndirectWriter)
    requires ind.Valid()
    ensures ind.Shape().k >= 1
  {
  }

  /** The root stands for the leaves: "null" for none, else the offline root with its whole tree stored. */
  ghost predicate Finalized(f: Family, store: map<OID, Content>, exact: bool, leaves: seq<OID>, root: OID)
    requires f.k >= 1 && (f.k >= 2 || |leaves| <= 1)
  {
    && root in store
    && if leaves == []
       then root == f.hash("null", []) && (exact ==> store[root] == Content("null", []))
       else root == f.Root(0, leaves) && f.TreeIn(store, exact, 0, leaves)
  }

  /** One identifier on the top level, none below, and the least height that holds n leaves. */
  ghost predicate OnlyRoot(k: nat, n: nat, done: nat, tree: seq<Bytes>, root: OID) {
    && |tree| == done + 1 && tree[done] == root && (forall i :: 0 <= i < done ==> tree[i] == [])
    && (k >= 2 ==> done == Height(k, n))
  }

  // ---- the level buffers on values ---------------------------------------------------------

  ghost predicate Pushed(f: Family, level: nat, us: seq<OID>, oid: OID, t: seq<Bytes>, u: seq<Bytes>)
    requires f.k >= 1 && level <= |t|
  {
    level <= |u| && u[..level] == t[..level] && u[level..] == f.Levels(level, us + [oid])
  }

  ghost predicate Cleared(f: Family, level: nat, us: seq<OID>, t: seq<Bytes>, u: seq<Bytes>)
    requires f.k >= 1 && level <= |t|
  {
    && level < |u| && u[..level] == t[..level] && u[level] == []
    && u[level + 1..] == f.Levels(level + 1, f.Up(level, us))
  }

  ghost function FlushCost(f: Family, level: nat, us: seq<OID>): int
    requires f.k >= 1
  {
    1 + f.Work(level + 1, f.Up(level, us)) - f.Work(level + 1, f.Carry(level, us))
  }

  lemma LevelsAt(f: Family, level: nat, us: seq<OID>, t: seq<Bytes>)
    requires f.k >= 1 && us != [] && level <= |t| && t[level..] == f.Levels(level, us)
    ensures level < |t| && t[level] == Flatten(f.Last(us)) && t[level + 1..] == f.Levels(level + 1, f.Carry(level, us))
    ensures level == |t| - 1 <==> |us| <= f.k
    ensures |us| <= f.k ==> f.Last(us) == us
  {
    f.LevelsCount(level, us);
    assert t[level] == t[level..][0] && t[level + 1..] == t[level..][1..] && |t[level..]| == |t| - level;
  }

  lemma ClearedAt(f: Family, level: nat, us: seq<OID>, t: seq<Bytes>, u: seq<Bytes>)
    requires f.k >= 1 && us != [] && level < |t|
    requires Pushed(f, level + 1, f.Carry(level, us), f.Block(level, f.Last(us)), t, u)
    ensures level < |u| && Cleared(f, level, us, t, u[level := []])
  {
    var v := u[level := []];
    assert v[..level] == u[..level + 1][..level] == t[..level];
    assert v[level + 1..] == u[level + 1..];
  }

  /** What `room` left takes one more identifier. */
  lemma PushedAt(f: Family, level: nat, us: seq<OID>, oid: OID, t: seq<Bytes>, u: seq<Bytes>)
    requires f.k >= 1 && level <= |t| && t[level..] == f.Levels(level, us)
    requires if us != [] && |f.Last(us)| == f.k then Cleared(f, level, us, t, u)
             else u == t + if level == |t| then [[]] else []
    ensures level < |u| && |u[level]| + OID_LEN <= OID_LEN * f.k
    ensures Pushed(f, level, us, oid, t, u[level := u[level] + oid])
  {
    if us == [] {
      PushedEmpty(f, level, oid, t, u);
    } else if |f.Last(us)| == f.k {
      PushedFull(f, level, us, oid, t, u);
    } else {
      LevelsAt(f, level, us, t);
      assert t + [] == t;
      PushedPart(f, level, us, oid, t);
    }
  }

  lemma PushedEmpty(f: Family, level: nat, oid: OID, t: seq<Bytes>, u: seq<Bytes>)
    requires f.k >= 1 && level == |t| && u == t + [[]]
    ensures Pushed(f, level, [], oid, t, u[level := u[level] + oid])
  {
    f.LevelsSnoc(level, [], oid);
    assert Flatten([oid]) == oid == u[level] + oid;
    assert u[level := oid][level..] == [oid];
  }

  lemma Replaced(u: seq<Bytes>, level: nat, x: Bytes)
    requires level < |u|
    ensures u[level := x][level..] == [x] + u[level + 1..] && u[level := x][..level] == u[..level]
  {
  }

  lemma OneFlat(oid: OID)
    ensures Flatten([oid]) == oid && [] + oid == oid
  {
    assert [oid][1..] == [];
  }

  lemma PushedFull(f: Family, level: nat, us: seq<OID>, oid: OID, t: seq<Bytes>, u: seq<Bytes>)
    requires f.k >= 1 && us != [] && |f.Last(us)| == f.k && level <= |t| && Cleared(f, level, us, t, u)
    ensures Pushed(f, level, us, oid, t, u[level := u[level] + oid])
  {
    hide Flatten, Family.Last;
    f.LevelsSnoc(level, us, oid);
    OneFlat(oid);
    Replaced(u, level, oid);
  }

  lemma PushedPart(f: Family, level: nat, us: seq<OID>, oid: OID, t: seq<Bytes>)
    requires f.k >= 1 && us != [] && |f.Last(us)| < f.k && level <= |t| && t[level..] == f.Levels(level, us)
    ensures level < |t| && Pushed(f, level, us, oid, t, t[level := t[level] + oid])
  {
    hide Flatten, Family.Last;
    LevelsAt(f, level, us, t);
    f.LevelsSnoc(level, us, oid);
    Replaced(t, level, t[level] + oid);
  }

  lemma WorkSnoc(f: Family, level: nat, us: seq<OID>, oid: OID)
    requires f.k >= 1
    ensures f.Work(level, us + [oid]) - f.Work(level, us)
         == if us != [] && |f.Last(us)| == f.k then FlushCost(f, level, us) else 0
  {
    if us == [] {
      assert us + [oid] == [oid];
      assert f.Carry(level, [oid]) == [] && f.Work(level + 1, []) == 0;
    } else {
      f.RowSnoc(level, us, oid);
    }
  }

  lemma {:induction false} LastIn(f: Family, store: map<OID, Content>, us: seq<OID>)
    requires f.k >= 1 && f.AllIn(store, us)
    ensures f.AllIn(store, f.Last(us))
    decreases |us|
  {
    if |us| > f.k {
      LastIn(f, store, us[f.k..]);
    }
  }

  /** The level buffers in closed form: `done` emptied levels, then those of the row of blocks above. */
  ghost predicate Buffers(f: Family, done: nat, leaves: seq<OID>, t: seq<Bytes>)
    requires f.k >= 1
  {
    && done <= |t|
    && (forall i :: 0 <= i < done ==> t[i] == [] && |f.Row(i, leaves)| >= 2)
    && t[done..] == f.Levels(done, f.Row(done, leaves))
    && (leaves != [] ==> f.Row(done, leaves) != [])
  }

  ghost predicate KeptIn(f: Family, store: map<OID, Content>, exact: bool, done: nat, leaves: seq<OID>)
    requires f.k >= 1
  {
    f.RowsIn(store, exact, done, leaves) && f.LevelsIn(store, exact, done, f.Row(done, leaves))
  }

  /** Before Finalize the buffers are those of the leaves themselves. */
  lemma AtBottom(f: Family, leaves: seq<OID>, t: seq<Bytes>, store: map<OID, Content>, exact: bool)
    requires f.k >= 1
    ensures Buffers(f, 0, leaves, t) <==> t == f.Levels(0, leaves)
    ensures KeptIn(f, store, exact, 0, leaves) <==> f.LevelsIn(store, exact, 0, leaves)
    ensures f.Made(0, leaves) == f.Work(0, leaves)
  {
    hide Family.Levels, Family.LevelsIn, Family.Work;
    assert t[0..] == t;
  }

  lemma KeptParts(f: Family, store: map<OID, Content>, exact: bool, done: nat, leaves: seq<OID>)
    requires f.k >= 1 && KeptIn(f, store, exact, done, leaves)
    ensures f.LevelsIn(store, exact, done, f.Row(done, leaves))
    ensures forall level :: f.LevelsIn(store, exact, level, [])
  {
  }

  lemma KeptGrows(f: Family, s: map<OID, Content>, e: bool, t: map<OID, Content>, g: bool, done: nat, leaves: seq<OID>)
    requires f.k >= 1 && SubMap(s, t) && (g ==> e) && KeptIn(f, s, e, done, leaves)
    ensures KeptIn(f, t, g, done, leaves)
  {
    f.RowsGrow(s, e, t, g, done, leaves);
    f.LevelsGrow(s, e, t, g, done, f.Row(done, leaves));
  }

  lemma KeptUp(f: Family, store: map<OID, Content>, exact: bool, done: nat, leaves: seq<OID>)
    requires f.k >= 1 && KeptIn(f, store, exact, done, leaves) && |f.Row(done, leaves)| >= 2
    requires f.BlockIn(store, exact, done, f.Last(f.Row(done, leaves)))
    requires f.LevelsIn(store, exact, done + 1, f.Up(done, f.Row(done, leaves)))
    ensures KeptIn(f, store, exact, done + 1, leaves)
  {
    forall i | 0 <= i < done + 1
      ensures |f.Row(i, leaves)| >= 2 && f.BlocksIn(store, exact, i, f.Row(i, leaves))
    {
      if i < done {
        assert f.RowsIn(store, exact, done, leaves);
      }
    }
  }

  /** Purging the lowest level in use completes its row and leaves the row above as between two Adds. */
  lemma OneLevelUp(f: Family, done: nat, leaves: seq<OID>, t: seq<Bytes>, u: seq<Bytes>)
    requires f.k >= 1 && |f.Row(done, leaves)| >= 2 && Buffers(f, done, leaves, t)
    requires Cleared(f, done, f.Row(done, leaves), t, u)
    ensures Buffers(f, done + 1, leaves, u)
    ensures f.Made(done + 1, leaves) == f.Made(done, leaves) + FlushCost(f, done, f.Row(done, leaves))
  {
    var row := f.Row(done, leaves);
    assert f.Row(done + 1, leaves) == f.Up(done, row) != [];
    forall i | 0 <= i < done + 1 ensures u[i] == [] && |f.Row(i, leaves)| >= 2 {
      if i < done {
        assert u[i] == u[..done][i] == t[..done][i] == t[i];
      }
    }
  }

  lemma BufferAt(f: Family, i: nat, done: nat, leaves: seq<OID>, t: seq<Bytes>)
    requires f.k >= 1 && Buffers(f, done, leaves, t) && leaves != [] && i <= done
    ensures i < |t|
    ensures i < done ==> t[i] == []
    ensures i == done ==> t[i..] == f.Levels(i, f.Row(done, leaves))
    ensures i == done && |f.Row(done, leaves)| == 1 ==> |t| == i + 1
  {
    LevelsAt(f, done, f.Row(done, leaves), t);
  }

  lemma NoBuffers(f: Family, done: nat, leaves: seq<OID>, t: seq<Bytes>)
    requires f.k >= 1 && Buffers(f, done, leaves, t)
    ensures |t| == 0 <==> leaves == []
    ensures leaves == [] ==> done == 0
  {
    assert f.Row(0, leaves) == leaves;
    assert done > 0 ==> |f.Row(0, leaves)| >= 2;
    assert |t[done..]| == |t| - done;
  }

  /** There is always a level to purge until one identifier is left, and each purge shrinks the row. */
  lemma RowShrinks(f: Family, done: nat, leaves: seq<OID>, t: seq<Bytes>)
    requires f.k >= 1 && Buffers(f, done, leaves, t) && leaves != [] && (f.k >= 2 || |leaves| == 1)
    ensures |f.Row(done, leaves)| >= 1 && |t| > done
    ensures |f.Row(done, leaves)| >= 2 ==> |f.Row(done + 1, leaves)| < |f.Row(done, leaves)|
  {
    assert |t[done..]| == |t| - done;
    if f.k < 2 {
      assert f.Row(0, leaves) == leaves;
    }
  }

  lemma RootReached(f: Family, store: map<OID, Content>, exact: bool, done: nat, leaves: seq<OID>, t: seq<Bytes>)
    requires f.k >= 1 && Buffers(f, done, leaves, t) && KeptIn(f, store, exact, done, leaves)
    requires leaves != [] && (f.k >= 2 || |leaves| == 1)
    requires |t| == done + 1 && |f.Row(done, leaves)| == 1
    ensures |t[done]| == OID_LEN && t[done][..OID_LEN] == t[done]
    ensures Finalized(f, store, exact, leaves, t[done]) && OnlyRoot(f.k, |leaves|, done, t, t[done])
  {
    var row := f.Row(done, leaves);
    LevelsAt(f, done, row, t);
    assert Flatten(row) == row[0] + [] == row[0];
    assert f.AllIn(store, row);
    if f.k >= 2 {
      f.RootFromRow(store, exact, done, 0, leaves);
      RowHeight(f, done, leaves);
    } else {
      assert f.Row(0, leaves) == leaves;
    }
  }

  lemma PanicBound(f: Family, done: nat, leaves: seq<OID>)
    requires f.k >= 1 && |f.Row(done, leaves)| > TooMany(f.k, done)
    ensures |leaves| > Pow(f.k, 10)
  {
    ManyLeaves(f, done, leaves, TooMany(f.k, done));
    if done >= 10 {
      PowMono(f.k, 10, done);
    } else {
      PowSum(f.k, done, 10 - done);
    }
  }
}
