/** Directory chunks (src/store/dir.go): greedy packing of entries on top of an indirect writer. */
module Packing {
  import opened Base
  import opened Decode
  import opened Stories

  /** The bytes an entry takes. */
  function EntrySize(e: Entry): nat {
    2 + |e.name| + OID_LEN
  }

  function Size(es: seq<Entry>): nat {
    if es == [] then 0 else Size(es[..|es| - 1]) + EntrySize(es[|es| - 1])
  }

  predicate EntriesFit(limit: nat, es: seq<Entry>) {
    forall i :: 0 <= i < |es| ==> EntrySize(es[i]) <= limit
  }

  /** The groups of entries greedy packing makes, each entry joining the last group while there is room. */
  function Pack(limit: nat, es: seq<Entry>): (gs: seq<seq<Entry>>)
    ensures gs == [] <==> es == []
  {
    if es == [] then []
    else
      var n := |es| - 1;
      var gs := Pack(limit, es[..n]);
      if gs != [] && Size(gs[|gs| - 1]) + EntrySize(es[n]) <= limit
      then gs[..|gs| - 1] + [gs[|gs| - 1] + [es[n]]]
      else gs + [[es[n]]]
  }

  lemma PackGrows(limit: nat, es: seq<Entry>)
    requires es != []
    ensures |Pack(limit, es[..|es| - 1])| <= |Pack(limit, es)|
  {
  }

  /** Packing fewer entries does not take more chunks. */
  lemma {:induction false} PackFewer(limit: nat, es: seq<Entry>, i: nat)
    requires i <= |es|
    ensures |Pack(limit, es[..i])| <= |Pack(limit, es)|
    decreases |es|
  {
    hide Pack;
    if i < |es| {
      var n := |es| - 1;
      PackGrows(limit, es);
      PackFewer(limit, es[..n], i);
      assert es[..n][..i] == es[..i];
    } else {
      assert es[..i] == es;
    }
  }

  function Join(gs: seq<seq<Entry>>): seq<Entry> {
    if gs == [] then [] else Join(gs[..|gs| - 1]) + gs[|gs| - 1]
  }

  /** A split of entries, in order, into groups within the limit. */
  ghost predicate SplitOf(limit: nat, gs: seq<seq<Entry>>, es: seq<Entry>) {
    && Join(gs) == es
    && forall i :: 0 <= i < |gs| ==> gs[i] != [] && Size(gs[i]) <= limit
  }

  lemma SizeSnoc(es: seq<Entry>, e: Entry)
    ensures Size(es + [e]) == Size(es) + EntrySize(e)
  {
    assert (es + [e])[..|es|] == es;
  }

  lemma {:induction false} SizeIsLength(es: seq<Entry>)
    ensures Size(es) == |EntriesBytes(es)|
  {
    if es != [] {
      var n := |es| - 1;
      SizeIsLength(es[..n]);
      EntriesBytesSnoc(es[..n], es[n]);
      assert es[..n] + [es[n]] == es;
    }
  }

  lemma {:induction false} SizeSuffix(a: seq<Entry>, b: seq<Entry>)
    requires |a| <= |b| && a == b[|b| - |a|..]
    ensures Size(a) <= Size(b)
    decreases |a|
  {
    if a != [] {
      var a', b' := a[..|a| - 1], b[..|b| - 1];
      assert a' == b'[|b'| - |a'|..];
      SizeSuffix(a', b');
    }
  }

  lemma JoinSnoc(gs: seq<seq<Entry>>, g: seq<Entry>)
    ensures Join(gs + [g]) == Join(gs) + g
  {
    assert (gs + [g])[..|gs|] == gs;
  }

  lemma SplitByNew(limit: nat, gs: seq<seq<Entry>>, es: seq<Entry>, e: Entry)
    requires SplitOf(limit, gs, es) && EntrySize(e) <= limit
    ensures SplitOf(limit, gs + [[e]], es + [e])
  {
    JoinSnoc(gs, [e]);
    SizeSnoc([], e);
    assert [] + [e] == [e];
  }

  lemma SplitByLast(limit: nat, gs: seq<seq<Entry>>, es: seq<Entry>, e: Entry)
    requires SplitOf(limit, gs, es) && gs != [] && Size(gs[|gs| - 1]) + EntrySize(e) <= limit
    ensures SplitOf(limit, gs[..|gs| - 1] + [gs[|gs| - 1] + [e]], es + [e])
  {
    var init, last := gs[..|gs| - 1], gs[|gs| - 1];
    JoinSnoc(init, last + [e]);
    SizeSnoc(last, e);
    Regroup(Join(init), last, [e]);
  }

  lemma Regroup(a: seq<Entry>, b: seq<Entry>, c: seq<Entry>)
    ensures a + b + c == a + (b + c)
  {
  }

  lemma NothingSplits(limit: nat)
    ensures SplitOf(limit, [], [])
  {
  }

  /** A group is only begun with an entry that does not fit the group before it. */
  lemma {:induction false} PackGreedy(limit: nat, es: seq<Entry>, i: nat)
    requires EntriesFit(limit, es) && i + 1 < |Pack(limit, es)|
    ensures var gs := Pack(limit, es); gs[i + 1] != [] && Size(gs[i]) + EntrySize(gs[i + 1][0]) > limit
  {
    var n := |es| - 1;
    var gs, all := Pack(limit, es[..n]), Pack(limit, es);
    PackSplits(limit, es[..n]);
    if i + 1 < |gs| {
      PackGreedy(limit, es[..n], i);
    }
  }

  /** Packing is lossless and respects the limit. */
  lemma {:induction false} PackSplits(limit: nat, es: seq<Entry>)
    requires EntriesFit(limit, es)
    ensures SplitOf(limit, Pack(limit, es), es)
  {
    hide Size, Join, EntrySize;
    NothingSplits(limit);
    if es != [] {
      var n := |es| - 1;
      var gs := Pack(limit, es[..n]);
      PackSplits(limit, es[..n]);
      assert es == es[..n] + [es[n]];
      if gs != [] && Size(gs[|gs| - 1]) + EntrySize(es[n]) <= limit {
        SplitByLast(limit, gs, es[..n], es[n]);
      } else {
        SplitByNew(limit, gs, es[..n], es[n]);
      }
    }
  }

  /** A split of entries without its very last entry is a split of the others. */
  lemma SplitInit(limit: nat, hs: seq<seq<Entry>>, es: seq<Entry>) returns (hs': seq<seq<Entry>>)
    requires es != [] && SplitOf(limit, hs, es)
    ensures hs != [] && SplitOf(limit, hs', es[..|es| - 1]) && hs[|hs| - 1] != []
    ensures var last := hs[|hs| - 1];
      if |last| == 1 then hs' == hs[..|hs| - 1] else hs' == hs[..|hs| - 1] + [last[..|last| - 1]]
  {
    var init, last := hs[..|hs| - 1], hs[|hs| - 1];
    assert es == Join(init) + last;
    if |last| == 1 {
      hs' := init;
      assert es[..|es| - 1] == Join(init);
    } else {
      var shorter := last[..|last| - 1];
      hs' := init + [shorter];
      JoinSnoc(init, shorter);
      assert es[..|es| - 1] == Join(init) + shorter;
    }
  }

  /** When the last greedy group is shorter than the last group of the other split, it has room for one more. */
  lemma LastHasRoom(limit: nat, gs: seq<seq<Entry>>, hs: seq<seq<Entry>>, es: seq<Entry>)
    requires es != [] && SplitOf(limit, gs, es[..|es| - 1]) && SplitOf(limit, hs, es) && gs != [] && hs != []
    requires |gs[|gs| - 1]| < |hs[|hs| - 1]|
    ensures Size(gs[|gs| - 1]) + EntrySize(es[|es| - 1]) <= limit
  {
    var mine, theirs, e := gs[|gs| - 1], hs[|hs| - 1], es[|es| - 1];
    assert es == Join(hs[..|hs| - 1]) + theirs && es[..|es| - 1] == Join(gs[..|gs| - 1]) + mine;
    assert es == es[..|es| - 1] + [e];
    var k := |mine| + 1;
    assert mine + [e] == es[|es| - k..] == theirs[|theirs| - k..];
    SizeSuffix(mine + [e], theirs);
    SizeSnoc(mine, e);
  }

  /** No split in order uses fewer groups, and among those that use as many none has a shorter last group. */
  lemma {:induction false} PackOptimal(limit: nat, es: seq<Entry>, hs: seq<seq<Entry>>)
    requires EntriesFit(limit, es) && SplitOf(limit, hs, es)
    ensures |Pack(limit, es)| <= |hs|
    ensures es != [] && |Pack(limit, es)| == |hs| ==> |Pack(limit, es)[|hs| - 1]| <= |hs[|hs| - 1]|
  {
    hide Size, Join, EntrySize, SplitOf;
    if es != [] {
      var n := |es| - 1;
      var gs := Pack(limit, es[..n]);
      var hs' := SplitInit(limit, hs, es);
      PackOptimal(limit, es[..n], hs');
      PackSplits(limit, es[..n]);
      if n > 0 && |gs| == |hs| {
        LastHasRoom(limit, gs, hs, es);
      }
    }
  }
}

module DirWriters {
  import opened Base
  import opened Chunks
  import opened Pool
  import opened Decode
  import opened Stories
  import opened Indirect
  import opened Heights
  import opened Capacity
  import opened IndirectWriters
  import opened Packing

  function GroupOid(hash: Hash, es: seq<Entry>): OID {
    hash("dir ", EntriesBytes(es))
  }

  function GroupOids(hash: Hash, gs: seq<seq<Entry>>): (oids: seq<OID>)
    ensures |oids| == |gs| && forall i :: 0 <= i < |gs| ==> oids[i] == GroupOid(hash, gs[i])
  {
    seq(|gs|, i requires 0 <= i < |gs| => GroupOid(hash, gs[i]))
  }

  ghost predicate GroupsIn(hash: Hash, store: map<OID, Content>, exact: bool, gs: seq<seq<Entry>>) {
    forall i {:trigger gs[i]} :: 0 <= i < |gs| ==>
      && GroupOid(hash, gs[i]) in store
      && (exact ==> store[GroupOid(hash, gs[i])] == Content("dir ", EntriesBytes(gs[i])))
  }

  ghost predicate Linked(store: map<OID, Content>, es: seq<Entry>) {
    forall i :: 0 <= i < |es| ==> es[i].oid in store
  }

  /** What `Finalize` returns for a list of entries. */
  ghost function DirRoot(f: Family, limit: nat, es: seq<Entry>): OID
    requires f.k >= 1 && (f.k >= 2 || |Pack(limit, es)| <= 1)
  {
    if es == [] then f.hash("null", []) else f.Root(0, GroupOids(f.hash, Pack(limit, es)))
  }

  /** An empty directory is an empty null chunk, one group its chunk, and up to k groups one indirect chunk of their
      identifiers. */
  lemma SmallDir(f: Family, limit: nat, es: seq<Entry>)
    requires f.k >= 2 && f.prefix == "dir" && |Pack(limit, es)| <= f.k && EntriesFit(limit, es)
    ensures var gs := Pack(limit, es);
      DirRoot(f, limit, es) ==
        if es == [] then f.hash("null", [])
        else if |gs| == 1 then f.hash("dir ", EntriesBytes(es))
        else f.hash("dir0", Flatten(GroupOids(f.hash, gs)))
  {
    hide Pack;
    if es != [] {
      var gs := Pack(limit, es);
      SmallRoot(f, GroupOids(f.hash, gs));
      if |gs| == 1 {
        PackSplits(limit, es);
        assert Join(gs) == Join(gs[..0]) + gs[0] == gs[0];
      }
      assert "dir" + "0" == "dir0";
    }
  }

  lemma GroupsSplit(hash: Hash, store: map<OID, Content>, gs: seq<seq<Entry>>)
    requires gs != [] && GroupsIn(hash, store, true, gs) && NamesFit(Join(gs))
    ensures var m := |gs| - 1; var init, last := gs[..m], gs[m];
      && Join(gs) == Join(init) + last && NamesFit(Join(init)) && NamesFit(last) && GroupsIn(hash, store, true, init)
      && GroupOid(hash, last) in store && store[GroupOid(hash, last)] == Content("dir ", EntriesBytes(last))
      && GroupOids(hash, gs) == GroupOids(hash, init) + [GroupOid(hash, last)]
  {
    hide EntriesBytes;
    var m := |gs| - 1;
    var init, last := gs[..m], gs[m];
    forall i | 0 <= i < |Join(init)| ensures |Join(init)[i].name| <= 0xFFFF { assert Join(gs)[i] == Join(init)[i]; }
    forall i | 0 <= i < |last| ensures |last[i].name| <= 0xFFFF { assert Join(gs)[|Join(init)| + i] == last[i]; }
    forall i | 0 <= i < |init| ensures init[i] == gs[i] { }
  }

  lemma {:induction false} GroupsStory(hash: Hash, r: Repo, gs: seq<seq<Entry>>)
    requires Closed(r) && GroupsIn(hash, r.store, true, gs) && NamesFit(Join(gs))
    ensures StoryAll(r, GroupOids(hash, gs)) == StoryEntries(r, Join(gs))
  {
    hide GroupOids, GroupOid, GroupsIn, NamesFit, EntriesBytes;
    if gs != [] {
      var m := |gs| - 1;
      var init, last := gs[..m], gs[m];
      GroupsSplit(hash, r.store, gs);
      GroupsStory(hash, r, init);
      StoryOfDir(r, GroupOid(hash, last), last);
      StoryAllAppend(r, GroupOids(hash, init), [GroupOid(hash, last)]);
      StoryAllOne(r, GroupOid(hash, last));
      StoryEntriesAppend(r, Join(init), last);
    }
  }

  /** A finished directory of at most k^3 chunks tells the stories of its entries, each under its name. */
  lemma DirRootStory(f: Family, r: Repo, limit: nat, es: seq<Entry>)
    requires f.k >= 2 && f.prefix == "dir" && Closed(r) && EntriesFit(limit, es) && NamesFit(es)
    requires GroupsIn(f.hash, r.store, true, Pack(limit, es)) && |Pack(limit, es)| <= Limit(f.k, "dir")
    requires Finalized(f, r.store, true, GroupOids(f.hash, Pack(limit, es)), DirRoot(f, limit, es))
    ensures Story(r, DirRoot(f, limit, es)) == StoryEntries(r, es)
  {
    var gs := Pack(limit, es);
    PackSplits(limit, es);
    if es == [] {
      StoryOfEmpty(r, DirRoot(f, limit, es));
    } else {
      BelowCapacity(f, r, GroupOids(f.hash, gs));
      GroupsStory(f.hash, r, gs);
    }
  }

  lemma LinkedGrows(s: map<OID, Content>, t: map<OID, Content>, es: seq<Entry>)
    requires SubMap(s, t) && Linked(s, es)
    ensures Linked(t, es)
  {
  }

  lemma StillThere(s: map<OID, Content>, t: map<OID, Content>, oid: OID)
    requires SubMap(s, t) && oid in s
    ensures oid in t && t[oid] == s[oid]
  {
  }

  lemma LinkedSnoc(store: map<OID, Content>, es: seq<Entry>, e: Entry)
    requires Linked(store, es) && e.oid in store
    ensures Linked(store, es + [e])
  {
  }

  lemma GroupsGrow(hash: Hash, s: map<OID, Content>, e: bool, t: map<OID, Content>, g: bool, gs: seq<seq<Entry>>)
    requires SubMap(s, t) && (g ==> e) && GroupsIn(hash, s, e, gs)
    ensures GroupsIn(hash, t, g, gs)
  {
  }

  /** The groups whose chunks are written while the last one is still in the buffer. */
  function Shipped(buffered: bool, gs: seq<seq<Entry>>): seq<seq<Entry>> {
    if buffered && gs != [] then gs[..|gs| - 1] else gs
  }

  /** The buffer and the leaves of the indirect writer, for the entries added so far. */
  ghost predicate Packed(hash: Hash, limit: nat, es: seq<Entry>, current: Bytes, leaves: seq<OID>, sealed: bool) {
    var gs := Pack(limit, es);
    && EntriesFit(limit, es) && NamesFit(es)
    && leaves == GroupOids(hash, Shipped(current != [], gs))
    && (current != [] ==> gs != [] && current == EntriesBytes(gs[|gs| - 1]))
    && (!sealed && current == [] ==> es == [])
  }

  lemma EntryParts(name: Bytes, child: OID)
    ensures EntryBytes(Entry(name, child)) == BE16(|name|) + name + child
    ensures EntrySize(Entry(name, child)) == 2 + |name| + OID_LEN
  {
  }

  lemma EmptyBefore(b: Bytes)
    ensures [] + b == b
  {
  }

  lemma BufferedGroup(limit: nat, es: seq<Entry>)
    requires es != [] && EntriesFit(limit, es)
    ensures var gs := Pack(limit, es); gs != [] && gs[|gs| - 1] != []
    ensures var g := Pack(limit, es)[|Pack(limit, es)| - 1];
      |EntriesBytes(g)| == Size(g) <= limit && EntriesBytes(g) != [] && forall e :: e in g ==> e in es
  {
    PackSplits(limit, es);
    var gs := Pack(limit, es);
    var g := gs[|gs| - 1];
    SizeIsLength(g);
    assert Join(gs) == Join(gs[..|gs| - 1]) + g;
    assert g == g[..|g| - 1] + [g[|g| - 1]];
    SizeSnoc(g[..|g| - 1], g[|g| - 1]);
  }

  lemma FitSnoc(limit: nat, es: seq<Entry>, e: Entry)
    requires EntriesFit(limit, es) && NamesFit(es) && EntrySize(e) <= limit && |e.name| <= 0xFFFF
    ensures EntriesFit(limit, es + [e]) && NamesFit(es + [e]) && (es + [e])[..|es|] == es
  {
  }

  lemma FirstEntry(hash: Hash, limit: nat, e: Entry)
    requires EntrySize(e) <= limit && |e.name| <= 0xFFFF
    ensures Packed(hash, limit, [e], EntryBytes(e), [], false) && Shipped(true, Pack(limit, [e])) == []
  {
    assert [e][..0] == [] && Pack(limit, [e]) == [] + [[e]] == [[e]];
    assert EntriesBytes([e]) == EntryBytes(e) + [] == EntryBytes(e);
    assert Shipped(true, [[e]]) == [];
  }

  lemma EntryJoins(hash: Hash, limit: nat, es: seq<Entry>, e: Entry, current: Bytes, leaves: seq<OID>)
    requires Packed(hash, limit, es, current, leaves, false) && current != [] && |e.name| <= 0xFFFF
    requires |current| + EntrySize(e) <= limit
    ensures Packed(hash, limit, es + [e], current + EntryBytes(e), leaves, false)
    ensures Shipped(true, Pack(limit, es + [e])) == Shipped(true, Pack(limit, es))
  {
    var gs := Pack(limit, es);
    var m := |gs| - 1;
    FitSnoc(limit, es, e);
    BufferedGroup(limit, es);
    EntriesBytesSnoc(gs[m], e);
    var all := gs[..m] + [gs[m] + [e]];
    assert Pack(limit, es + [e]) == all;
    assert Shipped(true, all) == gs[..m];
  }

  lemma EntryStarts(hash: Hash, limit: nat, es: seq<Entry>, e: Entry, current: Bytes, leaves: seq<OID>)
    requires Packed(hash, limit, es, current, leaves, false) && current != [] && |e.name| <= 0xFFFF
    requires EntrySize(e) <= limit < |current| + EntrySize(e)
    ensures Packed(hash, limit, es + [e], EntryBytes(e), GroupOids(hash, Pack(limit, es)), false)
    ensures Shipped(true, Pack(limit, es + [e])) == Pack(limit, es)
  {
    var gs := Pack(limit, es);
    FitSnoc(limit, es, e);
    BufferedGroup(limit, es);
    assert EntriesBytes([e]) == EntryBytes(e) + [] == EntryBytes(e);
    assert Pack(limit, es + [e]) == gs + [[e]];
    assert Shipped(true, gs + [[e]]) == gs;
  }

  /** One more entry: packed behind the buffer when it fits, else as the start of a new group. */
  lemma PackedAdd(hash: Hash, limit: nat, es: seq<Entry>, e: Entry, current: Bytes, leaves: seq<OID>)
    requires Packed(hash, limit, es, current, leaves, false)
    requires EntrySize(e) <= limit && |e.name| <= 0xFFFF
    ensures |current| + EntrySize(e) <= limit ==> Packed(hash, limit, es + [e], current + EntryBytes(e), leaves, false)
    ensures |current| + EntrySize(e) > limit ==>
      current != [] && Packed(hash, limit, es + [e], EntryBytes(e), GroupOids(hash, Pack(limit, es)), false)
    ensures Shipped(true, Pack(limit, es + [e]))
         == if |current| + EntrySize(e) <= limit then Shipped(current != [], Pack(limit, es)) else Pack(limit, es)
  {
    if current == [] {
      FirstEntry(hash, limit, e);
      assert leaves == [] && es + [e] == [e] && current + EntryBytes(e) == EntryBytes(e);
    } else if |current| + EntrySize(e) <= limit {
      EntryJoins(hash, limit, es, e, current, leaves);
    } else {
      EntryStarts(hash, limit, es, e, current, leaves);
    }
  }

  class DirWriter {
    const pool: SqlPool
    const hash: Hash
    const limit: nat
    const ind: IndirectWriter

    var current: Bytes

    ghost var entries: seq<Entry>   // the entries added
    ghost var sealed: bool          // Finalize was called

    ghost predicate Valid()
      reads this, ind
    {
      && ind.Valid() && ind.pool == pool && ind.hash == hash && ind.prefix == "dir"
      && limit < UINT32 && ind.Shape().k == limit / OID_LEN
      && Packed(hash, limit, entries, current, ind.leaves, sealed)
      && (!sealed || current != [] ==> ind.done == 0)
    }

    /** The pool holds the chunks written, and the children of the entries in the buffer. */
    ghost predicate Kept()
      reads this, ind, pool
      requires Valid() && pool.Valid()
    {
      KeptWith(pool.View().store, !pool.clash)
    }

    ghost predicate KeptWith(store: map<OID, Content>, exact: bool)
      reads this, ind
      requires Valid()
    {
      && KeptIn(ind.Shape(), store, exact, ind.done, ind.leaves)
      && GroupsIn(hash, store, exact, Shipped(current != [], Pack(limit, entries)))
      && Linked(store, entries)
    }

    lemma KeptWithGrows(s: map<OID, Content>, e: bool, t: map<OID, Content>, g: bool)
      requires Valid() && SubMap(s, t) && (g ==> e) && KeptWith(s, e)
      ensures KeptWith(t, g)
    {
      KeptGrows(ind.Shape(), s, e, t, g, ind.done, ind.leaves);
      GroupsGrow(hash, s, e, t, g, Shipped(current != [], Pack(limit, entries)));
      LinkedGrows(s, t, entries);
    }

    /** `NewDirWriter`. */
    constructor (pool: SqlPool, hash: Hash, limit: nat)
      requires pool.Valid() && OID_LEN <= limit < UINT32
      ensures this.pool == pool && this.hash == hash && this.limit == limit && pool.Valid() && fresh(ind)
      ensures Valid() && entries == [] && !sealed && Kept()
    {
      this.pool, this.hash, this.limit := pool, hash, limit;
      ind := new IndirectWriter(pool, hash, "dir", limit);
      current, entries, sealed := [], [], false;
    }

    /** Inserts the buffer as a directory chunk. */
    method WriteGroup() returns (ok: bool, oid: OID)
      requires Valid() && pool.Valid() && Closed(pool.View()) && Kept() && current != []
      modifies pool
      ensures Valid() && pool.Valid() && Closed(pool.View()) && Kept() && Grew(old(pool.Snap()), pool.Snap())
      ensures ok ==> LastGroupIn(hash, pool.View().store, !pool.clash, Pack(limit, entries)) && oid in pool.View().store
      ensures !ok ==> Excused(old(pool.Snap()), pool.Snap())
      ensures oid == GroupOid(hash, Pack(limit, entries)[|Pack(limit, entries)| - 1])
    {
      hide SqlPool.Valid, Closed, Grew, SubMap, KeptIn, Buffers;
      hide Pack, GroupsIn, GroupOids, EntriesBytes, Linked, Size,
        IndirectWriter.Valid, Shipped, Refs, HandlerOf;
      ghost var gs, s := Pack(limit, entries), pool.Snap();
      WriterShape(ind);
      ghost var group := gs[|gs| - 1];
      BufferedGroup(limit, entries);
      var ch := NewChunk(hash, "dir ", current);
      oid := ch.value.oid;
      GroupClosed(s.view, oid, group, entries);
      assert ch.value.Meaning(pool.z) == Content("dir ", current);
      ok := pool.Insert(ch.value);
      GrewStore(s, pool.Snap());
      LinkedGrows(s.view.store, pool.View().store, entries);
      GroupsGrow(hash, s.view.store, !s.clash, pool.View().store, !pool.clash, Shipped(true, gs));
      KeptGrows(ind.Shape(), s.view.store, !s.clash, pool.View().store, !pool.clash, ind.done, ind.leaves);
    }

    /** The end of `ship`: the indirect writer takes the chunk, and only then the buffer is emptied. */
    method HandOver(oid: OID) returns (st: Status)
      requires Valid() && pool.Valid() && Closed(pool.View()) && Kept() && current != []
      requires LastGroupIn(hash, pool.View().store, !pool.clash, Pack(limit, entries))
      requires oid == GroupOid(hash, Pack(limit, entries)[|Pack(limit, entries)| - 1]) && oid in pool.View().store
      modifies `current, ind, pool
      ensures pool.Valid() && Closed(pool.View()) && Grew(old(pool.Snap()), pool.Snap())
      ensures ind.Valid() && ind.Kept() && ind.done == old(ind.done) && Linked(pool.View().store, entries)
      ensures !st.Done? ==> Valid() && Kept()
      ensures st.Done? ==>
        && current == [] && ind.leaves == GroupOids(hash, Pack(limit, entries))
        && GroupsIn(hash, pool.View().store, !pool.clash, Pack(limit, entries))
      ensures !st.Done? ==> current == old(current) && ind.leaves == old(ind.leaves) && ind.tree == old(ind.tree)
      ensures st.PoolError? ==> Excused(old(pool.Snap()), pool.Snap())
      ensures st.Panicked? ==> |Pack(limit, entries)| > Pow(ind.Shape().k, 10)
    {
      hide SqlPool.Valid, Closed, Grew, SubMap, KeptIn, Buffers, Pack;
      hide GroupsIn, GroupOids, Linked, EntriesBytes, EntriesFit, NamesFit,
        IndirectWriter.Valid, Excused, Packed, Shipped, LastGroupIn, Pow;
      WriterShape(ind);
      ghost var gs, t := Pack(limit, entries), pool.Snap();
      BufferedLeaves(hash, limit, entries, current, ind.leaves, sealed);
      OidsLength(hash, gs[..|gs| - 1]);
      ghost var leaves := ind.leaves;
      st := ind.Add(oid);
      GrewStore(t, pool.Snap());
      LinkedGrows(t.view.store, pool.View().store, entries);
      GroupsGrow(hash, t.view.store, !t.clash, pool.View().store, !pool.clash, Shipped(true, gs));
      GroupsLast(hash, t.view.store, !t.clash, pool.View().store, !pool.clash, gs);
      if !st.Done? {
        assert ind.leaves == leaves;
        return;
      }
      GroupsSnoc(hash, pool.View().store, !pool.clash, gs);
      current := [];
    }

    /** `ship`: write the buffer as a chunk and hand it to the indirect writer. */
    method Ship() returns (st: Status)
      requires Valid() && pool.Valid() && Closed(pool.View()) && Kept()
      modifies `current, ind, pool
      ensures pool.Valid() && Closed(pool.View()) && Grew(old(pool.Snap()), pool.Snap())
      ensures ind.Valid() && ind.Kept() && ind.done == old(ind.done) && Linked(pool.View().store, entries)
      ensures !st.Done? ==> Valid() && Kept()
      ensures st.Done? ==>
        && current == [] && ind.leaves == GroupOids(hash, Pack(limit, entries))
        && GroupsIn(hash, pool.View().store, !pool.clash, Pack(limit, entries))
      ensures !st.Done? ==> current == old(current) && ind.leaves == old(ind.leaves) && ind.tree == old(ind.tree)
      ensures st.PoolError? ==> Excused(old(pool.Snap()), pool.Snap())
      ensures st.Panicked? ==> |Pack(limit, entries)| > Pow(ind.Shape().k, 10)
    {
      hide SqlPool.Valid, Closed, Grew, SubMap, KeptIn, Buffers, Pack;
      hide GroupsIn, GroupOids, Linked, EntriesBytes, EntriesFit, NamesFit,
        IndirectWriter.Valid, Excused, LastGroupIn, Pow;
      ghost var s := pool.Snap();
      GrewSelf(s);
      if current == [] {
        return Done;
      }
      var ok, oid := WriteGroup();
      ghost var t := pool.Snap();
      if !ok {
        return PoolError;
      }
      st := HandOver(oid);
      GrewTransitive(s, t, pool.Snap());
      if st.PoolError? {
        ExcusedAlong(s, t, pool.Snap());
      }
    }

    /** `Add`: all or nothing; the entry is packed greedily. */
    method Add(name: Bytes, child: OID) returns (st: Status)
      requires Valid() && pool.Valid() && Closed(pool.View()) && Kept() && !sealed
      requires EntrySize(Entry(name, child)) <= limit && |name| <= 0xFFFF && child in pool.View().store
      modifies this, ind, pool
      ensures Valid() && pool.Valid() && Closed(pool.View()) && Kept() && Grew(old(pool.Snap()), pool.Snap())
      ensures !sealed && entries == old(entries) + if st.Done? then [Entry(name, child)] else []
      ensures !st.Done? ==> current == old(current) && ind.tree == old(ind.tree)
      ensures st.PoolError? ==> Excused(old(pool.Snap()), pool.Snap())
      ensures st.Panicked? ==> |Pack(limit, entries)| > Pow(ind.Shape().k, 10)
    {
      hide SqlPool.Valid, Closed, Grew, SubMap, KeptIn, Buffers, Pack, GroupsIn, GroupOids, Packed, Shipped, Linked,
        IndirectWriter.Valid, EntriesFit, NamesFit, Pow, Excused, EntryBytes, EntrySize, BE16;
      WriterShape(ind);
      EntryParts(name, child);
      ghost var e, s := Entry(name, child), pool.Snap();
      GrewSelf(s);
      PackedAdd(hash, limit, entries, e, current, ind.leaves);
      var myLen := 2 + |name| + OID_LEN;
      if |current| + myLen > limit {
        st := Ship();
        if !st.Done? {
          return;
        }
      }
      GrewStore(s, pool.Snap());
      StillThere(s.view.store, pool.View().store, child);
      LinkedSnoc(pool.View().store, entries, e);
      EmptyBefore(EntryBytes(e));
      Append(name, child);
      st := Done;
    }

    /** The bytes of the entry join the buffer. */
    method Append(name: Bytes, child: OID)
      requires ind.Valid() && ind.pool == pool && ind.hash == hash && ind.prefix == "dir" && pool.Valid()
      requires limit < UINT32 && ind.Shape().k == limit / OID_LEN && ind.done == 0 && ind.Kept() && !sealed
      requires var es, b := entries + [Entry(name, child)], EntryBytes(Entry(name, child));
        && Packed(hash, limit, es, current + b, ind.leaves, false)
        && GroupsIn(hash, pool.View().store, !pool.clash, Shipped(true, Pack(limit, es)))
        && Linked(pool.View().store, es)
      modifies `current, `entries
      ensures Valid() && Kept() && entries == old(entries) + [Entry(name, child)]
    {
      hide SqlPool.Valid, KeptIn, Pack, GroupsIn, GroupOids, Packed, Shipped, Linked, IndirectWriter.Valid, EntryBytes;
      EntryParts(name, child);
      ghost var e := Entry(name, child);
      current := current + (BE16(|name|) + name + child);
      entries := entries + [e];
    }

    /** `Finalize`. Up to k^3 directory chunks, walking the root tells exactly the entries added, in order. */
    method Finalize() returns (st: Status, root: OID)
      requires Valid() && pool.Valid() && Closed(pool.View()) && Kept()
      requires ind.Shape().k >= 2 || |Pack(limit, entries)| <= 1
      modifies this, ind, pool
      ensures Valid() && pool.Valid() && Closed(pool.View()) && Kept() && Grew(old(pool.Snap()), pool.Snap())
      ensures entries == old(entries) && sealed
      ensures st.Done? ==> root == DirRoot(ind.Shape(), limit, entries) && root in pool.View().store
      ensures st.Done? && !pool.clash && ind.Shape().k >= 2 && |Pack(limit, entries)| <= Limit(ind.Shape().k, "dir") ==>
        Story(pool.View(), root) == StoryEntries(pool.View(), entries)
      ensures st.PoolError? ==> Excused(old(pool.Snap()), pool.Snap())
      ensures st.Panicked? ==> |Pack(limit, entries)| > Pow(ind.Shape().k, 10)
    {
      hide SqlPool.Valid, Closed, Grew, SubMap, KeptIn, Buffers, Pack;
      hide GroupsIn, GroupOids, Finalized, Family.Root, Excused, Pow;
      ghost var gs, s, f := Pack(limit, entries), pool.Snap(), ind.Shape();
      root := hash("null", []);
      sealed := true;
      st := Ship();
      if !st.Done? {
        return;
      }
      ghost var t := pool.Snap();
      st, root := ind.Finalize();
      GrewTransitive(s, t, pool.Snap());
      if st.PoolError? {
        ExcusedAlong(s, t, pool.Snap());
      }
      GrewStore(t, pool.Snap());
      LinkedGrows(t.view.store, pool.View().store, entries);
      GroupsGrow(hash, t.view.store, !t.clash, pool.View().store, !pool.clash, gs);
      if st.Done? {
        RootIsDirRoot(f, pool.View().store, !pool.clash, limit, entries, root);
        if !pool.clash && f.k >= 2 && |gs| <= Limit(f.k, "dir") {
          DirRootStory(f, pool.View(), limit, entries);
        }
      }
    }
  }

  lemma RootIsDirRoot(f: Family, store: map<OID, Content>, exact: bool, limit: nat, es: seq<Entry>, root: OID)
    requires f.k >= 1 && (f.k >= 2 || |Pack(limit, es)| <= 1)
    requires Finalized(f, store, exact, GroupOids(f.hash, Pack(limit, es)), root)
    ensures root == DirRoot(f, limit, es) && root in store
  {
  }

  lemma GroupClosed(r: Repo, oid: OID, group: seq<Entry>, es: seq<Entry>)
    requires Closed(r) && Linked(r.store, es) && NamesFit(es) && forall e :: e in group ==> e in es
    ensures NamesFit(group)
    ensures var s := Put(r, oid, Content("dir ", EntriesBytes(group))); Closed(s) && Extends(r, s) && oid in s.store
  {
    hide HandlerOf, EntriesBytes, DirRefs, Extends;
    KnownKinds();
    forall i | 0 <= i < |group| ensures |group[i].name| <= 0xFFFF && group[i].oid in r.store {
      assert group[i] in group;
    }
    DirRefsOfEntries(group);
    PutClosed(r, oid, Content("dir ", EntriesBytes(group)));
  }

  ghost predicate LastGroupIn(hash: Hash, store: map<OID, Content>, exact: bool, gs: seq<seq<Entry>>)
    requires gs != []
  {
    && GroupOid(hash, gs[|gs| - 1]) in store
    && (exact ==> store[GroupOid(hash, gs[|gs| - 1])] == Content("dir ", EntriesBytes(gs[|gs| - 1])))
  }

  lemma GroupsLast(hash: Hash, s: map<OID, Content>, e: bool, t: map<OID, Content>, g: bool, gs: seq<seq<Entry>>)
    requires SubMap(s, t) && (g ==> e) && gs != [] && LastGroupIn(hash, s, e, gs)
    ensures LastGroupIn(hash, t, g, gs)
  {
  }

  lemma OidsLength(hash: Hash, gs: seq<seq<Entry>>)
    ensures |GroupOids(hash, gs)| == |gs|
  {
  }

  lemma GroupWriter(w: DirWriter)
    requires w.Valid()
    ensures w.ind.Shape().k == w.limit / OID_LEN
  {
  }

  /** While the buffer holds the last group, the leaves are the chunks of the others. */
  lemma BufferedLeaves(hash: Hash, limit: nat, es: seq<Entry>, current: Bytes, leaves: seq<OID>, sealed: bool)
    requires Packed(hash, limit, es, current, leaves, sealed) && current != []
    ensures var gs := Pack(limit, es);
      gs != [] && Shipped(true, gs) == gs[..|gs| - 1] && leaves == GroupOids(hash, Shipped(true, gs))
  {
    hide Pack, GroupOids;
  }

  lemma GroupsSnoc(hash: Hash, store: map<OID, Content>, exact: bool, gs: seq<seq<Entry>>)
    requires gs != [] && GroupsIn(hash, store, exact, gs[..|gs| - 1]) && LastGroupIn(hash, store, exact, gs)
    ensures GroupsIn(hash, store, exact, gs)
    ensures GroupOids(hash, gs) == GroupOids(hash, gs[..|gs| - 1]) + [GroupOid(hash, gs[|gs| - 1])]
  {
    forall i | 0 <= i < |gs| - 1 ensures gs[..|gs| - 1][i] == gs[i] { }
  }
}
