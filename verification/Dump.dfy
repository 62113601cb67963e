/** Backups with the ctime cache (src/godump/dump/dump.go). */
module Dumps {
  import opened Base
  import opened Text
  import opened Chunks
  import opened Pool
  import opened Props
  import opened Decode
  import opened Stories
  import opened Packing
  import opened Capacity
  import opened DirWriters
  import opened Files
  import opened Caches
  import opened Trees
  import opened Telling
  import opened Memories

  /** What files contain: a function of directory, inode and ctime, of which the cache keeps 64 bits of nanoseconds, so
      that contents only change with the ctime, and not between two ctimes exactly 2^64 ns apart. Contents are given as
      the pieces that reading returns; with `cut`, the hash of a pool, the division into pieces is a function of the
      ctime as well, and without it only the bytes are. */
  datatype Truth = Truth(files: (DirKey, nat, int) -> seq<Bytes>, cut: Option<Hash>) {
    ghost predicate Same(pieces: seq<Bytes>, key: DirKey, ino: nat, ctime: int) {
      Concat(pieces) == Concat(files(key, ino, ctime)) && (cut.Some? ==> pieces == files(key, ino, ctime))
    }

    ghost function Links(): Fit {
      LinksOf(cut)
    }
  }

  /** Whether an identifier is the one that storing the file returns. */
  ghost function LinksOf(cut: Option<Hash>): Fit {
    (id: OID, c: Tree) => cut.Some? && c.Reg? ==> id == FileRoot(cut.value, c.pieces)
  }

  // ---- what cached identifiers stand for ---------------------------------------------------

  ghost predicate FileTrue(r: Repo, exact: bool, truth: Truth, key: DirKey, ino: nat, ctime: int, oid: OID)
    requires Closed(r)
  {
    oid in r.store && (exact ==> FileExact(r, truth, key, ino, ctime, oid))
  }

  ghost predicate FileExact(r: Repo, truth: Truth, key: DirKey, ino: nat, ctime: int, oid: OID)
    requires Closed(r) && oid in r.store
  {
    && BlobData(Story(r, oid)) == Some(Concat(truth.files(key, ino, ctime)))
    && (truth.cut.Some? ==> oid == FileRoot(truth.cut.value, truth.files(key, ino, ctime)))
  }

  /** Every cached identifier is in the pool and reads back as the file it is cached for. */
  ghost predicate CacheTrue(t: Tables, r: Repo, exact: bool, truth: Truth)
    requires Closed(r)
  {
    forall row :: row in t.ctimeCache ==>
      && row.pkey in t.ctimeDirs && IsInt64(row.ctime) && IsInt64(row.expire)
      && FileTrue(r, exact, truth, t.ctimeDirs[row.pkey], row.ino, row.ctime, row.oid)
  }

  ghost predicate InfosTrue(files: map<nat, FileInfo>, r: Repo, exact: bool, truth: Truth, key: DirKey)
    requires Closed(r)
  {
    forall i :: i in files ==>
      files[i].ino == i && FileTrue(r, exact, truth, key, i, UnixNano(files[i].ctime), files[i].data)
  }

  /** The files of a tree are what the truth says, for the directories a backup reads. */
  ghost predicate TreeTrue(t: Tree, truth: Truth, fsid: nat, dev: nat) {
    t.Dir? && t.st.dev == dev ==>
      forall i :: 0 <= i < |t.kids| ==>
        var c := t.kids[i].node;
        && (c.Reg? ==> truth.Same(c.pieces, DirKey(fsid, t.st.ino), c.st.ino, UnixNano(c.st.ctime.Nanos())))
        && TreeTrue(c, truth, fsid, dev)
  }

  lemma FileTrueGrows(r: Repo, e: bool, s: Repo, g: bool, truth: Truth, key: DirKey, ino: nat, ctime: int, oid: OID)
    requires Closed(r) && Closed(s) && Extends(r, s) && (g ==> e) && FileTrue(r, e, truth, key, ino, ctime, oid)
    ensures FileTrue(s, g, truth, key, ino, ctime, oid)
  {
    hide Story, BlobData;
    StoryStable(r, s, oid);
  }

  lemma CacheTrueGrows(t: Tables, r: Repo, e: bool, s: Repo, g: bool, truth: Truth)
    requires Closed(r) && Closed(s) && Extends(r, s) && (g ==> e) && CacheTrue(t, r, e, truth)
    ensures CacheTrue(t, s, g, truth)
  {
    hide FileTrue, Extends, Closed;
    forall row | row in t.ctimeCache
      ensures FileTrue(s, g, truth, t.ctimeDirs[row.pkey], row.ino, row.ctime, row.oid)
    {
      FileTrueGrows(r, e, s, g, truth, t.ctimeDirs[row.pkey], row.ino, row.ctime, row.oid);
    }
  }

  lemma InfosTrueGrows(files: map<nat, FileInfo>, r: Repo, e: bool, s: Repo, g: bool, truth: Truth, key: DirKey)
    requires Closed(r) && Closed(s) && Extends(r, s) && (g ==> e) && InfosTrue(files, r, e, truth, key)
    ensures InfosTrue(files, s, g, truth, key)
  {
    hide FileTrue, Extends, Closed;
    forall i | i in files ensures FileTrue(s, g, truth, key, i, UnixNano(files[i].ctime), files[i].data) {
      FileTrueGrows(r, e, s, g, truth, key, i, UnixNano(files[i].ctime), files[i].data);
    }
  }

  /** What `GetDir` returns is true when the cache is. */
  lemma EntriesTrue(t: Tables, r: Repo, exact: bool, truth: Truth, key: DirKey, base: int, di: DirInfo)
    requires Closed(r) && CacheTrue(t, r, exact, truth) && WellKeyed(di) && di.files.Values == Entries(t, key, base)
    ensures InfosTrue(di.files, r, exact, truth, key)
  {
    hide FileTrue, Closed;
    forall i | i in di.files
      ensures FileTrue(r, exact, truth, key, i, UnixNano(di.files[i].ctime), di.files[i].data)
    {
      assert di.files[i] in Entries(t, key, base);
      var row :| row in DirRows(t, key) && row.expire >= base && di.files[i] == InfoOf(row);
    }
  }

  /** Updating a directory with true entries, even when it fails half way, keeps the cache true. */
  lemma PartlyTrue(t: Tables, u: Tables, key: DirKey, files: map<nat, FileInfo>, r: Repo, exact: bool, truth: Truth)
    requires Closed(r) && CacheTrue(t, r, exact, truth) && InfosTrue(files, r, exact, truth, key)
    requires Partly(t, u, key, files)
    ensures CacheTrue(u, r, exact, truth)
  {
    hide FileTrue, Closed;
    forall row | row in u.ctimeCache
      ensures row.pkey in u.ctimeDirs && IsInt64(row.ctime) && IsInt64(row.expire)
      ensures FileTrue(r, exact, truth, u.ctimeDirs[row.pkey], row.ino, row.ctime, row.oid)
    {
      assert OldOrNew(t, u, key, files, row);
      if !(row in t.ctimeCache && row.pkey in t.ctimeDirs && u.ctimeDirs[row.pkey] == t.ctimeDirs[row.pkey]) {
        var i :| i in files && row == RowFor(row.pkey, files[i]);
      }
    }
  }

  lemma PartlySame(t: Tables, u: Tables, key: DirKey, files: map<nat, FileInfo>)
    requires Partly(t, u, key, files)
    ensures u.filesystems == t.filesystems
  {
  }

  lemma SubTrue(t: Tables, u: Tables, r: Repo, exact: bool, truth: Truth)
    requires Closed(r) && CacheTrue(t, r, exact, truth) && u.ctimeCache <= t.ctimeCache
    requires forall row :: row in u.ctimeCache ==>
      row.pkey in u.ctimeDirs && row.pkey in t.ctimeDirs && u.ctimeDirs[row.pkey] == t.ctimeDirs[row.pkey]
    ensures CacheTrue(u, r, exact, truth)
  {
  }

  lemma OneInfoTrue(files: map<nat, FileInfo>, r: Repo, exact: bool, truth: Truth, key: DirKey, fi: FileInfo)
    requires Closed(r) && InfosTrue(files, r, exact, truth, key)
    requires FileTrue(r, exact, truth, key, fi.ino, UnixNano(fi.ctime), fi.data)
    ensures InfosTrue(files[fi.ino := fi], r, exact, truth, key)
  {
  }

  // ---- cached entries ----------------------------------------------------------------------

  /** The files of a directory are what the truth says. */
  ghost predicate PlaceTrue(d: Place, truth: Truth, fsid: nat) {
    forall i :: 0 <= i < |d.kids| && d.kids[i].node.Reg? ==>
      var c := d.kids[i].node;
      truth.Same(c.pieces, DirKey(fsid, d.ino), c.st.ino, UnixNano(c.st.ctime.Nanos()))
  }

  lemma {:induction false} PlacesTrue(t: Tree, truth: Truth, fsid: nat, dev: nat, d: Place)
    requires TreeTrue(t, truth, fsid, dev) && d in Left(Visible(t, dev))
    ensures PlaceTrue(d, truth, fsid)
    decreases t
  {
    if t.st.dev == dev {
      var vis := VisibleKids(t.kids, dev);
      if d in LeftKids(vis) {
        var i := LeftAmong(vis, d);
        PlacesTrue(t.kids[i].node, truth, fsid, dev, d);
      } else {
        assert d == Place(t.st.ino, vis);
      }
    } else {
      assert LeftKids([]) == [];
    }
  }

  lemma {:induction false} LeftAmong(kids: seq<Child>, d: Place) returns (i: nat)
    requires d in LeftKids(kids)
    ensures i < |kids| && d in Left(kids[i].node)
  {
    if d in Left(kids[0].node) {
      return 0;
    }
    i := LeftAmong(kids[1..], d);
    i := i + 1;
  }

  /** Entries for the files of a directory in a true cache are right for their bytes. */
  lemma EntriesRead(u: Tables, r: Repo, truth: Truth, fsid: nat, base: int, d: Place)
    requires Closed(r) && CacheTrue(u, r, true, truth) && PlaceTrue(d, truth, fsid)
    requires Matches(Entries(u, DirKey(fsid, d.ino), base), d.kids, ANY)
    ensures Matches(Entries(u, DirKey(fsid, d.ino), base), d.kids, Reads(r))
  {
    hide Closed, BlobData, Story, UnixNano;
    var key := DirKey(fsid, d.ino);
    forall fi | fi in Entries(u, key, base) ensures RightForSome(fi, d.kids, Reads(r)) {
      var row :| row in DirRows(u, key) && row.expire >= base && fi == InfoOf(row);
      var j :| 0 <= j < |d.kids| && Right(fi, d.kids[j].node, ANY);
      assert FileTrue(r, true, truth, key, row.ino, row.ctime, row.oid);
      assert Right(fi, d.kids[j].node, Reads(r));
    }
  }

  /** What a backup leaves in a true cache can be read back. */
  lemma DecidedReads(t: Tables, u: Tables, r: Repo, truth: Truth, fsid: nat, base: int, tree: Tree, dev: nat)
    requires Closed(r) && CacheTrue(u, r, true, truth) && TreeTrue(tree, truth, fsid, dev)
    requires Decided(t, u, fsid, base, Left(Visible(tree, dev)), ANY)
    ensures Decided(t, u, fsid, base, Left(Visible(tree, dev)), Reads(r))
  {
    hide Closed, CacheTrue, TreeTrue, Matches, Entries, Infos, Left, Visible, LastOf, PlaceTrue;
    var dirs := Left(Visible(tree, dev));
    forall key: DirKey ensures DecidedAt(t, u, fsid, base, dirs, Reads(r), key) {
      assert DecidedAt(t, u, fsid, base, dirs, ANY, key);
      if Deciding(dirs, fsid, key).Some? {
        LastOfIn(dirs, key.pino);
        var d := LastOf(dirs, key.pino).value;
        PlacesTrue(tree, truth, fsid, dev, d);
        EntriesRead(u, r, truth, fsid, base, d);
      }
    }
  }

  /** A cached entry for the same inode and ctime. */
  predicate Hit(c: Tree, files: map<nat, FileInfo>) {
    c.st.ino in files && files[c.st.ino].ctime == c.st.ctime.Nanos()
  }

  lemma RightOfFact(fi: FileInfo, kids: seq<Child>, fit: Fit)
    requires RightForSome(fi, kids, fit)
    ensures exists f :: f in Facts(kids) && f.ino == fi.ino && f.ctime == fi.ctime
  {
    hide UnixNano;
    var j :| 0 <= j < |kids| && Right(fi, kids[j].node, fit);
    assert FactOf(kids[j].node) in Facts(kids);
  }

  lemma InoOfFact(es: set<FileInfo>, kids: seq<Child>, fit: Fit, f: FileFact)
    requires Matches(es, kids, fit) && f in Facts(kids)
    ensures HasIno(es, f.ino)
  {
    hide RightForSome, HasIno, UnixNano;
  }

  /** Entries that match a directory hit every file of a directory with the same files, as long as its ctime fits. */
  lemma MatchesHit(di: DirInfo, es: set<FileInfo>, kids: seq<Child>, fit: Fit, now: seq<Child>, j: nat)
    requires Matches(es, kids, fit) && WellKeyed(di) && di.files.Values == es
    requires Facts(now) == Facts(kids) && Coherent(now)
    requires j < |now| && now[j].node.Reg? && IsInt64(now[j].node.st.ctime.Nanos())
    ensures Hit(now[j].node, di.files)
  {
    hide RightForSome, Facts;
    var f := FactOf(now[j].node);
    FactThere(now, j);
    InoOfFact(es, kids, fit, f);
    var fi :| fi in es && fi.ino == f.ino;
    var i :| i in di.files && di.files[i] == fi;
    RightOfFact(fi, kids, fit);
    var g :| g in Facts(kids) && g.ino == fi.ino && g.ctime == fi.ctime;
    assert g == f;
    UnixNanoExact(now[j].node.st.ctime.Nanos());
  }

  lemma FactThere(kids: seq<Child>, j: nat)
    requires j < |kids| && kids[j].node.Reg?
    ensures FactOf(kids[j].node) in Facts(kids)
  {
  }

  /** The cache is effective: when the files of a directory are those of the directory with its number that a walk left
      last, and none of its entries has expired, the next backup takes all of them with ctimes of 64 bits from the
      cache. */
  lemma NextHits(t: Tables, u: Tables, fsid: nat, base: int, dirs: seq<Place>, fit: Fit, d: Place, now: seq<Child>,
                 at: int, di: DirInfo)
    requires Decided(t, u, fsid, base, dirs, fit) && LastOf(dirs, d.ino) == Some(d)
    requires Facts(now) == Facts(d.kids) && Coherent(now)
    requires var key := DirKey(fsid, d.ino);
      Entries(u, key, at) == Entries(u, key, base) && WellKeyed(di) && di.files.Values == Entries(u, key, at)
    ensures forall j :: 0 <= j < |now| && now[j].node.Reg? && IsInt64(now[j].node.st.ctime.Nanos()) ==>
      Hit(now[j].node, di.files)
  {
    hide Entries, Infos, Matches, Facts, Coherent, LastOf, WellKeyed, Hit;
    assert DecidedAt(t, u, fsid, base, dirs, fit, DirKey(fsid, d.ino));
    forall j: int | 0 <= j < |now| && now[j].node.Reg? && IsInt64(now[j].node.st.ctime.Nanos())
      ensures Hit(now[j].node, di.files)
    {
      MatchesHit(di, Entries(u, DirKey(fsid, d.ino), at), d.kids, fit, now, j);
    }
  }

  /** A file that was not read in the last six weeks before a backup is not taken from the cache but read. */
  lemma MustRead(t: Tables, last: map<FileAt, int>, key: DirKey, now: int, di: DirInfo, c: Tree)
    requires Leased(t, last) && WellKeyed(di) && di.files.Values == Entries(t, key, now)
    requires FileAt(key, c.st.ino) in last ==> last[FileAt(key, c.st.ino)] + 6 * WEEK <= now
    ensures !Hit(c, di.files)
  {
    if c.st.ino in di.files {
      LeasedEntry(t, last, key, now, di.files[c.st.ino]);
    }
  }

  lemma LeasedEntry(t: Tables, last: map<FileAt, int>, key: DirKey, now: int, fi: FileInfo)
    requires Leased(t, last) && fi in Entries(t, key, now)
    ensures LeasedAt(last, key, fi) && fi.expire >= now
  {
    EntriesOfInfos(t, key, now);
  }

  /** What was stored for a file `d` is used for `c` exactly when the inodes agree, and the ctimes but for a multiple of
      2^64 nanoseconds, while that of `c` fits 64 bits. */
  lemma HitExactly(c: Tree, d: Tree, data: OID, expire: int)
    requires c.Reg? && d.Reg?
    ensures Hit(c, map[d.st.ino := InfoOf(RowFor(0, FileInfo(d.st.ino, d.st.ctime.Nanos(), data, expire)))]) <==>
      && c.st.ino == d.st.ino && IsInt64(c.st.ctime.Nanos())
      && (d.st.ctime.Nanos() - c.st.ctime.Nanos()) % UINT64_LIMIT == 0
  {
    UnixNanoMeets(d.st.ctime.Nanos(), c.st.ctime.Nanos());
  }

  lemma UnixNanoMeets(a: int, b: int)
    ensures UnixNano(a) == b <==> IsInt64(b) && (a - b) % UINT64_LIMIT == 0
  {
    var n := (a + INT64_LIMIT) / UINT64_LIMIT;
    assert a - UnixNano(a) == UINT64_LIMIT * n;
    if IsInt64(b) && (a - b) % UINT64_LIMIT == 0 {
      var k := (a - b) / UINT64_LIMIT;
      assert UnixNano(a) - b == UINT64_LIMIT * (k - n);
    }
  }

  /** The cache takes one state of a file for another: ctimes 2^64 nanoseconds apart, more than five centuries. */
  lemma WrappedHit(c: Tree, d: Tree, data: OID, expire: int)
    requires c.Reg? && d.Reg? && c.st.ino == d.st.ino
    requires c.st.ctime == Time(0, 0) && d.st.ctime == Time(18_446_744_073, 709_551_616)
    ensures Hit(c, map[d.st.ino := InfoOf(RowFor(0, FileInfo(d.st.ino, d.st.ctime.Nanos(), data, expire)))])
  {
    HitExactly(c, d, data, expire);
  }

  /** Entries that have not expired, under their inodes. */
  ghost predicate Unspent(files: map<nat, FileInfo>, base: int) {
    forall i :: i in files ==> files[i].ino == i && files[i].expire >= base && IsInt64(files[i].expire)
  }

  lemma FoundUnspent(t: Tables, r: Repo, exact: bool, truth: Truth, key: DirKey, base: int, di: DirInfo)
    requires Closed(r) && CacheTrue(t, r, exact, truth) && WellKeyed(di) && di.files.Values == Entries(t, key, base)
    ensures Unspent(di.files, base)
  {
    hide FileTrue, Closed;
    forall i | i in di.files ensures di.files[i].expire >= base && IsInt64(di.files[i].expire) {
      assert di.files[i] in Entries(t, key, base);
    }
  }

  /** The children a backup sees of a directory are entered as they are. */
  lemma GatheredVisible(files: map<nat, FileInfo>, kids: seq<Child>, dev: nat, base: int, fit: Fit)
    requires Gathered(files, kids, base, fit)
    ensures Gathered(files, VisibleKids(kids, dev), base, fit)
  {
    var vis := VisibleKids(kids, dev);
    forall i | i in files ensures EntryForSome(files[i], vis, base, fit) {
      var j :| 0 <= j < |kids| && EntryFor(files[i], kids[j].node, base, fit);
      assert vis[j].node == kids[j].node;
    }
  }

  lemma LeavesTables(t: Tables, u: Tables, w: Tables, x: Tables, fsid: nat, base: int, dirs: seq<Place>, fit: Fit)
    requires t.(blobs := map[]) == w.(blobs := map[]) && u.(blobs := map[]) == x.(blobs := map[])
    ensures Leaves(t, u, fsid, base, dirs, fit) <==> Leaves(w, x, fsid, base, dirs, fit)
  {
    hide Remembers, Deciding;
    forall key: DirKey ensures Infos(t, key) == Infos(w, key) && Infos(u, key) == Infos(x, key) {
      SameInfos(t, w, key);
      SameInfos(u, x, key);
    }
    assert forall key: DirKey ::
      LeavesAt(t, u, fsid, base, dirs, fit, key) <==> LeavesAt(w, x, fsid, base, dirs, fit, key);
  }

  lemma SameInfos(t: Tables, u: Tables, key: DirKey)
    requires t.(blobs := map[]) == u.(blobs := map[])
    ensures Infos(t, key) == Infos(u, key)
  {
    assert DirRows(t, key) == DirRows(u, key);
  }

  // ---- what a step of a backup leaves ------------------------------------------------------

  /** Only chunks were added and cache entries changed. */
  ghost predicate Advanced(s: Snapshot, t: Snapshot) {
    Grew(s.(others := t.others), t) && t.others.filesystems == s.others.filesystems
  }

  lemma AdvancedTransitive(s: Snapshot, t: Snapshot, u: Snapshot)
    requires Advanced(s, t) && Advanced(t, u)
    ensures Advanced(s, u)
  {
  }

  lemma ExcusedAdvance(s: Snapshot, t: Snapshot, u: Snapshot)
    requires Advanced(s, t) && Advanced(t, u)
    ensures Excused(s, t) || Excused(t, u) ==> Excused(s, u)
  {
  }

  lemma GrewAdvanced(s: Snapshot, t: Snapshot)
    requires Grew(s, t)
    ensures Advanced(s, t)
  {
  }

  lemma AdvancedStore(s: Snapshot, t: Snapshot)
    requires Advanced(s, t)
    ensures Extends(s.view, t.view) && SubMap(s.view.store, t.view.store) && (!t.clash ==> !s.clash)
  {
  }

  /** The pool is closed and the cache is consistent and true. */
  ghost predicate Sane(s: Snapshot, fsid: nat, truth: Truth) {
    && Closed(s.view)
    && Consistent(s.others) && fsid in s.others.filesystems.Values
    && CacheTrue(s.others, s.view, !s.clash, truth)
  }

  lemma SaneClosed(s: Snapshot, fsid: nat, truth: Truth)
    requires Sane(s, fsid, truth)
    ensures Closed(s.view)
  {
  }

  lemma SaneGrows(s: Snapshot, t: Snapshot, fsid: nat, truth: Truth)
    requires Sane(s, fsid, truth) && Closed(t.view) && Grew(s, t)
    ensures Sane(t, fsid, truth) && Advanced(s, t) && SubMap(s.view.store, t.view.store)
  {
    hide Consistent, CacheTrue;
    GrewAdvanced(s, t);
    AdvancedStore(s, t);
    CacheTrueGrows(s.others, s.view, !s.clash, t.view, !t.clash, truth);
  }

  lemma SameTables(t: Tables, u: Tables)
    requires t.(blobs := map[]) == u.(blobs := map[])
    ensures Consistent(t) <==> Consistent(u)
    ensures t.filesystems == u.filesystems && t.ctimeDirs == u.ctimeDirs && t.ctimeCache == u.ctimeCache
  {
  }

  /** No part of a directory that fits makes the writer panic. */
  lemma PackPrefixFits(kids: seq<Child>, es: seq<Entry>)
    requires |es| <= |kids| && forall i :: 0 <= i < |es| ==> es[i].name == kids[i].name
    requires |Pack(DIR_LIMIT, Named(kids, NoOids(|kids|)))| <= Limit(DIR_LIMIT / OID_LEN, "dir")
    ensures |Pack(DIR_LIMIT, es)| <= Pow(DIR_LIMIT / OID_LEN, 10)
  {
    hide Pow, Limit, Pack;
    var named := Named(kids, NoOids(|kids|));
    PackOfNames(DIR_LIMIT, es, named[..|es|]);
    PackFewer(DIR_LIMIT, named, |es|);
    LimitFar(DIR_LIMIT / OID_LEN, "dir");
  }

  /** `DirWriter.Finalize` depends on the names for its capacity, not on the identifiers. */
  lemma PackFits(kids: seq<Child>, es: seq<Entry>)
    requires |es| == |kids| && forall i :: 0 <= i < |es| ==> es[i].name == kids[i].name
    ensures |Pack(DIR_LIMIT, es)| == |Pack(DIR_LIMIT, Named(kids, NoOids(|kids|)))|
  {
    PackOfNames(DIR_LIMIT, es, Named(kids, NoOids(|kids|)));
  }

  /** The identifier is that of a stored node that tells the tree, and depends on the tree alone if file identifiers
      do. */
  ghost predicate Told(r: Repo, exact: bool, truth: Truth, oid: OID, t: Tree)
    requires Closed(r)
  {
    && oid in r.store
    && (exact ==> Tells(Story(r, oid), t, truth.Links()) && (truth.cut.Some? ==> oid == NodeId(truth.cut.value, t)))
  }

  /** The entries name the first of the children, and tell them. */
  ghost predicate Listed(r: Repo, exact: bool, truth: Truth, es: seq<Entry>, kids: seq<Child>)
    requires Closed(r)
  {
    && |es| <= |kids| && (forall i :: 0 <= i < |es| ==> es[i].name == kids[i].name)
    && (exact ==> KidsTold(r, es, kids[..|es|], truth.Links()))
    && (exact && truth.cut.Some? ==> es == KidEntries(truth.cut.value, kids[..|es|]))
  }

  lemma ListedGrows(r: Repo, e: bool, s: Repo, g: bool, truth: Truth, es: seq<Entry>, kids: seq<Child>)
    requires Closed(r) && Closed(s) && Extends(r, s) && (g ==> e) && Listed(r, e, truth, es, kids)
    ensures Listed(s, g, truth, es, kids)
  {
    hide Closed, Extends, KidsTold, KidEntries;
    if g {
      KidsToldGrows(r, s, es, kids[..|es|], truth.Links());
    }
  }

  lemma ListedNext(r: Repo, exact: bool, truth: Truth, es: seq<Entry>, kids: seq<Child>, e: Entry)
    requires Closed(r) && Listed(r, exact, truth, es, kids) && |es| < |kids|
    requires e.name == kids[|es|].name && Told(r, exact, truth, e.oid, kids[|es|].node)
    ensures Listed(r, exact, truth, es + [e], kids)
  {
    hide Closed, KidsTold, Tells, Story, KidEntries, NodeId;
    if exact {
      KidsToldSnoc(r, es, kids, e, truth.Links());
      if truth.cut.Some? {
        KidEntriesSnoc(truth.cut.value, kids, |es|);
      }
    }
  }

  /** The names listed so far leave the writer room. */
  lemma ListedFits(r: Repo, exact: bool, truth: Truth, es: seq<Entry>, kids: seq<Child>, dev: nat)
    requires Closed(r) && Listed(r, exact, truth, es, VisibleKids(kids, dev))
    requires |Pack(DIR_LIMIT, Named(kids, NoOids(|kids|)))| <= Limit(DIR_LIMIT / OID_LEN, "dir")
    ensures |Pack(DIR_LIMIT, es)| <= Pow(DIR_LIMIT / OID_LEN, 10)
  {
    hide Closed, KidsTold, KidEntries, Pow, Limit, Pack;
    PackPrefixFits(kids, es);
  }

  lemma NoneListed(r: Repo, exact: bool, truth: Truth, kids: seq<Child>)
    requires Closed(r)
    ensures Listed(r, exact, truth, [], kids)
  {
    hide Closed;
    assert kids[..0] == [];
  }

  /** All children are listed in a finished directory. */
  ghost predicate AllListed(r: Repo, exact: bool, truth: Truth, hash: Hash, root: OID, es: seq<Entry>, kids: seq<Child>)
    requires Closed(r)
  {
    && root in r.store && root == DirRoot(DirFamily(hash), DIR_LIMIT, es)
    && |es| == |kids| && Listed(r, exact, truth, es, kids)
    && (exact ==> Story(r, root) == StoryEntries(r, es))
  }

  lemma AllListedGrows(r: Repo, e: bool, s: Repo, g: bool, truth: Truth, hash: Hash, root: OID, es: seq<Entry>,
                       kids: seq<Child>)
    requires Closed(r) && Closed(s) && Extends(r, s) && (g ==> e) && AllListed(r, e, truth, hash, root, es, kids)
    ensures AllListed(s, g, truth, hash, root, es, kids)
  {
    hide Closed, KidsTold, KidEntries, Story, StoryEntries, DirRoot, Tells, Listed;
    ListedGrows(r, e, s, g, truth, es, kids);
    StoryStable(r, s, root);
    if g {
      ToldEntriesStable(r, s, truth, es, kids);
    }
  }

  lemma ToldEntriesStable(r: Repo, s: Repo, truth: Truth, es: seq<Entry>, kids: seq<Child>)
    requires Closed(r) && Closed(s) && Extends(r, s) && Listed(r, true, truth, es, kids) && |es| == |kids|
    ensures StoryEntries(s, es) == StoryEntries(r, es)
  {
    hide Closed, Extends, Story, StoryEntries, Tells, KidEntries;
    StoryEntriesStable(r, s, es);
  }

  /** Every entry of the cache was there at the start, with the same expiry, or its file is among those read since,
      each of which was opened. */
  ghost predicate Paced(start: Snapshot, now: Snapshot, base: int, read: set<FileAt>) {
    Renewed(start.others, now.others, base, read) && start.readings + |read| <= now.readings
  }

  lemma PacedGrew(start: Snapshot, s: Snapshot, t: Snapshot, base: int, read: set<FileAt>)
    requires Paced(start, s, base, read) && Grew(s, t)
    ensures Paced(start, t, base, read)
  {
    RenewedSame(start.others, s.others, t.others, base, read);
  }

  /** One more file was read. */
  lemma PacedRead(start: Snapshot, s: Snapshot, t: Snapshot, base: int, read: set<FileAt>, x: FileAt)
    requires Paced(start, s, base, read) && Grew(s, t) && s.readings < t.readings
    ensures Paced(start, t, base, read + {x})
  {
    RenewedSame(start.others, s.others, t.others, base, read);
    RenewedMore(start.others, t.others, base, read, read + {x});
  }

  /** A directory was updated, or in part. */
  lemma PacedPartly(start: Snapshot, s: Snapshot, t: Snapshot, u: Tables, w: Tables, key: DirKey,
                    files: map<nat, FileInfo>, base: int, read: set<FileAt>)
    requires Paced(start, s, base, read) && Dated(start.others, key, files, base, read) && Partly(u, w, key, files)
    requires s.others == u.(blobs := map[]) && t.others == w.(blobs := map[]) && s.readings <= t.readings
    ensures Paced(start, t, base, read)
  {
    hide Renewed, Dated, Partly;
    forall k: DirKey ensures Infos(u, k) == Infos(s.others, k) && Infos(w, k) == Infos(t.others, k) {
      SameInfos(u, s.others, k);
      SameInfos(w, t.others, k);
    }
    RenewedSame(start.others, s.others, u, base, read);
    RenewedPartly(start.others, u, w, key, files, base, read);
    RenewedSame(start.others, w, t.others, base, read);
  }

  /** What `GetDir` finds. */
  lemma FoundDated(start: Snapshot, now: Snapshot, r: Repo, exact: bool, truth: Truth, key: DirKey, base: int,
                   read: set<FileAt>, di: DirInfo)
    requires Closed(r) && CacheTrue(now.others, r, exact, truth) && Paced(start, now, base, read)
    requires WellKeyed(di) && di.files.Values == Entries(now.others, key, base)
    ensures Dated(start.others, key, di.files, base, read)
  {
    hide FileTrue, Closed, RenewedAt;
    forall i | i in di.files ensures RenewedAt(start.others, key, InfoOf(RowFor(0, di.files[i])), base, read) {
      assert di.files[i] in Entries(now.others, key, base);
      var row :| row in DirRows(now.others, key) && row.expire >= base && di.files[i] == InfoOf(row);
      UnixNanoExact(row.expire);
      UnixNanoExact(row.ctime);
      assert InfoOf(row) in Infos(now.others, key);
    }
  }

  /** How a file is entered: with the entry that was found, or with a new one after reading the file. */
  ghost predicate Reentered(c: Tree, found: map<nat, FileInfo>, before: map<nat, FileInfo>, after: map<nat, FileInfo>,
                            base: int)
    requires c.Reg?
  {
    var ino := c.st.ino;
    if Hit(c, found) then after == before[ino := found[ino]]
    else
      && ino in after && after == before[ino := after[ino]]
      && after[ino].ino == ino && base + 2 * WEEK <= after[ino].expire < base + 6 * WEEK
  }

  class Backup {
    const pool: SqlPool
    const hash: Hash
    const cache: Cache
    const rootDev: nat

    // What the proofs follow: the pool at the start, and the files that were read since.
    ghost const start: Snapshot
    ghost var read: set<FileAt>

    ghost predicate Valid(truth: Truth)
      reads this, pool, cache
    {
      && pool.Valid() && cache.pool == pool && Sane(pool.Snap(), cache.fsid, truth)
      && (truth.cut.Some? ==> truth.cut.value == hash)
      && Paced(start, pool.Snap(), cache.baseTime, read)
    }

    /** Files for a directory with the expiry they had at the start, or read since. */
    ghost predicate DatedFor(key: DirKey, files: map<nat, FileInfo>)
      reads this, cache
    {
      Dated(start.others, key, files, cache.baseTime, read)
    }

    /** Directories were left in turn, from one state to the other. */
    ghost predicate Passed(s: Snapshot, t: Snapshot, dirs: seq<Place>)
      reads cache
    {
      Leaves(s.others, t.others, cache.fsid, cache.baseTime, dirs, ANY)
    }

    lemma PassedNone(s: Snapshot, t: Snapshot)
      requires Grew(s, t)
      ensures Passed(s, t, [])
    {
      hide Passed;
      PassedSame(s, t);
    }

    lemma PassedSame(s: Snapshot, t: Snapshot)
      requires t.others == s.others
      ensures Passed(s, t, [])
    {
      LeavesNothing(s.others, t.others, cache.fsid, cache.baseTime, ANY);
    }

    lemma PassedThen(s: Snapshot, t: Snapshot, u: Snapshot, a: seq<Place>, b: seq<Place>)
      requires Passed(s, t, a) && Passed(t, u, b)
      ensures Passed(s, u, a + b)
    {
      hide Leaves;
      LeavesThen(s.others, t.others, u.others, cache.fsid, cache.baseTime, a, b, ANY);
    }

    lemma PassedFurther(s: Snapshot, t: Snapshot, u: Snapshot, a: seq<Place>)
      requires Passed(s, t, a) && Passed(t, u, [])
      ensures Passed(s, u, a)
    {
      hide Passed;
      PassedThen(s, t, u, a, []);
      assert a + [] == a;
    }

    lemma PassedThrough(s: Snapshot, t: Snapshot, u: Snapshot, a: seq<Place>)
      requires Passed(s, t, []) && Passed(t, u, a)
      ensures Passed(s, u, a)
    {
      hide Passed;
      PassedThen(s, t, u, [], a);
      assert [] + a == a;
    }

    constructor (pool: SqlPool, hash: Hash, cache: Cache, rootDev: nat)
      requires pool.Valid()
      ensures this.pool == pool && this.hash == hash && this.cache == cache && this.rootDev == rootDev
      ensures start == pool.Snap() && read == {} && Paced(start, pool.Snap(), cache.baseTime, read)
    {
      this.pool, this.hash, this.cache, this.rootDev := pool, hash, cache, rootDev;
      start, read := pool.Snap(), {};
    }

    /** A call that only looks at the file system: `Readdir` and `Readlink`. */
    method Look(ghost truth: Truth) returns (ok: bool)
      requires Valid(truth)
      modifies pool`faults
      ensures Valid(truth) && Grew(old(pool.Snap()), pool.Snap())
      ensures pool.Snap() == old(pool.Snap()).(faults := pool.faults)
      ensures !ok ==> Excused(old(pool.Snap()), pool.Snap())
    {
      hide Paced, SqlPool.Valid, Closed, Grew, CacheTrue, Consistent;
      ghost var s := pool.Snap();
      var failed := pool.Fails();
      GrewFaults(s, pool.Snap());
      SaneGrows(s, pool.Snap(), cache.fsid, truth);
      PacedGrew(start, s, pool.Snap(), cache.baseTime, read);
      ok := !failed;
    }

    /** `writeNode`. */
    method WriteNode(kind: Kind, p: PropertyMap, ghost truth: Truth) returns (r: Option<OID>)
      requires Valid(truth) && Encodable(p) && |Encoded(p)| < UINT32
      requires Present(pool.View(), Refs(Content(kind, Encoded(p))))
      modifies pool
      ensures Valid(truth) && Grew(old(pool.Snap()), pool.Snap())
      ensures r.Some? ==> r.value in pool.View().store && r.value == hash(kind, Encoded(p))
      ensures r.Some? && !pool.clash ==> pool.View().store[r.value] == Content(kind, Encoded(p))
      ensures r.None? ==> Excused(old(pool.Snap()), pool.Snap())
    {
      hide Paced, SqlPool.Valid, Closed, Grew, Encodable, Encoded, CacheTrue, Consistent, Refs;
      ghost var s := pool.Snap();
      var data := Encode(p);
      var ch := NewChunk(hash, kind, data);
      var oid := ch.value.oid;
      assert ch.value.Meaning(pool.z) == Content(kind, data);
      PutClosed(s.view, oid, Content(kind, data));
      var ok := pool.Insert(ch.value);
      SaneGrows(s, pool.Snap(), cache.fsid, truth);
      PacedGrew(start, s, pool.Snap(), cache.baseTime, read);
      r := if ok then Some(oid) else None;
    }

    /** The node of a file or a directory, with the identifier of its contents. */
    method WriteLinked(t: Tree, link: OID, ghost truth: Truth) returns (r: Option<OID>)
      requires Valid(truth) && !t.Other? && StatFits(t.st) && link in pool.View().store
      modifies pool
      ensures Valid(truth) && Grew(old(pool.Snap()), pool.Snap())
      ensures r.Some? ==> r.value in pool.View().store && r.value == NodeOid(hash, LinkedProps(t, link))
      ensures r.Some? && !pool.clash ==> NodeIn(pool.View(), r.value, LinkedProps(t, link))
      ensures r.None? ==> Excused(old(pool.Snap()), pool.Snap())
    {
      hide Paced, SqlPool.Valid, Closed, Grew, CacheTrue, Consistent, LinkedProps, Refs, Encoded, Encodable, StatFits;
      hide Excused;
      LinkedWritable(t, link);
      r := WriteNode("node", LinkedProps(t, link), truth);
    }

    /** `SetExpire`: two to six weeks after the backup, in nanoseconds. */
    method SetExpire(ino: nat, ctime: int, data: OID) returns (fi: FileInfo)
      ensures fi.ino == ino && fi.ctime == ctime && fi.data == data
      ensures 1_209_600_000_000_000 <= fi.expire - cache.baseTime < 3_628_800_000_000_000
    {
      var age: nat := *;
      fi := FileInfo(ino, ctime, data, cache.baseTime + age % (4 * WEEK) + 2 * WEEK);
    }

    /** The contents of a regular file: the cached identifier when inode and ctime match, else the file is read. */
    method FileData(c: Tree, oldFiles: map<nat, FileInfo>, newFiles: map<nat, FileInfo>,
                    ghost key: DirKey, ghost truth: Truth)
      returns (data: Option<OID>, files: map<nat, FileInfo>)
      requires Valid(truth) && c.Reg? && Fits(c)
      requires truth.Same(c.pieces, key, c.st.ino, UnixNano(c.st.ctime.Nanos()))
      requires Unspent(oldFiles, cache.baseTime) && InfosTrue(oldFiles, pool.View(), !pool.clash, truth, key)
      requires InfosTrue(newFiles, pool.View(), !pool.clash, truth, key)
      requires DatedFor(key, oldFiles) && DatedFor(key, newFiles)
      modifies pool, this`read
      ensures Valid(truth) && Grew(old(pool.Snap()), pool.Snap()) && old(read) <= read
      ensures InfosTrue(files, pool.View(), !pool.clash, truth, key) && DatedFor(key, files)
      ensures data.Some? ==>
        FileTrue(pool.View(), !pool.clash, truth, key, c.st.ino, UnixNano(c.st.ctime.Nanos()), data.value)
      ensures data.None? ==> Excused(old(pool.Snap()), pool.Snap()) && files == newFiles
      ensures data.Some? ==> data.value in pool.View().store
      ensures data.Some? ==> Entered(c, newFiles, files, cache.baseTime, ANY)
      ensures data.Some? ==> Reentered(c, oldFiles, newFiles, files, cache.baseTime)
      ensures if Hit(c, oldFiles) then data == Some(oldFiles[c.st.ino].data) && pool.Snap() == old(pool.Snap())
              else old(pool.readings) < pool.readings && (data.Some? ==> data.value == FileRoot(hash, c.pieces))
    {
      hide Paced, SqlPool.Valid, Closed, Grew, CacheTrue, Consistent, BlobData, FileRoot, Story, Dated, FileExact, Fits;
      ghost var s := pool.Snap();
      GrewSelf(s);
      var inode, ctime := c.st.ino, c.st.ctime.Nanos();
      if inode in oldFiles && oldFiles[inode].ctime == ctime {
        assert EntryFor(oldFiles[inode], c, cache.baseTime, ANY);
        OneInfoTrue(newFiles, s.view, !s.clash, truth, key, oldFiles[inode]);
        DatedKept(start.others, key, oldFiles, newFiles, cache.baseTime, read, inode);
        return Some(oldFiles[inode].data), newFiles[inode := oldFiles[inode]];
      }
      var fi;
      data, fi := ReadData(c, newFiles, key, truth);
      files := newFiles;
      if data.Some? {
        assert EntryFor(fi, c, cache.baseTime, ANY);
        OneInfoTrue(newFiles, pool.View(), !pool.clash, truth, key, fi);
        DatedRead(start.others, key, newFiles, cache.baseTime, read, fi);
        files := newFiles[inode := fi];
      }
    }

    /** Reads a file, and makes an entry for it. */
    method ReadData(c: Tree, ghost newFiles: map<nat, FileInfo>, ghost key: DirKey, ghost truth: Truth)
      returns (data: Option<OID>, fi: FileInfo)
      requires Valid(truth) && c.Reg? && Fits(c)
      requires truth.Same(c.pieces, key, c.st.ino, UnixNano(c.st.ctime.Nanos()))
      requires InfosTrue(newFiles, pool.View(), !pool.clash, truth, key) && DatedFor(key, newFiles)
      modifies pool, this`read
      ensures Valid(truth) && Grew(old(pool.Snap()), pool.Snap()) && old(pool.readings) < pool.readings
      ensures read == old(read) + {FileAt(key, c.st.ino)}
      ensures InfosTrue(newFiles, pool.View(), !pool.clash, truth, key) && DatedFor(key, newFiles)
      ensures data.None? ==> Excused(old(pool.Snap()), pool.Snap())
      ensures data.Some? ==> data.value == FileRoot(hash, c.pieces) && data.value in pool.View().store
      ensures data.Some? ==>
        FileTrue(pool.View(), !pool.clash, truth, key, c.st.ino, UnixNano(c.st.ctime.Nanos()), data.value)
      ensures data.Some? ==> fi.ino == c.st.ino && fi.ctime == c.st.ctime.Nanos() && fi.data == data.value
      ensures cache.baseTime + 2 * WEEK <= fi.expire < cache.baseTime + 6 * WEEK
    {
      hide Paced, SqlPool.Valid, Closed, Grew, CacheTrue, Consistent, BlobData, Limit, Pow, FileRoot, Story, Dated;
      hide InfosTrue;
      ghost var s, x := pool.Snap(), FileAt(key, c.st.ino);
      LimitFar(BUFFER / OID_LEN, "ind");
      var st, root := WriteFile(pool, hash, c.pieces);
      SaneGrows(s, pool.Snap(), cache.fsid, truth);
      AdvancedStore(s, pool.Snap());
      InfosTrueGrows(newFiles, s.view, !s.clash, pool.View(), !pool.clash, truth, key);
      PacedRead(start, s, pool.Snap(), cache.baseTime, read, x);
      DatedMore(start.others, key, newFiles, cache.baseTime, read, read + {x});
      read := read + {x};
      fi := SetExpire(c.st.ino, c.st.ctime.Nanos(), root);
      data := if st.Done? then Some(root) else None;
    }

    /** `regularFile`. */
    method RegularFile(c: Tree, oldFiles: map<nat, FileInfo>, newFiles: map<nat, FileInfo>,
                       ghost key: DirKey, ghost truth: Truth)
      returns (r: Option<OID>, files: map<nat, FileInfo>)
      requires Valid(truth) && c.Reg? && Fits(c)
      requires truth.Same(c.pieces, key, c.st.ino, UnixNano(c.st.ctime.Nanos()))
      requires Unspent(oldFiles, cache.baseTime) && InfosTrue(oldFiles, pool.View(), !pool.clash, truth, key)
      requires InfosTrue(newFiles, pool.View(), !pool.clash, truth, key)
      requires DatedFor(key, oldFiles) && DatedFor(key, newFiles)
      modifies pool, this`read
      ensures Valid(truth) && Grew(old(pool.Snap()), pool.Snap()) && old(read) <= read
      ensures InfosTrue(files, pool.View(), !pool.clash, truth, key) && DatedFor(key, files)
      ensures r.Some? ==> Reentered(c, oldFiles, newFiles, files, cache.baseTime)
      ensures r.Some? ==> Told(pool.View(), !pool.clash, truth, r.value, c)
      ensures r.None? ==> Excused(old(pool.Snap()), pool.Snap())
      ensures r.Some? ==> Entered(c, newFiles, files, cache.baseTime, ANY)
    {
      hide Paced, SqlPool.Valid, Closed, Grew, Extends, CacheTrue, InfosTrue, Consistent;
      hide BlobData, Limit, Told, LinkedProps, NodeIn, NodeOid, Entered, Unspent, FileTrue, Dated, Reentered, Hit;
      hide FileRoot;
      ghost var s := pool.Snap();
      var data;
      data, files := FileData(c, oldFiles, newFiles, key, truth);
      ghost var t := pool.Snap();
      if data.None? {
        return None, files;
      }
      r := WriteLinked(c, data.value, truth);
      ghost var u := pool.Snap();
      GrewTransitive(s, t, u);
      GrewAdvanced(t, u);
      AdvancedStore(t, u);
      InfosTrueGrows(files, t.view, !t.clash, u.view, !u.clash, truth, key);
      FileTrueGrows(t.view, !t.clash, u.view, !u.clash, truth, key, c.st.ino, UnixNano(c.st.ctime.Nanos()), data.value);
      if r.None? {
        ExcusedAlong(s, t, u);
      }
      if r.Some? {
        RegTold(u.view, !u.clash, truth, hash, key, r.value, c, data.value);
      }
    }

    /** `plainNode`. */
    method PlainNode(c: Tree, ghost truth: Truth) returns (r: Option<OID>)
      requires Valid(truth) && c.Other? && Fits(c)
      modifies pool
      ensures Valid(truth) && Grew(old(pool.Snap()), pool.Snap())
      ensures r.Some? ==> Told(pool.View(), !pool.clash, truth, r.value, c)
      ensures r.None? ==> Excused(old(pool.Snap()), pool.Snap())
    {
      hide Paced, SqlPool.Valid, Closed, Grew, CacheTrue, Consistent, Tells;
      hide NodeLink, OidList, PropsOf, Refs, Encoded, Encodable;
      ghost var s := pool.Snap();
      GrewSelf(s);
      if c.kind == LNK {
        var ok := Look(truth);
        if !ok {
          return None;
        }
      }
      ghost var t := pool.Snap();
      NodeEncodes(c, hash("null", []));
      NoLink(c);
      NodeRefs(PropsOf(c));
      r := WriteNode("node", PropsOf(c), truth);
      GrewTransitive(s, t, pool.Snap());
      if r.None? {
        ExcusedAlong(s, t, pool.Snap());
      }
      if r.Some? && !pool.clash {
        TellsOther(pool.View(), r.value, c, truth.Links());
      }
    }

    /** What the loop over the children keeps. */
    ghost predicate Listing(w: DirWriter, kids: seq<Child>, i: nat, truth: Truth)
      reads this, pool, cache, w, w.ind
      requires Valid(truth) && i <= |kids|
    {
      && w.pool == pool && w.hash == hash && w.limit == DIR_LIMIT && w.Valid() && !w.sealed
      && w.KeptWith(pool.View().store, !pool.clash)
      && |w.entries| == i && Listed(pool.View(), !pool.clash, truth, w.entries, VisibleKids(kids, rootDev))
    }

    ghost predicate ChildOk(c: Tree, key: DirKey, truth: Truth) {
      && Fits(c) && TreeTrue(c, truth, cache.fsid, rootDev)
      && (c.Reg? ==> truth.Same(c.pieces, key, c.st.ino, UnixNano(c.st.ctime.Nanos())))
    }

    /** One child of a directory: a file, a directory or another node. */
    method StoreChild(c: Tree, oldFiles: map<nat, FileInfo>, newFiles: map<nat, FileInfo>,
                      ghost key: DirKey, ghost truth: Truth)
      returns (r: Option<OID>, files: map<nat, FileInfo>)
      requires Valid(truth) && ChildOk(c, key, truth)
      requires Unspent(oldFiles, cache.baseTime) && InfosTrue(oldFiles, pool.View(), !pool.clash, truth, key)
      requires InfosTrue(newFiles, pool.View(), !pool.clash, truth, key)
      requires DatedFor(key, oldFiles) && DatedFor(key, newFiles)
      modifies pool, this`read
      ensures Valid(truth) && Advanced(old(pool.Snap()), pool.Snap()) && old(read) <= read
      ensures InfosTrue(files, pool.View(), !pool.clash, truth, key) && DatedFor(key, files)
      ensures r.Some? ==> Told(pool.View(), !pool.clash, truth, r.value, Visible(c, rootDev))
      ensures r.None? ==> Excused(old(pool.Snap()), pool.Snap()) || !InosBelow(Visible(c, rootDev))
      ensures r.Some? ==> InosBelow(Visible(c, rootDev))
      ensures r.Some? ==> Entered(c, newFiles, files, cache.baseTime, ANY)
      ensures r.Some? ==> Passed(old(pool.Snap()), pool.Snap(), Left(Visible(c, rootDev)))
      decreases c, 1
    {
      hide Paced, SqlPool.Valid, Closed, Grew, Extends, CacheTrue, InfosTrue;
      hide Consistent, Told, Fits, TreeTrue, Advanced, Unspent, Passed, EntryFor, FilesBelow, DirsBelow, Dated;
      hide Reentered;
      ghost var s, before := pool.Snap(), read;
      if c.Reg? {
        r, files := RegularFile(c, oldFiles, newFiles, key, truth);
        GrewAdvanced(s, pool.Snap());
        PassedNone(s, pool.Snap());
      } else if c.Dir? {
        r := Directory(c, truth);
        files := newFiles;
        DatedMore(start.others, key, newFiles, cache.baseTime, before, read);
        AdvancedStore(s, pool.Snap());
        InfosTrueGrows(files, s.view, !s.clash, pool.View(), !pool.clash, truth, key);
      } else {
        r := PlainNode(c, truth);
        files := newFiles;
        GrewAdvanced(s, pool.Snap());
        PassedNone(s, pool.Snap());
        AdvancedStore(s, pool.Snap());
        InfosTrueGrows(files, s.view, !s.clash, pool.View(), !pool.clash, truth, key);
      }
    }

    /** `writer.Add` in a backup. */
    method AddToWriter(w: DirWriter, name: Bytes, id: OID, ghost truth: Truth) returns (ok: bool)
      requires Valid(truth) && NameFits(name) && id in pool.View().store
      requires w.pool == pool && w.limit == DIR_LIMIT && w.Valid() && !w.sealed
      requires w.KeptWith(pool.View().store, !pool.clash)
      requires |Pack(DIR_LIMIT, w.entries)| <= Pow(DIR_LIMIT / OID_LEN, 10)
      modifies pool, w, w.ind
      ensures Valid(truth) && Advanced(old(pool.Snap()), pool.Snap())
      ensures w.Valid() && !w.sealed && w.KeptWith(pool.View().store, !pool.clash)
      ensures ok ==> w.entries == old(w.entries) + [Entry(name, id)]
      ensures !ok ==> Excused(old(pool.Snap()), pool.Snap())
      ensures Passed(old(pool.Snap()), pool.Snap(), [])
    {
      hide Paced, SqlPool.Valid, Closed, Grew, Extends, SubMap, CacheTrue, Consistent, Advanced, Pow, Pack, Excused;
      hide DirWriter.Valid, DirWriter.KeptWith, Passed;
      ghost var t, es := pool.Snap(), w.entries;
      GroupWriter(w);
      var st := w.Add(name, id);
      assert !st.Done? ==> w.entries == es;
      SaneGrows(t, pool.Snap(), cache.fsid, truth);
      PacedGrew(start, t, pool.Snap(), cache.baseTime, read);
      PassedNone(t, pool.Snap());
      ok := st.Done?;
    }

    /** The writer gets the node of a child. */
    method AddEntry(w: DirWriter, kids: seq<Child>, i: nat, id: OID, ghost truth: Truth) returns (ok: bool)
      requires Valid(truth) && i < |kids| && Listing(w, kids, i, truth) && NameFits(kids[i].name)
      requires |Pack(DIR_LIMIT, Named(kids, NoOids(|kids|)))| <= Limit(DIR_LIMIT / OID_LEN, "dir")
      requires id in pool.View().store && Told(pool.View(), !pool.clash, truth, id, Visible(kids[i].node, rootDev))
      modifies pool, w, w.ind
      ensures Valid(truth) && Advanced(old(pool.Snap()), pool.Snap())
      ensures ok ==> Listing(w, kids, i + 1, truth)
      ensures !ok ==> Excused(old(pool.Snap()), pool.Snap())
      ensures Passed(old(pool.Snap()), pool.Snap(), [])
    {
      hide Paced, SqlPool.Valid, Closed, Grew, Extends, SubMap, CacheTrue;
      hide Consistent, Told, Advanced, NameFits, Sane, Listed, Passed;
      hide DirWriter.Valid, DirWriter.KeptWith, Excused, Pow, Limit, Pack, NoOids, Visible, VisibleKids;
      ghost var t := pool.Snap();
      ghost var es, vis, e := w.entries, VisibleKids(kids, rootDev), Entry(kids[i].name, id);
      SaneClosed(t, cache.fsid, truth);
      ListedFits(t.view, !t.clash, truth, es, kids, rootDev);
      ListedNext(t.view, !t.clash, truth, es, vis, e);
      ok := AddToWriter(w, kids[i].name, id, truth);
      ghost var u := pool.Snap();
      SaneClosed(u, cache.fsid, truth);
      AdvancedStore(t, u);
      ListedGrows(t.view, !t.clash, u.view, !u.clash, truth, es + [e], vis);
    }

    /** One turn of the loop over the children. */
    method AddChild(w: DirWriter, kids: seq<Child>, i: nat, oldFiles: map<nat, FileInfo>, newFiles: map<nat, FileInfo>,
                    ghost key: DirKey, ghost truth: Truth)
      returns (ok: bool, files: map<nat, FileInfo>)
      requires Valid(truth) && i < |kids| && Listing(w, kids, i, truth)
      requires NameFits(kids[i].name) && ChildOk(kids[i].node, key, truth)
      requires |Pack(DIR_LIMIT, Named(kids, NoOids(|kids|)))| <= Limit(DIR_LIMIT / OID_LEN, "dir")
      requires Unspent(oldFiles, cache.baseTime) && InfosTrue(oldFiles, pool.View(), !pool.clash, truth, key)
      requires InfosTrue(newFiles, pool.View(), !pool.clash, truth, key)
      requires DatedFor(key, oldFiles) && DatedFor(key, newFiles)
      modifies pool, w, w.ind, this`read
      ensures Valid(truth) && Advanced(old(pool.Snap()), pool.Snap()) && old(read) <= read
      ensures InfosTrue(oldFiles, pool.View(), !pool.clash, truth, key) && DatedFor(key, oldFiles)
      ensures InfosTrue(files, pool.View(), !pool.clash, truth, key) && DatedFor(key, files)
      ensures ok ==> Listing(w, kids, i + 1, truth) && Entered(kids[i].node, newFiles, files, cache.baseTime, ANY)
      ensures ok ==> Passed(old(pool.Snap()), pool.Snap(), Left(Visible(kids[i].node, rootDev)))
      ensures !ok ==> Excused(old(pool.Snap()), pool.Snap()) || !InosBelow(Visible(kids[i].node, rootDev))
      ensures ok ==> InosBelow(Visible(kids[i].node, rootDev))
      decreases kids[i].node, 2
    {
      hide Paced, SqlPool.Valid, Closed, Grew, Extends, SubMap, CacheTrue, InfosTrue, Consistent, Advanced;
      hide Listed, ChildOk, DirWriter.Valid, DirWriter.KeptWith, Excused, Pow, Passed, InosBelow, Told, Dated;
      hide Limit, Pack, NoOids, Entered, Unspent;
      ghost var s, before := pool.Snap(), read;
      var id;
      id, files := StoreChild(kids[i].node, oldFiles, newFiles, key, truth);
      DatedMore(start.others, key, oldFiles, cache.baseTime, before, read);
      ghost var t := pool.Snap();
      AdvancedStore(s, t);
      InfosTrueGrows(oldFiles, s.view, !s.clash, t.view, !t.clash, truth, key);
      if id.None? {
        return false, files;
      }
      w.KeptWithGrows(s.view.store, !s.clash, t.view.store, !t.clash);
      ListedGrows(s.view, !s.clash, t.view, !t.clash, truth, w.entries, VisibleKids(kids, rootDev));
      ToldStored(t.view, !t.clash, truth, id.value, Visible(kids[i].node, rootDev));
      ok := AddEntry(w, kids, i, id.value, truth);
      ghost var u := pool.Snap();
      AdvancedTransitive(s, t, u);
      AdvancedStore(t, u);
      InfosTrueGrows(oldFiles, t.view, !t.clash, u.view, !u.clash, truth, key);
      InfosTrueGrows(files, t.view, !t.clash, u.view, !u.clash, truth, key);
      if !ok {
        ExcusedAdvance(s, t, pool.Snap());
      }
      PassedFurther(s, t, u, Left(Visible(kids[i].node, rootDev)));
    }

    /** `directory`: the children in order, then the directory node, then the cache. */
    method Directory(dir: Tree, ghost truth: Truth) returns (r: Option<OID>)
      requires Valid(truth) && dir.Dir? && Fits(dir) && TreeTrue(dir, truth, cache.fsid, rootDev)
      modifies pool, this`read
      ensures Valid(truth) && Advanced(old(pool.Snap()), pool.Snap()) && old(read) <= read
      ensures r.Some? ==> Told(pool.View(), !pool.clash, truth, r.value, Visible(dir, rootDev))
      ensures r.Some? ==> Passed(old(pool.Snap()), pool.Snap(), Left(Visible(dir, rootDev)))
      ensures r.None? ==> Excused(old(pool.Snap()), pool.Snap()) || !InosBelow(Visible(dir, rootDev))
      ensures r.Some? ==> InosBelow(Visible(dir, rootDev))
      decreases dir, 0
    {
      hide Paced, SqlPool.Valid, Closed, Grew, Extends, SubMap, CacheTrue, InfosTrue, Consistent, Told, AllListed;
      hide Advanced;
      hide Pack, Limit, Excused, Gathered, Unspent, Entries, Passed, LeftKids;
      hide FilesBelow, DirsBelow, Dated;
      ghost var s, key := pool.Snap(), DirKey(cache.fsid, dir.st.ino);
      var children := [];
      AdvancedSelf(s);
      if dir.st.dev == rootDev {
        var ok := Look(truth);
        GrewAdvanced(s, pool.Snap());
        if !ok {
          return None;
        }
        children := dir.kids;
      }
      ghost var a := pool.Snap();
      ghost var vis := VisibleKids(children, rootDev);
      assert Visible(dir, rootDev) == Dir(dir.st, vis);
      var oldFiles := CachedFiles(dir.st.ino, truth);
      ghost var c := pool.Snap();
      AdvancedTransitive(s, a, c);
      if oldFiles.None? {
        ExcusedAdvance(s, a, c);
        return None;
      }
      PassedSame(s, a);
      PassedThrough(s, a, c, []);
      var childId, files;
      ghost var es;
      ChildrenOk(dir, children, truth);
      childId, files, es := StoreChildren(dir, children, oldFiles.value, key, truth);
      ghost var t := pool.Snap();
      AdvancedTransitive(s, c, t);
      if childId.None? {
        ExcusedAdvance(s, c, t);
        return None;
      }
      r := FinishDirectory(dir, children, childId.value, files, key, truth, es);
      AdvancedTransitive(s, t, pool.Snap());
      if r.None? {
        ExcusedAdvance(s, t, pool.Snap());
        return;
      }
      PassedThrough(s, c, t, LeftKids(vis));
      PassedThen(s, t, pool.Snap(), LeftKids(vis), [Place(dir.st.ino, vis)]);
    }

    /** The end of `directory`: the node, then the cache. */
    method FinishDirectory(dir: Tree, ghost kids: seq<Child>, link: OID, files: map<nat, FileInfo>, ghost key: DirKey,
                           ghost truth: Truth, ghost es: seq<Entry>) returns (r: Option<OID>)
      requires Valid(truth) && dir.Dir? && StatFits(dir.st) && key == DirKey(cache.fsid, dir.st.ino)
      requires kids == if dir.st.dev == rootDev then dir.kids else []
      requires InfosTrue(files, pool.View(), !pool.clash, truth, key) && link in pool.View().store
      requires DatedFor(key, files)
      requires Gathered(files, kids, cache.baseTime, ANY)
      requires AllListed(pool.View(), !pool.clash, truth, hash, link, es, VisibleKids(kids, rootDev))
      modifies pool
      ensures Valid(truth) && Advanced(old(pool.Snap()), pool.Snap())
      ensures r.Some? ==> Told(pool.View(), !pool.clash, truth, r.value, Visible(dir, rootDev))
      ensures r.Some? ==> Passed(old(pool.Snap()), pool.Snap(), [Place(dir.st.ino, VisibleKids(kids, rootDev))])
      ensures r.None? && dir.st.ino < INT64_LIMIT && FilesBelow(VisibleKids(kids, rootDev)) ==>
        Excused(old(pool.Snap()), pool.Snap())
      ensures r.Some? ==> dir.st.ino < INT64_LIMIT && FilesBelow(VisibleKids(kids, rootDev))
    {
      hide Paced, SqlPool.Valid, Closed, Grew, Extends, SubMap, CacheTrue;
      hide InfosTrue, Consistent, Told, AllListed, Advanced, Excused;
      hide LinkedProps, NodeIn, NodeOid, StatFits, Gathered, Entries, Passed, FilesBelow, Dated;
      ghost var t := pool.Snap();
      r := WriteLinked(dir, link, truth);
      ghost var u := pool.Snap();
      GrewAdvanced(t, u);
      AdvancedStore(t, u);
      InfosTrueGrows(files, t.view, !t.clash, u.view, !u.clash, truth, key);
      if r.None? {
        return;
      }
      ghost var vis := VisibleKids(kids, rootDev);
      AllListedGrows(t.view, !t.clash, u.view, !u.clash, truth, hash, link, es, vis);
      DirTold(u.view, !u.clash, truth, hash, r.value, dir, rootDev, vis, link, es);
      PassedNone(t, u);
      GatheredVisible(files, kids, rootDev, cache.baseTime, ANY);
      var ok := UpdateCache(dir.st.ino, files, VisibleKids(kids, rootDev), truth);
      AdvancedTransitive(t, u, pool.Snap());
      if !ok {
        ExcusedAdvance(t, u, pool.Snap());
        return None;
      }
      PassedThrough(t, u, pool.Snap(), [Place(dir.st.ino, VisibleKids(kids, rootDev))]);
    }

    lemma ChildrenOk(dir: Tree, kids: seq<Child>, truth: Truth)
      requires dir.Dir? && Fits(dir) && TreeTrue(dir, truth, cache.fsid, rootDev)
      requires kids == if dir.st.dev == rootDev then dir.kids else []
      ensures forall i :: 0 <= i < |kids| ==>
        NameFits(kids[i].name) && ChildOk(kids[i].node, DirKey(cache.fsid, dir.st.ino), truth)
      ensures |Pack(DIR_LIMIT, Named(kids, NoOids(|kids|)))| <= Limit(DIR_LIMIT / OID_LEN, "dir")
    {
      hide Limit, Pow;
    }

    /** The entries `GetDir` finds, which are true of the directory. */
    method CachedFiles(ino: nat, ghost truth: Truth) returns (files: Option<map<nat, FileInfo>>)
      requires Valid(truth)
      modifies pool
      ensures Valid(truth) && Advanced(old(pool.Snap()), pool.Snap()) && pool.View() == old(pool.View())
      ensures pool.clash == old(pool.clash)
      ensures files.None? ==> Excused(old(pool.Snap()), pool.Snap()) || ino >= INT64_LIMIT
      ensures files.Some? ==> InfosTrue(files.value, pool.View(), !pool.clash, truth, DirKey(cache.fsid, ino))
      ensures files.Some? ==> Unspent(files.value, cache.baseTime) && ino < INT64_LIMIT
      ensures files.Some? ==> DatedFor(DirKey(cache.fsid, ino), files.value)
      ensures files.Some? ==> files.value.Values == Entries(old(pool.work), DirKey(cache.fsid, ino), cache.baseTime)
      ensures Passed(old(pool.Snap()), pool.Snap(), [])
    {
      hide Paced, SqlPool.Valid, Closed, CacheTrue, InfosTrue, Consistent, Entries, Unspent, Dated;
      ghost var s := pool.Snap();
      SameTables(pool.work, s.others);
      var di := cache.GetDir(ino);
      LeavesNothing(s.others, pool.Snap().others, cache.fsid, cache.baseTime, ANY);
      GrewFaults(s, pool.Snap());
      PacedGrew(start, s, pool.Snap(), cache.baseTime, read);
      if di.None? {
        return None;
      }
      SameEntries(pool.work, pool.Snap().others, DirKey(cache.fsid, ino), cache.baseTime);
      ghost var t, key := pool.Snap().others, DirKey(cache.fsid, ino);
      FoundUnspent(t, pool.View(), !pool.clash, truth, key, cache.baseTime, di.value);
      EntriesTrue(t, pool.View(), !pool.clash, truth, key, cache.baseTime, di.value);
      FoundDated(start, pool.Snap(), pool.View(), !pool.clash, truth, key, cache.baseTime, read, di.value);
      return Some(di.value.files);
    }

    /** `UpdateDir` with true entries keeps the cache true, also when it fails. */
    method UpdateCache(ino: nat, files: map<nat, FileInfo>, ghost kids: seq<Child>, ghost truth: Truth)
      returns (ok: bool)
      requires Valid(truth) && InfosTrue(files, pool.View(), !pool.clash, truth, DirKey(cache.fsid, ino))
      requires Gathered(files, kids, cache.baseTime, ANY) && DatedFor(DirKey(cache.fsid, ino), files)
      modifies pool
      ensures Valid(truth) && Advanced(old(pool.Snap()), pool.Snap()) && pool.View() == old(pool.View())
      ensures pool.clash == old(pool.clash) && (ok ==> Passed(old(pool.Snap()), pool.Snap(), [Place(ino, kids)]))
      ensures ok ==> ino < INT64_LIMIT && FilesBelow(kids)
      ensures !ok ==> Excused(old(pool.Snap()), pool.Snap()) || ino >= INT64_LIMIT || !FilesBelow(kids)
    {
      hide Paced, SqlPool.Valid, Closed, CacheTrue, InfosTrue, Consistent, Partly;
      hide Rewritten, SubMap, Extends, Gathered, Leaves, Taken, FilesBelow, Dated;
      GatheredBelow(ino, files, kids, cache.baseTime, ANY);
      ghost var s, w := pool.Snap(), pool.work;
      SameTables(w, s.others);
      CacheTrueTables(w, s.others, s.view, !s.clash, truth);
      InfosKeyed(files, s.view, !s.clash, truth, DirKey(cache.fsid, ino));
      ok := cache.UpdateDir(DirInfo(ino, files));
      PartlyTrue(w, pool.work, DirKey(cache.fsid, ino), files, s.view, !s.clash, truth);
      PartlySame(w, pool.work, DirKey(cache.fsid, ino), files);
      SameTables(pool.work, pool.Snap().others);
      CacheTrueTables(pool.work, pool.Snap().others, s.view, !s.clash, truth);
      AdvancedTables(s, pool.Snap());
      PacedPartly(start, s, pool.Snap(), w, pool.work, DirKey(cache.fsid, ino), files, cache.baseTime, read);
      if ok {
        ghost var d := Place(ino, kids);
        LeavesWritten(w, cache.fsid, cache.baseTime, d, files, ANY);
        LeavesTables(w, pool.work, s.others, pool.Snap().others, cache.fsid, cache.baseTime, [d], ANY);
      }
    }

    /** Stores the children of a directory and the chunks that list them. */
    method StoreChildren(dir: Tree, kids: seq<Child>, oldFiles: map<nat, FileInfo>,
                         ghost key: DirKey, ghost truth: Truth)
      returns (root: Option<OID>, files: map<nat, FileInfo>, ghost es: seq<Entry>)
      requires Valid(truth) && dir.Dir? && (kids == dir.kids || kids == [])
      requires forall i :: 0 <= i < |kids| ==> NameFits(kids[i].name) && ChildOk(kids[i].node, key, truth)
      requires |Pack(DIR_LIMIT, Named(kids, NoOids(|kids|)))| <= Limit(DIR_LIMIT / OID_LEN, "dir")
      requires Unspent(oldFiles, cache.baseTime) && InfosTrue(oldFiles, pool.View(), !pool.clash, truth, key)
      requires DatedFor(key, oldFiles)
      modifies pool, this`read
      ensures Valid(truth) && Advanced(old(pool.Snap()), pool.Snap()) && old(read) <= read
      ensures InfosTrue(files, pool.View(), !pool.clash, truth, key) && DatedFor(key, files)
      ensures root.Some? ==>
        AllListed(pool.View(), !pool.clash, truth, hash, root.value, es, VisibleKids(kids, rootDev))
      ensures root.Some? ==> root.value in pool.View().store
      ensures root.None? ==> Excused(old(pool.Snap()), pool.Snap()) || !DirsBelow(VisibleKids(kids, rootDev))
      ensures root.Some? ==> DirsBelow(VisibleKids(kids, rootDev))
      ensures root.Some? ==> Gathered(files, kids, cache.baseTime, ANY)
      ensures root.Some? ==> Passed(old(pool.Snap()), pool.Snap(), LeftKids(VisibleKids(kids, rootDev)))
      decreases dir, 0, 0
    {
      hide Paced, SqlPool.Valid, Closed, Grew, Extends, SubMap, CacheTrue, InfosTrue, Consistent, AllListed, Advanced;
      hide ChildOk, DirWriter.Valid, DirWriter.KeptWith, Pack, Listed, Passed, LeftKids, Left;
      hide Limit, NoOids, Entered, Unspent, Gathered, InosBelow, DirsBelow, Excused, Visible, VisibleKids;
      hide Dated;
      ghost var s := pool.Snap();
      AdvancedSelf(s);
      NoInfos(s.view, !s.clash, truth, key);
      NoneDated(start.others, key, cache.baseTime, read);
      root, files, es := None, map[], [];
      var w := new DirWriter(pool, hash, DIR_LIMIT);
      ghost var vis := VisibleKids(kids, rootDev);
      NoneListed(s.view, !s.clash, truth, vis);
      NoneGathered(kids, cache.baseTime);
      AtStart(vis);
      PassedNone(s, pool.Snap());
      var i := 0;
      while i < |kids|
        invariant i <= |kids| && fresh(w) && fresh(w.ind)
        invariant Valid(truth) && Advanced(s, pool.Snap()) && Listing(w, kids, i, truth)
        invariant InfosTrue(oldFiles, pool.View(), !pool.clash, truth, key)
        invariant old(read) <= read && DatedFor(key, oldFiles) && DatedFor(key, files)
        invariant InfosTrue(files, pool.View(), !pool.clash, truth, key)
        invariant Gathered(files, kids[..i], cache.baseTime, ANY)
        invariant Passed(s, pool.Snap(), LeftKids(vis[..i]))
        invariant DirsBelow(vis[..i])
      {
        ghost var t, before := pool.Snap(), files;
        var ok;
        ok, files := AddChild(w, kids, i, oldFiles, files, key, truth);
        AdvancedTransitive(s, t, pool.Snap());
        BelowNext(vis, i);
        if !ok {
          ExcusedAdvance(s, t, pool.Snap());
          return;
        }
        GatheredNext(before, files, kids, i, cache.baseTime, ANY);
        PassedThen(s, t, pool.Snap(), LeftKids(vis[..i]), Left(vis[i].node));
        LeftKidsSnoc(vis, i);
        i := i + 1;
      }
      assert kids[..i] == kids && vis[..i] == vis;
      ghost var e := pool.Snap();
      root, es := FinishChildren(w, kids, files, key, truth, s);
      PassedFurther(s, e, pool.Snap(), LeftKids(vis));
    }

    method FinishChildren(w: DirWriter, kids: seq<Child>, ghost files: map<nat, FileInfo>, ghost key: DirKey,
                          ghost truth: Truth, ghost s: Snapshot)
      returns (root: Option<OID>, ghost es: seq<Entry>)
      requires Valid(truth) && Listing(w, kids, |kids|, truth) && Advanced(s, pool.Snap())
      requires |Pack(DIR_LIMIT, Named(kids, NoOids(|kids|)))| <= Limit(DIR_LIMIT / OID_LEN, "dir")
      requires InfosTrue(files, pool.View(), !pool.clash, truth, key)
      modifies pool, w, w.ind
      ensures Valid(truth) && Advanced(s, pool.Snap())
      ensures InfosTrue(files, pool.View(), !pool.clash, truth, key)
      ensures root.Some? ==>
        AllListed(pool.View(), !pool.clash, truth, hash, root.value, es, VisibleKids(kids, rootDev))
      ensures root.Some? ==> root.value in pool.View().store
      ensures root.None? ==> Excused(s, pool.Snap())
      ensures Passed(old(pool.Snap()), pool.Snap(), [])
    {
      hide Paced, SqlPool.Valid, Closed, Grew, Extends, SubMap, CacheTrue, InfosTrue, Consistent, Story, Advanced;
      hide Listed, DirWriter.KeptWith, Pack, Limit, NoOids, StoryEntries, Excused, Pow, Passed, DirRoot;
      ghost var t := pool.Snap();
      es := w.entries;
      ListedNames(t.view, !t.clash, truth, es, VisibleKids(kids, rootDev));
      PackFits(kids, es);
      PackPrefixFits(kids, es);
      GroupWriter(w);
      var st, oid := w.Finalize();
      ghost var u := pool.Snap();
      SaneGrows(t, u, cache.fsid, truth);
      PacedGrew(start, t, u, cache.baseTime, read);
      PassedNone(t, u);
      AdvancedTransitive(s, t, u);
      AdvancedStore(t, u);
      InfosTrueGrows(files, t.view, !t.clash, u.view, !u.clash, truth, key);
      ListedGrows(t.view, !t.clash, u.view, !u.clash, truth, es, VisibleKids(kids, rootDev));
      if !st.Done? {
        ExcusedAdvance(s, t, u);
      }
      root := if st.Done? then Some(oid) else None;
    }
  }

  lemma NoInfos(r: Repo, exact: bool, truth: Truth, key: DirKey)
    requires Closed(r)
    ensures InfosTrue(map[], r, exact, truth, key)
  {
  }

  lemma NoneDated(t: Tables, key: DirKey, base: int, read: set<FileAt>)
    ensures Dated(t, key, map[], base, read)
  {
  }

  /** A found entry is entered again. */
  lemma DatedKept(t: Tables, key: DirKey, found: map<nat, FileInfo>, files: map<nat, FileInfo>, base: int,
                  read: set<FileAt>, ino: nat)
    requires Dated(t, key, found, base, read) && Dated(t, key, files, base, read) && ino in found
    ensures Dated(t, key, files[ino := found[ino]], base, read)
  {
    hide RenewedAt, UnixNano;
  }

  /** A new entry is entered. */
  lemma DatedRead(t: Tables, key: DirKey, files: map<nat, FileInfo>, base: int, read: set<FileAt>, fi: FileInfo)
    requires Dated(t, key, files, base, read) && FileAt(key, fi.ino) in read
    requires base + 2 * WEEK <= fi.expire < base + 6 * WEEK
    ensures Dated(t, key, files[fi.ino := fi], base, read)
  {
    hide RenewedAt, UnixNano;
    ReadRenewed(t, key, base, read, fi);
    DatedPut(t, key, files, base, read, fi);
  }

  lemma NoneGathered(kids: seq<Child>, base: int)
    ensures Gathered(map[], kids[..0], base, ANY)
  {
  }

  lemma AtStart(kids: seq<Child>)
    ensures LeftKids(kids[..0]) == [] && DirsBelow(kids[..0])
  {
  }

  lemma InfosKeyed(files: map<nat, FileInfo>, r: Repo, exact: bool, truth: Truth, key: DirKey)
    requires Closed(r) && InfosTrue(files, r, exact, truth, key)
    ensures forall i :: i in files ==> files[i].ino == i
  {
  }

  lemma CacheTrueTables(t: Tables, u: Tables, r: Repo, exact: bool, truth: Truth)
    requires Closed(r) && t.ctimeDirs == u.ctimeDirs && t.ctimeCache == u.ctimeCache
    ensures CacheTrue(t, r, exact, truth) <==> CacheTrue(u, r, exact, truth)
  {
  }

  lemma AdvancedTables(s: Snapshot, t: Snapshot)
    requires t == s.(others := t.others, faults := t.faults) && t.others.filesystems == s.others.filesystems
    requires s.faults <= t.faults
    ensures Advanced(s, t)
  {
  }

  lemma AdvancedSelf(s: Snapshot)
    ensures Advanced(s, s)
  {
  }

  lemma SameEntries(t: Tables, u: Tables, key: DirKey, at: int)
    requires t.filesystems == u.filesystems && t.ctimeDirs == u.ctimeDirs && t.ctimeCache == u.ctimeCache
    ensures Entries(t, key, at) == Entries(u, key, at)
  {
    assert DirRows(t, key) == DirRows(u, key);
  }

  lemma {:induction false} StoryEntriesStable(r: Repo, s: Repo, es: seq<Entry>)
    requires Closed(r) && Closed(s) && Extends(r, s) && forall i :: 0 <= i < |es| ==> es[i].oid in r.store
    ensures StoryEntries(s, es) == StoryEntries(r, es)
  {
    hide Story, Extends, Closed;
    if es != [] {
      StoryStable(r, s, es[0].oid);
      StoryEntriesStable(r, s, es[1..]);
    }
  }

  lemma ToldStored(r: Repo, exact: bool, truth: Truth, oid: OID, t: Tree)
    requires Closed(r) && Told(r, exact, truth, oid, t)
    ensures oid in r.store
  {
  }

  lemma ListedNames(r: Repo, exact: bool, truth: Truth, es: seq<Entry>, kids: seq<Child>)
    requires Closed(r) && Listed(r, exact, truth, es, kids)
    ensures |es| <= |kids| && forall i :: 0 <= i < |es| ==> es[i].name == kids[i].name
  {
  }

  /** The node of a file with a true identifier tells the file. */
  lemma RegTold(r: Repo, exact: bool, truth: Truth, hash: Hash, key: DirKey, oid: OID, c: Tree, data: OID)
    requires Closed(r) && c.Reg? && oid in r.store && oid == NodeOid(hash, LinkedProps(c, data))
    requires exact ==> NodeIn(r, oid, LinkedProps(c, data))
    requires truth.cut.Some? ==> truth.cut.value == hash
    requires truth.Same(c.pieces, key, c.st.ino, UnixNano(c.st.ctime.Nanos()))
    requires FileTrue(r, exact, truth, key, c.st.ino, UnixNano(c.st.ctime.Nanos()), data)
    ensures Told(r, exact, truth, oid, c)
  {
    hide Closed, Story, BlobData, LinkedProps, NodeOid, NodeIn, FileRoot, UnixNano, Tells;
    if exact {
      TellsReg(r, oid, c, data, truth.Links());
    }
  }

  /** The node of a directory whose children are listed tells its visible part. */
  lemma DirTold(r: Repo, exact: bool, truth: Truth, hash: Hash, oid: OID, dir: Tree, dev: nat, vis: seq<Child>,
                link: OID, es: seq<Entry>)
    requires Closed(r) && dir.Dir? && vis == VisibleKids(if dir.st.dev == dev then dir.kids else [], dev)
    requires oid in r.store && oid == NodeOid(hash, LinkedProps(dir, link))
    requires exact ==> NodeIn(r, oid, LinkedProps(dir, link))
    requires (truth.cut.Some? ==> truth.cut.value == hash) && AllListed(r, exact, truth, hash, link, es, vis)
    ensures Told(r, exact, truth, oid, Visible(dir, dev))
  {
    hide Closed, Story, NodeOid, StoryEntries, Tells, NodeIn, KidsTold, KidEntries, DirRoot;
    var t := Visible(dir, dev);
    assert t == Dir(dir.st, vis) && LinkedProps(t, link) == LinkedProps(dir, link);
    if exact {
      assert vis[..|es|] == vis;
      TellsDir(r, oid, t, link, es, truth.Links());
    }
  }

  lemma NoLink(c: Tree)
    requires c.Other?
    ensures OidList(NodeLink(PropsOf(c))) == []
  {
    hide StatProps, HandlerOf, Less;
    assert NodeLink(PropsOf(c)) == [];
  }

  ghost predicate NodeFits(p: PropertyMap, refs: seq<OID>) {
    Encodable(p) && |Encoded(p)| < UINT32 && Refs(Content("node", Encoded(p))) == refs
  }

  /** The node of a file or a directory can be written, and refers to its contents alone. */
  lemma LinkedWritable(t: Tree, link: OID)
    requires !t.Other? && StatFits(t.st)
    ensures NodeFits(LinkedProps(t, link), [link])
  {
    hide LinkedProps, NodeLink, Refs, Encoded, Encodable, StatFits, OidText, ParseOid, HandlerOf, NodeKindOf;
    NodeEncodes(t, link);
    LinkOf(t, link);
    NodeRefs(LinkedProps(t, link));
  }

  lemma NodeRefs(p: PropertyMap)
    requires Encodable(p)
    ensures Refs(Content("node", Encoded(p))) == OidList(NodeLink(p))
  {
    hide Encoded, Decoded, HandlerOf, NodeLink;
    KnownKinds();
    DecodeEncode(p);
  }
}
