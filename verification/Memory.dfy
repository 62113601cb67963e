/** What the cache remembers of the files of directories, and what a walk that leaves directory after directory
    leaves in it. */
module Memories {
  import opened Base
  import opened Text
  import opened Pool
  import opened Caches
  import opened Decode
  import opened Stories
  import opened Files
  import opened Trees

  /** The identifier is that of the bytes of the file. */
  ghost function Reads(r: Repo): Fit
    requires Closed(r)
  {
    (id: OID, c: Tree) => id in r.store && c.Reg? && BlobData(Story(r, id)) == Some(Concat(c.pieces))
  }

  /** The same, and right in another way. */
  ghost function ReadsAnd(r: Repo, fit: Fit): Fit
    requires Closed(r)
  {
    (id: OID, c: Tree) => Reads(r)(id, c) && fit(id, c)
  }

  // ---- one directory -----------------------------------------------------------------------

  /** An unexpired entry for the file as it is now. */
  ghost predicate EntryFor(fi: FileInfo, c: Tree, base: int, fit: Fit) {
    && c.Reg? && fi.ino == c.st.ino && UnixNano(fi.ctime) == UnixNano(c.st.ctime.Nanos())
    && base <= fi.expire && (IsInt64(fi.expire) || fi.expire < base + 6 * WEEK)
    && fit(fi.data, c)
  }

  ghost predicate EntryForSome(fi: FileInfo, kids: seq<Child>, base: int, fit: Fit) {
    exists j :: 0 <= j < |kids| && EntryFor(fi, kids[j].node, base, fit)
  }

  /** One entry for each inode of a regular file among the nodes, each for a file among them. */
  ghost predicate Gathered(files: map<nat, FileInfo>, kids: seq<Child>, base: int, fit: Fit) {
    && (forall i :: i in files ==> files[i].ino == i && EntryForSome(files[i], kids, base, fit))
    && (forall j :: 0 <= j < |kids| && kids[j].node.Reg? ==> kids[j].node.st.ino in files)
  }

  /** The node was entered if it is a regular file. */
  ghost predicate Entered(c: Tree, before: map<nat, FileInfo>, after: map<nat, FileInfo>, base: int, fit: Fit) {
    if c.Reg? then exists fi :: EntryFor(fi, c, base, fit) && after == before[fi.ino := fi] else after == before
  }

  lemma GatheredNext(files: map<nat, FileInfo>, after: map<nat, FileInfo>, kids: seq<Child>, i: nat, base: int,
                     fit: Fit)
    requires i < |kids| && Gathered(files, kids[..i], base, fit) && Entered(kids[i].node, files, after, base, fit)
    ensures Gathered(after, kids[..i + 1], base, fit)
  {
    assert kids[..i + 1][i] == kids[i];
    forall k | k in files ensures EntryForSome(files[k], kids[..i + 1], base, fit) {
      var j :| 0 <= j < i && EntryFor(files[k], kids[..i][j].node, base, fit);
      assert kids[..i + 1][j] == kids[j];
    }
    forall j | 0 <= j < i + 1 && kids[j].node.Reg? ensures kids[j].node.st.ino in after {
      assert j < i ==> kids[..i][j] == kids[j];
    }
  }

  /** The entries of a directory are those gathered from its children. */
  ghost predicate Remembers(es: set<FileInfo>, kids: seq<Child>, base: int, fit: Fit) {
    exists files: map<nat, FileInfo> :: Gathered(files, kids, base, fit) && es == Written(files, base)
  }

  ghost predicate HasIno(es: set<FileInfo>, ino: nat) {
    exists fi :: fi in es && fi.ino == ino
  }

  ghost predicate Right(fi: FileInfo, c: Tree, fit: Fit) {
    c.Reg? && fi.ino == c.st.ino && fi.ctime == UnixNano(c.st.ctime.Nanos()) && fit(fi.data, c)
  }

  ghost predicate RightForSome(fi: FileInfo, kids: seq<Child>, fit: Fit) {
    exists j :: 0 <= j < |kids| && Right(fi, kids[j].node, fit)
  }

  /** One entry for each inode of the regular files, each right for a file there, and no other. */
  ghost predicate Matches(es: set<FileInfo>, kids: seq<Child>, fit: Fit) {
    && (forall fi :: fi in es ==> RightForSome(fi, kids, fit))
    && (forall j :: 0 <= j < |kids| && kids[j].node.Reg? ==> HasIno(es, kids[j].node.st.ino))
    && (forall a, b :: a in es && b in es && a.ino == b.ino ==> a == b)
  }

  lemma StoredRight(fi: FileInfo, c: Tree, base: int, fit: Fit)
    requires EntryFor(fi, c, base, fit) && IsInt64(base) && IsInt64(base + 6 * WEEK)
    ensures Right(InfoOf(RowFor(0, fi)), c, fit) && InfoOf(RowFor(0, fi)).expire == fi.expire
  {
    UnixNanoExact(fi.expire);
  }

  /** What is remembered matches the files, while the times of the entries fit the column that stores them. */
  lemma RemembersMatches(es: set<FileInfo>, kids: seq<Child>, base: int, fit: Fit)
    requires Remembers(es, kids, base, fit) && IsInt64(base) && IsInt64(base + 6 * WEEK)
    ensures Matches(es, kids, fit) && forall fi :: fi in es ==> fi.expire >= base
  {
    hide UnixNano, EntryFor, Right;
    var files: map<nat, FileInfo> :| Gathered(files, kids, base, fit) && es == Written(files, base);
    forall i | i in files
      ensures RightForSome(InfoOf(RowFor(0, files[i])), kids, fit) && files[i].expire >= base
      ensures InfoOf(RowFor(0, files[i])).expire == files[i].expire
    {
      var j :| 0 <= j < |kids| && EntryFor(files[i], kids[j].node, base, fit);
      EntryUnexpired(files[i], kids[j].node, base, fit);
      StoredRight(files[i], kids[j].node, base, fit);
    }
    forall j | 0 <= j < |kids| && kids[j].node.Reg? ensures HasIno(es, kids[j].node.st.ino) {
      assert InfoOf(RowFor(0, files[kids[j].node.st.ino])) in es;
    }
  }

  lemma EntryUnexpired(fi: FileInfo, c: Tree, base: int, fit: Fit)
    requires EntryFor(fi, c, base, fit)
    ensures fi.expire >= base
  {
  }

  /** What the cache tells of a file: its inode, the 64 bits of its ctime and its bytes. */
  datatype FileFact = FileFact(ino: nat, ctime: int, bytes: Bytes)

  function FactOf(c: Tree): FileFact
    requires c.Reg?
  {
    FileFact(c.st.ino, UnixNano(c.st.ctime.Nanos()), Concat(c.pieces))
  }

  ghost function Facts(kids: seq<Child>): set<FileFact> {
    set j | 0 <= j < |kids| && kids[j].node.Reg? :: FactOf(kids[j].node)
  }

  /** Names of one inode show the same file. */
  ghost predicate Coherent(kids: seq<Child>) {
    forall f, g :: f in Facts(kids) && g in Facts(kids) && f.ino == g.ino ==> f == g
  }

  ghost predicate FactFor(r: Repo, fi: FileInfo, f: FileFact)
    requires Closed(r)
  {
    f.ino == fi.ino && f.ctime == fi.ctime && fi.data in r.store && BlobData(Story(r, fi.data)) == Some(f.bytes)
  }

  lemma RightFact(r: Repo, fi: FileInfo, kids: seq<Child>)
    requires Closed(r)
    ensures RightForSome(fi, kids, Reads(r)) <==>
      exists f :: f in Facts(kids) && FactFor(r, fi, f)
  {
    hide Closed, UnixNano, BlobData, Story;
    if RightForSome(fi, kids, Reads(r)) {
      var j :| 0 <= j < |kids| && Right(fi, kids[j].node, Reads(r));
      assert FactOf(kids[j].node) in Facts(kids);
    }
    if f :| f in Facts(kids) && FactFor(r, fi, f) {
      var j :| 0 <= j < |kids| && kids[j].node.Reg? && f == FactOf(kids[j].node);
      assert Right(fi, kids[j].node, Reads(r));
    }
  }

  /** Entries match two directories exactly when these have the same files. */
  lemma MatchesBoth(r: Repo, es: set<FileInfo>, a: seq<Child>, b: seq<Child>)
    requires Closed(r) && Matches(es, b, Reads(r)) && Coherent(a) && Coherent(b)
    ensures Matches(es, a, Reads(r)) <==> Facts(a) == Facts(b)
  {
    hide Closed, RightForSome, Facts;
    forall fi ensures RightForSome(fi, a, Reads(r)) && RightForSome(fi, b, Reads(r)) ==> SharedFact(fi, a, b) {
      RightFact(r, fi, a);
      RightFact(r, fi, b);
    }
    forall fi | Facts(a) == Facts(b) ensures RightForSome(fi, a, Reads(r)) == RightForSome(fi, b, Reads(r)) {
      RightFact(r, fi, a);
      RightFact(r, fi, b);
    }
    InosOfFacts(es, a);
    InosOfFacts(es, b);
    if Matches(es, a, Reads(r)) {
      forall f ensures f in Facts(a) <==> f in Facts(b) {
        if f in Facts(a) || f in Facts(b) {
          var fi :| fi in es && fi.ino == f.ino;
          assert SharedFact(fi, a, b);
        }
      }
    }
  }

  ghost predicate SharedFact(fi: FileInfo, a: seq<Child>, b: seq<Child>) {
    exists f :: f in Facts(a) && f in Facts(b) && f.ino == fi.ino
  }

  lemma InosOfFacts(es: set<FileInfo>, kids: seq<Child>)
    ensures (forall j :: 0 <= j < |kids| && kids[j].node.Reg? ==> HasIno(es, kids[j].node.st.ino))
        <==> forall f :: f in Facts(kids) ==> HasIno(es, f.ino)
  {
    hide HasIno;
    forall j | 0 <= j < |kids| && kids[j].node.Reg? ensures FactOf(kids[j].node) in Facts(kids) {
    }
  }

  // ---- inode numbers -----------------------------------------------------------------------

  /** The regular files have inode numbers that the database driver takes. */
  predicate FilesBelow(kids: seq<Child>) {
    forall i :: 0 <= i < |kids| && kids[i].node.Reg? ==> kids[i].node.st.ino < INT64_LIMIT
  }

  /** Every directory, and every regular file in it, has an inode number below 2^63. */
  predicate InosBelow(t: Tree)
    decreases t, 1
  {
    t.Dir? ==> t.st.ino < INT64_LIMIT && FilesBelow(t.kids) && DirsBelow(t.kids)
  }

  predicate DirsBelow(kids: seq<Child>)
    decreases kids, 0
  {
    forall i :: 0 <= i < |kids| ==> InosBelow(kids[i].node)
  }

  lemma BelowNext(kids: seq<Child>, i: nat)
    requires i < |kids|
    ensures DirsBelow(kids[..i]) && InosBelow(kids[i].node) ==> DirsBelow(kids[..i + 1])
    ensures !InosBelow(kids[i].node) ==> !DirsBelow(kids)
  {
    hide InosBelow;
  }

  /** The driver takes the gathered entries exactly when it takes the numbers of the files. */
  lemma GatheredBelow(ino: nat, files: map<nat, FileInfo>, kids: seq<Child>, base: int, fit: Fit)
    requires Gathered(files, kids, base, fit)
    ensures Taken(ino, files, base) <==> ino < INT64_LIMIT && FilesBelow(kids)
  {
    hide UnixNano;
    forall i | i in files ensures files[i].expire >= base && exists j :: 0 <= j < |kids| && FileIs(kids[j].node, i) {
      var j :| 0 <= j < |kids| && EntryFor(files[i], kids[j].node, base, fit);
      assert FileIs(kids[j].node, i);
    }
  }

  predicate FileIs(c: Tree, ino: nat) {
    c.Reg? && c.st.ino == ino
  }

  /** A file of inode 2^63 is enough: the tree is refused whatever else it holds. */
  lemma LargeInode(root: Stat, name: Bytes, file: Stat, pieces: seq<Bytes>, rest: seq<Child>)
    requires file.ino == 0x8000_0000_0000_0000
    ensures !InosBelow(Visible(Dir(root, [Child(name, Reg(file, pieces))] + rest), root.dev))
  {
    var kids := [Child(name, Reg(file, pieces))] + rest;
    assert VisibleKids(kids, root.dev)[0].node.st.ino == INT64_LIMIT;
  }

  // ---- one directory after another ---------------------------------------------------------

  /** A directory by its inode number, with its children. */
  datatype Place = Place(ino: nat, kids: seq<Child>)

  /** The directories of a tree in the order in which a walk leaves them. */
  function Left(t: Tree): seq<Place>
    decreases t, 1
  {
    if t.Dir? then LeftKids(t.kids) + [Place(t.st.ino, t.kids)] else []
  }

  function LeftKids(kids: seq<Child>): seq<Place>
    decreases kids, 0
  {
    if kids == [] then [] else Left(kids[0].node) + LeftKids(kids[1..])
  }

  /** The last of the directories with this inode number. */
  function LastOf(dirs: seq<Place>, ino: nat): Option<Place> {
    if dirs == [] then None
    else if dirs[|dirs| - 1].ino == ino then Some(dirs[|dirs| - 1])
    else LastOf(dirs[..|dirs| - 1], ino)
  }

  lemma {:induction false} LastOfAppend(a: seq<Place>, b: seq<Place>, ino: nat)
    ensures LastOf(a + b, ino) == if LastOf(b, ino).Some? then LastOf(b, ino) else LastOf(a, ino)
  {
    if b == [] {
      assert a + b == a;
    } else {
      LastOfAppend(a, b[..|b| - 1], ino);
      assert (a + b)[..|a + b| - 1] == a + b[..|b| - 1];
    }
  }

  lemma {:induction false} LastOfIn(dirs: seq<Place>, ino: nat)
    ensures LastOf(dirs, ino).Some? ==> LastOf(dirs, ino).value in dirs && LastOf(dirs, ino).value.ino == ino
  {
    if dirs != [] && dirs[|dirs| - 1].ino != ino {
      LastOfIn(dirs[..|dirs| - 1], ino);
    }
  }

  lemma {:induction false} LeftKidsSnoc(kids: seq<Child>, i: nat)
    requires i < |kids|
    ensures LeftKids(kids[..i + 1]) == LeftKids(kids[..i]) + Left(kids[i].node)
  {
    var a, b := kids[..i + 1], kids[..i];
    if i == 0 {
      assert a == [kids[0]] && a[1..] == [] && b == [];
      assert Left(kids[0].node) + [] == Left(kids[0].node);
    } else {
      LeftKidsSnoc(kids[1..], i - 1);
      assert a[1..] == kids[1..][..i] && b[1..] == kids[1..][..i - 1];
      var x, y, z := Left(kids[0].node), LeftKids(b[1..]), Left(kids[i].node);
      assert x + (y + z) == x + y + z;
    }
  }

  /** The directory that determines the entries of a key, when these were left in turn. */
  ghost function Deciding(dirs: seq<Place>, fsid: nat, key: DirKey): Option<Place> {
    if key.fsid == fsid then LastOf(dirs, key.pino) else None
  }

  ghost predicate LeavesAt(t: Tables, u: Tables, fsid: nat, base: int, dirs: seq<Place>, fit: Fit, key: DirKey) {
    match Deciding(dirs, fsid, key)
    case None => Infos(u, key) == Infos(t, key)
    case Some(d) => Remembers(Infos(u, key), d.kids, base, fit)
  }

  /** Every directory of every filesystem has the entries of the directory with its number that was left last, and
      its old ones if there was none. */
  ghost predicate Leaves(t: Tables, u: Tables, fsid: nat, base: int, dirs: seq<Place>, fit: Fit) {
    forall key: DirKey :: LeavesAt(t, u, fsid, base, dirs, fit, key)
  }

  lemma LeavesNothing(t: Tables, u: Tables, fsid: nat, base: int, fit: Fit)
    requires forall key: DirKey :: Infos(u, key) == Infos(t, key)
    ensures Leaves(t, u, fsid, base, [], fit)
  {
  }

  lemma LeavesOne(t: Tables, u: Tables, fsid: nat, base: int, d: Place, fit: Fit)
    requires Remembers(Infos(u, DirKey(fsid, d.ino)), d.kids, base, fit)
    requires forall key: DirKey :: key != DirKey(fsid, d.ino) ==> Infos(u, key) == Infos(t, key)
    ensures Leaves(t, u, fsid, base, [d], fit)
  {
    hide Infos, Remembers;
    forall key: DirKey ensures LeavesAt(t, u, fsid, base, [d], fit, key) {
      assert [d][..0] == [] && LastOf([], key.pino) == None;
    }
  }

  lemma LeavesThen(t: Tables, u: Tables, w: Tables, fsid: nat, base: int, a: seq<Place>, b: seq<Place>, fit: Fit)
    requires Leaves(t, u, fsid, base, a, fit) && Leaves(u, w, fsid, base, b, fit)
    ensures Leaves(t, w, fsid, base, a + b, fit)
  {
    hide Infos, Remembers, LastOf;
    forall key: DirKey ensures LeavesAt(t, w, fsid, base, a + b, fit, key) {
      LastOfAppend(a, b, key.pino);
      assert LeavesAt(t, u, fsid, base, a, fit, key) && LeavesAt(u, w, fsid, base, b, fit, key);
    }
  }

  /** Writing the gathered files of a directory. */
  lemma LeavesWritten(t: Tables, fsid: nat, base: int, d: Place, files: map<nat, FileInfo>, fit: Fit)
    requires Consistent(t) && fsid in t.filesystems.Values && Gathered(files, d.kids, base, fit)
    ensures Leaves(t, Rewritten(t, DirKey(fsid, d.ino), base, files), fsid, base, [d], fit)
  {
    hide Infos, Rewritten, Consistent, Written, EntryForSome;
    var key := DirKey(fsid, d.ino);
    forall other: DirKey
      ensures Infos(Rewritten(t, key, base, files), other) ==
        if other == key then Written(files, base) else Infos(t, other)
    {
      RewrittenInfos(t, key, base, files, other);
    }
    LeavesOne(t, Rewritten(t, key, base, files), fsid, base, d, fit);
  }

  /** Numbering a filesystem first changes nothing. */
  lemma LeavesNumbered(t: Tables, uuid: Bytes, u: Tables, fsid: nat, base: int, dirs: seq<Place>, fit: Fit)
    requires Consistent(t) && Leaves(WithFilesystem(t, uuid), u, fsid, base, dirs, fit)
    ensures Leaves(t, u, fsid, base, dirs, fit)
  {
    hide Consistent, WithFilesystem, Infos, Leaves;
    var w := WithFilesystem(t, uuid);
    forall key: DirKey ensures Infos(w, key) == Infos(t, key) {
      NewFilesystem(t, uuid, key);
    }
    LeavesNothing(t, w, fsid, base, fit);
    LeavesThen(t, w, u, fsid, base, [], dirs, fit);
    assert [] + dirs == dirs;
  }

  // ---- after a walk ------------------------------------------------------------------------

  ghost predicate DecidedAt(t: Tables, u: Tables, fsid: nat, base: int, dirs: seq<Place>, fit: Fit, key: DirKey) {
    match Deciding(dirs, fsid, key)
    case None => Infos(u, key) == Infos(t, key)
    case Some(d) => Matches(Entries(u, key, base), d.kids, fit)
  }

  /** For every directory that was left, what `GetDir` finds under its number are the files of the directory with
      that number that was left last; under other numbers and in other filesystems it finds what it found before. */
  ghost predicate Decided(t: Tables, u: Tables, fsid: nat, base: int, dirs: seq<Place>, fit: Fit) {
    forall key: DirKey :: DecidedAt(t, u, fsid, base, dirs, fit, key)
  }

  lemma LeavesDecided(t: Tables, u: Tables, fsid: nat, base: int, dirs: seq<Place>, fit: Fit)
    requires Leaves(t, u, fsid, base, dirs, fit) && IsInt64(base) && IsInt64(base + 6 * WEEK)
    ensures Decided(t, u, fsid, base, dirs, fit)
  {
    hide Infos, Entries, Remembers, Matches, LastOf;
    forall key: DirKey ensures DecidedAt(t, u, fsid, base, dirs, fit, key) {
      assert LeavesAt(t, u, fsid, base, dirs, fit, key);
      if Deciding(dirs, fsid, key).Some? {
        RemembersMatches(Infos(u, key), Deciding(dirs, fsid, key).value.kids, base, fit);
        EntriesOfInfos(u, key, base);
        assert Entries(u, key, base) == Infos(u, key);
      }
    }
  }

  /** A directory keeps its entries exactly when the directory with its number that is left last, mount points
      included, has the same files. */
  lemma KeepsEntries(r: Repo, t: Tables, u: Tables, fsid: nat, base: int, dirs: seq<Place>, d: Place)
    requires Closed(r) && Decided(t, u, fsid, base, dirs, Reads(r)) && d in dirs
    requires forall e :: e in dirs ==> Coherent(e.kids)
    ensures LastOf(dirs, d.ino).Some?
    ensures Matches(Entries(u, DirKey(fsid, d.ino), base), d.kids, Reads(r)) <==>
      Facts(d.kids) == Facts(LastOf(dirs, d.ino).value.kids)
  {
    hide Closed, Infos, Entries, Matches, LastOf, Coherent, Facts;
    LastOfSome(dirs, d);
    LastOfIn(dirs, d.ino);
    assert DecidedAt(t, u, fsid, base, dirs, Reads(r), DirKey(fsid, d.ino));
    MatchesBoth(r, Entries(u, DirKey(fsid, d.ino), base), d.kids, LastOf(dirs, d.ino).value.kids);
  }

  lemma {:induction false} LastOfSome(dirs: seq<Place>, d: Place)
    requires d in dirs
    ensures LastOf(dirs, d.ino).Some?
  {
    if dirs[|dirs| - 1].ino != d.ino {
      LastOfSome(dirs[..|dirs| - 1], d);
    }
  }

  /** The order of a walk can erase entries: below a root, directory "a" has a file, and after it comes "m", where
      another filesystem is mounted, whose root happens to have the same inode number. */
  lemma MountPointErases(t: Tables, u: Tables, fsid: nat, base: int, fit: Fit, root: Stat, a: Stat, m: Stat, f: Child)
    requires a.ino == m.ino != root.ino && m.dev != root.dev && a.dev == root.dev && f.node.Reg?
    requires var tree := Dir(root, [Child("a", Dir(a, [f])), Child("m", Dir(m, []))]);
      Leaves(t, u, fsid, base, Left(Visible(tree, root.dev)), fit)
    ensures Infos(u, DirKey(fsid, a.ino)) == {}
    ensures !Matches(Entries(u, DirKey(fsid, a.ino), base), [f], fit)
  {
    hide Infos, Entries;
    var tree := Dir(root, [Child("a", Dir(a, [f])), Child("m", Dir(m, []))]);
    var key, dirs := DirKey(fsid, a.ino), Left(Visible(tree, root.dev));
    MountPointLast(root, a, m, f);
    assert LeavesAt(t, u, fsid, base, dirs, fit, key);
    var files: map<nat, FileInfo> :| Gathered(files, [], base, fit) && Infos(u, key) == Written(files, base);
    EntriesOfInfos(u, key, base);
    assert [f][0].node.Reg?;
  }

  lemma MountPointLast(root: Stat, a: Stat, m: Stat, f: Child)
    requires a.ino == m.ino != root.ino && m.dev != root.dev && a.dev == root.dev && f.node.Reg?
    ensures var tree := Dir(root, [Child("a", Dir(a, [f])), Child("m", Dir(m, []))]);
      LastOf(Left(Visible(tree, root.dev)), a.ino) == Some(Place(a.ino, []))
  {
    var x, y := Dir(a, [f]), Dir(m, []);
    var kids := [Child("a", x), Child("m", y)];
    assert Visible(f.node, root.dev) == f.node && VisibleKids([f], root.dev) == [f];
    assert VisibleKids(kids, root.dev) == kids;
    assert kids[1..] == [Child("m", y)] && kids[1..][1..] == [] && [f][1..] == [];
    var last := Place(root.ino, kids);
    assert LeftKids([f]) == [] && Left(x) == [Place(a.ino, [f])] && Left(y) == [Place(m.ino, [])];
    assert LeftKids(kids[1..]) == [Place(m.ino, [])];
    var dirs := [Place(a.ino, [f]), Place(m.ino, [])];
    assert LeftKids(kids) == dirs;
    assert (dirs + [last])[..2] == dirs;
  }

  // ---- how old entries can get -------------------------------------------------------------

  /** A file in a directory of a filesystem. */
  datatype FileAt = FileAt(key: DirKey, ino: nat)

  /** An expiry time given out at the base time. */
  ghost predicate Fresh(expire: int, base: int) {
    exists e: int :: base + 2 * WEEK <= e < base + 6 * WEEK && expire == UnixNano(e)
  }

  /** The entry was there before, with the same expiry, or it is fresh and its file was read. */
  ghost predicate RenewedAt(t: Tables, key: DirKey, fi: FileInfo, base: int, read: set<FileAt>) {
    fi in Infos(t, key) || (FileAt(key, fi.ino) in read && Fresh(fi.expire, base))
  }

  ghost predicate Renewed(t: Tables, u: Tables, base: int, read: set<FileAt>) {
    forall key: DirKey, fi :: fi in Infos(u, key) ==> RenewedAt(t, key, fi, base, read)
  }

  /** The same of files collected for a directory, as the cache will store them. */
  ghost predicate Dated(t: Tables, key: DirKey, files: map<nat, FileInfo>, base: int, read: set<FileAt>) {
    forall i :: i in files ==> RenewedAt(t, key, InfoOf(RowFor(0, files[i])), base, read)
  }

  lemma NothingRenewed(t: Tables, u: Tables, base: int)
    requires forall key: DirKey :: Infos(u, key) == Infos(t, key)
    ensures Renewed(t, u, base, {})
  {
    hide Infos, Fresh;
  }

  lemma RenewedSame(t: Tables, u: Tables, w: Tables, base: int, read: set<FileAt>)
    requires Renewed(t, u, base, read) && forall key: DirKey :: Infos(w, key) == Infos(u, key)
    ensures Renewed(t, w, base, read)
  {
    hide Infos, RenewedAt;
  }

  lemma RenewedFrom(t: Tables, u: Tables, w: Tables, base: int, read: set<FileAt>)
    requires Renewed(u, w, base, read) && forall key: DirKey :: Infos(t, key) == Infos(u, key)
    ensures Renewed(t, w, base, read)
  {
    hide Infos, Fresh;
    forall key: DirKey, fi | fi in Infos(w, key) ensures RenewedAt(t, key, fi, base, read) {
      assert RenewedAt(u, key, fi, base, read);
    }
  }

  lemma RenewedMore(t: Tables, u: Tables, base: int, read: set<FileAt>, more: set<FileAt>)
    requires Renewed(t, u, base, read) && read <= more
    ensures Renewed(t, u, base, more)
  {
    hide Infos, Fresh;
    forall key: DirKey, fi | fi in Infos(u, key) ensures RenewedAt(t, key, fi, base, more) {
      assert RenewedAt(t, key, fi, base, read);
    }
  }

  lemma DatedMore(t: Tables, key: DirKey, files: map<nat, FileInfo>, base: int, read: set<FileAt>, more: set<FileAt>)
    requires Dated(t, key, files, base, read) && read <= more
    ensures Dated(t, key, files, base, more)
  {
    hide Infos, Fresh, UnixNano;
    forall i | i in files ensures RenewedAt(t, key, InfoOf(RowFor(0, files[i])), base, more) {
      assert RenewedAt(t, key, InfoOf(RowFor(0, files[i])), base, read);
    }
  }

  lemma DatedPut(t: Tables, key: DirKey, files: map<nat, FileInfo>, base: int, read: set<FileAt>, fi: FileInfo)
    requires Dated(t, key, files, base, read) && RenewedAt(t, key, InfoOf(RowFor(0, fi)), base, read)
    ensures Dated(t, key, files[fi.ino := fi], base, read)
  {
    hide RenewedAt, UnixNano;
  }

  /** An entry for a file that was read. */
  lemma ReadRenewed(t: Tables, key: DirKey, base: int, read: set<FileAt>, fi: FileInfo)
    requires base + 2 * WEEK <= fi.expire < base + 6 * WEEK && FileAt(key, fi.ino) in read
    ensures RenewedAt(t, key, InfoOf(RowFor(0, fi)), base, read)
  {
    hide UnixNano, Infos;
    assert Fresh(UnixNano(fi.expire), base);
  }

  /** Updating a directory, even when it fails half way. */
  lemma RenewedPartly(t: Tables, u: Tables, w: Tables, key: DirKey, files: map<nat, FileInfo>, base: int,
                      read: set<FileAt>)
    requires Renewed(t, u, base, read) && Partly(u, w, key, files) && Dated(t, key, files, base, read)
    ensures Renewed(t, w, base, read)
  {
    hide RenewedAt, UnixNano;
    forall k: DirKey, fi | fi in Infos(w, k) ensures RenewedAt(t, k, fi, base, read) {
      var r :| r in DirRows(w, k) && fi == InfoOf(r);
      assert OldOrNew(u, w, key, files, r);
      if r in u.ctimeCache && r.pkey in u.ctimeDirs && w.ctimeDirs[r.pkey] == u.ctimeDirs[r.pkey] {
        assert r in DirRows(u, k);
      } else {
        var i :| i in files && r == RowFor(r.pkey, files[i]);
        assert fi == InfoOf(RowFor(0, files[i]));
      }
    }
  }

  /** Every entry expires less than six weeks after the last time its file was read. */
  ghost predicate Leased(t: Tables, last: map<FileAt, int>) {
    forall key: DirKey, fi :: fi in Infos(t, key) ==> LeasedAt(last, key, fi)
  }

  ghost predicate LeasedAt(last: map<FileAt, int>, key: DirKey, fi: FileInfo) {
    FileAt(key, fi.ino) in last && fi.expire < last[FileAt(key, fi.ino)] + 6 * WEEK
  }

  /** The times of the last reading after some files were read; the clock may have been set back. */
  function Noted(last: map<FileAt, int>, read: set<FileAt>, now: int): map<FileAt, int> {
    map x | x in last.Keys + read ::
      if x !in read then last[x] else if x in last && last[x] > now then last[x] else now
  }

  /** No entry outlives the last reading of its file by six weeks. */
  lemma LeaseKept(t: Tables, u: Tables, now: int, read: set<FileAt>, last: map<FileAt, int>)
    requires Leased(t, last) && Renewed(t, u, now, read) && IsInt64(now) && IsInt64(now + 6 * WEEK)
    ensures Leased(u, Noted(last, read, now))
  {
    hide Infos, UnixNano;
    forall key: DirKey, fi | fi in Infos(u, key) ensures LeasedAt(Noted(last, read, now), key, fi) {
      assert RenewedAt(t, key, fi, now, read);
      if fi in Infos(t, key) {
        assert LeasedAt(last, key, fi);
      } else {
        var e: int :| now + 2 * WEEK <= e < now + 6 * WEEK && fi.expire == UnixNano(e);
        UnixNanoExact(e);
      }
    }
  }
}
