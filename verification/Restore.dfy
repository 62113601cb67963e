/** Restoring a backup into a file system (src/godump/restore/restore.go, the path of src/store/visitor.go). */
module Restores {
  import opened Base
  import opened Text
  import opened Props
  import opened Visitors
  import opened Files
  import opened Trees

  // ---- paths -------------------------------------------------------------------------------

  type Path = seq<Bytes>

  predicate GoodName(name: Bytes) {
    name != [] && '/' !in name
  }

  predicate GoodPath(path: Path) {
    forall i :: 0 <= i < |path| ==> GoodName(path[i])
  }

  function Extended(text: Bytes, name: Bytes): Bytes {
    if text != [] then text + "/" + name else name
  }

  function PathText(base: Bytes, path: Path): Bytes {
    if path == [] then base else Extended(PathText(base, path[..|path| - 1]), path[|path| - 1])
  }

  /** `PathTrackerImpl.Path`. */
  method PathOf(base: Bytes, path: Path) returns (buf: Bytes)
    ensures buf == PathText(base, path)
  {
    buf := base;
    for i := 0 to |path|
      invariant buf == PathText(base, path[..i])
    {
      if |buf| > 0 {
        buf := buf + "/";
      }
      buf := buf + path[i];
      assert path[..i + 1][..i] == path[..i];
    }
    assert path[..|path|] == path;
  }

  lemma LastSlash(a: Bytes, m: Bytes, b: Bytes, n: Bytes)
    requires '/' !in m && '/' !in n && a + "/" + m == b + "/" + n
    ensures a == b && m == n
  {
    var s := a + "/" + m;
    assert s[|a|] == '/' && s[|b|] == '/';
    assert forall k :: |a| < k < |s| ==> s[k] == m[k - |a| - 1];
    assert forall k :: |b| < k < |s| ==> s[k] == n[k - |b| - 1];
    assert s[..|a|] == a && s[|a| + 1..] == m;
    assert s[..|b|] == b && s[|b| + 1..] == n;
  }

  lemma HasSlash(a: Bytes, m: Bytes)
    ensures '/' in a + "/" + m
  {
    assert (a + "/" + m)[|a|] == '/';
  }

  lemma {:induction false} PathTextGrows(base: Bytes, path: Path)
    requires GoodPath(path)
    ensures |PathText(base, path)| >= |base| && (path != [] ==> |PathText(base, path)| > |base|)
  {
    if path != [] {
      PathTextGrows(base, path[..|path| - 1]);
    }
  }

  /** Different places of a tree have different path names, below any base. */
  lemma {:induction false} PathInjective(base: Bytes, p: Path, q: Path)
    requires GoodPath(p) && GoodPath(q) && PathText(base, p) == PathText(base, q)
    ensures p == q
    decreases |p|
  {
    PathTextGrows(base, p);
    PathTextGrows(base, q);
    if p != [] && q != [] {
      var m, n := |p| - 1, |q| - 1;
      var a, b := PathText(base, p[..m]), PathText(base, q[..n]);
      assert GoodName(p[m]) && GoodName(q[n]);
      HasSlash(a, p[m]);
      HasSlash(b, q[n]);
      if a != [] && b != [] {
        LastSlash(a, p[m], b, q[n]);
      }
      PathInjective(base, p[..m], q[..n]);
      assert p == p[..m] + [p[m]] && q == q[..n] + [q[n]];
    }
  }

  /** The parts of a path name between its slashes. */
  function Parts(t: Bytes): (r: seq<Bytes>)
    ensures r != []
  {
    if t == [] then [[]]
    else
      var rest := Parts(t[1..]);
      if t[0] == '/' then [[]] + rest else [[t[0]] + rest[0]] + rest[1..]
  }

  lemma {:induction false} PartsPlain(name: Bytes)
    requires '/' !in name
    ensures Parts(name) == [name]
  {
    if name != [] {
      PartsPlain(name[1..]);
      assert [name[0]] + name[1..] == name;
    }
  }

  lemma PartsFront(c: Byte, a: seq<Bytes>, b: seq<Bytes>)
    requires a != []
    ensures [[c] + (a + b)[0]] + (a + b)[1..] == [[c] + a[0]] + a[1..] + b
    ensures [[]] + (a + b) == [[]] + a + b
  {
  }

  lemma {:induction false} PartsJoin(a: Bytes, b: Bytes)
    ensures Parts(a + "/" + b) == Parts(a) + Parts(b)
  {
    var t := a + "/" + b;
    if a == [] {
      assert t[1..] == b;
    } else {
      PartsJoin(a[1..], b);
      assert t[0] == a[0] && t[1..] == a[1..] + "/" + b;
      PartsFront(a[0], Parts(a[1..]), Parts(b));
    }
  }

  /** The parts of a path name are those of the base and then the names, in order. */
  lemma {:induction false} PathParts(base: Bytes, path: Path)
    requires GoodPath(path) && (base != [] || path != [])
    ensures Parts(PathText(base, path)) == (if base == [] then [] else Parts(base)) + path
  {
    if path != [] {
      var front, name := path[..|path| - 1], path[|path| - 1];
      assert GoodName(name) && path == front + [name];
      PathTextGrows(base, front);
      PartsPlain(name);
      if base != [] || front != [] {
        PathParts(base, front);
        PartsJoin(PathText(base, front), name);
      }
    }
  }

  // ---- a file system -----------------------------------------------------------------------

  /** `owner` is what was set by chown, and `mtime` what was set by chtimes and not disturbed since. */
  datatype Meta = Meta(perm: nat, owner: Option<(int, int)>, mtime: Option<int>)

  datatype Node =
    | File(meta: Meta, data: Bytes)
    | Folder(meta: Meta)
    | Link(meta: Meta, target: Bytes)

  type Fs = map<Path, Node>

  function Parent(path: Path): Path
    requires path != []
  {
    path[..|path| - 1]
  }

  predicate IsFolder(fs: Fs, path: Path) {
    path in fs && fs[path].Folder?
  }

  /** Making a new entry fails on an existing path or without a parent, and disturbs the parent's time. */
  function Create(fs: Fs, path: Path, node: Node): Option<Fs> {
    if path in fs || (path != [] && !IsFolder(fs, Parent(path))) then None
    else Some(Touched(fs, path)[path := node])
  }

  function Touched(fs: Fs, path: Path): Fs {
    if path == [] || !IsFolder(fs, Parent(path)) then fs
    else fs[Parent(path) := Folder(fs[Parent(path)].meta.(mtime := None))]
  }

  function SetMeta(fs: Fs, path: Path, meta: Meta): Fs
    requires path in fs
  {
    fs[path := fs[path].(meta := meta)]
  }

  // ---- the callbacks -----------------------------------------------------------------------

  /** `GetInt`: a 32-bit number. */
  function GetInt(p: PropertyMap, name: Bytes): Option<int> {
    if name !in p.props then None
    else match ParseInt(p.props[name])
      case Some(i) => if -INT32_LIMIT <= i < INT32_LIMIT then Some(i) else None
      case None => None
  }

  const INT32_LIMIT := 0x8000_0000

  /** `file` is the path of the open file. */
  datatype Restoring = Restoring(fs: Fs, file: Option<Path>)

  const FAILED := Fail(Refused(1))

  function PropChown(fs: Fs, path: Path, p: PropertyMap, isRoot: bool): (Fs, bool) {
    if !isRoot then (fs, true)
    else if GetInt(p, "uid").None? || GetInt(p, "gid").None? || path !in fs then (fs, false)
    else (SetMeta(fs, path, fs[path].meta.(owner := Some((GetInt(p, "uid").value, GetInt(p, "gid").value)))), true)
  }

  function Chmod(fs: Fs, path: Path, p: PropertyMap): (Fs, bool) {
    if GetInt(p, "mode").None? || path !in fs then (fs, false)
    else (SetMeta(fs, path, fs[path].meta.(perm := GetInt(p, "mode").value % UINT32)), true)
  }

  function RestoreTime(fs: Fs, path: Path, p: PropertyMap): (Fs, bool) {
    if Timestamp(p.Get("mtime")).None? || path !in fs then (fs, false)
    else (SetMeta(fs, path, fs[path].meta.(mtime := Timestamp(p.Get("mtime")))), true)
  }

  /** `restoreReg`: owner, then mode, then time. */
  function RestoreReg(fs: Fs, path: Path, p: PropertyMap, isRoot: bool): (Fs, bool) {
    var (f, ok) := PropChown(fs, path, p, isRoot);
    if !ok then (f, false)
    else
      var (g, ok) := Chmod(f, path, p);
      if !ok then (g, false) else RestoreTime(g, path, p)
  }

  function RestoreLink(fs: Fs, path: Path, p: PropertyMap, isRoot: bool): (Fs, bool) {
    if GetInt(p, "mode").None? || "target" !in p.props then (fs, false)
    else match Create(fs, path, Link(Meta(0, None, None), p.props["target"]))
      case None => (fs, false)
      case Some(f) => PropChown(f, path, p, isRoot)
  }

  function Done(st: Restoring, r: (Fs, bool)): (Restoring, Reply) {
    (st.(fs := r.0), if r.1 then Continue else FAILED)
  }

  function React(isRoot: bool, st: Restoring, path: Path, e: Event): (Restoring, Reply) {
    match e
    case Open(p) =>
      (match Create(st.fs, path, File(Meta(0x180, None, None), []))
       case None => (st.(file := None), FAILED)
       case Some(f) => (Restoring(f, Some(path)), Continue))
    case Blob(_, data) =>
      if st.file.None? || st.file.value !in st.fs || !st.fs[st.file.value].File? then (st, FAILED)
      else (st.(fs := Appended(st.fs, st.file.value, data)), Continue)
    case Close(p) =>
      if st.file.None? then (st, FAILED) else Done(st.(file := None), RestoreReg(st.fs, path, p, isRoot))
    case Enter(p) =>
      (match Create(st.fs, path, Folder(Meta(0x1C0, None, None)))
       case None => (st, FAILED)
       case Some(f) => (st.(fs := f), Continue))
    case Leave(p) => Done(st, RestoreReg(st.fs, path, p, isRoot))
    case Node(p) => if p.kind == "LNK" then Done(st, RestoreLink(st.fs, path, p, isRoot)) else (st, Continue)
    case _ => (st, Continue)
  }

  function Appended(fs: Fs, path: Path, data: Bytes): Fs
    requires path in fs && fs[path].File?
  {
    fs[path := File(fs[path].meta, fs[path].data + data)]
  }

  function Restorer(isRoot: bool): Visitor<Restoring> {
    Visitor((st, path, e) => React(isRoot, st, path, e))
  }

  lemma RestorerIgnoresRaw(isRoot: bool)
    ensures IgnoresRaw(Restorer(isRoot))
  {
  }

  // ---- what a restore should make ----------------------------------------------------------

  function MetaOf(st: Stat, isRoot: bool): Meta {
    Meta(st.perm, if isRoot then Some((st.uid, st.gid)) else None, Some(st.mtime.Nanos()))
  }

  /** The files, directories and symbolic links of a tree at their paths; nothing is made of other nodes. */
  function Built(t: Tree, path: Path, isRoot: bool): Fs
    decreases t, 1
  {
    match t
    case Reg(st, pieces) => map[path := File(MetaOf(st, isRoot), Concat(pieces))]
    case Dir(st, kids) => BuiltKids(kids, path, isRoot)[path := Folder(MetaOf(st, isRoot))]
    case Other(st, kind, target) =>
      if kind == LNK then map[path := Link(Meta(0, MetaOf(st, isRoot).owner, None), target)] else map[]
  }

  function BuiltKids(kids: seq<Child>, path: Path, isRoot: bool): Fs
    decreases kids, 0
  {
    if kids == [] then map[]
    else Built(kids[0].node, path + [kids[0].name], isRoot) + BuiltKids(kids[1..], path, isRoot)
  }

  ghost predicate DistinctNames(kids: seq<Child>) {
    forall i, j :: 0 <= i < j < |kids| ==> kids[i].name != kids[j].name
  }

  /** Siblings have different names and all numbers fit their fields. */
  ghost predicate WellFormed(t: Tree) {
    && StatFits(t.st)
    && (t.Dir? ==> DistinctNames(t.kids) && forall i :: 0 <= i < |t.kids| ==> WellFormed(t.kids[i].node))
  }

  /** The numbers `GetInt` reads fit 32 bits. */
  predicate StatReads(st: Stat, isRoot: bool) {
    st.perm < INT32_LIMIT && (isRoot ==> st.uid < INT32_LIMIT && st.gid < INT32_LIMIT)
  }

  predicate Restorable(t: Tree, isRoot: bool) {
    match t
    case Reg(st, _) => StatReads(st, isRoot)
    case Dir(st, kids) => StatReads(st, isRoot) && forall i :: 0 <= i < |kids| ==> Restorable(kids[i].node, isRoot)
    case Other(st, kind, _) => kind == LNK ==> StatReads(st, isRoot)
  }

  /** Nothing is at the path or below it. */
  ghost predicate Vacant(fs: Fs, path: Path) {
    forall q :: q in fs ==> !(path <= q)
  }

  /** Exactly `add` is new, and what was there is as before, but for the times of the touched directories. */
  ghost predicate Grown(f: Fs, g: Fs, add: Fs, touched: set<Path>) {
    && g.Keys == f.Keys + add.Keys
    && (forall q :: q in add ==> g[q] == add[q])
    && (forall q :: q in f && q !in add && q !in touched ==> g[q] == f[q])
    && (forall q :: q in f && q in touched ==> SameButTime(f[q], g[q]))
  }

  predicate SameButTime(a: Node, b: Node) {
    b == a || (a.Folder? && b == Folder(a.meta.(mtime := None)))
  }

  function Around(path: Path): set<Path> {
    if path == [] then {} else {Parent(path)}
  }

  lemma GrownTransitive(f: Fs, g: Fs, h: Fs, a: Fs, b: Fs, touched: set<Path>)
    requires Grown(f, g, a, touched) && Grown(g, h, b, touched)
    requires a.Keys !! b.Keys && a.Keys !! touched && b.Keys !! f.Keys
    ensures Grown(f, h, a + b, touched)
  {
  }

  // ---- one node ----------------------------------------------------------------------------

  predicate HasStat(p: PropertyMap, st: Stat) {
    && "mode" in p.props && p.props["mode"] == Decimal(st.perm)
    && "uid" in p.props && p.props["uid"] == Decimal(st.uid)
    && "gid" in p.props && p.props["gid"] == Decimal(st.gid)
    && "mtime" in p.props && p.props["mtime"] == FormatTime(st.mtime.sec, st.mtime.nsec)
  }

  lemma StatUpdated(p: PropertyMap, st: Stat, key: Bytes, value: Bytes)
    requires HasStat(p, st) && key !in {"mode", "uid", "gid", "mtime"}
    ensures HasStat(PropertyMap(p.kind, p.props[key := value]), st)
  {
  }

  lemma StatKept(t: Tree, oid: OID)
    ensures HasStat(PropsOf(t), t.st) && HasStat(LinkedProps(t, oid), t.st)
  {
    var k := KindText(t);
    assert HasStat(PropertyMap(k, StatProps(t.st)), t.st);
    hide HasStat, StatProps;
    StatUpdated(PropertyMap(k, StatProps(t.st)), t.st, "rdev", Decimal(t.st.rdev));
    if t.Other? {
      StatUpdated(PropertyMap(k, StatProps(t.st)), t.st, "target", t.target);
    }
    StatUpdated(PropsOf(t), t.st, LinkKey(t), OidText(oid));
  }

  lemma NumberRead(p: PropertyMap, name: Bytes, n: nat)
    requires name in p.props && p.props[name] == Decimal(n)
    ensures GetInt(p, name) == if n < INT32_LIMIT then Some(n) else None
  {
    DecimalRoundTrip(n);
    assert IsDigit(Decimal(n)[0]);
  }

  /** Restoring the attributes of a file or directory works exactly when its numbers fit 32 bits. */
  lemma RegRestored(fs: Fs, path: Path, p: PropertyMap, st: Stat, isRoot: bool)
    requires path in fs && fs[path].meta.owner.None? && HasStat(p, st) && TimeFits(st.mtime)
    ensures RestoreReg(fs, path, p, isRoot).1 <==> StatReads(st, isRoot)
    ensures StatReads(st, isRoot) ==> RestoreReg(fs, path, p, isRoot).0 == SetMeta(fs, path, MetaOf(st, isRoot))
    ensures Attributed(MetaOf(st, isRoot), st, isRoot)
  {
    hide GetInt, Timestamp, FormatTime;
    NumberRead(p, "mode", st.perm);
    NumberRead(p, "uid", st.uid);
    NumberRead(p, "gid", st.gid);
    TimestampRoundTrip(st.mtime.sec, st.mtime.nsec);
  }

  lemma LinkRestored(fs: Fs, path: Path, t: Tree, isRoot: bool)
    requires t.Other? && t.kind == LNK && path !in fs && (path != [] ==> IsFolder(fs, Parent(path)))
    ensures RestoreLink(fs, path, PropsOf(t), isRoot).1 <==> StatReads(t.st, isRoot)
    ensures StatReads(t.st, isRoot) ==>
      RestoreLink(fs, path, PropsOf(t), isRoot).0
        == Touched(fs, path)[path := Link(Meta(0, MetaOf(t.st, isRoot).owner, None), t.target)]
    ensures OwnedBy(MetaOf(t.st, isRoot), t.st, isRoot)
  {
    hide GetInt;
    StatKept(t, seq(OID_LEN, _ => '\0'));
    NumberRead(PropsOf(t), "mode", t.st.perm);
    NumberRead(PropsOf(t), "uid", t.st.uid);
    NumberRead(PropsOf(t), "gid", t.st.gid);
  }

  /** A step with nothing inside is one callback. */
  lemma CallOnly(step: Step, path: Path, st: Restoring, isRoot: bool)
    requires step.Emit? && step.inner == []
    ensures var r, e := RunStep(step, Restorer(isRoot), path, st), React(isRoot, st, path, step.event);
      r.st == e.0 && (r.reply.Continue? <==> e.1.Continue? || (e.1.Prune? && step.soft))
  {
  }

  lemma {:induction false} BlobsWritten(body: seq<Step>, path: Path, st: Restoring, isRoot: bool, data: Bytes)
    requires BlobData(body) == Some(data)
    requires st.file.Some? && st.file.value in st.fs && st.fs[st.file.value].File?
    ensures var r := Run(body, Restorer(isRoot), path, st);
      r.reply.Continue? && r.st == st.(fs := Appended(st.fs, st.file.value, data))
  {
    var q := st.file.value;
    if body == [] {
      assert st.fs[q].data + [] == st.fs[q].data;
      assert Appended(st.fs, q, []) == st.fs;
    } else {
      var d, rest := body[0].event.data, BlobData(body[1..]).value;
      var mid := st.(fs := Appended(st.fs, q, d));
      BlobsWritten(body[1..], path, mid, isRoot, rest);
      CallOnly(body[0], path, st, isRoot);
      Assoc(st.fs[q].data, d, rest);
      assert Appended(mid.fs, q, rest) == Appended(st.fs, q, data);
    }
  }

  // ---- the whole tree ----------------------------------------------------------------------

  ghost predicate Outcome(r: Result<Restoring>, st: Restoring, add: Fs, touched: set<Path>, works: bool) {
    (r.reply.Continue? <==> works) && (works ==> Grown(st.fs, r.st.fs, add, touched))
  }

  ghost predicate Placeable(fs: Fs, path: Path) {
    Vacant(fs, path) && (path != [] ==> IsFolder(fs, Parent(path)))
  }

  lemma Created(fs: Fs, path: Path, node: Node)
    requires Placeable(fs, path)
    ensures path !in fs && Create(fs, path, node) == Some(Touched(fs, path)[path := node])
    ensures Grown(fs, Touched(fs, path)[path := node], map[path := node], Around(path))
  {
    assert path <= path;
  }

  lemma GrownPut(f: Fs, g: Fs, add: Fs, touched: set<Path>, path: Path, node: Node)
    requires Grown(f, g, add, touched) && path in add && path !in f
    ensures Grown(f, g[path := node], add[path := node], touched)
  {
  }

  lemma DirGrown(f: Fs, g: Fs, h: Fs, path: Path, node: Node, kids: Fs, m: Node)
    requires path !in f && path !in kids && kids.Keys !! f.Keys
    requires Grown(f, g, map[path := node], Around(path)) && Grown(g, h, kids, {path})
    ensures Grown(f, h[path := m], kids[path := m], Around(path))
  {
  }

  lemma {:induction false} BuiltBelow(t: Tree, path: Path, isRoot: bool)
    ensures forall q :: q in Built(t, path, isRoot) ==> path <= q
    decreases t, 1
  {
    if t.Dir? {
      KidsBelow(t.kids, path, isRoot);
    }
  }

  lemma {:induction false} KidsBelow(kids: seq<Child>, path: Path, isRoot: bool)
    ensures forall q :: q in BuiltKids(kids, path, isRoot) ==>
      path <= q && |q| > |path| && exists i :: 0 <= i < |kids| && q[|path|] == kids[i].name
    decreases kids, 0
  {
    if kids != [] {
      BuiltBelow(kids[0].node, path + [kids[0].name], isRoot);
      KidsBelow(kids[1..], path, isRoot);
      var first, rest := Built(kids[0].node, path + [kids[0].name], isRoot), BuiltKids(kids[1..], path, isRoot);
      assert BuiltKids(kids, path, isRoot).Keys == first.Keys + rest.Keys;
      forall q | q in BuiltKids(kids, path, isRoot)
        ensures path <= q && |q| > |path| && exists i :: 0 <= i < |kids| && q[|path|] == kids[i].name
      {
        if q in rest.Keys {
          var i :| 0 <= i < |kids[1..]| && q[|path|] == kids[1..][i].name;
          assert kids[i + 1].name == q[|path|];
        } else {
          assert q in first.Keys;
          assert (path + [kids[0].name])[|path|] == q[|path|];
          assert path <= path + [kids[0].name];
        }
      }
    }
  }

  /** A bracketed step: the opening callback, the body, and the closing callback when the body succeeds. */
  lemma Enclosed(first: Event, body: seq<Step>, last: Event, path: Path, st: Restoring, st1: Restoring, isRoot: bool)
    requires React(isRoot, st, path, first) == (st1, Continue)
    ensures var v := Restorer(isRoot);
      var whole := RunStep(Emit(first, true, body + [Emit(last, false, [])]), v, path, st);
      var inner := Run(body, v, path, st1);
      var end := React(isRoot, inner.st, path, last);
      if inner.reply.Continue? then whole.st == end.0 && (whole.reply.Continue? <==> end.1.Continue?)
      else !whole.reply.Continue?
  {
    hide React;
    RunEnclosed(first, body, last, Restorer(isRoot), path, st);
  }

  lemma FilePut(fs: Fs, f: Fs, path: Path, node: Node, data: Bytes, meta: Meta)
    requires path in f && f[path] == node && node.File? && node.data == [] && path !in fs
    requires Grown(fs, f, map[path := node], Around(path))
    ensures Grown(fs, SetMeta(Appended(f, path, data), path, meta), map[path := File(meta, data)], Around(path))
  {
    assert [] + data == data;
    assert SetMeta(Appended(f, path, data), path, meta) == f[path := File(meta, data)];
    assert map[path := node][path := File(meta, data)] == map[path := File(meta, data)];
    GrownPut(fs, f, map[path := node], Around(path), path, File(meta, data));
  }

  lemma RegPut(t: Tree, oid: OID, body: seq<Step>, path: Path, st: Restoring, isRoot: bool)
    requires t.Reg? && WellFormed(t) && Placeable(st.fs, path) && BlobData(body) == Some(Concat(t.pieces))
    ensures Outcome(RunStep(RegStep(t, oid, body), Restorer(isRoot), path, st), st, Built(t, path, isRoot),
                    Around(path),
                    Restorable(t, isRoot))
  {
    hide PropsOf, LinkedProps, RestoreReg, Touched, Placeable, Grown;
    hide BlobData, StatReads, HasStat, SetMeta, Appended, Around;
    var p, node := LinkedProps(t, oid), File(Meta(0x180, None, None), []);
    Created(st.fs, path, node);
    var st1 := Restoring(Touched(st.fs, path)[path := node], Some(path));
    Enclosed(Open(p), body, Close(p), path, st, st1, isRoot);
    BlobsWritten(body, path, st1, isRoot, Concat(t.pieces));
    StatKept(t, oid);
    AppendedMeta(st1.fs, path, Concat(t.pieces));
    RegRestored(Appended(st1.fs, path, Concat(t.pieces)), path, p, t.st, isRoot);
    FilePut(st.fs, st1.fs, path, node, Concat(t.pieces), MetaOf(t.st, isRoot));
  }

  lemma AppendedMeta(fs: Fs, path: Path, data: Bytes)
    requires path in fs && fs[path].File?
    ensures path in Appended(fs, path, data) && Appended(fs, path, data)[path].meta == fs[path].meta
  {
  }

  lemma LinkPut(t: Tree, path: Path, st: Restoring, isRoot: bool)
    requires t.Other? && WellFormed(t) && Placeable(st.fs, path)
    ensures Outcome(RunStep(Emit(Node(PropsOf(t)), false, []), Restorer(isRoot), path, st), st, Built(t, path, isRoot),
                    Around(path), Restorable(t, isRoot))
  {
    hide PropsOf, RestoreLink, Touched, Placeable, StatReads, Around, Grown;
    CallOnly(Emit(Node(PropsOf(t)), false, []), path, st, isRoot);
    KindIs(t);
    if t.kind == LNK {
      PlaceFree(st.fs, path);
      LinkRestored(st.fs, path, t, isRoot);
      Created(st.fs, path, Link(Meta(0, MetaOf(t.st, isRoot).owner, None), t.target));
    } else {
      GrownNothing(st.fs, Around(path));
    }
  }

  lemma PlaceFree(fs: Fs, path: Path)
    requires Placeable(fs, path)
    ensures path !in fs && (path != [] ==> IsFolder(fs, Parent(path)))
  {
    assert path <= path;
  }

  lemma KindIs(t: Tree)
    requires t.Other?
    ensures PropsOf(t).kind == "LNK" <==> t.kind == LNK
  {
  }

  lemma GrownNothing(fs: Fs, touched: set<Path>)
    ensures Grown(fs, fs, map[], touched)
  {
  }

  /** The children of a directory: `g` is the file system after the first. */
  lemma StillPlaceable(f: Fs, g: Fs, kids: seq<Child>, path: Path, isRoot: bool, i: nat)
    requires 0 < i < |kids| && DistinctNames(kids) && Vacant(f, path + [kids[i].name])
    requires Grown(f, g, Built(kids[0].node, path + [kids[0].name], isRoot), {path})
    ensures Vacant(g, path + [kids[i].name])
  {
    hide Built;
    var first, mine := path + [kids[0].name], path + [kids[i].name];
    BuiltBelow(kids[0].node, first, isRoot);
    forall q | q in g ensures !(mine <= q) {
      if q !in f {
        assert first <= q && first[|path|] != mine[|path|];
      }
    }
  }

  lemma KidsApart(kids: seq<Child>, path: Path, isRoot: bool, f: Fs)
    requires kids != [] && DistinctNames(kids)
    requires forall i :: 0 <= i < |kids| ==> Vacant(f, path + [kids[i].name])
    ensures var first, rest := Built(kids[0].node, path + [kids[0].name], isRoot), BuiltKids(kids[1..], path, isRoot);
      first.Keys !! rest.Keys && path !in first && path !in rest && rest.Keys !! f.Keys && first.Keys !! f.Keys
  {
    hide Built, BuiltKids;
    var first := path + [kids[0].name];
    BuiltBelow(kids[0].node, first, isRoot);
    KidsBelow(kids[1..], path, isRoot);
    forall q | q in BuiltKids(kids[1..], path, isRoot) ensures !(first <= q) && q !in f {
      var i :| 0 <= i < |kids[1..]| && q[|path|] == kids[1..][i].name;
      assert first[|path|] != q[|path|];
      assert path + [kids[i + 1].name] <= q;
    }
  }

  lemma {:induction false} KidsPut(steps: seq<Step>, kids: seq<Child>, path: Path, st: Restoring, isRoot: bool)
    requires TellsKids(steps, kids, ANY) && DistinctNames(kids) && IsFolder(st.fs, path)
    requires forall i :: 0 <= i < |kids| ==> WellFormed(kids[i].node) && Vacant(st.fs, path + [kids[i].name])
    ensures Outcome(Run(steps, Restorer(isRoot), path, st), st, BuiltKids(kids, path, isRoot), {path},
                    forall i :: 0 <= i < |kids| ==> Restorable(kids[i].node, isRoot))
    decreases kids, 0
  {
    hide Tells, WellFormed, Built, Restorable, Grown, React;
    if kids == [] {
      GrownNothing(st.fs, {path});
    } else {
      var first := path + [kids[0].name];
      assert Parent(first) == path && steps[0].Scope?;
      NodePut(steps[0].inner, kids[0].node, first, st, isRoot);
      if Restorable(kids[0].node, isRoot) {
        KidsRest(steps, kids, path, st, isRoot);
      }
    }
  }

  lemma KidsRest(steps: seq<Step>, kids: seq<Child>, path: Path, st: Restoring, isRoot: bool)
    requires TellsKids(steps, kids, ANY) && DistinctNames(kids) && IsFolder(st.fs, path) && kids != []
    requires forall i :: 0 <= i < |kids| ==> WellFormed(kids[i].node) && Vacant(st.fs, path + [kids[i].name])
    requires Restorable(kids[0].node, isRoot)
    requires Outcome(RunStep(steps[0], Restorer(isRoot), path, st), st,
                     Built(kids[0].node, path + [kids[0].name], isRoot),
                     {path}, true)
    ensures Outcome(Run(steps, Restorer(isRoot), path, st), st, BuiltKids(kids, path, isRoot), {path},
                    forall i :: 0 <= i < |kids| ==> Restorable(kids[i].node, isRoot))
    decreases kids, 0, 0
  {
    hide Tells, WellFormed, Built, Restorable, React;
    var mid := RunStep(steps[0], Restorer(isRoot), path, st).st;
    var rest := kids[1..];
    assert IsFolder(mid.fs, path);
    forall i | 0 <= i < |rest| ensures Vacant(mid.fs, path + [rest[i].name]) && WellFormed(rest[i].node) {
      StillPlaceable(st.fs, mid.fs, kids, path, isRoot, i + 1);
    }
    KidsPut(steps[1..], rest, path, mid, isRoot);
    KidsApart(kids, path, isRoot, st.fs);
    if forall i :: 0 <= i < |rest| ==> Restorable(rest[i].node, isRoot) {
      GrownTransitive(st.fs, mid.fs, Run(steps[1..], Restorer(isRoot), path, mid).st.fs,
                      Built(kids[0].node, path + [kids[0].name], isRoot), BuiltKids(rest, path, isRoot), {path});
    }
  }

  /** Restoring a told tree where nothing is works exactly when its numbers fit 32 bits, and then makes exactly
      its files, directories and links, with their bytes, targets, modes, owners and times. */
  lemma {:induction false} NodePut(steps: seq<Step>, t: Tree, path: Path, st: Restoring, isRoot: bool)
    requires Tells(steps, t, ANY) && WellFormed(t) && Placeable(st.fs, path)
    ensures Outcome(Run(steps, Restorer(isRoot), path, st), st, Built(t, path, isRoot), Around(path),
                    Restorable(t, isRoot))
    decreases t, 1
  {
    hide WellFormed, Restorable, Built, Placeable, PropsOf, LinkedProps, React, Outcome;
    RunOne(steps[0], Restorer(isRoot), path, st);
    assert steps == [steps[0]];
    match t
    case Other(_, _, _) => LinkPut(t, path, st, isRoot);
    case Reg(_, pieces) =>
      var oid: OID, body :| BlobData(body) == Some(Concat(pieces)) && steps[0] == RegStep(t, oid, body);
      RegPut(t, oid, body, path, st, isRoot);
    case Dir(_, kids) =>
      var oid: OID, body :| TellsKids(body, kids, ANY) && steps[0] == DirStep(t, oid, body);
      DirPut(t, oid, body, path, st, isRoot);
  }

  lemma DirPut(t: Tree, oid: OID, body: seq<Step>, path: Path, st: Restoring, isRoot: bool)
    requires t.Dir? && WellFormed(t) && Placeable(st.fs, path) && TellsKids(body, t.kids, ANY)
    ensures Outcome(RunStep(DirStep(t, oid, body), Restorer(isRoot), path, st), st, Built(t, path, isRoot),
                    Around(path),
                    Restorable(t, isRoot))
    decreases t, 0
  {
    hide PropsOf, LinkedProps, RestoreReg, Touched, Grown, StatReads, HasStat, SetMeta, Around, TellsKids, BuiltKids;
    var p, node := LinkedProps(t, oid), Folder(Meta(0x1C0, None, None));
    Created(st.fs, path, node);
    var st1 := Restoring(Touched(st.fs, path)[path := node], st.file);
    Enclosed(Enter(p), body, Leave(p), path, st, st1, isRoot);
    KidsPlaceable(st.fs, st1.fs, t.kids, path, node);
    KidsPut(body, t.kids, path, st1, isRoot);
    if forall i :: 0 <= i < |t.kids| ==> Restorable(t.kids[i].node, isRoot) {
      var mid := Run(body, Restorer(isRoot), path, st1).st.fs;
      KidsBelow(t.kids, path, isRoot);
      FolderMeta(st.fs, st1.fs, mid, path, node, BuiltKids(t.kids, path, isRoot));
      StatKept(t, oid);
      RegRestored(mid, path, p, t.st, isRoot);
      KidsNew(st.fs, t.kids, path, isRoot);
      DirGrown(st.fs, st1.fs, mid, path, node, BuiltKids(t.kids, path, isRoot), Folder(MetaOf(t.st, isRoot)));
      MetaPut(mid, path, MetaOf(t.st, isRoot));
    }
  }

  lemma MetaPut(fs: Fs, path: Path, meta: Meta)
    requires IsFolder(fs, path)
    ensures SetMeta(fs, path, meta) == fs[path := Folder(meta)]
  {
  }

  lemma KidsNew(fs: Fs, kids: seq<Child>, path: Path, isRoot: bool)
    requires Vacant(fs, path)
    ensures BuiltKids(kids, path, isRoot).Keys !! fs.Keys
  {
    KidsBelow(kids, path, isRoot);
  }

  lemma FolderMeta(f: Fs, g: Fs, h: Fs, path: Path, node: Node, kids: Fs)
    requires Grown(f, g, map[path := node], Around(path)) && Grown(g, h, kids, {path})
    requires node.Folder? && node.meta.mtime.None? && path !in kids
    ensures path in h && h[path] == node
  {
  }

  lemma KidsPlaceable(f: Fs, g: Fs, kids: seq<Child>, path: Path, node: Node)
    requires Placeable(f, path) && Grown(f, g, map[path := node], Around(path))
    ensures forall i :: 0 <= i < |kids| ==> Vacant(g, path + [kids[i].name])
  {
    forall i, q | 0 <= i < |kids| && q in g ensures !(path + [kids[i].name] <= q) {
      assert path <= path + [kids[i].name];
      assert q in f || q == path;
    }
  }

  // ---- looking a path up -------------------------------------------------------------------

  /** Mode, owner when root restores, and time are those that were recorded. */
  predicate Attributed(meta: Meta, st: Stat, isRoot: bool) {
    && meta.perm == st.perm && meta.mtime == Some(st.mtime.sec * NANO + st.mtime.nsec)
    && OwnedBy(meta, st, isRoot)
  }

  predicate OwnedBy(meta: Meta, st: Stat, isRoot: bool) {
    if isRoot then meta.owner.Some? && meta.owner.value.0 == st.uid && meta.owner.value.1 == st.gid
    else meta.owner.None?
  }

  /** What is at a path after a restore, when this is what was backed up there. */
  predicate Shows(found: Option<Node>, t: Option<Tree>, isRoot: bool) {
    match t
    case None => found.None?
    case Some(Reg(st, pieces)) =>
      && found.Some? && found.value.File?
      && Attributed(found.value.meta, st, isRoot) && found.value.data == Concat(pieces)
    case Some(Dir(st, _)) => found.Some? && found.value.Folder? && Attributed(found.value.meta, st, isRoot)
    case Some(Other(st, kind, target)) =>
      if kind == LNK
      then
        && found.Some? && found.value.Link?
        && OwnedBy(found.value.meta, st, isRoot) && found.value.target == target
      else found.None?
  }

  function Lookup(fs: Fs, path: Path): Option<Node> {
    if path in fs then Some(fs[path]) else None
  }

  /** At every path a restored tree shows the node that was there, and nothing anywhere else. */
  lemma {:induction false} BuiltAt(t: Tree, path: Path, q: Path, isRoot: bool)
    requires WellFormed(t)
    ensures Shows(Lookup(Built(t, path, isRoot), path + q), At(t, q), isRoot)
    decreases t, 1
  {
    if q == [] {
      assert path + q == path;
    } else {
      assert path + q != path;
      if t.Dir? {
        KidsAt(t.kids, path, q, isRoot);
      }
    }
  }

  lemma {:induction false} KidsAt(kids: seq<Child>, path: Path, q: Path, isRoot: bool)
    requires q != [] && DistinctNames(kids) && forall i :: 0 <= i < |kids| ==> WellFormed(kids[i].node)
    ensures Shows(Lookup(BuiltKids(kids, path, isRoot), path + q),
                  match Find(kids, q[0]) case None => None case Some(c) => At(c, q[1..]), isRoot)
    decreases kids, 0
  {
    if kids != [] {
      var first, rest := path + [kids[0].name], kids[1..];
      KidsAt(rest, path, q, isRoot);
      if kids[0].name == q[0] {
        BuiltAt(kids[0].node, first, q[1..], isRoot);
        assert first + q[1..] == path + q;
        OtherNames(kids, path, q, isRoot);
      } else {
        NotFirst(kids[0], path, q, isRoot);
      }
    }
  }

  lemma NotFirst(kid: Child, path: Path, q: Path, isRoot: bool)
    requires q != [] && kid.name != q[0]
    ensures path + q !in Built(kid.node, path + [kid.name], isRoot)
  {
    hide Built;
    BuiltBelow(kid.node, path + [kid.name], isRoot);
    assert (path + [kid.name])[|path|] != (path + q)[|path|];
  }

  lemma OtherNames(kids: seq<Child>, path: Path, q: Path, isRoot: bool)
    requires kids != [] && DistinctNames(kids) && q != [] && kids[0].name == q[0]
    ensures path + q !in BuiltKids(kids[1..], path, isRoot)
  {
    hide BuiltKids;
    KidsBelow(kids[1..], path, isRoot);
    assert (path + q)[|path|] == q[0];
    assert forall i :: 0 <= i < |kids[1..]| ==> kids[1..][i] == kids[i + 1];
  }

  // ---- the visitor object ------------------------------------------------------------------

  /** A new entry can be made: nothing is there, and there is a directory to make it in. */
  predicate Free(fs: Fs, path: Path) {
    path !in fs && (path != [] ==> IsFolder(fs, Parent(path)))
  }

  lemma FreeGrown(fs: Fs, path: Path, node: Node)
    ensures Create(fs, path, node).Some? <==> Free(fs, path)
    ensures Free(fs, path) ==> Grown(fs, Create(fs, path, node).value, map[path := node], Around(path))
  {
  }

  /** The properties hold what restoring needs: mode and time, and the owner for root. */
  predicate Settable(p: PropertyMap, isRoot: bool) {
    && GetInt(p, "mode").Some? && Timestamp(p.Get("mtime")).Some?
    && (isRoot ==> GetInt(p, "uid").Some? && GetInt(p, "gid").Some?)
  }

  /** Only the attributes of one node may differ. */
  ghost predicate OnlyMeta(f: Fs, g: Fs, path: Path) {
    && g.Keys == f.Keys && (forall q :: q in f && q != path ==> g[q] == f[q])
    && (path in f ==> g[path] == f[path].(meta := g[path].meta))
  }

  /** For the properties of a backed up node: its attributes are set, exactly when its numbers fit 32 bits. */
  ghost predicate SetsStat(f: Fs, g: Fs, path: Path, p: PropertyMap, isRoot: bool, ok: bool) {
    forall st: Stat :: HasStat(p, st) && TimeFits(st.mtime) && path in f && f[path].meta.owner.None? ==>
      (ok <==> StatReads(st, isRoot)) && (ok ==> g == SetMeta(f, path, MetaOf(st, isRoot)))
  }

  lemma AllSetStat(fs: Fs, path: Path, p: PropertyMap, isRoot: bool)
    ensures SetsStat(fs, RestoreReg(fs, path, p, isRoot).0, path, p, isRoot, RestoreReg(fs, path, p, isRoot).1)
    ensures RestoreReg(fs, path, p, isRoot).1 <==> path in fs && Settable(p, isRoot)
    ensures OnlyMeta(fs, RestoreReg(fs, path, p, isRoot).0, path)
  {
    forall st: Stat | HasStat(p, st) && TimeFits(st.mtime) && path in fs && fs[path].meta.owner.None?
      ensures var r := RestoreReg(fs, path, p, isRoot);
        (r.1 <==> StatReads(st, isRoot)) && (r.1 ==> r.0 == SetMeta(fs, path, MetaOf(st, isRoot)))
    {
      hide *;
      RegRestored(fs, path, p, st, isRoot);
    }
    StepsOnlyMeta(fs, path, p, isRoot);
  }

  lemma StepsOnlyMeta(fs: Fs, path: Path, p: PropertyMap, isRoot: bool)
    ensures RestoreReg(fs, path, p, isRoot).1 <==> path in fs && Settable(p, isRoot)
    ensures OnlyMeta(fs, RestoreReg(fs, path, p, isRoot).0, path)
  {
    hide GetInt, Timestamp;
  }

  /** What a symbolic link is made of, with its owner for root. */
  ghost predicate LinkMade(f: Fs, g: Fs, path: Path, p: PropertyMap, isRoot: bool) {
    && "target" in p.props && (isRoot ==> GetInt(p, "uid").Some? && GetInt(p, "gid").Some?)
    && Grown(f, g, map[path := Link(Meta(0, LinkOwner(p, isRoot), None), p.props["target"])], Around(path))
  }

  function LinkOwner(p: PropertyMap, isRoot: bool): Option<(int, int)> {
    if isRoot && GetInt(p, "uid").Some? && GetInt(p, "gid").Some?
    then Some((GetInt(p, "uid").value, GetInt(p, "gid").value))
    else None
  }

  /** A link whose owner could not be read is left behind without one. */
  lemma LinkMakes(fs: Fs, path: Path, p: PropertyMap, isRoot: bool)
    ensures var (g, ok) := RestoreLink(fs, path, p, isRoot);
      && (ok <==> GetInt(p, "mode").Some? && "target" in p.props && Free(fs, path)
                  && (isRoot ==> GetInt(p, "uid").Some? && GetInt(p, "gid").Some?))
      && (ok ==> LinkMade(fs, g, path, p, isRoot))
      && (!ok ==> g == fs || LinkMade(fs, g, path, p, false))
  {
    hide GetInt, Grown, Free, Create, Around;
    if GetInt(p, "mode").Some? && "target" in p.props {
      var bare := Link(Meta(0, None, None), p.props["target"]);
      FreeGrown(fs, path, bare);
      if Free(fs, path) {
        var f := Create(fs, path, bare).value;
        GrownHas(fs, f, map[path := bare], Around(path), path);
        var owned := Link(Meta(0, LinkOwner(p, isRoot), None), p.props["target"]);
        FreeIsNew(fs, path);
        GrownPut(fs, f, map[path := bare], Around(path), path, owned);
        assert map[path := bare][path := owned] == map[path := owned];
      }
    }
  }

  lemma FreeIsNew(fs: Fs, path: Path)
    requires Free(fs, path)
    ensures path !in fs
  {
  }

  lemma GrownHas(f: Fs, g: Fs, add: Fs, touched: set<Path>, path: Path)
    requires Grown(f, g, add, touched) && path in add
    ensures path in g && g[path] == add[path]
  {
  }

  /** The fields of `restoreState`; each callback is the one of `Restorer`. */
  class RestoreState {
    const isRoot: bool
    var fs: Fs
    var file: Option<Path>

    ghost function State(): Restoring
      reads this
    {
      Restoring(fs, file)
    }

    constructor (fs: Fs, isRoot: bool)
      ensures State() == Restoring(fs, None) && this.isRoot == isRoot
    {
      this.fs, this.isRoot, file := fs, isRoot, None;
    }

    /** An empty file is made and left open. */
    method OnOpen(path: Path, p: PropertyMap) returns (reply: Reply)
      modifies this
      ensures reply == if Free(old(fs), path) then Continue else FAILED
      ensures reply.Continue? ==>
        file == Some(path) && Grown(old(fs), fs, map[path := File(Meta(0x180, None, None), [])], Around(path))
      ensures !reply.Continue? ==> fs == old(fs) && file == None
      ensures (State(), reply) == React(isRoot, old(State()), path, Open(p))
    {
      hide Grown, Free;
      var node := File(Meta(0x180, None, None), []);
      FreeGrown(fs, path, node);
      var made := Create(fs, path, node);
      if made.None? {
        file := None;
        return FAILED;
      }
      fs, file := made.value, Some(path);
      return Continue;
    }

    /** The bytes join the open file, and nothing else changes. */
    method OnBlob(path: Path, oid: OID, data: Bytes) returns (reply: Reply)
      modifies this
      ensures file == old(file) && fs.Keys == old(fs).Keys
      ensures reply == if file.Some? && file.value in old(fs) && old(fs)[file.value].File? then Continue else FAILED
      ensures reply.Continue? ==> fs[file.value] == File(old(fs)[file.value].meta, old(fs)[file.value].data + data)
      ensures forall q :: q in old(fs) && !(reply.Continue? && Some(q) == file) ==> fs[q] == old(fs)[q]
      ensures (State(), reply) == React(isRoot, old(State()), path, Blob(oid, data))
    {
      if file.None? || file.value !in fs || !fs[file.value].File? {
        return FAILED;
      }
      fs := Appended(fs, file.value, data);
      return Continue;
    }

    /** The file is closed, and the attributes of the node are set. */
    method OnClose(path: Path, p: PropertyMap) returns (reply: Reply)
      modifies this
      ensures file == None && OnlyMeta(old(fs), fs, path)
      ensures reply == if old(file).Some? && path in old(fs) && Settable(p, isRoot) then Continue else FAILED
      ensures old(file).Some? ==> SetsStat(old(fs), fs, path, p, isRoot, reply.Continue?)
      ensures (State(), reply) == React(isRoot, old(State()), path, Close(p))
    {
      hide Settable, SetsStat, RestoreReg;
      if file.None? {
        return FAILED;
      }
      file := None;
      reply := Attributes(path, p);
    }

    /** A directory is made for its owner alone. */
    method OnEnter(path: Path, p: PropertyMap) returns (reply: Reply)
      modifies this
      ensures reply == if Free(old(fs), path) then Continue else FAILED
      ensures reply.Continue? ==> Grown(old(fs), fs, map[path := Folder(Meta(0x1C0, None, None))], Around(path))
      ensures file == old(file) && (!reply.Continue? ==> fs == old(fs))
      ensures (State(), reply) == React(isRoot, old(State()), path, Enter(p))
    {
      hide Grown, Free;
      var node := Folder(Meta(0x1C0, None, None));
      FreeGrown(fs, path, node);
      var made := Create(fs, path, node);
      if made.None? {
        return FAILED;
      }
      fs := made.value;
      return Continue;
    }

    /** The attributes of the node are set. */
    method OnLeave(path: Path, p: PropertyMap) returns (reply: Reply)
      modifies this
      ensures file == old(file) && OnlyMeta(old(fs), fs, path)
      ensures reply == if path in old(fs) && Settable(p, isRoot) then Continue else FAILED
      ensures SetsStat(old(fs), fs, path, p, isRoot, reply.Continue?)
      ensures (State(), reply) == React(isRoot, old(State()), path, Leave(p))
    {
      hide Settable, SetsStat, RestoreReg;
      reply := Attributes(path, p);
    }

    /** A symbolic link is made; other nodes are passed over. */
    method OnNode(path: Path, p: PropertyMap) returns (reply: Reply)
      modifies this
      ensures file == old(file) && (p.kind != "LNK" ==> reply == Continue && fs == old(fs))
      ensures p.kind == "LNK" ==> (reply.Continue? <==>
        && GetInt(p, "mode").Some? && "target" in p.props && Free(old(fs), path)
        && (isRoot ==> GetInt(p, "uid").Some? && GetInt(p, "gid").Some?))
      ensures p.kind == "LNK" && reply.Continue? ==> LinkMade(old(fs), fs, path, p, isRoot)
      ensures !reply.Continue? ==> reply == FAILED && (fs == old(fs) || LinkMade(old(fs), fs, path, p, false))
      ensures (State(), reply) == React(isRoot, old(State()), path, Event.Node(p))
    {
      hide RestoreLink, LinkMade, GetInt, Free;
      if p.kind != "LNK" {
        return Continue;
      }
      LinkMakes(fs, path, p, isRoot);
      var (f, ok) := RestoreLink(fs, path, p, isRoot);
      fs := f;
      return if ok then Continue else FAILED;
    }

    /** `restoreReg`. */
    method Attributes(path: Path, p: PropertyMap) returns (reply: Reply)
      modifies this`fs
      ensures OnlyMeta(old(fs), fs, path)
      ensures reply == if path in old(fs) && Settable(p, isRoot) then Continue else FAILED
      ensures SetsStat(old(fs), fs, path, p, isRoot, reply.Continue?)
      ensures (State(), reply) == Done(old(State()), RestoreReg(old(fs), path, p, isRoot))
    {
      hide Settable, SetsStat, OnlyMeta;
      AllSetStat(fs, path, p, isRoot);
      var (f, ok) := PropChown(fs, path, p, isRoot);
      fs := f;
      if !ok {
        return FAILED;
      }
      var (g, done) := Chmod(fs, path, p);
      fs := g;
      if !done {
        return FAILED;
      }
      var (h, timed) := RestoreTime(fs, path, p);
      fs := h;
      return if timed then Continue else FAILED;
    }
  }
}
