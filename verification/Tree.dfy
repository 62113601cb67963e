/** File trees as a backup sees them, the properties of their nodes (src/godump/dump/dump.go:270-320), and what
    a walk over a backup of a tree tells. */
module Trees {
  import opened Base
  import opened Text
  import opened Props
  import opened Decode
  import opened Visitors
  import opened Files
  import opened Packing
  import opened Heights
  import opened Capacity

  datatype Time = Time(sec: int, nsec: nat) {
    /** The instant in nanoseconds. */
    function Nanos(): int {
      sec * NANO + nsec
    }
  }

  /** The fields of `stat` a backup records; the file type is the constructor of the tree node. */
  datatype Stat = Stat(
    perm: nat, dev: nat, ino: nat, nlink: nat, uid: nat, gid: nat, size: nat, rdev: nat, mtime: Time, ctime: Time)

  datatype Special = CHR | BLK | FIFO | LNK | SOCK

  /** A file with the pieces in which it is read, a directory in reading order, or another node;
      `target` is what a symbolic link points to. */
  datatype Tree =
    | Reg(st: Stat, pieces: seq<Bytes>)
    | Dir(st: Stat, kids: seq<Child>)
    | Other(st: Stat, kind: Special, target: Bytes)

  datatype Child = Child(name: Bytes, node: Tree)

  function KindText(t: Tree): Bytes {
    match t
    case Reg(_, _) => "REG"
    case Dir(_, _) => "DIR"
    case Other(_, CHR, _) => "CHR"
    case Other(_, BLK, _) => "BLK"
    case Other(_, FIFO, _) => "FIFO"
    case Other(_, LNK, _) => "LNK"
    case Other(_, SOCK, _) => "SOCK"
  }

  function StatProps(st: Stat): map<Bytes, Bytes> {
    map["mode" := Decimal(st.perm), "dev" := Decimal(st.dev), "ino" := Decimal(st.ino), "nlink" := Decimal(st.nlink),
        "uid" := Decimal(st.uid), "gid" := Decimal(st.gid), "size" := Decimal(st.size),
        "mtime" := FormatTime(st.mtime.sec, st.mtime.nsec), "ctime" := FormatTime(st.ctime.sec, st.ctime.nsec)]
  }

  /** The properties of a node but for the link to its contents: `encodeProps`, and the target of a link. */
  function PropsOf(t: Tree): PropertyMap {
    var device := t.Other? && (t.kind == CHR || t.kind == BLK);
    var props := if device then StatProps(t.st)["rdev" := Decimal(t.st.rdev)] else StatProps(t.st);
    PropertyMap(KindText(t), if t.Other? && t.kind == LNK then props["target" := t.target] else props)
  }

  function LinkKey(t: Tree): Bytes {
    if t.Dir? then "children" else "data"
  }

  function LinkedProps(t: Tree, oid: OID): PropertyMap {
    PropertyMap(KindText(t), PropsOf(t).props[LinkKey(t) := OidText(oid)])
  }

  // ---- what the properties of a node say ---------------------------------------------------

  predicate SaysNumber(m: map<Bytes, Bytes>, key: Bytes, n: nat) {
    key in m && ParseUint(m[key]) == Some(n)
  }

  predicate SaysTime(m: map<Bytes, Bytes>, key: Bytes, t: Time) {
    key in m && Timestamp(m[key]) == Some(t.Nanos())
  }

  /** Every attribute can be read back under its own name. */
  predicate SaysStat(m: map<Bytes, Bytes>, st: Stat) {
    && SaysNumber(m, "mode", st.perm) && SaysNumber(m, "dev", st.dev) && SaysNumber(m, "ino", st.ino)
    && SaysNumber(m, "nlink", st.nlink) && SaysNumber(m, "uid", st.uid) && SaysNumber(m, "gid", st.gid)
    && SaysNumber(m, "size", st.size) && SaysTime(m, "mtime", st.mtime) && SaysTime(m, "ctime", st.ctime)
  }

  /** The file type, and what only some types have: the number of a device and the target of a link. */
  predicate SaysKind(p: PropertyMap, t: Tree) {
    match t
    case Reg(_, _) => p.kind == "REG" && "rdev" !in p.props && "target" !in p.props
    case Dir(_, _) => p.kind == "DIR" && "rdev" !in p.props && "target" !in p.props
    case Other(st, CHR, _) => p.kind == "CHR" && SaysNumber(p.props, "rdev", st.rdev) && "target" !in p.props
    case Other(st, BLK, _) => p.kind == "BLK" && SaysNumber(p.props, "rdev", st.rdev) && "target" !in p.props
    case Other(_, FIFO, _) => p.kind == "FIFO" && "rdev" !in p.props && "target" !in p.props
    case Other(_, LNK, target) =>
      p.kind == "LNK" && "rdev" !in p.props && "target" in p.props && p.props["target"] == target
    case Other(_, SOCK, _) => p.kind == "SOCK" && "rdev" !in p.props && "target" !in p.props
  }

  lemma StatSaid(st: Stat)
    requires StatFits(st)
    ensures SaysStat(StatProps(st), st)
  {
    hide ParseUint, Timestamp, FormatTime;
    ParseUintRoundTrip(st.perm); ParseUintRoundTrip(st.dev); ParseUintRoundTrip(st.ino);
    ParseUintRoundTrip(st.nlink); ParseUintRoundTrip(st.uid); ParseUintRoundTrip(st.gid);
    ParseUintRoundTrip(st.size);
    TimestampRoundTrip(st.mtime.sec, st.mtime.nsec);
    TimestampRoundTrip(st.ctime.sec, st.ctime.nsec);
  }

  /** Other keys do not matter. */
  lemma StatSaidStill(m: map<Bytes, Bytes>, st: Stat, key: Bytes, value: Bytes)
    requires SaysStat(m, st) && key !in {"mode", "dev", "ino", "nlink", "uid", "gid", "size", "mtime", "ctime"}
    ensures SaysStat(m[key := value], st)
  {
    hide ParseUint, Timestamp;
  }

  /** The properties of a node say all its attributes, its type, and for a file or directory where its contents are. */
  lemma NodeSaid(t: Tree, oid: OID)
    requires StatFits(t.st)
    ensures SaysStat(PropsOf(t).props, t.st) && SaysKind(PropsOf(t), t)
    ensures !t.Other? ==>
      var p := LinkedProps(t, oid); var key := if t.Dir? then "children" else "data";
      SaysStat(p.props, t.st) && SaysKind(p, t) && key in p.props && ParseOid(p.props[key]) == Some(oid)
  {
    hide ParseUint, Timestamp, StatProps, SaysStat, ParseOid;
    StatSaid(t.st);
    PlainStat(t.st);
    if t.Other? {
      ParseUintRoundTrip(t.st.rdev);
      StatSaidStill(StatProps(t.st), t.st, "rdev", Decimal(t.st.rdev));
      StatSaidStill(StatProps(t.st), t.st, "target", t.target);
    } else {
      OidTextRoundTrip(oid);
      StatSaidStill(StatProps(t.st), t.st, LinkKey(t), OidText(oid));
    }
  }

  lemma PlainStat(st: Stat)
    ensures "rdev" !in StatProps(st) && "target" !in StatProps(st)
  {
  }

  predicate SameType(a: Tree, b: Tree) {
    match (a, b)
    case (Reg(_, _), Reg(_, _)) => true
    case (Dir(_, _), Dir(_, _)) => true
    case (Other(_, k, _), Other(_, l, _)) => k == l
    case _ => false
  }

  /** The text of a type tells it from the others. */
  lemma KindTells(a: Tree, b: Tree)
    ensures KindText(a) == KindText(b) <==> SameType(a, b)
  {
  }

  // ---- limits ------------------------------------------------------------------------------

  predicate TimeFits(t: Time) {
    IsInt64(t.sec) && t.nsec < NANO
  }

  predicate StatFits(st: Stat) {
    && st.perm < UINT64_LIMIT && st.dev < UINT64_LIMIT && st.ino < UINT64_LIMIT && st.nlink < UINT64_LIMIT
    && st.uid < UINT64_LIMIT && st.gid < UINT64_LIMIT && st.size < UINT64_LIMIT && st.rdev < UINT64_LIMIT
    && TimeFits(st.mtime) && TimeFits(st.ctime)
  }

  const DIR_LIMIT := 0x4_0000

  function Named(kids: seq<Child>, oids: seq<OID>): (es: seq<Entry>)
    requires |oids| == |kids|
    ensures |es| == |kids| && forall i :: 0 <= i < |es| ==> es[i] == Entry(kids[i].name, oids[i])
  {
    seq(|kids|, i requires 0 <= i < |kids| => Entry(kids[i].name, oids[i]))
  }

  function NoOids(n: nat): (oids: seq<OID>)
    ensures |oids| == n
  {
    seq(n, _ => seq(OID_LEN, _ => '\0'))
  }

  predicate NameFits(name: Bytes) {
    2 + |name| + OID_LEN <= DIR_LIMIT && |name| <= 0xFFFF
  }

  /** What the store can hold: k^4 pieces of a file, and k^3 chunks of packed names of a directory. */
  ghost predicate Fits(t: Tree) {
    && StatFits(t.st)
    && match t
       case Reg(_, pieces) =>
         |pieces| <= Limit(BUFFER / OID_LEN, "ind") && forall i :: 0 <= i < |pieces| ==> |pieces[i]| <= BUFFER
       case Dir(_, kids) =>
         && |Pack(DIR_LIMIT, Named(kids, NoOids(|kids|)))| <= Limit(DIR_LIMIT / OID_LEN, "dir")
         && forall i :: 0 <= i < |kids| ==> NameFits(kids[i].name) && Fits(kids[i].node)
       case Other(_, _, target) => |target| <= 0xFFFF
  }

  /** The tree without what is below directories of other devices. */
  function Visible(t: Tree, dev: nat): Tree {
    if t.Dir? then Dir(t.st, if t.st.dev == dev then VisibleKids(t.kids, dev) else []) else t
  }

  function VisibleKids(kids: seq<Child>, dev: nat): (r: seq<Child>)
    ensures |r| == |kids|
    ensures forall i :: 0 <= i < |r| ==> r[i] == Child(kids[i].name, Visible(kids[i].node, dev))
  {
    if kids == [] then [] else [Child(kids[0].name, Visible(kids[0].node, dev))] + VisibleKids(kids[1..], dev)
  }

  /** The names of a directory in reading order, the first of equal ones. */
  function Find(kids: seq<Child>, name: Bytes): Option<Tree>
    ensures Find(kids, name).Some? ==> exists i :: 0 <= i < |kids| && kids[i] == Child(name, Find(kids, name).value)
  {
    if kids == [] then None
    else if kids[0].name == name then Some(kids[0].node)
    else
      var r := Find(kids[1..], name);
      assert r.Some? ==> forall i :: 0 <= i < |kids[1..]| ==> kids[1..][i] == kids[i + 1];
      r
  }

  /** The node of a tree at a path. */
  function At(t: Tree, q: seq<Bytes>): Option<Tree>
    decreases |q|
  {
    if q == [] then Some(t)
    else if !t.Dir? || Find(t.kids, q[0]).None? then None
    else At(Find(t.kids, q[0]).value, q[1..])
  }

  /** All directories above a path are on the device. */
  ghost predicate OnDevice(t: Tree, q: seq<Bytes>, dev: nat) {
    forall i :: 0 <= i < |q| ==> At(t, q[..i]).Some? ==> At(t, q[..i]).value.st.dev == dev
  }

  lemma {:induction false} FindVisible(kids: seq<Child>, dev: nat, name: Bytes)
    ensures Find(VisibleKids(kids, dev), name) ==
      match Find(kids, name) case Some(c) => Some(Visible(c, dev)) case None => None
  {
    if kids != [] {
      FindVisible(kids[1..], dev, name);
    }
  }

  /** A backup sees exactly what can be reached through directories of the device of the root, mount points included,
      with its type, attributes and contents. */
  lemma {:induction false} VisibleAt(t: Tree, dev: nat, q: seq<Bytes>)
    ensures At(Visible(t, dev), q) ==
      if At(t, q).Some? && OnDevice(t, q, dev) then Some(Visible(At(t, q).value, dev)) else None
    ensures SameType(t, Visible(t, dev)) && Visible(t, dev).st == t.st && (!t.Dir? ==> Visible(t, dev) == t)
    ensures t.Dir? ==> |Visible(t, dev).kids| == if t.st.dev == dev then |t.kids| else 0
    decreases |q|
  {
    if q != [] {
      assert q[..0] == [];
      if t.Dir? {
        FindVisible(t.kids, dev, q[0]);
        if t.st.dev == dev && Find(t.kids, q[0]).Some? {
          VisibleAt(Find(t.kids, q[0]).value, dev, q[1..]);
          OnDeviceBelow(t, q, dev);
        } else if t.st.dev != dev {
          assert At(t, q[..0]).value.st.dev != dev;
        }
      }
    }
  }

  lemma OnDeviceBelow(t: Tree, q: seq<Bytes>, dev: nat)
    requires q != [] && t.Dir? && t.st.dev == dev && Find(t.kids, q[0]).Some?
    ensures OnDevice(t, q, dev) <==> OnDevice(Find(t.kids, q[0]).value, q[1..], dev)
  {
    var c := Find(t.kids, q[0]).value;
    forall i | 0 < i < |q| ensures At(t, q[..i]) == At(c, q[1..][..i - 1]) {
      assert q[..i][1..] == q[1..][..i - 1] && q[..i][0] == q[0];
    }
    assert At(t, q[..0]) == Some(t);
    if OnDevice(t, q, dev) {
      forall j | 0 <= j < |q[1..]| && At(c, q[1..][..j]).Some? ensures At(c, q[1..][..j]).value.st.dev == dev {
        assert At(t, q[..j + 1]) == At(c, q[1..][..j]);
      }
    }
  }

  // ---- what a walk tells -------------------------------------------------------------------

  /** Whether an identifier is right for a file. */
  type Fit = (OID, Tree) -> bool

  const ANY: Fit := (id: OID, c: Tree) => true

  /** The steps are the depth-first traversal of the tree: Enter and Leave around the children, each under its
      name and in order; Open and Close around blobs with the bytes of the file; Node for anything else. Events
      carry the properties of the node, with a link of which only the key is fixed, and that it fits a file. */
  ghost predicate Tells(steps: seq<Step>, t: Tree, fit: Fit)
    decreases t, 1
  {
    |steps| == 1 && steps[0].Emit? &&
    match t
    case Other(_, _, _) => steps[0] == Emit(Node(PropsOf(t)), false, [])
    case Reg(_, pieces) =>
      exists oid: OID, body ::
        BlobData(body) == Some(Concat(pieces)) && fit(oid, t) && steps[0] == RegStep(t, oid, body)
    case Dir(_, kids) =>
      exists oid: OID, body :: TellsKids(body, kids, fit) && steps[0] == DirStep(t, oid, body)
  }

  function RegStep(t: Tree, oid: OID, body: seq<Step>): Step {
    Emit(Open(LinkedProps(t, oid)), true, body + [Emit(Close(LinkedProps(t, oid)), false, [])])
  }

  function DirStep(t: Tree, oid: OID, body: seq<Step>): Step {
    Emit(Enter(LinkedProps(t, oid)), true, body + [Emit(Leave(LinkedProps(t, oid)), false, [])])
  }

  ghost predicate TellsKids(steps: seq<Step>, kids: seq<Child>, fit: Fit)
    decreases kids, 0
  {
    && |steps| == |kids|
    && forall i :: 0 <= i < |kids| ==>
         steps[i].Scope? && steps[i].name == kids[i].name && Tells(steps[i].inner, kids[i].node, fit)
  }

  lemma {:induction false} TellsAny(steps: seq<Step>, t: Tree, fit: Fit)
    requires Tells(steps, t, fit)
    ensures Tells(steps, t, ANY)
    decreases t
  {
    match t
    case Other(_, _, _) =>
    case Reg(_, pieces) =>
      var oid: OID, body: seq<Step> :|
        BlobData(body) == Some(Concat(pieces)) && fit(oid, t) && steps[0] == RegStep(t, oid, body);
      assert ANY(oid, t);
    case Dir(_, kids) =>
      var oid: OID, body: seq<Step> :| TellsKids(body, kids, fit) && steps[0] == DirStep(t, oid, body);
      forall i | 0 <= i < |kids| ensures Tells(body[i].inner, kids[i].node, ANY) {
        TellsAny(body[i].inner, kids[i].node, fit);
      }
      assert TellsKids(body, kids, ANY);
  }

  // ---- encoding limits ---------------------------------------------------------------------

  lemma Digits20(n: nat)
    requires n < UINT64_LIMIT
    ensures |Decimal(n)| <= 20
  {
    PowTen20();
    DecimalLength(n, 20);
  }

  lemma PowTen20()
    ensures Pow(10, 20) == 100_000_000_000_000_000_000
  {
    PowTen9();
    PowSum(10, 9, 9);
    assert Pow(10, 19) == 10 * Pow(10, 18) && Pow(10, 20) == 10 * Pow(10, 19);
  }

  lemma TimeLength(t: Time)
    requires TimeFits(t)
    ensures |FormatTime(t.sec, t.nsec)| <= 31
  {
    Digits20(if t.sec < 0 then -t.sec else t.sec);
  }

  predicate Short(m: map<Bytes, Bytes>) {
    forall k :: k in m ==> |k| <= 255 && |m[k]| <= 0xFFFF
  }

  lemma ShortUpdate(m: map<Bytes, Bytes>, k: Bytes, v: Bytes)
    requires Short(m) && |k| <= 255 && |v| <= 0xFFFF
    ensures Short(m[k := v]) && |m[k := v]| <= |m| + 1
  {
    if k in m {
      assert m[k := v].Keys == m.Keys;
    } else {
      assert m[k := v].Keys == m.Keys + {k};
    }
    assert |m.Keys| == |m| && |m[k := v].Keys| == |m[k := v]|;
  }

  lemma StatPropsShort(st: Stat)
    requires StatFits(st)
    ensures Short(StatProps(st)) && |StatProps(st)| <= 9
  {
    Digits20(st.perm); Digits20(st.dev); Digits20(st.ino); Digits20(st.nlink);
    Digits20(st.uid); Digits20(st.gid); Digits20(st.size);
    TimeLength(st.mtime); TimeLength(st.ctime);
    var m1: map<Bytes, Bytes> := map["mode" := Decimal(st.perm)];
    var m2: map<Bytes, Bytes> := m1["dev" := Decimal(st.dev)];
    var m3: map<Bytes, Bytes> := m2["ino" := Decimal(st.ino)];
    var m4: map<Bytes, Bytes> := m3["nlink" := Decimal(st.nlink)];
    var m5: map<Bytes, Bytes> := m4["uid" := Decimal(st.uid)];
    var m6: map<Bytes, Bytes> := m5["gid" := Decimal(st.gid)];
    var m7: map<Bytes, Bytes> := m6["size" := Decimal(st.size)];
    var m8: map<Bytes, Bytes> := m7["mtime" := FormatTime(st.mtime.sec, st.mtime.nsec)];
    var m9: map<Bytes, Bytes> := m8["ctime" := FormatTime(st.ctime.sec, st.ctime.nsec)];
    ShortUpdate(map[], "mode", Decimal(st.perm));
    ShortUpdate(m1, "dev", Decimal(st.dev));
    ShortUpdate(m2, "ino", Decimal(st.ino));
    ShortUpdate(m3, "nlink", Decimal(st.nlink));
    ShortUpdate(m4, "uid", Decimal(st.uid));
    ShortUpdate(m5, "gid", Decimal(st.gid));
    ShortUpdate(m6, "size", Decimal(st.size));
    ShortUpdate(m7, "mtime", FormatTime(st.mtime.sec, st.mtime.nsec));
    ShortUpdate(m8, "ctime", FormatTime(st.ctime.sec, st.ctime.nsec));
    assert StatProps(st) == m9;
  }

  lemma PropsShort(t: Tree)
    requires StatFits(t.st) && (t.Other? ==> |t.target| <= 0xFFFF)
    ensures Short(PropsOf(t).props) && |PropsOf(t).props| <= 11 && |KindText(t)| <= 4
  {
    hide StatProps, Short;
    StatPropsShort(t.st);
    Digits20(t.st.rdev);
    ShortUpdate(StatProps(t.st), "rdev", Decimal(t.st.rdev));
    if t.Other? && t.kind == LNK {
      ShortUpdate(StatProps(t.st), "target", t.target);
    }
  }

  lemma ShortEncodes(p: PropertyMap)
    requires Short(p.props) && |p.kind| <= 255 && |p.props| <= 65010
    ensures Encodable(p) && |Encoded(p)| < UINT32
  {
    EncodedLength(p);
  }

  /** Every node a backup writes can be encoded. */
  lemma NodeEncodes(t: Tree, oid: OID)
    requires StatFits(t.st) && (t.Other? ==> |t.target| <= 0xFFFF)
    ensures Encodable(PropsOf(t)) && |Encoded(PropsOf(t))| < UINT32
    ensures Encodable(LinkedProps(t, oid)) && |Encoded(LinkedProps(t, oid))| < UINT32
  {
    PropsShort(t);
    ShortEncodes(PropsOf(t));
    OidTextRoundTrip(oid);
    ShortUpdate(PropsOf(t).props, LinkKey(t), OidText(oid));
    ShortEncodes(LinkedProps(t, oid));
  }

  // ---- packing depends on names only -------------------------------------------------------

  predicate SameNames(a: seq<Entry>, b: seq<Entry>) {
    |a| == |b| && forall i :: 0 <= i < |a| ==> a[i].name == b[i].name
  }

  predicate SameGroups(g: seq<seq<Entry>>, h: seq<seq<Entry>>) {
    |g| == |h| && forall i :: 0 <= i < |g| ==> SameNames(g[i], h[i])
  }

  lemma {:induction false} SizeOfNames(a: seq<Entry>, b: seq<Entry>)
    requires SameNames(a, b)
    ensures Size(a) == Size(b)
  {
    if a != [] {
      SizeOfNames(a[..|a| - 1], b[..|b| - 1]);
    }
  }

  lemma {:induction false} PackOfNames(limit: nat, a: seq<Entry>, b: seq<Entry>)
    requires SameNames(a, b)
    ensures SameGroups(Pack(limit, a), Pack(limit, b))
  {
    hide Size;
    if a != [] {
      var n := |a| - 1;
      PackOfNames(limit, a[..n], b[..n]);
      var g, h := Pack(limit, a[..n]), Pack(limit, b[..n]);
      assert SameNames([a[n]], [b[n]]);
      if g != [] {
        var x, y := g[|g| - 1], h[|h| - 1];
        SizeOfNames(x, y);
        assert SameNames(x + [a[n]], y + [b[n]]);
        GroupsSnocSame(g[..|g| - 1], h[..|h| - 1], x + [a[n]], y + [b[n]]);
      }
      GroupsSnocSame(g, h, [a[n]], [b[n]]);
    }
  }

  lemma GroupsSnocSame(g: seq<seq<Entry>>, h: seq<seq<Entry>>, x: seq<Entry>, y: seq<Entry>)
    requires SameGroups(g, h) && SameNames(x, y)
    ensures SameGroups(g + [x], h + [y])
  {
  }
}
