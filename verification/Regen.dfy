/** Rebuilding the ctime cache from a backup (src/godump/cachecmd/regen.go). */
module Regens {
  import opened Base
  import opened Text
  import opened Pool
  import opened Props
  import opened Decode
  import opened Visitors
  import opened Stories
  import opened Files
  import opened Caches
  import opened Trees
  import opened Memories

  // ---- open events carry the identifier of their blobs -------------------------------------

  /** What is told inside an Open is the story of the identifier in its "data" property. */
  ghost predicate Linked(r: Repo, steps: seq<Step>)
    requires Closed(r)
    decreases steps, 1
  {
    forall i :: 0 <= i < |steps| ==> LinkedStep(r, steps[i])
  }

  ghost predicate LinkedStep(r: Repo, step: Step)
    requires Closed(r)
    decreases step, 0
  {
    match step
    case Halt(_) => true
    case Scope(_, inner) => Linked(r, inner)
    case Emit(e, _, inner) => Linked(r, inner) && (e.Open? ==> LinkedOpen(r, e.props, inner))
  }

  ghost predicate LinkedOpen(r: Repo, p: PropertyMap, inner: seq<Step>)
    requires Closed(r)
  {
    ParseOid(p.Get("data")).Some? ==>
      var id := ParseOid(p.Get("data")).value;
      id in r.store && inner == Story(r, id) + [Emit(Close(p), false, [])]
  }

  lemma {:induction false} StoryLinked(r: Repo, oid: OID)
    requires Closed(r) && Ranked(r)
    ensures Linked(r, Story(r, oid))
    decreases Measure(r, oid), 2, 0
  {
    if oid !in r.store {
      AbsentStory(r, oid);
    } else {
      assert RankedAt(r, oid) && GroundedAt(r, oid);
      StoryUnfold(r, oid);
      var c, bound := r.store[oid], Measure(r, oid);
      hide HandlerOf, LinkedStep;
      match HandlerOf(c.kind)
      case BlobHandler => LinkedCall(r, Blob(oid, c.data));
      case IndHandler => IndLinked(r, c.data, bound);
      case DirHandler => DirLinked(r, c.data, bound);
      case BackHandler => BackLinked(r, oid, bound);
      case NodeHandler => NodeLinked(r, oid, bound);
      case _ =>
    }
  }

  lemma AbsentStory(r: Repo, oid: OID)
    requires Closed(r) && Ranked(r) && oid !in r.store
    ensures Story(r, oid) == [Halt(NotFound)]
  {
    StripRaw(EarlyVisit(oid), [Halt(NotFound)]);
    assert [Halt(NotFound)][1..] == [];
  }

  lemma LinkedAppend(r: Repo, a: seq<Step>, b: seq<Step>)
    requires Closed(r) && Linked(r, a) && Linked(r, b)
    ensures Linked(r, a + b)
  {
    hide LinkedStep;
  }

  lemma LinkedHalt(r: Repo, e: Error)
    requires Closed(r)
    ensures Linked(r, [Halt(e)]) && Strip([Halt(e)]) == [Halt(e)]
  {
    assert [Halt(e)][1..] == [];
  }

  lemma LinkedCall(r: Repo, e: Event)
    requires Closed(r) && !Raw(e) && !e.Open?
    ensures Linked(r, [Emit(e, false, [])]) && Strip([Emit(e, false, [])]) == [Emit(e, false, [])]
  {
    StripEmit(e, false, []);
  }

  lemma {:induction false} IndLinked(r: Repo, b: Bytes, bound: nat)
    requires Closed(r) && Ranked(r) && Below(r, IndRefs(b), bound)
    ensures Linked(r, Strip(IndScript(r, b, bound)))
    decreases bound, 0, |b|
  {
    hide LinkedStep;
    LinkedHalt(r, Corrupt);
    if |b| >= OID_LEN {
      var ids := IndRefs(b);
      assert ids[0] == b[..OID_LEN] && forall i :: 0 <= i < |ids[1..]| ==> ids[1..][i] == ids[i + 1];
      StoryLinked(r, b[..OID_LEN]);
      IndLinked(r, b[OID_LEN..], bound);
      StripAppend(ScriptOf(r, b[..OID_LEN]), IndScript(r, b[OID_LEN..], bound));
      LinkedAppend(r, Story(r, b[..OID_LEN]), Strip(IndScript(r, b[OID_LEN..], bound)));
    }
  }

  lemma {:induction false} DirLinked(r: Repo, b: Bytes, bound: nat)
    requires Closed(r) && Ranked(r) && Below(r, DirRefs(b), bound)
    ensures Linked(r, Strip(DirScript(r, b, bound)))
    decreases bound, 0, |b|
  {
    LinkedHalt(r, Corrupt);
    if b != [] && ReadEntry(b).NextEntry? {
      var next := ReadEntry(b);
      var ids := DirRefs(b);
      assert ids[0] == next.entry.oid && forall i :: 0 <= i < |ids[1..]| ==> ids[1..][i] == ids[i + 1];
      StoryLinked(r, next.entry.oid);
      DirLinked(r, next.rest, bound);
      var scope := [Scope(next.entry.name, ScriptOf(r, next.entry.oid))];
      StripAppend(scope, DirScript(r, next.rest, bound));
      assert scope[1..] == [] && Strip(scope) == [Scope(next.entry.name, Story(r, next.entry.oid))];
      LinkedAppend(r, Strip(scope), Strip(DirScript(r, next.rest, bound)));
    }
  }

  lemma {:induction false} LinkLinked(r: Repo, text: Bytes, bound: nat)
    requires Closed(r) && Ranked(r) && Below(r, OidList(text), bound)
    ensures Linked(r, Strip(LinkScript(r, text, bound)))
    ensures ParseOid(text).Some? ==> Strip(LinkScript(r, text, bound)) == Story(r, ParseOid(text).value)
    decreases bound, 0, 0
  {
    LinkedHalt(r, Corrupt);
    if ParseOid(text).Some? {
      assert OidList(text)[0] == ParseOid(text).value;
      StoryLinked(r, ParseOid(text).value);
    }
  }

  lemma {:induction false} BackLinked(r: Repo, oid: OID, bound: nat)
    requires Closed(r) && Ranked(r) && oid in r.store && bound == Measure(r, oid)
    requires HandlerOf(r.store[oid].kind).BackHandler? && Below(r, Refs(r.store[oid]), bound)
    ensures Linked(r, Strip(HandlerScript(r, oid)))
    decreases bound, 1, 0
  {
    hide HandlerOf;
    LinkedHalt(r, Corrupt);
    var p := Decoded(r.store[oid].data);
    if p.Some? && "_date" in p.value.props && ParseInt(p.value.props["_date"]).Some? {
      var step := HandlerScript(r, oid)[0];
      LinkLinked(r, p.value.Get("hash"), bound);
      StripEmit(step.event, true, step.inner);
    }
  }

  lemma {:induction false} NodeLinked(r: Repo, oid: OID, bound: nat)
    requires Closed(r) && Ranked(r) && oid in r.store && bound == Measure(r, oid)
    requires HandlerOf(r.store[oid].kind).NodeHandler?
    requires Below(r, Refs(r.store[oid]), bound) && Present(r, Refs(r.store[oid]))
    ensures Linked(r, Strip(HandlerScript(r, oid)))
    decreases bound, 1, 0
  {
    hide HandlerOf;
    LinkedHalt(r, Corrupt);
    var d := Decoded(r.store[oid].data);
    if d.Some? {
      var p := d.value;
      match NodeKindOf(p.kind)
      case PlainNode => LinkedCall(r, Node(p));
      case DirNode => BodyLinked(r, p, Enter(p), bound);
      case RegNode => BodyLinked(r, p, Open(p), bound);
    }
  }

  lemma {:induction false} BodyLinked(r: Repo, p: PropertyMap, first: Event, bound: nat)
    requires Closed(r) && Ranked(r) && Below(r, OidList(NodeLink(p)), bound) && Present(r, OidList(NodeLink(p)))
    requires (first == Enter(p) && p.kind == "DIR") || (first == Open(p) && p.kind == "REG")
    ensures Linked(r, Strip([Emit(first, true, NodeBody(r, NodeLink(p), bound, Emit(ClosingOf(first), false, [])))]))
    decreases bound, 0, 1
  {
    hide Strip;
    var text, last := NodeLink(p), Emit(ClosingOf(first), false, []);
    LinkedHalt(r, Corrupt);
    LinkLinked(r, text, bound);
    StripEmit(first, true, NodeBody(r, text, bound, last));
    if ParseOid(text).Some? {
      assert OidList(text)[0] == ParseOid(text).value;
      StripAppend(LinkScript(r, text, bound), [last]);
      LinkedCall(r, ClosingOf(first));
      LinkedAppend(r, Story(r, ParseOid(text).value), [last]);
    }
  }

  // ---- the callbacks -----------------------------------------------------------------------

  datatype CacheRef = CacheRef(fsid: nat, base: int)

  /** `dirs` are the directories being walked; `cwd` is always the last of them. */
  datatype Regen = Regen(t: Tables, cache: Option<CacheRef>, dirs: seq<DirInfo>)

  /** The random part of the expiry time of an inode. */
  type Ages = nat -> nat

  const FAILED := Fail(Refused(2))
  const PANIC := Fail(Refused(3))

  function Expiry(age: Ages, base: int, ino: nat): (t: int)
    ensures base + 2 * WEEK <= t < base + 6 * WEEK
  {
    base + age(ino) % (4 * WEEK) + 2 * WEEK
  }

  function WithFile(dirs: seq<DirInfo>, fi: FileInfo): seq<DirInfo>
    requires dirs != []
  {
    var n := |dirs| - 1;
    dirs[n := DirInfo(dirs[n].ino, dirs[n].files[fi.ino := fi])]
  }

  /** The file an Open announces. */
  function FileOf(age: Ages, base: int, p: PropertyMap): Option<FileInfo> {
    match (ParseUint(p.Get("ino")), Timestamp(p.Get("ctime")), ParseOid(p.Get("data")))
    case (Some(ino), Some(ctime), Some(data)) => Some(FileInfo(ino, ctime, data, Expiry(age, base, ino)))
    case _ => None
  }

  function React(age: Ages, st: Regen, e: Event): (Regen, Reply) {
    match e
    case Back(_, date, header) =>
      if "fsuuid" !in header then (st, FAILED)
      else
        var t := WithFilesystem(st.t, header["fsuuid"]);
        (st.(t := t, cache := Some(CacheRef(t.filesystems[header["fsuuid"]], date))), Continue)
    case Enter(p) =>
      (match ParseUint(p.Get("ino"))
       case None => (st, FAILED)
       case Some(ino) => (st.(dirs := st.dirs + [DirInfo(ino, map[])]), Continue))
    case Leave(_) =>
      if st.dirs == [] || st.cache.None? then (st, PANIC)
      else
        var n := |st.dirs| - 1;
        var ref, info := st.cache.value, st.dirs[n];
        if !Taken(info.ino, info.files, ref.base) then (st.(dirs := st.dirs[..n]), FAILED)
        else
          var t := Rewritten(st.t, DirKey(ref.fsid, info.ino), ref.base, info.files);
          (st.(dirs := st.dirs[..n], t := t), Continue)
    case Open(p) =>
      if FileOf(age, 0, p).None? then (st, FAILED)
      else if st.dirs == [] || st.cache.None? then (st, PANIC)
      else (st.(dirs := WithFile(st.dirs, FileOf(age, st.cache.value.base, p).value)), Prune)
    case _ => (st, Continue)
  }

  function Regenerator(age: Ages): Visitor<Regen> {
    Visitor((st, path, e) => React(age, st, e))
  }

  // ---- what a walk collects ----------------------------------------------------------------

  /** Numbers fit their fields. */
  ghost predicate Storable(t: Tree) {
    StatFits(t.st) && (t.Dir? ==> forall i :: 0 <= i < |t.kids| ==> Storable(t.kids[i].node))
  }

  /** The cache in which a directory is being collected. */
  ghost predicate Ready(t: Tables, ref: CacheRef) {
    Consistent(t) && ref.fsid in t.filesystems.Values
  }

  function Top(dirs: seq<DirInfo>): DirInfo
    requires dirs != []
  {
    dirs[|dirs| - 1]
  }

  /** The same directories are open, and the current one may have got files. */
  ghost predicate SameButTop(a: seq<DirInfo>, b: seq<DirInfo>) {
    a != [] && |b| == |a| && b[..|b| - 1] == a[..|a| - 1] && Top(b).ino == Top(a).ino
  }

  /** What regenerating one node does: a file goes to the current directory, directories go to the tables. */
  ghost predicate Collected(r: Repo, fit: Fit, st: Regen, end: Regen, ref: CacheRef, c: Tree)
    requires Closed(r)
  {
    && SameButTop(st.dirs, end.dirs)
    && Entered(c, Top(st.dirs).files, Top(end.dirs).files, ref.base, ReadsAnd(r, fit))
    && Moved(r, fit, st, end, ref, Left(c))
  }

  /** The tables after leaving some directories. */
  ghost predicate Moved(r: Repo, fit: Fit, st: Regen, end: Regen, ref: CacheRef, dirs: seq<Place>)
    requires Closed(r)
  {
    && end.cache == st.cache && Ready(end.t, ref) && end.t.filesystems == st.t.filesystems
    && Leaves(st.t, end.t, ref.fsid, ref.base, dirs, ReadsAnd(r, fit))
  }

  /** Where a walk over the children stands: the files among the first `i` are in the current directory. */
  ghost predicate Going(r: Repo, fit: Fit, st: Regen, ref: CacheRef, kids: seq<Child>, i: nat)
    requires Closed(r) && i <= |kids|
  {
    && st.cache == Some(ref) && Ready(st.t, ref) && st.dirs != []
    && Gathered(Top(st.dirs).files, kids[..i], ref.base, ReadsAnd(r, fit))
  }

  lemma MovedNowhere(r: Repo, fit: Fit, st: Regen, ref: CacheRef)
    requires Closed(r) && Ready(st.t, ref)
    ensures Moved(r, fit, st, st, ref, [])
  {
    LeavesNothing(st.t, st.t, ref.fsid, ref.base, ReadsAnd(r, fit));
  }

  lemma MovedThen(r: Repo, fit: Fit, a: Regen, b: Regen, c: Regen, ref: CacheRef, ds: seq<Place>, es: seq<Place>)
    requires Closed(r) && Moved(r, fit, a, b, ref, ds) && Moved(r, fit, b, c, ref, es)
    ensures Moved(r, fit, a, c, ref, ds + es)
  {
    hide Leaves, Closed;
    LeavesThen(a.t, b.t, c.t, ref.fsid, ref.base, ds, es, ReadsAnd(r, fit));
  }

  lemma FileRead(age: Ages, base: int, t: Tree, oid: OID)
    requires t.Reg? && StatFits(t.st)
    ensures FileOf(age, base, LinkedProps(t, oid))
         == Some(FileInfo(t.st.ino, t.st.ctime.Nanos(), oid, Expiry(age, base, t.st.ino)))
  {
    hide Timestamp, FormatTime, ParseUint, ParseOid;
    InoRead(t, oid);
    ParseUintRoundTrip(t.st.ino);
    TimestampRoundTrip(t.st.ctime.sec, t.st.ctime.nsec);
    OidTextRoundTrip(oid);
  }

  lemma InoRead(t: Tree, oid: OID)
    requires !t.Other?
    ensures LinkedProps(t, oid).Get("ino") == Decimal(t.st.ino)
    ensures LinkedProps(t, oid).Get("ctime") == FormatTime(t.st.ctime.sec, t.st.ctime.nsec)
    ensures LinkedProps(t, oid).Get(LinkKey(t)) == OidText(oid)
  {
  }

  /** The story inside an Open is that of its identifier. */
  lemma OpenReads(r: Repo, fit: Fit, t: Tree, oid: OID, body: seq<Step>)
    requires Closed(r) && t.Reg? && LinkedStep(r, RegStep(t, oid, body)) && BlobData(body) == Some(Concat(t.pieces))
    requires fit(oid, t)
    ensures ReadsAnd(r, fit)(oid, t)
  {
    hide LinkedProps, Closed, Story, BlobData, ParseOid, Linked;
    var p := LinkedProps(t, oid);
    InoRead(t, oid);
    OidTextRoundTrip(oid);
    var inner := body + [Emit(Close(p), false, [])];
    assert LinkedOpen(r, p, inner);
    assert inner[..|inner| - 1] == body;
    var told := Story(r, oid) + [Emit(Close(p), false, [])];
    assert told[..|told| - 1] == Story(r, oid);
  }

  lemma OpenCollects(r: Repo, fit: Fit, age: Ages, t: Tree, oid: OID, body: seq<Step>,
                     path: seq<Bytes>, st: Regen, ref: CacheRef)
    requires Closed(r) && t.Reg? && Storable(t) && LinkedStep(r, RegStep(t, oid, body))
    requires BlobData(body) == Some(Concat(t.pieces)) && fit(oid, t)
    requires st.cache == Some(ref) && Ready(st.t, ref) && st.dirs != []
    ensures var run := RunStep(RegStep(t, oid, body), Regenerator(age), path, st);
      run.reply.Continue? && Collected(r, fit, st, run.st, ref, t)
  {
    hide LinkedProps, FileOf, Closed, Story, BlobData, Ready, Timestamp, ParseUint, ParseOid, Linked, Moved;
    hide ReadsAnd, LinkedStep, UnixNano;
    FileRead(age, 0, t, oid);
    FileRead(age, ref.base, t, oid);
    OpenReads(r, fit, t, oid, body);
    var fi := FileOf(age, ref.base, LinkedProps(t, oid)).value;
    assert EntryFor(fi, t, ref.base, ReadsAnd(r, fit));
    var end := st.(dirs := WithFile(st.dirs, fi));
    MovedNowhere(r, fit, st, ref);
    MovedTables(r, fit, st, end, ref);
    assert RunStep(RegStep(t, oid, body), Regenerator(age), path, st).st == end;
    assert end.dirs[..|end.dirs| - 1] == st.dirs[..|st.dirs| - 1];
  }

  lemma MovedTables(r: Repo, fit: Fit, st: Regen, end: Regen, ref: CacheRef)
    requires Closed(r) && Moved(r, fit, st, st, ref, []) && end.t == st.t && end.cache == st.cache
    ensures Moved(r, fit, st, end, ref, [])
  {
  }

  lemma CollectedNext(r: Repo, fit: Fit, st: Regen, end: Regen, ref: CacheRef, kids: seq<Child>, i: nat)
    requires Closed(r) && i < |kids| && Going(r, fit, st, ref, kids, i) && Collected(r, fit, st, end, ref, kids[i].node)
    ensures Going(r, fit, end, ref, kids, i + 1)
  {
    hide Closed, Ready, Leaves, Gathered, Entered;
    GatheredNext(Top(st.dirs).files, Top(end.dirs).files, kids, i, ref.base, ReadsAnd(r, fit));
  }

  lemma {:induction false} KidsRegen(r: Repo, fit: Fit, age: Ages, steps: seq<Step>, kids: seq<Child>, i: nat,
                                     path: seq<Bytes>, st: Regen, ref: CacheRef)
    requires Closed(r) && TellsKids(steps, kids, fit) && Linked(r, steps) && i <= |kids|
    requires (forall k :: 0 <= k < |kids| ==> Storable(kids[k].node)) && Going(r, fit, st, ref, kids, i)
    ensures var run := Run(steps[i..], Regenerator(age), path, st);
      && (run.reply.Continue? <==> DirsBelow(kids[i..]))
      && (run.reply.Continue? ==>
            && Going(r, fit, run.st, ref, kids, |kids|) && SameButTop(st.dirs, run.st.dirs)
            && Moved(r, fit, st, run.st, ref, LeftKids(kids[i..])))
    decreases kids, 1, |kids| - i
  {
    hide Closed, Tells, Storable, Linked, Going, Moved, Collected, SameButTop, React, Left, InosBelow;
    var v := Regenerator(age);
    if i == |kids| {
      assert steps[i..] == [] && kids[i..] == [];
      OpenDirs(r, fit, st, ref, kids, i);
      MovedNowhere(r, fit, st, ref);
    } else {
      var name, inner := steps[i].name, steps[i].inner;
      LinkedScope(r, steps, i);
      assert steps[i..][1..] == steps[i + 1..] && steps[i..][0] == steps[i];
      assert kids[i..][1..] == kids[i + 1..] && kids[i..][0] == kids[i];
      BelowCons(kids, i);
      NodeRegen(r, fit, age, inner, kids[i].node, path + [name], st, ref, kids, i);
      if !InosBelow(kids[i].node) {
        return;
      }
      var mid := Run(inner, v, path + [name], st).st;
      CollectedNext(r, fit, st, mid, ref, kids, i);
      KidsRegen(r, fit, age, steps, kids, i + 1, path, mid, ref);
      if !DirsBelow(kids[i + 1..]) {
        return;
      }
      var end := Run(steps[i + 1..], v, path, mid).st;
      CollectedMoves(r, fit, st, mid, ref, kids[i].node);
      MovedThen(r, fit, st, mid, end, ref, Left(kids[i].node), LeftKids(kids[i + 1..]));
      SameButTopTransitive(st.dirs, mid.dirs, end.dirs);
    }
  }

  lemma BelowCons(kids: seq<Child>, i: nat)
    requires i < |kids|
    ensures DirsBelow(kids[i..]) <==> InosBelow(kids[i].node) && DirsBelow(kids[i + 1..])
  {
    hide InosBelow;
    forall j | i <= j < |kids| ensures kids[i..][j - i] == kids[j] {
    }
    forall j | i < j < |kids| ensures kids[i + 1..][j - i - 1] == kids[j] {
    }
  }

  lemma SameButTopTransitive(a: seq<DirInfo>, b: seq<DirInfo>, c: seq<DirInfo>)
    requires SameButTop(a, b) && SameButTop(b, c)
    ensures SameButTop(a, c)
  {
  }

  lemma CollectedMoves(r: Repo, fit: Fit, st: Regen, end: Regen, ref: CacheRef, c: Tree)
    requires Closed(r) && Collected(r, fit, st, end, ref, c)
    ensures Moved(r, fit, st, end, ref, Left(c)) && SameButTop(st.dirs, end.dirs)
  {
  }

  lemma OpenDirs(r: Repo, fit: Fit, st: Regen, ref: CacheRef, kids: seq<Child>, i: nat)
    requires Closed(r) && i <= |kids| && Going(r, fit, st, ref, kids, i)
    ensures st.dirs != [] && st.cache == Some(ref) && Ready(st.t, ref) && SameButTop(st.dirs, st.dirs)
  {
  }

  lemma LinkedScope(r: Repo, steps: seq<Step>, i: nat)
    requires Closed(r) && i < |steps| && Linked(r, steps) && steps[i].Scope?
    ensures Linked(r, steps[i].inner)
  {
    hide Closed;
    assert LinkedStep(r, steps[i]);
  }

  lemma {:induction false} NodeRegen(r: Repo, fit: Fit, age: Ages, steps: seq<Step>, c: Tree, path: seq<Bytes>,
                                     st: Regen, ref: CacheRef, kids: seq<Child>, i: nat)
    requires Closed(r) && Tells(steps, c, fit) && Linked(r, steps) && Storable(c)
    requires i < |kids| && kids[i].node == c && Going(r, fit, st, ref, kids, i)
    ensures var run := Run(steps, Regenerator(age), path, st);
      (run.reply.Continue? <==> InosBelow(c)) && (run.reply.Continue? ==> Collected(r, fit, st, run.st, ref, c))
    decreases c, 2
  {
    hide Closed, Storable, Linked, React, Going, Moved, Ready, FilesBelow, DirsBelow;
    RunOne(steps[0], Regenerator(age), path, st);
    assert steps == [steps[0]];
    LinkedFirst(r, steps);
    OpenDirs(r, fit, st, ref, kids, i);
    match c
    case Other(_, _, _) => OtherCollects(r, fit, age, c, path, st, ref);
    case Reg(_, pieces) =>
      var oid: OID, body :|
        BlobData(body) == Some(Concat(pieces)) && fit(oid, c) && steps[0] == RegStep(c, oid, body);
      OpenCollects(r, fit, age, c, oid, body, path, st, ref);
    case Dir(_, below) =>
      var oid: OID, body :| TellsKids(body, below, fit) && steps[0] == DirStep(c, oid, body);
      DirCollects(r, fit, age, c, oid, body, path, st, ref);
  }

  lemma LinkedFirst(r: Repo, steps: seq<Step>)
    requires Closed(r) && steps != [] && Linked(r, steps)
    ensures LinkedStep(r, steps[0])
  {
  }

  lemma OtherCollects(r: Repo, fit: Fit, age: Ages, c: Tree, path: seq<Bytes>, st: Regen, ref: CacheRef)
    requires Closed(r) && c.Other? && st.cache == Some(ref) && Ready(st.t, ref) && st.dirs != []
    ensures var run := RunStep(Emit(Node(PropsOf(c)), false, []), Regenerator(age), path, st);
      run.reply.Continue? && Collected(r, fit, st, run.st, ref, c)
  {
    hide Moved, Closed;
    RunCall(Node(PropsOf(c)), Regenerator(age), path, st);
    MovedNowhere(r, fit, st, ref);
  }

  lemma DirCollects(r: Repo, fit: Fit, age: Ages, t: Tree, oid: OID, body: seq<Step>,
                    path: seq<Bytes>, st: Regen, ref: CacheRef)
    requires Closed(r) && t.Dir? && TellsKids(body, t.kids, fit) && LinkedStep(r, DirStep(t, oid, body))
    requires Storable(t) && st.cache == Some(ref) && Ready(st.t, ref)
    ensures var run := RunStep(DirStep(t, oid, body), Regenerator(age), path, st);
      && (run.reply.Continue? <==> InosBelow(t))
      && (run.reply.Continue? ==> run.st.dirs == st.dirs && Moved(r, fit, st, run.st, ref, Left(t)))
    decreases t, 1
  {
    hide Closed, Linked, Moved, Ready, LinkedProps, ParseUint, TellsKids, Gathered, Rewritten;
    hide Taken, FilesBelow, DirsBelow;
    var v, p := Regenerator(age), LinkedProps(t, oid);
    InoRead(t, oid);
    ParseUintRoundTrip(t.st.ino);
    var st1 := st.(dirs := st.dirs + [DirInfo(t.st.ino, map[])]);
    RunEnclosed(Enter(p), body, Leave(p), v, path, st);
    LinkedBody(r, body, Emit(Leave(p), false, []));
    assert t.kids[..0] == [] && body[0..] == body && t.kids[0..] == t.kids;
    NoneGathered(ref.base, ReadsAnd(r, fit));
    KidsRegen(r, fit, age, body, t.kids, 0, path, st1, ref);
    if !DirsBelow(t.kids) {
      return;
    }
    var st2 := Run(body, v, path, st1).st;
    assert st2.dirs[..|st2.dirs| - 1] == st.dirs;
    assert t.kids[..|t.kids|] == t.kids;
    GatheredBelow(t.st.ino, Top(st2.dirs).files, t.kids, ref.base, ReadsAnd(r, fit));
    if !FilesBelow(t.kids) || t.st.ino >= INT64_LIMIT {
      return;
    }
    var end := st2.(dirs := st.dirs, t := Rewritten(st2.t, DirKey(ref.fsid, t.st.ino), ref.base, Top(st2.dirs).files));
    assert v.react(st2, path, Leave(p)) == (end, Continue);
    WrittenMoves(r, fit, st2, end, ref, Place(t.st.ino, t.kids));
    MovedThen(r, fit, st1, st2, end, ref, LeftKids(t.kids), [Place(t.st.ino, t.kids)]);
    MovedFrom(r, fit, st1, end, ref, Left(t), st);
  }

  lemma NoneGathered(base: int, fit: Fit)
    ensures Gathered(map[], [], base, fit)
  {
  }

  lemma MovedFrom(r: Repo, fit: Fit, st: Regen, end: Regen, ref: CacheRef, dirs: seq<Place>, start: Regen)
    requires Closed(r) && Moved(r, fit, st, end, ref, dirs) && start.t == st.t && start.cache == st.cache
    ensures Moved(r, fit, start, end, ref, dirs)
  {
  }

  /** Leaving a directory writes what was gathered. */
  lemma WrittenMoves(r: Repo, fit: Fit, st: Regen, end: Regen, ref: CacheRef, d: Place)
    requires Closed(r) && Going(r, fit, st, ref, d.kids, |d.kids|) && end.cache == st.cache
    requires end.t == Rewritten(st.t, DirKey(ref.fsid, d.ino), ref.base, Top(st.dirs).files)
    ensures Moved(r, fit, st, end, ref, [d])
  {
    hide Closed, Rewritten, Consistent, Leaves, EntryForSome;
    var files := Top(st.dirs).files;
    assert d.kids[..|d.kids|] == d.kids;
    RewrittenSame(st.t, DirKey(ref.fsid, d.ino), ref.base, files);
    RewrittenConsistent(st.t, DirKey(ref.fsid, d.ino), ref.base, files);
    LeavesWritten(st.t, ref.fsid, ref.base, d, files, ReadsAnd(r, fit));
  }

  lemma RewrittenSame(t: Tables, key: DirKey, base: int, files: map<nat, FileInfo>)
    ensures Rewritten(t, key, base, files).filesystems == t.filesystems
  {
  }

  lemma LinkedBody(r: Repo, body: seq<Step>, last: Step)
    requires Closed(r) && Linked(r, body + [last])
    ensures Linked(r, body)
  {
    hide LinkedStep, Closed;
    forall i | 0 <= i < |body| ensures LinkedStep(r, body[i]) {
      assert (body + [last])[i] == body[i];
    }
  }

  // ---- the visitor object ------------------------------------------------------------------

  class OpenDir {
    const ino: nat
    var files: map<nat, FileInfo>

    constructor (ino: nat)
      ensures this.ino == ino && files == map[]
    {
      this.ino, files := ino, map[];
    }
  }

  lemma FilesystemsKept(t: Tables, uuid: Bytes, fsid: nat)
    requires fsid in t.filesystems.Values
    ensures fsid in WithFilesystem(t, uuid).filesystems.Values
  {
    var v :| v in t.filesystems && t.filesystems[v] == fsid;
    assert WithFilesystem(t, uuid).filesystems[v] == fsid;
  }

  lemma ReactLeave(age: Ages, st: Regen, p: PropertyMap)
    ensures st.dirs == [] || st.cache.None? ==> React(age, st, Leave(p)) == (st, PANIC)
    ensures st.dirs != [] && st.cache.Some? ==>
      var n, ref := |st.dirs| - 1, st.cache.value;
      var info := st.dirs[n];
      React(age, st, Leave(p)) ==
        if !Taken(info.ino, info.files, ref.base) then (st.(dirs := st.dirs[..n]), FAILED)
        else (st.(dirs := st.dirs[..n],
                  t := Rewritten(st.t, DirKey(ref.fsid, info.ino), ref.base, info.files)), Continue)
  {
    hide Taken, Rewritten;
  }

  /** The fields of `regenState`. A callback either does what `React` says, or fails in the database. */
  class RegenState {
    const pool: SqlPool
    const age: Ages
    var cache: Cache?
    var dirs: seq<OpenDir>
    var cwd: OpenDir?

    /** `dirs` is the stack of open directories, all different objects, and `cwd` is its top. */
    ghost predicate Valid()
      reads this, pool, cache, dirs
    {
      && pool.Valid() && Consistent(pool.work)
      && (cache != null ==> cache.pool == pool && cache.fsid in pool.work.filesystems.Values)
      && cwd == (if dirs == [] then null else dirs[|dirs| - 1])
      && (forall i, j :: 0 <= i < j < |dirs| ==> dirs[i] != dirs[j])
      && (forall i, k :: 0 <= i < |dirs| && k in dirs[i].files ==> dirs[i].files[k].ino == k)
    }

    ghost function Dirs(): (ds: seq<DirInfo>)
      reads this, dirs
      ensures |ds| == |dirs| && forall i :: 0 <= i < |ds| ==> ds[i] == DirInfo(dirs[i].ino, dirs[i].files)
    {
      seq(|dirs|, i requires 0 <= i < |dirs| reads this, dirs => DirInfo(dirs[i].ino, dirs[i].files))
    }

    ghost function State(): Regen
      reads this, pool, cache, dirs
    {
      Regen(pool.work, if cache == null then None else Some(CacheRef(cache.fsid, cache.baseTime)), Dirs())
    }

    constructor (pool: SqlPool, age: Ages)
      requires pool.Valid() && Consistent(pool.work)
      ensures Valid() && State() == Regen(pool.work, None, []) && this.pool == pool && this.age == age
    {
      this.pool, this.age, cache, dirs, cwd := pool, age, null, [], null;
    }

    method OnBack(root: OID, date: int, header: map<Bytes, Bytes>) returns (reply: Reply)
      requires Valid()
      modifies this`cache, pool
      ensures Valid() && dirs == old(dirs) && pool.View() == old(pool.View())
      ensures reply.Continue? ==> (State(), reply) == React(age, old(State()), Back(root, date, header))
      ensures !reply.Continue? ==>
        reply == FAILED && ("fsuuid" !in header || !pool.live || pool.faults > old(pool.faults))
    {
      hide SqlPool.Valid, Consistent, SqlPool.Snap, WithFilesystem;
      if "fsuuid" !in header {
        return FAILED;
      }
      if cache != null {
        FilesystemsKept(pool.work, header["fsuuid"], cache.fsid);
      }
      var c := NewCache(pool, header["fsuuid"], 0);
      if c == null {
        return FAILED;
      }
      c.baseTime := date;
      cache := c;
      assert Dirs() == old(Dirs());
      return Continue;
    }

    method OnEnter(p: PropertyMap) returns (reply: Reply)
      requires Valid()
      modifies this`dirs, this`cwd
      ensures Valid() && (State(), reply) == React(age, old(State()), Enter(p))
    {
      hide SqlPool.Valid, Consistent, ParseUint;
      var ino := ParseUint(p.Get("ino"));
      if ino.None? {
        return FAILED;
      }
      var info := new OpenDir(ino.value);
      dirs := dirs + [info];
      cwd := info;
      assert Dirs() == old(Dirs()) + [DirInfo(ino.value, map[])];
      return Continue;
    }

    method OnLeave(p: PropertyMap) returns (reply: Reply)
      requires Valid()
      modifies this`dirs, this`cwd, pool
      ensures Valid() && pool.View() == old(pool.View())
      ensures reply.Continue? ==> (State(), reply) == React(age, old(State()), Leave(p))
      ensures !reply.Continue? ==> reply == PANIC || reply == FAILED
      ensures reply == PANIC ==> React(age, old(State()), Leave(p)).1 == PANIC
      ensures reply == FAILED ==>
        !pool.live || pool.faults > old(pool.faults) || React(age, old(State()), Leave(p)).1 == FAILED
    {
      hide SqlPool.Valid, Consistent, Rewritten, Partly, SqlPool.Snap, Taken, React, Entries;
      hide SqlPool.View, SqlPool.Saved;
      ReactLeave(age, State(), p);
      if cwd == null || cache == null {
        return PANIC;
      }
      var info := cwd;
      dirs := dirs[..|dirs| - 1];
      cwd := if |dirs| > 0 then dirs[|dirs| - 1] else null;
      var ok := cache.UpdateDir(DirInfo(info.ino, info.files));
      assert Dirs() == old(Dirs())[..|dirs|];
      return if ok then Continue else FAILED;
    }

    method OnOpen(p: PropertyMap) returns (reply: Reply)
      requires Valid()
      modifies cwd
      ensures Valid() && (State(), reply) == React(age, old(State()), Open(p))
    {
      hide SqlPool.Valid, Consistent, ParseUint, Timestamp, ParseOid;
      var fi := FileOf(age, 0, p);
      if fi.None? {
        return FAILED;
      }
      if cwd == null || cache == null {
        return PANIC;
      }
      var file := fi.value.(expire := Expiry(age, cache.baseTime, fi.value.ino));
      cwd.files := cwd.files[file.ino := file];
      assert Dirs() == WithFile(old(Dirs()), file);
      return Prune;
    }
  }
}
