/** Getting a backup back: walking it with any visitor, and restoring it. */
module Recovery {
  import opened Base
  import opened Pool
  import opened Decode
  import opened Visitors
  import opened Stories
  import opened Files
  import opened Trees
  import opened Runs
  import opened Restores
  import opened Text
  import opened Caches
  import opened Memories
  import opened Regens

  /** Walking with a visitor that only looks at decoded nodes: its calls are those of the story. */
  method Visit<S(!new)>(pool: SqlPool, id: OID, v: Visitor<S>, start: S)
    returns (end: S, reply: Reply, ghost log: seq<Visit>)
    requires pool.Valid() && pool.live && Closed(pool.View()) && IgnoresRaw(v)
    ensures var r := Run(Story(pool.View(), id), v, [], start); end == r.st && reply == r.reply
    ensures DecodedVisits(log) == Run(Story(pool.View(), id), v, [], start).log
  {
    ClosedIsRanked(pool.View());
    RunStrip(ScriptOf(pool.View(), id), v, [], start);
    var walker := new Walker(pool, v, start);
    assert walker.Outcome(ScriptOf(pool.View(), id)).log == Run(ScriptOf(pool.View(), id), v, [], start).log;
    reply := walker.Walk(id);
    end, log := walker.st, walker.log;
  }

  lemma {:induction false} ToldWhole(steps: seq<Step>, t: Tree)
    requires Tells(steps, t, ANY)
    ensures !Halts(steps)
    decreases t, 1
  {
    assert steps == [steps[0]] && [steps[0]][1..] == [];
    match t
    case Other(_, _, _) =>
    case Reg(_, pieces) =>
      var oid: OID, body :| BlobData(body) == Some(Concat(pieces)) && steps[0] == RegStep(t, oid, body);
      BlobsWhole(body);
      HaltsSnoc(body, Emit(Close(LinkedProps(t, oid)), false, []));
    case Dir(_, kids) =>
      var oid: OID, body :| TellsKids(body, kids, ANY) && steps[0] == DirStep(t, oid, body);
      KidsWhole(body, kids);
      HaltsSnoc(body, Emit(Leave(LinkedProps(t, oid)), false, []));
  }

  lemma {:induction false} HaltsSnoc(steps: seq<Step>, step: Step)
    requires !step.Halt? && !Halts(step.inner)
    ensures Halts(steps + [step]) == Halts(steps)
  {
    if steps == [] {
      assert [step][1..] == [];
    } else {
      HaltsSnoc(steps[1..], step);
      assert (steps + [step])[1..] == steps[1..] + [step];
    }
  }

  lemma {:induction false} BlobsWhole(body: seq<Step>)
    requires BlobData(body).Some?
    ensures !Halts(body)
  {
    if body != [] {
      BlobsWhole(body[1..]);
    }
  }

  lemma {:induction false} KidsWhole(steps: seq<Step>, kids: seq<Child>)
    requires TellsKids(steps, kids, ANY)
    ensures !Halts(steps)
    decreases kids, 0
  {
    if steps != [] {
      assert steps[0].Scope?;
      ToldWhole(steps[0].inner, kids[0].node);
      assert TellsKids(steps[1..], kids[1..], ANY);
      KidsWhole(steps[1..], kids[1..]);
    }
  }

  /** The decoded events of a walk: Back with the date and all properties of the user, then the depth-first traversal of
      the visible tree. */
  ghost predicate Traversal(events: seq<Seen>, id: OID, tree: Tree, uuid: Bytes, ms: int, props: map<Bytes, Bytes>) {
    exists head: OID, header: map<Bytes, Bytes>, steps ::
      && HeaderOf(header, head, uuid, props) && Tells(steps, Visible(tree, tree.st.dev), ANY)
      && events == [Seen([], Back(id, ms * 1_000_000, header))] + Events(steps, [])
  }

  /** Backup then walk is the identity: walking a recorded backup with a visitor that never refuses, whatever its
      callbacks do to its state, succeeds, and among its calls those on decoded nodes are Back and then the
      depth-first traversal of the visible tree, all of it and nothing else. Every chunk below the backup is shown. */
  method WalkBackup<S(!new)>(pool: SqlPool, id: OID, v: Visitor<S>, start: S, ghost tree: Tree, ghost uuid: Bytes,
                             ghost ms: int, ghost props: map<Bytes, Bytes>)
    returns (end: S, reply: Reply, ghost log: seq<Visit>)
    requires pool.Valid() && pool.live && Closed(pool.View()) && NeverRefuses(v)
    requires Recorded(pool.View(), id, tree, uuid, ms, props)
    ensures reply == Continue && Traversal(DecodedSeen(SeenIn(log)), id, tree, uuid, ms, props)
    ensures Ranked(pool.View()) && end == Run(ScriptOf(pool.View(), id), v, [], start).st
    ensures WalkedInOrder(pool.View(), id, [], log, reply) && Begun(SeenIn(log)) == Preorder(pool.View(), id)
  {
    hide Recorded, Closed, SqlPool.Valid, Traversal, WalkedInOrder, ScriptOf, Run, NeverRefuses, Begun, Preorder;
    ClosedIsRanked(pool.View());
    WalkTells(pool.View(), id, v, start, tree, uuid, ms, props);
    var walker := new Walker(pool, v, start);
    assert [] + Run(ScriptOf(pool.View(), id), v, [], start).log == Run(ScriptOf(pool.View(), id), v, [], start).log;
    reply := walker.Walk(id);
    end, log := walker.st, walker.log;
  }

  /** The same of the script that a walk performs. */
  lemma WalkTells<S(!new)>(r: Repo, id: OID, v: Visitor<S>, start: S, tree: Tree, uuid: Bytes, ms: int,
                           props: map<Bytes, Bytes>)
    requires Closed(r) && Ranked(r) && Recorded(r, id, tree, uuid, ms, props) && NeverRefuses(v)
    ensures var run := Run(ScriptOf(r, id), v, [], start);
      && run.reply.Continue? && Traversal(DecodedSeen(SeenIn(run.log)), id, tree, uuid, ms, props)
      && Begun(SeenIn(run.log)) == Preorder(r, id)
  {
    hide BackProps, Tells, HeaderOf;
    var head: OID :| head in r.store && RecordedAt(r, id, head, tree, uuid, ms, props, ANY);
    var steps := Story(r, head);
    ToldWhole(steps, Visible(tree, tree.st.dev));
    var header := BackProps(head, uuid, ms, props).props - {"_date"};
    BackHolds(head, uuid, ms, props);
    var e := Back(id, ms * 1_000_000, header);
    OneHalts(Emit(e, true, steps));
    RunSeesStripped(ScriptOf(r, id), v, [], start);
    EventsOfEmit(e, true, steps, []);
    HaltsStrip(ScriptOf(r, id));
    RunSeesAll(ScriptOf(r, id), v, [], start);
    WalksAll(r, id, []);
  }

  lemma {:induction false} SoundVisible(t: Tree, dev: nat)
    requires WellFormed(t)
    ensures WellFormed(Visible(t, dev))
  {
    if t.Dir? && t.st.dev == dev {
      var kids := VisibleKids(t.kids, dev);
      forall i | 0 <= i < |kids| ensures WellFormed(kids[i].node) {
        SoundVisible(t.kids[i].node, dev);
      }
    }
  }

  lemma GrownFromNothing(g: Fs, add: Fs)
    requires Grown(map[], g, add, {})
    ensures g == add
  {
  }

  /** Restoring to a place that does not exist yet: it works exactly when the numbers `GetInt` reads fit 32 bits,
      and then the files, directories and links of the visible tree are there, as they were, and nothing else. */
  method Recover(pool: SqlPool, id: OID, isRoot: bool, ghost tree: Tree, ghost uuid: Bytes, ghost ms: int,
                 ghost props: map<Bytes, Bytes>) returns (ok: bool, fs: Fs)
    requires pool.Valid() && pool.live && Closed(pool.View()) && WellFormed(tree)
    requires Recorded(pool.View(), id, tree, uuid, ms, props)
    ensures ok <==> Restorable(Visible(tree, tree.st.dev), isRoot)
    ensures ok ==> fs == Built(Visible(tree, tree.st.dev), [], isRoot)
  {
    hide Recorded, Closed, SqlPool.Valid;
    RestorerIgnoresRaw(isRoot);
    var end, reply, _ := Visit(pool, id, Restorer(isRoot), Restoring(map[], None));
    RecoverTold(pool.View(), id, isRoot, tree, uuid, ms, props);
    ok, fs := reply.Continue?, end.fs;
  }

  lemma RecoverTold(r: Repo, id: OID, isRoot: bool, tree: Tree, uuid: Bytes, ms: int, props: map<Bytes, Bytes>)
    requires Closed(r) && WellFormed(tree) && Recorded(r, id, tree, uuid, ms, props)
    ensures var run, t := Run(Story(r, id), Restorer(isRoot), [], Restoring(map[], None)), Visible(tree, tree.st.dev);
      && (run.reply.Continue? <==> Restorable(t, isRoot))
      && (Restorable(t, isRoot) ==> run.st.fs == Built(t, [], isRoot))
  {
    hide BackProps, Tells, Story, WellFormed, Built, Restorable, Grown;
    var head: OID :| head in r.store && RecordedAt(r, id, head, tree, uuid, ms, props, ANY);
    var t, st := Visible(tree, tree.st.dev), Restoring(map[], None);
    var e := Back(id, ms * 1_000_000, BackProps(head, uuid, ms, props).props - {"_date"});
    RunOne(Emit(e, true, Story(r, head)), Restorer(isRoot), [], st);
    SoundVisible(tree, tree.st.dev);
    NodePut(Story(r, head), t, [], st, isRoot);
    if Restorable(t, isRoot) {
      GrownFromNothing(Run(Story(r, head), Restorer(isRoot), [], st).st.fs, Built(t, [], isRoot));
    }
  }

  /** A file of user 2^31 makes a restore by root fail, while another user can restore it. */
  lemma LargeOwner(r: Repo, id: OID, isRoot: bool, root: Stat, name: Bytes, file: Stat, uuid: Bytes, ms: int,
                   props: map<Bytes, Bytes>)
    requires Closed(r) && file.uid == 0x8000_0000 && file.perm < INT32_LIMIT && StatReads(root, true)
    requires var tree := Dir(root, [Child(name, Reg(file, []))]);
      WellFormed(tree) && Recorded(r, id, tree, uuid, ms, props)
    ensures Run(Story(r, id), Restorer(isRoot), [], Restoring(map[], None)).reply.Continue? <==> !isRoot
  {
    hide Closed, Recorded, Story, WellFormed;
    var tree := Dir(root, [Child(name, Reg(file, []))]);
    RecoverTold(r, id, isRoot, tree, uuid, ms, props);
    var seen := Visible(tree, root.dev);
    assert seen.kids[0] == Child(name, Reg(file, []));
    assert Restorable(seen, isRoot) <==> Restorable(seen.kids[0].node, isRoot);
  }

  // ---- regenerating the cache --------------------------------------------------------------

  /** Regenerating the cache from a recorded backup succeeds exactly when the database driver takes the inode numbers
      of its directories and their files. Then no directory is left open, and the cache holds what the backup would have
      left in it: for every inode number, one entry for each inode of the regular files in
      the directory with that number that is left last, each with an identifier the bytes of the file can be read
      from; no other directory of any filesystem gains or loses an entry. */
  lemma RegenRebuilds(r: Repo, id: OID, t: Tables, age: Ages, tree: Tree, uuid: Bytes, ms: int,
                      props: map<Bytes, Bytes>, fit: Fit)
    requires Closed(r) && Consistent(t) && RecordedAs(r, id, tree, uuid, ms, props, fit) && tree.Dir?
    requires Storable(Visible(tree, tree.st.dev))
    ensures var seen, base := Visible(tree, tree.st.dev), ms * 1_000_000;
      var run := Run(Story(r, id), Regenerator(age), [], Regen(t, None, []));
      && (run.reply.Continue? <==> InosBelow(seen))
      && (InosBelow(seen) ==>
            && run.st.dirs == [] && Consistent(run.st.t) && uuid in run.st.t.filesystems
            && run.st.t.filesystems == WithFilesystem(t, uuid).filesystems
            && Leaves(t, run.st.t, run.st.t.filesystems[uuid], base, Left(seen), ReadsAnd(r, fit))
            && (IsInt64(base) && IsInt64(base + 6 * WEEK) ==>
                  Decided(t, run.st.t, run.st.t.filesystems[uuid], base, Left(seen), ReadsAnd(r, fit))))
  {
    hide Closed, Tells, Story, Consistent, BackProps, WithFilesystem, Linked, Storable, Leaves, Decided, Left;
    hide InosBelow;
    var head: OID :| head in r.store && RecordedAt(r, id, head, tree, uuid, ms, props, fit);
    var seen, start := Visible(tree, tree.st.dev), Regen(t, None, []);
    var e := Back(id, ms * 1_000_000, BackProps(head, uuid, ms, props).props - {"_date"});
    HeaderUuid(head, uuid, ms, props);
    RunOne(Emit(e, true, Story(r, head)), Regenerator(age), [], start);
    NewFilesystem(t, uuid, DirKey(0, 0));
    var u := WithFilesystem(t, uuid);
    var ref := CacheRef(u.filesystems[uuid], ms * 1_000_000);
    assert u.filesystems[uuid] in u.filesystems.Values;
    TreeRegen(r, fit, age, Story(r, head), head, seen, Regen(u, Some(ref), []), ref);
    if !InosBelow(seen) {
      return;
    }
    var end := Run(Story(r, id), Regenerator(age), [], start).st;
    LeavesNumbered(t, uuid, end.t, ref.fsid, ref.base, Left(seen), ReadsAnd(r, fit));
    if IsInt64(ref.base) && IsInt64(ref.base + 6 * WEEK) {
      LeavesDecided(t, end.t, ref.fsid, ref.base, Left(seen), ReadsAnd(r, fit));
    }
  }

  lemma HeaderUuid(head: OID, uuid: Bytes, ms: int, props: map<Bytes, Bytes>)
    ensures var header := BackProps(head, uuid, ms, props).props - {"_date"};
      "fsuuid" in header && header["fsuuid"] == uuid
  {
    assert "fsuuid" != "_date";
  }

  lemma TreeRegen(r: Repo, fit: Fit, age: Ages, steps: seq<Step>, head: OID, t: Tree, st: Regen, ref: CacheRef)
    requires Closed(r) && steps == Story(r, head) && Tells(steps, t, fit) && t.Dir? && Storable(t)
    requires st.cache == Some(ref) && Ready(st.t, ref)
    ensures var run := Run(steps, Regenerator(age), [], st);
      && (run.reply.Continue? <==> InosBelow(t))
      && (run.reply.Continue? ==>
            && run.st.dirs == st.dirs && Ready(run.st.t, ref) && run.st.t.filesystems == st.t.filesystems
            && Leaves(st.t, run.st.t, ref.fsid, ref.base, Left(t), ReadsAnd(r, fit)))
  {
    hide Closed, Story, Ready, Leaves, Storable, Left, InosBelow;
    var oid: OID, body :| TellsKids(body, t.kids, fit) && steps[0] == DirStep(t, oid, body);
    assert steps == [steps[0]];
    ClosedIsRanked(r);
    StoryLinked(r, head);
    LinkedFirst(r, steps);
    RunOne(steps[0], Regenerator(age), [], st);
    DirCollects(r, fit, age, t, oid, body, [], st, ref);
  }

  /** A recorded backup with a file of inode 2^63 cannot be regenerated. */
  lemma LargeInodeRegen(r: Repo, id: OID, t: Tables, age: Ages, root: Stat, name: Bytes, file: Stat, pieces: seq<Bytes>,
                        uuid: Bytes, ms: int, props: map<Bytes, Bytes>)
    requires Closed(r) && Consistent(t) && file.ino == 0x8000_0000_0000_0000
    requires var tree := Dir(root, [Child(name, Reg(file, pieces))]);
      Recorded(r, id, tree, uuid, ms, props) && Storable(Visible(tree, root.dev))
    ensures !Run(Story(r, id), Regenerator(age), [], Regen(t, None, [])).reply.Continue?
  {
    hide Closed, Consistent, RecordedAs, Story, Storable, InosBelow, Regenerator;
    var kid := Child(name, Reg(file, pieces));
    assert [kid] + [] == [kid];
    LargeInode(root, name, file, pieces, []);
    RegenRebuilds(r, id, t, age, Dir(root, [kid]), uuid, ms, props, ANY);
  }
}
