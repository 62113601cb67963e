/** What a walk tells a visitor about the decoded nodes below an identifier, and how the chunks written by
    the store's writers determine it. */
module Stories {
  import opened Base
  import opened Chunks
  import opened Text
  import opened Pool
  import opened Props
  import opened Visitors
  import opened Decode

  // ---- every script is shaped --------------------------------------------------------------

  /** Together with the lemmas on shaped scripts: the bracket and Prune rules hold of every walk. */
  lemma {:induction false} ScriptShaped(r: Repo, oid: OID)
    requires Ranked(r)
    ensures Shaped(ScriptOf(r, oid))
    decreases Measure(r, oid), 2, 0
  {
    ShapedOne(Halt(NotFound));
    if oid in r.store {
      HandlerShaped(r, oid);
      ShapedOne(Emit(ChunkSeen(oid, r.store[oid]), true, HandlerScript(r, oid)));
    }
    ShapedOne(ScriptOf(r, oid)[0]);
  }

  lemma {:induction false} HandlerShaped(r: Repo, oid: OID)
    requires Ranked(r) && oid in r.store
    ensures Shaped(HandlerScript(r, oid))
    decreases Measure(r, oid), 1, 0
  {
    hide HandlerOf, ParseInt, ParseOid, Decoded;
    assert RankedAt(r, oid);
    var c, bound := r.store[oid], Measure(r, oid);
    ShapedOne(Halt(Corrupt));
    match HandlerOf(c.kind)
    case BlobHandler => ShapedOne(Emit(Blob(oid, c.data), false, []));
    case IndHandler => IndShaped(r, c.data, bound);
    case DirHandler => DirShaped(r, c.data, bound);
    case BackHandler =>
      var p := Decoded(c.data);
      if p.Some? {
        LinkShaped(r, p.value.Get("hash"), bound);
        ShapedOne(HandlerScript(r, oid)[0]);
      }
    case NodeHandler =>
      var p := Decoded(c.data);
      if p.Some? {
        NodeShaped(r, p.value, bound);
      }
    case _ =>
  }

  lemma {:induction false} LinkShaped(r: Repo, text: Bytes, bound: nat)
    requires Ranked(r) && Below(r, OidList(text), bound)
    ensures Shaped(LinkScript(r, text, bound))
    decreases bound, 0, 0
  {
    ShapedOne(Halt(Corrupt));
    if ParseOid(text).Some? {
      assert OidList(text)[0] == ParseOid(text).value;
      ScriptShaped(r, ParseOid(text).value);
    }
  }

  lemma {:induction false} NodeShaped(r: Repo, p: PropertyMap, bound: nat)
    requires Ranked(r) && Below(r, OidList(NodeLink(p)), bound)
    ensures Shaped(NodeScript(r, p, bound))
    decreases bound, 0, 1
  {
    LinkShaped(r, NodeLink(p), bound);
    BodyShaped(r, NodeLink(p), bound, Enter(p));
    BodyShaped(r, NodeLink(p), bound, Open(p));
    ShapedOne(Emit(Node(p), false, []));
  }

  lemma BodyShaped(r: Repo, text: Bytes, bound: nat, first: Event)
    requires Ranked(r) && Below(r, OidList(text), bound) && Shaped(LinkScript(r, text, bound)) && Opening(first)
    ensures Shaped([Emit(first, true, NodeBody(r, text, bound, Emit(ClosingOf(first), false, [])))])
  {
    var last := Emit(ClosingOf(first), false, []);
    if ParseOid(text).None? {
      ShapedBracket([], Halt(Corrupt), first);
      assert [] + [Halt(Corrupt)] == [Halt(Corrupt)];
    } else {
      ShapedBracket(LinkScript(r, text, bound), last, first);
    }
  }

  lemma ShapedBracket(body: seq<Step>, last: Step, first: Event)
    requires Shaped(body) && Opening(first) && (last.Halt? || last == Emit(ClosingOf(first), false, []))
    ensures Shaped([Emit(first, true, body + [last])])
  {
    var inner := body + [last];
    assert inner[..|inner| - 1] == body;
    ShapedOne(Emit(first, true, inner));
  }

  lemma {:induction false} IndShaped(r: Repo, b: Bytes, bound: nat)
    requires Ranked(r) && Below(r, IndRefs(b), bound)
    ensures Shaped(IndScript(r, b, bound))
    decreases bound, 0, |b|
  {
    ShapedOne(Halt(Corrupt));
    if |b| >= OID_LEN {
      var ids := IndRefs(b);
      assert ids[0] == b[..OID_LEN] && forall i :: 0 <= i < |ids[1..]| ==> ids[1..][i] == ids[i + 1];
      ScriptShaped(r, b[..OID_LEN]);
      IndShaped(r, b[OID_LEN..], bound);
      ShapedAppend(ScriptOf(r, b[..OID_LEN]), IndScript(r, b[OID_LEN..], bound));
    }
  }

  lemma {:induction false} DirShaped(r: Repo, b: Bytes, bound: nat)
    requires Ranked(r) && Below(r, DirRefs(b), bound)
    ensures Shaped(DirScript(r, b, bound))
    decreases bound, 0, |b|
  {
    ShapedOne(Halt(Corrupt));
    if b != [] && ReadEntry(b).NextEntry? {
      var next := ReadEntry(b);
      var ids := DirRefs(b);
      assert ids[0] == next.entry.oid && forall i :: 0 <= i < |ids[1..]| ==> ids[1..][i] == ids[i + 1];
      ScriptShaped(r, next.entry.oid);
      DirShaped(r, next.rest, bound);
      ShapedAppend([Scope(next.entry.name, ScriptOf(r, next.entry.oid))], DirScript(r, next.rest, bound));
      ShapedOne(Scope(next.entry.name, ScriptOf(r, next.entry.oid)));
    }
  }

  // ---- scripts do not change when the pool grows -------------------------------------------

  lemma RefsTail(r: Repo, s: Repo, ids: seq<OID>, bound: nat)
    requires ids != [] && Present(r, ids) && Below(r, ids, bound) && Below(s, ids, bound)
    ensures ids[0] in r.store && Measure(r, ids[0]) < bound && Measure(s, ids[0]) < bound
    ensures Present(r, ids[1..]) && Below(r, ids[1..], bound) && Below(s, ids[1..], bound)
  {
  }

  lemma {:induction false} ScriptStable(r: Repo, s: Repo, oid: OID)
    requires Closed(r) && Extends(r, s) && Ranked(r) && Ranked(s) && oid in r.store
    ensures ScriptOf(s, oid) == ScriptOf(r, oid)
    decreases Measure(r, oid), 2, 0
  {
    assert GroundedAt(r, oid) && RankedAt(r, oid) && RankedAt(s, oid);
    var c, bound := r.store[oid], Measure(r, oid);
    assert bound == Measure(s, oid);
    hide HandlerOf;
    match HandlerOf(c.kind)
    case IndHandler => IndStable(r, s, c.data, bound);
    case DirHandler => DirStable(r, s, c.data, bound);
    case BackHandler =>
      var p := Decoded(c.data);
      if p.Some? {
        LinkStable(r, s, p.value.Get("hash"), bound);
      }
    case NodeHandler =>
      var p := Decoded(c.data);
      if p.Some? {
        LinkStable(r, s, NodeLink(p.value), bound);
        assert NodeScript(s, p.value, bound) == NodeScript(r, p.value, bound);
      }
    case _ =>
  }

  lemma {:induction false} LinkStable(r: Repo, s: Repo, text: Bytes, bound: nat)
    requires Closed(r) && Extends(r, s) && Ranked(r) && Ranked(s) && Present(r, OidList(text))
    requires Below(r, OidList(text), bound) && Below(s, OidList(text), bound)
    ensures LinkScript(s, text, bound) == LinkScript(r, text, bound)
    decreases bound, 0, 0
  {
    if ParseOid(text).Some? {
      assert OidList(text)[0] == ParseOid(text).value;
      ScriptStable(r, s, ParseOid(text).value);
    }
  }

  lemma {:induction false} IndStable(r: Repo, s: Repo, b: Bytes, bound: nat)
    requires Closed(r) && Extends(r, s) && Ranked(r) && Ranked(s) && Present(r, IndRefs(b))
    requires Below(r, IndRefs(b), bound) && Below(s, IndRefs(b), bound)
    ensures IndScript(s, b, bound) == IndScript(r, b, bound)
    decreases bound, 0, |b|
  {
    if |b| >= OID_LEN {
      var ids := IndRefs(b);
      assert ids[0] == b[..OID_LEN] && ids[1..] == IndRefs(b[OID_LEN..]);
      RefsTail(r, s, ids, bound);
      ScriptStable(r, s, b[..OID_LEN]);
      IndStable(r, s, b[OID_LEN..], bound);
    }
  }

  lemma {:induction false} DirStable(r: Repo, s: Repo, b: Bytes, bound: nat)
    requires Closed(r) && Extends(r, s) && Ranked(r) && Ranked(s) && Present(r, DirRefs(b))
    requires Below(r, DirRefs(b), bound) && Below(s, DirRefs(b), bound)
    ensures DirScript(s, b, bound) == DirScript(r, b, bound)
    decreases bound, 0, |b|
  {
    if b != [] && ReadEntry(b).NextEntry? {
      var next := ReadEntry(b);
      var ids := DirRefs(b);
      assert ids[0] == next.entry.oid && ids[1..] == DirRefs(next.rest);
      RefsTail(r, s, ids, bound);
      ScriptStable(r, s, next.entry.oid);
      DirStable(r, s, next.rest, bound);
    }
  }

  // ---- which identifiers are walked --------------------------------------------------------

  /** The identifiers a walk begins with, in order. */
  function Begun(events: seq<Seen>): seq<OID> {
    if events == [] then []
    else (if events[0].event.EarlyVisit? then [events[0].event.oid] else []) + Begun(events[1..])
  }

  lemma {:induction false} BegunAppend(a: seq<Seen>, b: seq<Seen>)
    ensures Begun(a + b) == Begun(a) + Begun(b)
  {
    if a == [] {
      assert a + b == b;
    } else {
      BegunAppend(a[1..], b);
      assert (a + b)[1..] == a[1..] + b;
      AssocOids(if a[0].event.EarlyVisit? then [a[0].event.oid] else [], Begun(a[1..]), Begun(b));
    }
  }

  lemma AssocOids(a: seq<OID>, b: seq<OID>, c: seq<OID>)
    ensures a + b + c == a + (b + c)
  {
  }

  /** An identifier and then everything its chunk refers to, in order and with repetitions. */
  ghost function Preorder(r: Repo, oid: OID): seq<OID>
    requires Ranked(r)
    decreases Measure(r, oid), 1, 0
  {
    assert RankedAt(r, oid);
    [oid] + if oid in r.store then PreorderAll(r, Refs(r.store[oid]), Measure(r, oid)) else []
  }

  ghost function PreorderAll(r: Repo, oids: seq<OID>, bound: nat): seq<OID>
    requires Ranked(r) && Below(r, oids, bound)
    decreases bound, 0, |oids|
  {
    if oids == [] then []
    else
      assert forall i :: 0 <= i < |oids[1..]| ==> oids[1..][i] == oids[i + 1];
      Preorder(r, oids[0]) + PreorderAll(r, oids[1..], bound)
  }

  lemma PreorderOne(r: Repo, oid: OID, bound: nat)
    requires Ranked(r) && Below(r, [oid], bound)
    ensures [oid][0] == oid && PreorderAll(r, [oid], bound) == Preorder(r, oid)
  {
    assert [oid][1..] == [];
    assert PreorderAll(r, [oid][1..], bound) == [];
  }

  lemma BegunEmit(e: Event, soft: bool, inner: seq<Step>, path: seq<Bytes>)
    ensures Begun(Events([Emit(e, soft, inner)], path))
         == (if e.EarlyVisit? then [e.oid] else []) + Begun(Events(inner, path))
    ensures Halts([Emit(e, soft, inner)]) <==> Halts(inner)
  {
    EventsOfEmit(e, soft, inner, path);
    OneHalts(Emit(e, soft, inner));
    assert ([Seen(path, e)] + Events(inner, path))[1..] == Events(inner, path);
  }

  lemma BegunScript(a: seq<Step>, b: seq<Step>, path: seq<Bytes>)
    ensures Begun(Events(a + b, path)) == Begun(Events(a, path)) + Begun(Events(b, path))
    ensures Halts(a + b) <==> Halts(a) || Halts(b)
  {
    EventsAppend(a, b, path);
    BegunAppend(Events(a, path), Events(b, path));
    HaltsAppend(a, b);
  }

  /** Unless the decoder gives up, a walk goes through everything below the identifier, whatever the kinds of the
      chunks: all their references, in order. */
  lemma {:induction false} WalksAll(r: Repo, oid: OID, path: seq<Bytes>)
    requires Ranked(r) && !Halts(ScriptOf(r, oid))
    ensures Begun(Events(ScriptOf(r, oid), path)) == Preorder(r, oid)
    decreases Measure(r, oid), 2, 0
  {
    hide Events, Begun, HandlerScript, PreorderAll, Refs, Halts;
    NothingBegun(r, 0, path);
    BegunEmit(EarlyVisit(oid), true, ScriptOf(r, oid)[0].inner, path);
    if oid in r.store {
      assert RankedAt(r, oid);
      BegunEmit(ChunkSeen(oid, r.store[oid]), true, HandlerScript(r, oid), path);
      HandlerWalks(r, oid, path);
    }
  }

  lemma {:induction false} HandlerWalks(r: Repo, oid: OID, path: seq<Bytes>)
    requires Ranked(r) && oid in r.store && !Halts(HandlerScript(r, oid))
    ensures Below(r, Refs(r.store[oid]), Measure(r, oid))
    ensures Begun(Events(HandlerScript(r, oid), path)) == PreorderAll(r, Refs(r.store[oid]), Measure(r, oid))
    decreases Measure(r, oid), 1, 0
  {
    hide Events, Begun, PreorderAll, HandlerOf, Decoded, ParseOid, ParseInt;
    assert RankedAt(r, oid);
    var c, bound := r.store[oid], Measure(r, oid);
    NothingBegun(r, bound, path);
    match HandlerOf(c.kind)
    case BlobHandler => BegunEmit(Blob(oid, c.data), false, [], path);
    case IndHandler => IndWalks(r, c.data, bound, path);
    case DirHandler => DirWalks(r, c.data, bound, path);
    case BackHandler =>
      var p, step := Decoded(c.data).value, HandlerScript(r, oid)[0];
      BegunEmit(step.event, true, step.inner, path);
      LinkWalks(r, p.Get("hash"), bound, path);
    case NodeHandler => NodeWalks(r, Decoded(c.data).value, bound, path);
    case _ =>
  }

  lemma NothingBegun(r: Repo, bound: nat, path: seq<Bytes>)
    requires Ranked(r)
    ensures Begun(Events([], path)) == [] == PreorderAll(r, [], bound)
    ensures forall e :: Halts([Halt(e)])
  {
  }

  lemma {:induction false} LinkWalks(r: Repo, text: Bytes, bound: nat, path: seq<Bytes>)
    requires Ranked(r) && Below(r, OidList(text), bound) && !Halts(LinkScript(r, text, bound))
    ensures ParseOid(text).Some?
    ensures Begun(Events(LinkScript(r, text, bound), path)) == PreorderAll(r, OidList(text), bound)
    decreases bound, 0, 0
  {
    hide Events, Begun, PreorderAll, ParseOid;
    NothingBegun(r, bound, path);
    var id := ParseOid(text).value;
    assert OidList(text)[0] == id;
    WalksAll(r, id, path);
    PreorderOne(r, id, bound);
  }

  lemma {:induction false} NodeWalks(r: Repo, p: PropertyMap, bound: nat, path: seq<Bytes>)
    requires Ranked(r) && Below(r, OidList(NodeLink(p)), bound) && !Halts(NodeScript(r, p, bound))
    ensures Begun(Events(NodeScript(r, p, bound), path)) == PreorderAll(r, OidList(NodeLink(p)), bound)
    decreases bound, 0, 2
  {
    hide Events, Begun, PreorderAll;
    NothingBegun(r, bound, path);
    var step := NodeScript(r, p, bound)[0];
    BegunEmit(step.event, step.soft, step.inner, path);
    if !NodeKindOf(p.kind).PlainNode? {
      BodyWalks(r, NodeLink(p), bound, if NodeKindOf(p.kind).DirNode? then Leave(p) else Close(p), path);
    }
  }

  lemma {:induction false} BodyWalks(r: Repo, text: Bytes, bound: nat, last: Event, path: seq<Bytes>)
    requires Ranked(r) && Below(r, OidList(text), bound) && Closing(last)
    requires !Halts(NodeBody(r, text, bound, Emit(last, false, [])))
    ensures Begun(Events(NodeBody(r, text, bound, Emit(last, false, [])), path)) == PreorderAll(r, OidList(text), bound)
    decreases bound, 0, 1
  {
    hide Events, Begun, PreorderAll, ParseOid;
    NothingBegun(r, bound, path);
    BegunScript(LinkScript(r, text, bound), [Emit(last, false, [])], path);
    BegunEmit(last, false, [], path);
    LinkWalks(r, text, bound, path);
  }

  lemma {:induction false} IndWalks(r: Repo, b: Bytes, bound: nat, path: seq<Bytes>)
    requires Ranked(r) && Below(r, IndRefs(b), bound) && !Halts(IndScript(r, b, bound))
    ensures Begun(Events(IndScript(r, b, bound), path)) == PreorderAll(r, IndRefs(b), bound)
    decreases bound, 0, |b|
  {
    hide Events, Begun;
    NothingBegun(r, bound, path);
    if b != [] {
      var ids := IndRefs(b);
      assert ids[0] == b[..OID_LEN] && ids[1..] == IndRefs(b[OID_LEN..]);
      assert forall i :: 0 <= i < |ids[1..]| ==> ids[1..][i] == ids[i + 1];
      BegunScript(ScriptOf(r, b[..OID_LEN]), IndScript(r, b[OID_LEN..], bound), path);
      WalksAll(r, b[..OID_LEN], path);
      IndWalks(r, b[OID_LEN..], bound, path);
    }
  }

  lemma {:induction false} DirWalks(r: Repo, b: Bytes, bound: nat, path: seq<Bytes>)
    requires Ranked(r) && Below(r, DirRefs(b), bound) && !Halts(DirScript(r, b, bound))
    ensures Begun(Events(DirScript(r, b, bound), path)) == PreorderAll(r, DirRefs(b), bound)
    decreases bound, 0, |b|
  {
    hide Events, Begun;
    NothingBegun(r, bound, path);
    if b != [] {
      var next, ids := ReadEntry(b), DirRefs(b);
      assert ids[0] == next.entry.oid && ids[1..] == DirRefs(next.rest);
      assert forall i :: 0 <= i < |ids[1..]| ==> ids[1..][i] == ids[i + 1];
      var scope := Scope(next.entry.name, ScriptOf(r, next.entry.oid));
      BegunScript([scope], DirScript(r, next.rest, bound), path);
      EventsOfScope(next.entry.name, ScriptOf(r, next.entry.oid), path);
      OneHalts(scope);
      WalksAll(r, next.entry.oid, path + [next.entry.name]);
      DirWalks(r, next.rest, bound, path);
    }
  }

  // ---- stories -----------------------------------------------------------------------------

  /** The decoded part of the script of an identifier. */
  ghost function Story(r: Repo, oid: OID): seq<Step>
    requires Closed(r)
  {
    ClosedIsRanked(r);
    Strip(ScriptOf(r, oid))
  }

  lemma StoryStable(r: Repo, s: Repo, oid: OID)
    requires Closed(r) && Closed(s) && Extends(r, s) && oid in r.store
    ensures Story(s, oid) == Story(r, oid)
  {
    ClosedIsRanked(r);
    ClosedIsRanked(s);
    ScriptStable(r, s, oid);
  }

  lemma StoryUnfold(r: Repo, oid: OID)
    requires Closed(r) && Ranked(r) && oid in r.store
    ensures Story(r, oid) == Strip(HandlerScript(r, oid))
  {
    var h := HandlerScript(r, oid);
    StripRaw(ChunkSeen(oid, r.store[oid]), h);
    StripRaw(EarlyVisit(oid), [Emit(ChunkSeen(oid, r.store[oid]), true, h)]);
  }

  lemma StripRaw(e: Event, inner: seq<Step>)
    requires Raw(e)
    ensures Strip([Emit(e, true, inner)]) == Strip(inner)
  {
    assert [Emit(e, true, inner)][1..] == [];
    assert Strip(inner) + [] == Strip(inner);
  }

  lemma StripEmit(e: Event, soft: bool, inner: seq<Step>)
    requires !Raw(e)
    ensures Strip([Emit(e, soft, inner)]) == [Emit(e, soft, Strip(inner))]
  {
    assert [Emit(e, soft, inner)][1..] == [];
  }

  // ---- indirect chunks ---------------------------------------------------------------------

  function Flatten(oids: seq<OID>): (b: Bytes)
    ensures |b| == OID_LEN * |oids|
  {
    if oids == [] then [] else oids[0] + Flatten(oids[1..])
  }

  lemma {:induction false} FlattenSnoc(oids: seq<OID>, oid: OID)
    ensures Flatten(oids + [oid]) == Flatten(oids) + oid
  {
    if oids == [] {
      assert Flatten([oid]) == oid + Flatten([]);
      assert oids + [oid] == [oid];
    } else {
      FlattenSnoc(oids[1..], oid);
      assert (oids + [oid])[1..] == oids[1..] + [oid];
      Assoc(oids[0], Flatten(oids[1..]), oid);
    }
  }

  lemma FlattenHead(oids: seq<OID>)
    requires oids != []
    ensures Flatten(oids)[..OID_LEN] == oids[0] && Flatten(oids)[OID_LEN..] == Flatten(oids[1..])
  {
  }

  /** Decoding the bytes of a list of identifiers gives the list. */
  lemma {:induction false} IndRefsFlatten(oids: seq<OID>)
    ensures IndRefs(Flatten(oids)) == oids
  {
    if oids != [] {
      FlattenHead(oids);
      IndRefsFlatten(oids[1..]);
      assert [oids[0]] + oids[1..] == oids;
    }
  }

  ghost function StoryAll(r: Repo, oids: seq<OID>): seq<Step>
    requires Closed(r)
  {
    if oids == [] then [] else Story(r, oids[0]) + StoryAll(r, oids[1..])
  }

  lemma {:induction false} StoryAllAppend(r: Repo, a: seq<OID>, b: seq<OID>)
    requires Closed(r)
    ensures StoryAll(r, a + b) == StoryAll(r, a) + StoryAll(r, b)
  {
    if a == [] {
      assert a + b == b;
    } else {
      StoryAllAppend(r, a[1..], b);
      assert (a + b)[1..] == a[1..] + b;
      AssocSteps(Story(r, a[0]), StoryAll(r, a[1..]), StoryAll(r, b));
    }
  }

  lemma {:induction false} IndStory(r: Repo, oids: seq<OID>, bound: nat)
    requires Closed(r) && Ranked(r) && Below(r, IndRefs(Flatten(oids)), bound)
    ensures Strip(IndScript(r, Flatten(oids), bound)) == StoryAll(r, oids)
  {
    var b := Flatten(oids);
    if oids != [] {
      FlattenHead(oids);
      var ids := IndRefs(b);
      assert forall i :: 0 <= i < |ids[1..]| ==> ids[1..][i] == ids[i + 1];
      IndStory(r, oids[1..], bound);
      StripAppend(ScriptOf(r, oids[0]), IndScript(r, b[OID_LEN..], bound));
    }
  }

  /** The story of a handled indirect chunk is the stories of its identifiers. */
  lemma StoryOfInd(r: Repo, oid: OID, oids: seq<OID>)
    requires Closed(r) && oid in r.store
    requires HandlerOf(r.store[oid].kind).IndHandler? && r.store[oid].data == Flatten(oids)
    ensures Story(r, oid) == StoryAll(r, oids)
  {
    ClosedIsRanked(r);
    assert RankedAt(r, oid);
    StoryUnfold(r, oid);
    IndStory(r, oids, Measure(r, oid));
  }

  // ---- directory chunks --------------------------------------------------------------------

  /** The bytes `DirWriter.Add` appends; the length field keeps sixteen bits. */
  function EntryBytes(e: Entry): (b: Bytes)
    ensures |b| == 2 + |e.name| + OID_LEN
  {
    BE16(|e.name|) + e.name + e.oid
  }

  function EntriesBytes(es: seq<Entry>): Bytes {
    if es == [] then [] else EntryBytes(es[0]) + EntriesBytes(es[1..])
  }

  function EntryOids(es: seq<Entry>): (oids: seq<OID>)
    ensures |oids| == |es| && forall i :: 0 <= i < |es| ==> oids[i] == es[i].oid
  {
    seq(|es|, i requires 0 <= i < |es| => es[i].oid)
  }

  lemma {:induction false} EntriesBytesSnoc(es: seq<Entry>, e: Entry)
    ensures EntriesBytes(es + [e]) == EntriesBytes(es) + EntryBytes(e)
  {
    if es == [] {
      assert es + [e] == [e];
      assert EntriesBytes([e]) == EntryBytes(e) + [];
    } else {
      EntriesBytesSnoc(es[1..], e);
      assert (es + [e])[1..] == es[1..] + [e];
      Assoc(EntryBytes(es[0]), EntriesBytes(es[1..]), EntryBytes(e));
    }
  }

  predicate NamesFit(es: seq<Entry>) {
    forall i :: 0 <= i < |es| ==> |es[i].name| <= 0xFFFF
  }

  lemma ReadEntryBytes(e: Entry, rest: Bytes)
    requires |e.name| <= 0xFFFF
    ensures ReadEntry(EntryBytes(e) + rest) == NextEntry(e, rest)
  {
    var b := EntryBytes(e) + rest;
    Assoc(Write16(e.name), e.oid, rest);
    assert b == Write16(e.name) + (e.oid + rest);
    Read16OfWrite(e.name, e.oid + rest);
    assert (e.oid + rest)[..OID_LEN] == e.oid && (e.oid + rest)[OID_LEN..] == rest;
  }

  /** The entries of a directory chunk. */
  function ReadEntries(b: Bytes): Option<seq<Entry>>
    decreases |b|
  {
    if b == [] then Some([])
    else match ReadEntry(b)
      case BadEntry => None
      case NextEntry(e, rest) => match ReadEntries(rest)
        case None => None
        case Some(es) => Some([e] + es)
  }

  /** Decoding gives the entries back exactly when every name fits the sixteen-bit length. */
  lemma {:induction false} EntriesRoundTrip(es: seq<Entry>)
    ensures ReadEntries(EntriesBytes(es)) == Some(es) <==> NamesFit(es)
  {
    if es != [] {
      var e, rest := es[0], EntriesBytes(es[1..]);
      EntriesRoundTrip(es[1..]);
      if |e.name| <= 0xFFFF {
        ReadEntryBytes(e, rest);
        var tail := ReadEntries(rest);
        if tail.Some? {
          assert ([e] + tail.value)[1..] == tail.value;
        }
        assert [e] + es[1..] == es;
        assert NamesFit(es) <==> NamesFit(es[1..]) by {
          if NamesFit(es[1..]) {
            forall i | 0 < i < |es| ensures |es[i].name| <= 0xFFFF { assert es[i] == es[1..][i - 1]; }
          }
        }
      } else {
        LongNameLost(e, rest);
      }
    }
  }

  lemma LongNameLost(e: Entry, rest: Bytes)
    requires |e.name| > 0xFFFF
    ensures var r := ReadEntry(EntryBytes(e) + rest); r.NextEntry? ==> r.entry.name != e.name
  {
    var b := EntryBytes(e) + rest;
    BE16RoundTrip(|e.name|);
    assert b[0] == BE16(|e.name|)[0] && b[1] == BE16(|e.name|)[1];
  }

  function EntryRoom(es: seq<Entry>): nat {
    if es == [] then 0 else 2 + |es[0].name| + OID_LEN + EntryRoom(es[1..])
  }

  /** At a place: two bytes with the length of the name, the high one first, the name and the identifier. */
  predicate EntryThere(b: Bytes, at: nat, e: Entry) {
    && at + 2 + |e.name| + OID_LEN <= |b|
    && b[at] as int == |e.name| / 256 && b[at + 1] as int == |e.name| % 256
    && b[at + 2..at + 2 + |e.name|] == e.name && b[at + 2 + |e.name|..at + 2 + |e.name| + OID_LEN] == e.oid
  }

  lemma EntryFirst(e: Entry, rest: Bytes)
    requires |e.name| <= 0xFFFF
    ensures EntryThere(EntryBytes(e) + rest, 0, e)
  {
    var b := EntryBytes(e) + rest;
    assert b[2..2 + |e.name|] == e.name;
    assert b[2 + |e.name|..2 + |e.name| + OID_LEN] == e.oid;
  }

  lemma EntryFurther(first: Bytes, b: Bytes, at: nat, e: Entry)
    requires EntryThere(b, at, e)
    ensures EntryThere(first + b, |first| + at, e)
  {
    var c, n, m := first + b, |first| + at, |e.name|;
    assert c[n + 2..n + 2 + m] == b[at + 2..at + 2 + m];
    assert c[n + 2 + m..n + 2 + m + OID_LEN] == b[at + 2 + m..at + 2 + m + OID_LEN];
  }

  /** The bytes of a directory chunk, entry by entry. */
  lemma {:induction false} EntriesAt(es: seq<Entry>, i: nat)
    requires i < |es| && NamesFit(es)
    ensures EntryThere(EntriesBytes(es), EntryRoom(es[..i]), es[i])
  {
    hide EntryThere, EntryBytes;
    if i == 0 {
      EntryFirst(es[0], EntriesBytes(es[1..]));
    } else {
      EntriesAt(es[1..], i - 1);
      assert es[..i][1..] == es[1..][..i - 1];
      EntryFurther(EntryBytes(es[0]), EntriesBytes(es[1..]), EntryRoom(es[1..][..i - 1]), es[i]);
    }
  }

  /** A name of 65536 bytes is read back as an empty one, with an identifier made of its first twenty bytes. */
  lemma LongNameRead(e: Entry, rest: Bytes)
    requires |e.name| == 0x1_0000
    ensures ReadEntry(EntryBytes(e) + rest) == NextEntry(Entry([], e.name[..OID_LEN]), e.name[OID_LEN..] + e.oid + rest)
  {
    var b := EntryBytes(e) + rest;
    BE16RoundTrip(|e.name|);
    assert BE16(|e.name|) == ['\0', '\0'];
    assert b[2..] == e.name + e.oid + rest;
    assert b[2..][..OID_LEN] == e.name[..OID_LEN];
    assert b[2..][OID_LEN..] == e.name[OID_LEN..] + e.oid + rest;
  }

  ghost function StoryEntries(r: Repo, es: seq<Entry>): seq<Step>
    requires Closed(r)
  {
    if es == [] then [] else [Scope(es[0].name, Story(r, es[0].oid))] + StoryEntries(r, es[1..])
  }

  lemma {:induction false} StoryEntriesAppend(r: Repo, a: seq<Entry>, b: seq<Entry>)
    requires Closed(r)
    ensures StoryEntries(r, a + b) == StoryEntries(r, a) + StoryEntries(r, b)
  {
    if a == [] {
      assert a + b == b;
    } else {
      StoryEntriesAppend(r, a[1..], b);
      assert (a + b)[1..] == a[1..] + b;
      AssocSteps([Scope(a[0].name, Story(r, a[0].oid))], StoryEntries(r, a[1..]), StoryEntries(r, b));
    }
  }

  lemma {:induction false} DirRefsOfEntries(es: seq<Entry>)
    requires NamesFit(es)
    ensures DirRefs(EntriesBytes(es)) == EntryOids(es)
  {
    if es != [] {
      ReadEntryBytes(es[0], EntriesBytes(es[1..]));
      DirRefsOfEntries(es[1..]);
    }
  }

  lemma {:induction false} DirStory(r: Repo, es: seq<Entry>, bound: nat)
    requires Closed(r) && Ranked(r) && NamesFit(es) && Below(r, DirRefs(EntriesBytes(es)), bound)
    ensures Strip(DirScript(r, EntriesBytes(es), bound)) == StoryEntries(r, es)
  {
    if es != [] {
      hide EntryBytes, HandlerOf, ReadEntry;
      var b, e := EntriesBytes(es), es[0];
      ReadEntryBytes(e, EntriesBytes(es[1..]));
      var ids := DirRefs(b);
      assert forall i :: 0 <= i < |ids[1..]| ==> ids[1..][i] == ids[i + 1];
      DirStory(r, es[1..], bound);
      var scope := [Scope(e.name, ScriptOf(r, e.oid))];
      StripAppend(scope, DirScript(r, EntriesBytes(es[1..]), bound));
      assert scope[1..] == [];
    }
  }

  /** The story of a directory chunk: each entry's story, under its name. */
  lemma StoryOfDir(r: Repo, oid: OID, es: seq<Entry>)
    requires Closed(r) && oid in r.store && NamesFit(es)
    requires r.store[oid] == Content("dir ", EntriesBytes(es))
    ensures Story(r, oid) == StoryEntries(r, es)
  {
    hide HandlerOf;
    KnownKinds();
    ClosedIsRanked(r);
    assert RankedAt(r, oid);
    StoryUnfold(r, oid);
    DirStory(r, es, Measure(r, oid));
  }

  lemma KnownKinds()
    ensures HandlerOf("blob") == BlobHandler && HandlerOf("dir ") == DirHandler && HandlerOf("null") == NullHandler
    ensures HandlerOf("node") == NodeHandler && HandlerOf("back") == BackHandler
  {
  }

  // ---- the other chunks --------------------------------------------------------------------

  lemma StoryOfBlob(r: Repo, oid: OID, data: Bytes)
    requires Closed(r) && oid in r.store && r.store[oid] == Content("blob", data)
    ensures Story(r, oid) == [Emit(Blob(oid, data), false, [])]
  {
    hide HandlerOf;
    KnownKinds();
    ClosedIsRanked(r);
    StoryUnfold(r, oid);
    StripEmit(Blob(oid, data), false, []);
  }

  lemma StoryOfNull(r: Repo, oid: OID)
    requires Closed(r) && oid in r.store && HandlerOf(r.store[oid].kind) in {NullHandler, Unsupported}
    ensures Story(r, oid) == []
  {
    ClosedIsRanked(r);
    StoryUnfold(r, oid);
  }

  lemma StoryOfEmpty(r: Repo, oid: OID)
    requires Closed(r) && oid in r.store && r.store[oid] == Content("null", [])
    ensures Story(r, oid) == []
  {
    hide HandlerOf;
    KnownKinds();
    StoryOfNull(r, oid);
  }

  /** The story of a node: its opening event around the story of what it links to, then its closing event. */
  lemma StoryOfNode(r: Repo, oid: OID, p: PropertyMap)
    requires Closed(r) && oid in r.store
    requires r.store[oid].kind == "node" && Decoded(r.store[oid].data) == Some(p)
    ensures NodeKindOf(p.kind).PlainNode? ==> Story(r, oid) == [Emit(Node(p), false, [])]
    ensures NodeKindOf(p.kind).DirNode? && ParseOid(NodeLink(p)).Some? ==>
      Story(r, oid) == [Emit(Enter(p), true, Story(r, ParseOid(NodeLink(p)).value) + [Emit(Leave(p), false, [])])]
    ensures NodeKindOf(p.kind).RegNode? && ParseOid(NodeLink(p)).Some? ==>
      Story(r, oid) == [Emit(Open(p), true, Story(r, ParseOid(NodeLink(p)).value) + [Emit(Close(p), false, [])])]
  {
    hide HandlerOf;
    KnownKinds();
    ClosedIsRanked(r);
    assert RankedAt(r, oid);
    StoryUnfold(r, oid);
    if NodeKindOf(p.kind).PlainNode? {
      StripEmit(Node(p), false, []);
    } else if ParseOid(NodeLink(p)).Some? {
      var id := ParseOid(NodeLink(p)).value;
      assert OidList(NodeLink(p))[0] == id;
      assert LinkScript(r, NodeLink(p), Measure(r, oid)) == ScriptOf(r, id);
      if NodeKindOf(p.kind).DirNode? {
        var steps := [Emit(Enter(p), true, ScriptOf(r, id) + [Emit(Leave(p), false, [])])];
        assert NodeScript(r, p, Measure(r, oid)) == steps;
        StripBracket(r, id, Enter(p), Leave(p));
      } else {
        var steps := [Emit(Open(p), true, ScriptOf(r, id) + [Emit(Close(p), false, [])])];
        assert NodeScript(r, p, Measure(r, oid)) == steps;
        StripBracket(r, id, Open(p), Close(p));
      }
    }
  }

  lemma StripBracket(r: Repo, id: OID, first: Event, last: Event)
    requires Closed(r) && Ranked(r) && !Raw(first) && !Raw(last)
    ensures Strip([Emit(first, true, ScriptOf(r, id) + [Emit(last, false, [])])])
         == [Emit(first, true, Story(r, id) + [Emit(last, false, [])])]
  {
    StripAppend(ScriptOf(r, id), [Emit(last, false, [])]);
    StripEmit(last, false, []);
    StripEmit(first, true, ScriptOf(r, id) + [Emit(last, false, [])]);
  }

  lemma StoryOfBack(r: Repo, oid: OID, p: PropertyMap, ms: int, root: OID)
    requires Closed(r) && oid in r.store
    requires r.store[oid].kind == "back" && Decoded(r.store[oid].data) == Some(p)
    requires "_date" in p.props && ParseInt(p.props["_date"]) == Some(ms)
    requires "hash" in p.props && ParseOid(p.props["hash"]) == Some(root)
    ensures Story(r, oid) == [Emit(Back(oid, ms * 1_000_000, p.props - {"_date"}), true, Story(r, root))]
  {
    hide HandlerOf;
    KnownKinds();
    ClosedIsRanked(r);
    assert RankedAt(r, oid);
    StoryUnfold(r, oid);
    assert "hash" != "_date";
    assert OidList(p.Get("hash"))[0] == root;
    StripEmit(Back(oid, ms * 1_000_000, p.props - {"_date"}), true, ScriptOf(r, root));
  }
}
