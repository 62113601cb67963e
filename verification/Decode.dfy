/** The walker (src/store/decode.go): decoding the chunks below an identifier and driving a visitor. */
module Decode {
  import opened Base
  import opened Chunks
  import opened Text
  import opened Pool
  import opened Props
  import opened Visitors

  datatype Handler = BackHandler | NodeHandler | DirHandler | NullHandler | IndHandler | BlobHandler | Unsupported

  /** The handler table of `Walk`. */
  function HandlerOf(kind: Bytes): Handler {
    if kind == "back" then BackHandler
    else if kind == "node" then NodeHandler
    else if kind == "dir " then DirHandler
    else if kind == "null" then NullHandler
    else if kind == "dir0" || kind == "dir1" || kind == "dir2" then IndHandler
    else if kind == "ind0" || kind == "ind1" || kind == "ind2" || kind == "ind3" then IndHandler
    else if kind == "blob" then BlobHandler
    else Unsupported
  }

  // ---- references --------------------------------------------------------------------------

  function OidList(t: Bytes): seq<OID> {
    match ParseOid(t)
    case Some(id) => [id]
    case None => []
  }

  /** The identifiers in an indirect chunk, up to the first short one. */
  function IndRefs(b: Bytes): seq<OID>
    decreases |b|
  {
    if |b| < OID_LEN then [] else [b[..OID_LEN]] + IndRefs(b[OID_LEN..])
  }

  datatype NodeKind = DirNode | RegNode | PlainNode

  function NodeKindOf(kind: Bytes): NodeKind {
    if kind == "DIR" then DirNode else if kind == "REG" then RegNode else PlainNode
  }

  /** The text of the identifier below a node. */
  function NodeLink(p: PropertyMap): Bytes {
    match NodeKindOf(p.kind)
    case DirNode => p.Get("children")
    case RegNode => p.Get("data")
    case PlainNode => []
  }

  datatype Entry = Entry(name: Bytes, oid: OID)

  datatype EntryRead = NextEntry(entry: Entry, rest: Bytes) | BadEntry

  function ReadEntry(b: Bytes): (r: EntryRead)
    ensures r.NextEntry? ==> |r.rest| < |b|
  {
    match Read16(b)
    case None => BadEntry
    case Some(name) => match Read(name.rest, OID_LEN)
      case None => BadEntry
      case Some(id) => NextEntry(Entry(name.text, id.text), id.rest)
  }

  function DirRefs(b: Bytes): seq<OID>
    decreases |b|
  {
    match ReadEntry(b)
    case BadEntry => []
    case NextEntry(entry, rest) => [entry.oid] + DirRefs(rest)
  }

  /** The identifiers a walk may go on to from a chunk. */
  function Refs(c: Content): seq<OID> {
    match HandlerOf(c.kind)
    case IndHandler => IndRefs(c.data)
    case DirHandler => DirRefs(c.data)
    case BackHandler =>
      var p := Decoded(c.data);
      if p.Some? then OidList(p.value.Get("hash")) else []
    case NodeHandler =>
      var p := Decoded(c.data);
      if p.Some? then OidList(NodeLink(p.value)) else []
    case _ => []
  }

  ghost function Measure(r: Repo, oid: OID): nat {
    if oid in r.store && oid in r.rank then r.rank[oid] + 1 else 0
  }

  ghost predicate Below(r: Repo, oids: seq<OID>, bound: nat) {
    forall i :: 0 <= i < |oids| ==> Measure(r, oids[i]) < bound
  }

  ghost predicate RankedAt(r: Repo, oid: OID) {
    oid in r.store ==> oid in r.rank && Below(r, Refs(r.store[oid]), Measure(r, oid))
  }

  /** References lead to strictly smaller ranks or out of the pool. */
  ghost predicate Ranked(r: Repo) {
    forall oid {:trigger RankedAt(r, oid)} :: RankedAt(r, oid)
  }

  ghost predicate GroundedAt(r: Repo, oid: OID) {
    oid in r.store ==>
      && oid in r.rank && r.rank[oid] < r.clock
      && forall i :: 0 <= i < |Refs(r.store[oid])| ==>
           var id := Refs(r.store[oid])[i]; id in r.store && id in r.rank && r.rank[id] < r.rank[oid]
  }

  /** Every reference is to a chunk that arrived earlier: the pool is closed and acyclic. */
  ghost predicate Closed(r: Repo) {
    forall oid {:trigger GroundedAt(r, oid)} :: GroundedAt(r, oid)
  }

  lemma ClosedIsRanked(r: Repo)
    requires Closed(r)
    ensures Ranked(r)
  {
    forall oid ensures RankedAt(r, oid) {
      assert GroundedAt(r, oid);
    }
  }

  ghost predicate Present(r: Repo, oids: seq<OID>) {
    forall i :: 0 <= i < |oids| ==> oids[i] in r.store
  }

  /** Inserting a chunk whose references are present keeps the pool closed and acyclic, even when the
      insert is skipped because another chunk has its identifier. */
  lemma PutClosed(r: Repo, oid: OID, c: Content)
    requires Closed(r) && Present(r, Refs(c))
    ensures Closed(Put(r, oid, c)) && Extends(r, Put(r, oid, c)) && oid in Put(r, oid, c).store
  {
    var s := Put(r, oid, c);
    forall id ensures GroundedAt(s, id) {
      assert GroundedAt(r, id);
      if id == oid {
        forall i | 0 <= i < |Refs(c)| ensures GroundedAt(r, Refs(c)[i]) { }
      }
    }
    forall id | id in r.store ensures id in r.rank && r.rank[id] == s.rank[id] {
      assert GroundedAt(r, id);
    }
  }

  datatype Put1 = Put1(oid: OID, content: Content)

  ghost function PutAll(r: Repo, chunks: seq<Put1>): Repo {
    if chunks == [] then r
    else Put(PutAll(r, chunks[..|chunks| - 1]), chunks[|chunks| - 1].oid, chunks[|chunks| - 1].content)
  }

  /** Each chunk refers only to what the pool holds when it is inserted. */
  ghost predicate Orderly(r: Repo, chunks: seq<Put1>) {
    chunks == [] ||
    (Orderly(r, chunks[..|chunks| - 1]) &&
     Present(PutAll(r, chunks[..|chunks| - 1]), Refs(chunks[|chunks| - 1].content)))
  }

  /** Every orderly run of inserts leaves a closed pool whose references strictly decrease in arrival rank,
      so that a walk terminates from every identifier. */
  lemma {:induction false} InsertsClosed(r: Repo, chunks: seq<Put1>)
    requires Closed(r) && Orderly(r, chunks)
    ensures Closed(PutAll(r, chunks)) && Ranked(PutAll(r, chunks)) && SubMap(r.store, PutAll(r, chunks).store)
  {
    if chunks != [] {
      var n := |chunks| - 1;
      InsertsClosed(r, chunks[..n]);
      PutClosed(PutAll(r, chunks[..n]), chunks[n].oid, chunks[n].content);
    }
    ClosedIsRanked(PutAll(r, chunks));
  }

  // ---- scripts -----------------------------------------------------------------------------

  /** What walking an identifier intends to do, read off the pool. */
  ghost function ScriptOf(r: Repo, oid: OID): seq<Step>
    requires Ranked(r)
    decreases Measure(r, oid), 2, 0
  {
    [Emit(EarlyVisit(oid), true,
          if oid in r.store
          then [Emit(ChunkSeen(oid, r.store[oid]), true, HandlerScript(r, oid))]
          else [Halt(NotFound)])]
  }

  ghost function HandlerScript(r: Repo, oid: OID): seq<Step>
    requires Ranked(r) && oid in r.store
    decreases Measure(r, oid), 1, 0
  {
    assert RankedAt(r, oid);
    var c := r.store[oid];
    match HandlerOf(c.kind)
    case NullHandler => []
    case Unsupported => []
    case BlobHandler => [Emit(Blob(oid, c.data), false, [])]
    case IndHandler => IndScript(r, c.data, Measure(r, oid))
    case DirHandler => DirScript(r, c.data, Measure(r, oid))
    case BackHandler =>
      var p := Decoded(c.data);
      if p.None? || "_date" !in p.value.props || ParseInt(p.value.props["_date"]).None? then [Halt(Corrupt)]
      else
        var header := p.value.props - {"_date"};
        [Emit(Back(oid, ParseInt(p.value.props["_date"]).value * 1_000_000, header), true,
              if "hash" !in header then [Halt(Corrupt)] else LinkScript(r, p.value.Get("hash"), Measure(r, oid)))]
    case NodeHandler =>
      var p := Decoded(c.data);
      if p.None? then [Halt(Corrupt)] else NodeScript(r, p.value, Measure(r, oid))
  }

  ghost function NodeScript(r: Repo, p: PropertyMap, bound: nat): seq<Step>
    requires Ranked(r) && Below(r, OidList(NodeLink(p)), bound)
    decreases bound, 0, 2
  {
    match NodeKindOf(p.kind)
    case DirNode => [Emit(Enter(p), true, NodeBody(r, NodeLink(p), bound, Emit(Leave(p), false, [])))]
    case RegNode => [Emit(Open(p), true, NodeBody(r, NodeLink(p), bound, Emit(Close(p), false, [])))]
    case PlainNode => [Emit(Node(p), false, [])]
  }

  ghost function LinkScript(r: Repo, text: Bytes, bound: nat): seq<Step>
    requires Ranked(r) && Below(r, OidList(text), bound)
    decreases bound, 0, 0
  {
    match ParseOid(text)
    case None => [Halt(Corrupt)]
    case Some(id) => assert OidList(text)[0] == id; ScriptOf(r, id)
  }

  ghost function NodeBody(r: Repo, text: Bytes, bound: nat, last: Step): seq<Step>
    requires Ranked(r) && Below(r, OidList(text), bound)
    decreases bound, 0, 1
  {
    if ParseOid(text).None? then [Halt(Corrupt)] else LinkScript(r, text, bound) + [last]
  }

  ghost function IndScript(r: Repo, b: Bytes, bound: nat): seq<Step>
    requires Ranked(r) && Below(r, IndRefs(b), bound)
    decreases bound, 0, |b|
  {
    if b == [] then []
    else if |b| < OID_LEN then [Halt(Corrupt)]
    else
      var ids := IndRefs(b);
      assert ids[0] == b[..OID_LEN] && ids[1..] == IndRefs(b[OID_LEN..]);
      assert forall i :: 0 <= i < |ids[1..]| ==> ids[1..][i] == ids[i + 1];
      ScriptOf(r, b[..OID_LEN]) + IndScript(r, b[OID_LEN..], bound)
  }

  ghost function DirScript(r: Repo, b: Bytes, bound: nat): seq<Step>
    requires Ranked(r) && Below(r, DirRefs(b), bound)
    decreases bound, 0, |b|
  {
    if b == [] then []
    else match ReadEntry(b)
      case BadEntry => [Halt(Corrupt)]
      case NextEntry(entry, rest) =>
        var ids := DirRefs(b);
        assert ids[0] == entry.oid && ids[1..] == DirRefs(rest);
        assert forall i :: 0 <= i < |ids[1..]| ==> ids[1..][i] == ids[i + 1];
        [Scope(entry.name, ScriptOf(r, entry.oid))] + DirScript(r, rest, bound)
  }

  // ---- the order of the calls --------------------------------------------------------------

  /** The call that the content of a chunk leads to, before anything below it is walked. */
  function CallFor(oid: OID, c: Content): Option<Event> {
    match HandlerOf(c.kind)
    case BlobHandler => Some(Blob(oid, c.data))
    case BackHandler =>
      (match Decoded(c.data)
       case None => None
       case Some(p) =>
         if "_date" !in p.props || ParseInt(p.props["_date"]).None? then None
         else Some(Back(oid, ParseInt(p.props["_date"]).value * 1_000_000, p.props - {"_date"})))
    case NodeHandler =>
      (match Decoded(c.data)
       case None => None
       case Some(p) => Some(match NodeKindOf(p.kind)
                            case DirNode => Enter(p)
                            case RegNode => Open(p)
                            case PlainNode => Node(p)))
    case _ => None
  }

  /** The call that must come next after a call that returned nil: the stored chunk after EarlyVisit, and what the
      chunk decodes to after Chunk. */
  ghost function Owed(r: Repo, last: Visit): Option<Event> {
    if !last.reply.Continue? then None
    else match last.event
      case EarlyVisit(oid) => if oid in r.store then Some(ChunkSeen(oid, r.store[oid])) else None
      case ChunkSeen(oid, c) => CallFor(oid, c)
      case _ => None
  }

  /** EarlyVisit returned nil for an identifier that is not in the pool. */
  ghost predicate Lost(r: Repo, last: Visit) {
    last.reply.Continue? && last.event.EarlyVisit? && last.event.oid !in r.store
  }

  /** Where nothing is owed, a walk goes on with a new identifier or leaves a node. */
  predicate Fresh(e: Event) {
    e.EarlyVisit? || Closing(e)
  }

  ghost predicate Follows(r: Repo, last: Visit, next: Visit) {
    match Owed(r, last)
    case Some(e) => next.event == e && next.path == last.path
    case None => Fresh(next.event) && !Lost(r, last)
  }

  /** Each call is the one that the call before it owes. */
  ghost predicate Chained(r: Repo, log: seq<Visit>) {
    forall i, j :: 0 <= i && j == i + 1 < |log| ==> Follows(r, log[i], log[j])
  }

  ghost predicate InOrder(r: Repo, log: seq<Visit>) {
    Chained(r, log) && (log != [] ==> Fresh(log[0].event))
  }

  /** Nothing is owed at the end, and a walk that is lost stops with that error. */
  ghost predicate Settled(r: Repo, log: seq<Visit>, reply: Reply) {
    log != [] ==>
      && Owed(r, log[|log| - 1]).None?
      && (Lost(r, log[|log| - 1]) ==> reply == Fail(NotFound))
  }

  lemma InOrderAppend(r: Repo, a: seq<Visit>, b: seq<Visit>, reply: Reply)
    requires InOrder(r, a) && Settled(r, a, Continue) && InOrder(r, b) && Settled(r, b, reply)
    ensures InOrder(r, a + b) && (b != [] || reply.Continue? ==> Settled(r, a + b, reply))
  {
    hide Owed;
    assert a != [] && b != [] ==> Follows(r, a[|a| - 1], b[0]);
  }

  lemma ChainedCons(r: Repo, first: Visit, log: seq<Visit>, reply: Reply)
    requires Chained(r, log) && Settled(r, log, reply)
    requires if log == [] then Settled(r, [first], reply) else Follows(r, first, log[0])
    ensures Chained(r, [first] + log) && Settled(r, [first] + log, reply)
  {
    hide Follows, Owed, Lost;
    var all := [first] + log;
    forall i, j | 0 <= i && j == i + 1 < |all| ensures Follows(r, all[i], all[j]) {
      if i > 0 {
        assert all[i] == log[i - 1] && all[j] == log[j - 1];
      }
    }
  }

  /** A script that makes its calls in this order. */
  ghost predicate OrderedStep(r: Repo, step: Step)
    decreases step, 0
  {
    match step
    case Halt(_) => true
    case Scope(_, inner) => Ordered(r, inner)
    case Emit(EarlyVisit(oid), _, inner) =>
      if oid !in r.store then inner == [Halt(NotFound)]
      else
        && |inner| == 1 && inner[0].Emit? && inner[0].event == ChunkSeen(oid, r.store[oid])
        && OrderedBody(r, CallFor(oid, r.store[oid]), inner[0].inner)
    case Emit(e, _, inner) => Closing(e) && inner == []
  }

  ghost predicate OrderedBody(r: Repo, call: Option<Event>, body: seq<Step>)
    decreases body, 2
  {
    match call
    case None => Ordered(r, body)
    case Some(e) => |body| == 1 && body[0].Emit? && body[0].event == e && Ordered(r, body[0].inner)
  }

  ghost predicate Ordered(r: Repo, steps: seq<Step>)
    decreases steps, 1
  {
    steps == [] || (OrderedStep(r, steps[0]) && Ordered(r, steps[1..]))
  }

  lemma OrderedOne(r: Repo, step: Step)
    ensures Ordered(r, [step]) == OrderedStep(r, step)
  {
    assert [step][1..] == [];
  }

  lemma {:induction false} OrderedAppend(r: Repo, a: seq<Step>, b: seq<Step>)
    requires Ordered(r, a) && Ordered(r, b)
    ensures Ordered(r, a + b)
  {
    if a == [] {
      assert a + b == b;
    } else {
      OrderedAppend(r, a[1..], b);
      assert (a + b)[1..] == a[1..] + b;
    }
  }

  /** Running such a script against any visitor. */
  lemma {:induction false} RunInOrder<S>(r: Repo, steps: seq<Step>, v: Visitor<S>, path: seq<Bytes>, st: S)
    requires Ordered(r, steps)
    ensures var run := Run(steps, v, path, st); InOrder(r, run.log) && Settled(r, run.log, run.reply)
    decreases steps, 1
  {
    if steps != [] {
      hide InOrder, Settled, OrderedStep;
      StepInOrder(r, steps[0], v, path, st);
      var first := RunStep(steps[0], v, path, st);
      if first.reply.Continue? {
        RunInOrder(r, steps[1..], v, path, first.st);
        var rest := Run(steps[1..], v, path, first.st);
        InOrderAppend(r, first.log, rest.log, rest.reply);
      }
    }
  }

  lemma {:induction false} StepInOrder<S>(r: Repo, step: Step, v: Visitor<S>, path: seq<Bytes>, st: S)
    requires OrderedStep(r, step)
    ensures var run := RunStep(step, v, path, st); InOrder(r, run.log) && Settled(r, run.log, run.reply)
    decreases step, 0
  {
    match step
    case Halt(_) =>
    case Scope(name, inner) => RunInOrder(r, inner, v, path + [name], st);
    case Emit(e, soft, inner) =>
      var (st', reply) := v.react(st, path, e);
      if e.EarlyVisit? && reply.Continue? && e.oid in r.store {
        ChunkInOrder(r, inner[0], v, path, st');
        RunOne(inner[0], v, path, st');
        assert inner == [inner[0]];
        ChainedCons(r, Visit(path, e, reply), Run(inner, v, path, st').log, Run(inner, v, path, st').reply);
      } else if reply.Continue? {
        OnwardEmpty(st', [Visit(path, e, reply)], v, path);
      }
  }

  lemma {:induction false} ChunkInOrder<S>(r: Repo, step: Step, v: Visitor<S>, path: seq<Bytes>, st: S)
    requires step.Emit? && step.event.ChunkSeen?
    requires OrderedBody(r, CallFor(step.event.oid, step.event.content), step.inner)
    ensures var run := RunStep(step, v, path, st);
      run.log != [] && run.log[0].event == step.event && run.log[0].path == path &&
      Chained(r, run.log) && Settled(r, run.log, run.reply)
    decreases step, 0
  {
    hide CallFor;
    var (st', reply) := v.react(st, path, step.event);
    if reply.Continue? {
      var seen, below := Visit(path, step.event, reply), Run(step.inner, v, path, st');
      match CallFor(step.event.oid, step.event.content)
      case None =>
        RunInOrder(r, step.inner, v, path, st');
        ChainedCons(r, seen, below.log, below.reply);
      case Some(e) =>
        var (st2, reply2) := v.react(st', path, e);
        RunOne(step.inner[0], v, path, st');
        assert step.inner == [step.inner[0]];
        CallPlain(step.event.oid, step.event.content);
        if reply2.Continue? {
          RunInOrder(r, step.inner[0].inner, v, path, st2);
          var rest := Run(step.inner[0].inner, v, path, st2);
          ChainedCons(r, Visit(path, e, reply2), rest.log, rest.reply);
        }
        ChainedCons(r, seen, below.log, below.reply);
    }
  }

  lemma CallPlain(oid: OID, c: Content)
    ensures var call := CallFor(oid, c); call.Some? ==> !Raw(call.value)
  {
    hide HandlerOf, Decoded, ParseInt;
  }

  /** The script of an identifier makes its calls in order. */
  lemma {:induction false} ScriptOrdered(r: Repo, oid: OID)
    requires Ranked(r)
    ensures Ordered(r, ScriptOf(r, oid))
    decreases Measure(r, oid), 2, 0
  {
    hide CallFor;
    if oid in r.store {
      HandlerOrdered(r, oid);
    }
    OrderedOne(r, ScriptOf(r, oid)[0]);
  }

  lemma {:induction false} HandlerOrdered(r: Repo, oid: OID)
    requires Ranked(r) && oid in r.store
    ensures OrderedBody(r, CallFor(oid, r.store[oid]), HandlerScript(r, oid))
    decreases Measure(r, oid), 1, 0
  {
    hide HandlerOf, ParseInt, ParseOid, Decoded;
    assert RankedAt(r, oid);
    var c, bound := r.store[oid], Measure(r, oid);
    OrderedOne(r, Halt(Corrupt));
    match HandlerOf(c.kind)
    case BlobHandler =>
    case IndHandler => IndOrdered(r, c.data, bound);
    case DirHandler => DirOrdered(r, c.data, bound);
    case BackHandler =>
      var p := Decoded(c.data);
      if p.Some? {
        LinkOrdered(r, p.value.Get("hash"), bound);
      }
    case NodeHandler =>
      var p := Decoded(c.data);
      if p.Some? {
        NodeOrdered(r, p.value, bound);
      }
    case _ =>
  }

  lemma {:induction false} LinkOrdered(r: Repo, text: Bytes, bound: nat)
    requires Ranked(r) && Below(r, OidList(text), bound)
    ensures Ordered(r, LinkScript(r, text, bound))
    decreases bound, 0, 0
  {
    OrderedOne(r, Halt(Corrupt));
    if ParseOid(text).Some? {
      assert OidList(text)[0] == ParseOid(text).value;
      ScriptOrdered(r, ParseOid(text).value);
    }
  }

  lemma {:induction false} NodeOrdered(r: Repo, p: PropertyMap, bound: nat)
    requires Ranked(r) && Below(r, OidList(NodeLink(p)), bound)
    ensures var steps := NodeScript(r, p, bound); |steps| == 1 && steps[0].Emit? && Ordered(r, steps[0].inner)
    decreases bound, 0, 2
  {
    if !NodeKindOf(p.kind).PlainNode? {
      BodyOrdered(r, NodeLink(p), bound, if NodeKindOf(p.kind).DirNode? then Leave(p) else Close(p));
    }
  }

  lemma {:induction false} BodyOrdered(r: Repo, text: Bytes, bound: nat, last: Event)
    requires Ranked(r) && Below(r, OidList(text), bound) && Closing(last)
    ensures Ordered(r, NodeBody(r, text, bound, Emit(last, false, [])))
    decreases bound, 0, 1
  {
    LinkOrdered(r, text, bound);
    OrderedOne(r, Halt(Corrupt));
    OrderedOne(r, Emit(last, false, []));
    OrderedAppend(r, LinkScript(r, text, bound), [Emit(last, false, [])]);
  }

  lemma {:induction false} IndOrdered(r: Repo, b: Bytes, bound: nat)
    requires Ranked(r) && Below(r, IndRefs(b), bound)
    ensures Ordered(r, IndScript(r, b, bound))
    decreases bound, 0, |b|
  {
    OrderedOne(r, Halt(Corrupt));
    if |b| >= OID_LEN {
      var ids := IndRefs(b);
      assert ids[0] == b[..OID_LEN] && forall i :: 0 <= i < |ids[1..]| ==> ids[1..][i] == ids[i + 1];
      ScriptOrdered(r, b[..OID_LEN]);
      IndOrdered(r, b[OID_LEN..], bound);
      OrderedAppend(r, ScriptOf(r, b[..OID_LEN]), IndScript(r, b[OID_LEN..], bound));
    }
  }

  lemma {:induction false} DirOrdered(r: Repo, b: Bytes, bound: nat)
    requires Ranked(r) && Below(r, DirRefs(b), bound)
    ensures Ordered(r, DirScript(r, b, bound))
    decreases bound, 0, |b|
  {
    OrderedOne(r, Halt(Corrupt));
    if b != [] && ReadEntry(b).NextEntry? {
      var next := ReadEntry(b);
      var ids := DirRefs(b);
      assert ids[0] == next.entry.oid && forall i :: 0 <= i < |ids[1..]| ==> ids[1..][i] == ids[i + 1];
      ScriptOrdered(r, next.entry.oid);
      DirOrdered(r, next.rest, bound);
      OrderedOne(r, Scope(next.entry.name, ScriptOf(r, next.entry.oid)));
      OrderedAppend(r, [Scope(next.entry.name, ScriptOf(r, next.entry.oid))], DirScript(r, next.rest, bound));
    }
  }

  /** Walking an identifier: the first call is its EarlyVisit, and all calls are in order, whatever the visitor. */
  ghost predicate WalkedInOrder(r: Repo, oid: OID, path: seq<Bytes>, log: seq<Visit>, reply: Reply) {
    && log != [] && log[0].event == EarlyVisit(oid) && log[0].path == path
    && InOrder(r, log) && Settled(r, log, reply)
  }

  lemma WalkInOrder<S>(r: Repo, oid: OID, v: Visitor<S>, path: seq<Bytes>, st: S)
    requires Ranked(r)
    ensures var run := Run(ScriptOf(r, oid), v, path, st); WalkedInOrder(r, oid, path, run.log, run.reply)
  {
    ScriptOrdered(r, oid);
    RunInOrder(r, ScriptOf(r, oid), v, path, st);
  }

  // ---- the walker --------------------------------------------------------------------------

  class Walker<!S(!new)> {
    const pool: SqlPool
    const visitor: Visitor<S>

    var path: seq<Bytes>
    var st: S
    ghost var log: seq<Visit>

    constructor (pool: SqlPool, visitor: Visitor<S>, st: S)
      ensures this.pool == pool && this.visitor == visitor && this.st == st && path == [] && log == []
    {
      this.pool, this.visitor, this.st := pool, visitor, st;
      path, log := [], [];
    }

    /** The outcome of a script from where the walker is now. */
    ghost function Outcome(steps: seq<Step>): Result<S>
      reads this
    {
      Onward(st, log, steps, visitor, path)
    }

    method Call(e: Event) returns (reply: Reply)
      modifies this`st, this`log
      ensures (st, reply) == visitor.react(old(st), path, e)
      ensures log == old(log) + [Visit(path, e, reply)]
    {
      var (st', r) := visitor.react(st, path, e);
      st, reply := st', r;
      log := log + [Visit(path, e, reply)];
    }

    /** `walk`: the calls are exactly those of the script, whatever the visitor answers, and the path is
        restored even when an error comes back. The first call is EarlyVisit; when it returns nil the stored chunk is
        shown next, and each decoded call comes right after the chunk it was decoded from. */
    method Walk(oid: OID) returns (reply: Reply)
      requires pool.Valid() && pool.live && Ranked(pool.View())
      modifies this
      ensures path == old(path)
      ensures Result(st, reply, log) == old(Outcome(ScriptOf(pool.View(), oid)))
      ensures |old(log)| <= |log| && log[..|old(log)|] == old(log)
      ensures WalkedInOrder(pool.View(), oid, path, log[|old(log)|..], reply)
      decreases Measure(pool.View(), oid), 2, 0
    {
      hide WalkedInOrder;
      WalkInOrder(pool.View(), oid, visitor, path, st);
      OnwardEmit(st, log, EarlyVisit(oid), true, ScriptOf(pool.View(), oid)[0].inner, visitor, path);
      reply := Call(EarlyVisit(oid));
      if !reply.Continue? {
        return if reply.Prune? then Continue else reply;
      }
      OnwardEmpty(st, log, visitor, path);
      var ch := pool.Search(oid);
      if ch.None? {
        return Fail(NotFound);
      }
      var content := ch.value.Meaning(pool.z);
      OnwardEmit(st, log, ChunkSeen(oid, content), true, HandlerScript(pool.View(), oid), visitor, path);
      reply := Call(ChunkSeen(oid, content));
      if !reply.Continue? {
        return if reply.Prune? then Continue else reply;
      }
      reply := Handle(oid, content);
    }

    method Handle(oid: OID, c: Content) returns (reply: Reply)
      requires pool.Valid() && pool.live && Ranked(pool.View()) && oid in pool.View().store
      requires c == pool.View().store[oid]
      modifies this
      ensures path == old(path)
      ensures Result(st, reply, log) == old(Outcome(HandlerScript(pool.View(), oid)))
      decreases Measure(pool.View(), oid), 1, 0
    {
      assert RankedAt(pool.View(), oid);
      ghost var bound := Measure(pool.View(), oid);
      OnwardEmpty(st, log, visitor, path);
      OnwardEmit(st, log, Blob(oid, c.data), false, [], visitor, path);
      OnwardDone(visitor, path);
      match HandlerOf(c.kind)
      case NullHandler => return Continue;
      case Unsupported => return Continue;
      case BlobHandler => reply := Call(Blob(oid, c.data));
      case IndHandler => reply := IndChunk(c.data, bound);
      case DirHandler => reply := DirChunk(c.data, bound);
      case BackHandler => reply := BackChunk(oid, c, bound);
      case NodeHandler => reply := NodeChunk(c, bound);
    }

    method BackChunk(oid: OID, c: Content, ghost bound: nat) returns (reply: Reply)
      requires pool.Valid() && pool.live && Ranked(pool.View()) && oid in pool.View().store
      requires c == pool.View().store[oid]
      requires HandlerOf(c.kind).BackHandler? && bound == Measure(pool.View(), oid)
      requires Below(pool.View(), Refs(c), bound)
      modifies this
      ensures path == old(path)
      ensures Result(st, reply, log) == old(Outcome(HandlerScript(pool.View(), oid)))
      decreases bound, 0, 2
    {
      OnwardEmpty(st, log, visitor, path);
      var p := DecodeProp(c.data);
      if p.None? || "_date" !in p.value.props {
        return Fail(Corrupt);
      }
      var date := ParseInt(p.value.props["_date"]);
      if date.None? {
        return Fail(Corrupt);
      }
      var header := p.value.props - {"_date"};
      var back := Back(oid, date.value * 1_000_000, header);
      OnwardEmit(st, log, back, true, HandlerScript(pool.View(), oid)[0].inner, visitor, path);
      reply := Call(back);
      if !reply.Continue? {
        return if reply.Prune? then Continue else reply;
      }
      OnwardEmpty(st, log, visitor, path);
      if "hash" !in header {
        return Fail(Corrupt);
      }
      reply := Link(header["hash"], bound);
    }

    method NodeChunk(c: Content, ghost bound: nat) returns (reply: Reply)
      requires pool.Valid() && pool.live && Ranked(pool.View())
      requires HandlerOf(c.kind).NodeHandler? && Below(pool.View(), Refs(c), bound)
      modifies this
      ensures path == old(path)
      ensures var p := Decoded(c.data);
        Result(st, reply, log)
          == old(Outcome(if p.None? then [Halt(Corrupt)] else NodeScript(pool.View(), p.value, bound)))
      decreases bound, 0, 4
    {
      OnwardEmpty(st, log, visitor, path);
      var p := DecodeProp(c.data);
      if p.None? {
        return Fail(Corrupt);
      }
      reply := DecodedNode(p.value, bound);
    }

    method DecodedNode(p: PropertyMap, ghost bound: nat) returns (reply: Reply)
      requires pool.Valid() && pool.live && Ranked(pool.View()) && Below(pool.View(), OidList(NodeLink(p)), bound)
      modifies this
      ensures path == old(path)
      ensures Result(st, reply, log) == old(Outcome(NodeScript(pool.View(), p, bound)))
      decreases bound, 0, 3
    {
      match NodeKindOf(p.kind)
      case DirNode => reply := Enclosed(Enter(p), p.Get("children"), bound, Leave(p));
      case RegNode => reply := Enclosed(Open(p), p.Get("data"), bound, Close(p));
      case PlainNode =>
        OnwardEmit(st, log, Node(p), false, [], visitor, path);
        OnwardDone(visitor, path);
        reply := Call(Node(p));
    }

    method Enclosed(first: Event, text: Bytes, ghost bound: nat, last: Event) returns (reply: Reply)
      requires pool.Valid() && pool.live && Ranked(pool.View()) && Below(pool.View(), OidList(text), bound)
      modifies this
      ensures path == old(path)
      ensures Result(st, reply, log)
        == old(Outcome([Emit(first, true, NodeBody(pool.View(), text, bound, Emit(last, false, [])))]))
      decreases bound, 0, 2
    {
      OnwardEmit(st, log, first, true, NodeBody(pool.View(), text, bound, Emit(last, false, [])), visitor, path);
      reply := Call(first);
      if !reply.Continue? {
        return if reply.Prune? then Continue else reply;
      }
      reply := Bracketed(text, bound, last);
    }

    /** The part of `nodeHandler` after Enter or Open: walk the linked identifier, then call Leave or Close. */
    method Bracketed(text: Bytes, ghost bound: nat, last: Event) returns (reply: Reply)
      requires pool.Valid() && pool.live && Ranked(pool.View()) && Below(pool.View(), OidList(text), bound)
      modifies this
      ensures path == old(path)
      ensures Result(st, reply, log) == old(Outcome(NodeBody(pool.View(), text, bound, Emit(last, false, []))))
      decreases bound, 0, 1
    {
      OnwardEmpty(st, log, visitor, path);
      OnwardAppend(st, log, LinkScript(pool.View(), text, bound), [Emit(last, false, [])], visitor, path);
      reply := Link(text, bound);
      if !reply.Continue? {
        return;
      }
      OnwardEmit(st, log, last, false, [], visitor, path);
      OnwardDone(visitor, path);
      reply := Call(last);
    }

    method Link(text: Bytes, ghost bound: nat) returns (reply: Reply)
      requires pool.Valid() && pool.live && Ranked(pool.View()) && Below(pool.View(), OidList(text), bound)
      modifies this
      ensures path == old(path)
      ensures Result(st, reply, log) == old(Outcome(LinkScript(pool.View(), text, bound)))
      decreases bound, 0, 0
    {
      OnwardEmpty(st, log, visitor, path);
      var id := ParseOid(text);
      if id.None? {
        return Fail(Corrupt);
      }
      assert OidList(text)[0] == id.value;
      reply := Walk(id.value);
    }

    method IndChunk(data: Bytes, ghost bound: nat) returns (reply: Reply)
      requires pool.Valid() && pool.live && Ranked(pool.View()) && Below(pool.View(), IndRefs(data), bound)
      modifies this
      ensures path == old(path)
      ensures Result(st, reply, log) == old(Outcome(IndScript(pool.View(), data, bound)))
      decreases bound, 0, |data|
    {
      var buf := data;
      while buf != []
        invariant path == old(path)
        invariant Below(pool.View(), IndRefs(buf), bound)
        invariant Outcome(IndScript(pool.View(), buf, bound)) == old(Outcome(IndScript(pool.View(), data, bound)))
        decreases |buf|
      {
        OnwardEmpty(st, log, visitor, path);
        if |buf| < OID_LEN {
          return Fail(Corrupt);
        }
        var oid, rest := buf[..OID_LEN], buf[OID_LEN..];
        ghost var ids := IndRefs(buf);
        assert ids[0] == oid && forall i :: 0 <= i < |ids[1..]| ==> ids[1..][i] == ids[i + 1];
        OnwardAppend(st, log, ScriptOf(pool.View(), oid), IndScript(pool.View(), rest, bound), visitor, path);
        reply := Walk(oid);
        if !reply.Continue? {
          return;
        }
        buf := rest;
      }
      OnwardEmpty(st, log, visitor, path);
      return Continue;
    }

    method DirChunk(data: Bytes, ghost bound: nat) returns (reply: Reply)
      requires pool.Valid() && pool.live && Ranked(pool.View()) && Below(pool.View(), DirRefs(data), bound)
      modifies this
      ensures path == old(path)
      ensures Result(st, reply, log) == old(Outcome(DirScript(pool.View(), data, bound)))
      decreases bound, 0, |data|
    {
      var buf := data;
      while buf != []
        invariant path == old(path)
        invariant Below(pool.View(), DirRefs(buf), bound)
        invariant Outcome(DirScript(pool.View(), buf, bound)) == old(Outcome(DirScript(pool.View(), data, bound)))
        decreases |buf|
      {
        OnwardEmpty(st, log, visitor, path);
        var next := ReadEntry(buf);
        if next.BadEntry? {
          return Fail(Corrupt);
        }
        var oid, rest := next.entry.oid, next.rest;
        ghost var ids := DirRefs(buf);
        assert ids[0] == oid && forall i :: 0 <= i < |ids[1..]| ==> ids[1..][i] == ids[i + 1];
        ghost var scope := [Scope(next.entry.name, ScriptOf(pool.View(), oid))];
        OnwardAppend(st, log, scope, DirScript(pool.View(), rest, bound), visitor, path);
        OnwardScope(st, log, next.entry.name, ScriptOf(pool.View(), oid), visitor, path);
        path := path + [next.entry.name];
        reply := Walk(oid);
        path := path[..|path| - 1];
        if !reply.Continue? {
          return;
        }
        buf := rest;
      }
      OnwardEmpty(st, log, visitor, path);
      return Continue;
    }
  }
}
