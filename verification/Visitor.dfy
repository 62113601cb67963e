/** Visitors and the order in which a walk calls them (src/store/visitor.go, the Prune rules of src/store/decode.go).
    A script is what a walk intends to do; running it against a visitor gives what happens. */
module Visitors {
  import opened Base
  import opened Chunks
  import opened Props

  datatype Event =
    | EarlyVisit(oid: OID)
    | ChunkSeen(oid: OID, content: Content)
    | Back(root: OID, date: int, header: map<Bytes, Bytes>)
    | Enter(props: PropertyMap)
    | Leave(props: PropertyMap)
    | Open(props: PropertyMap)
    | Close(props: PropertyMap)
    | Node(props: PropertyMap)
    | Blob(oid: OID, data: Bytes)

  datatype Error = NotFound | Corrupt | Refused(code: int)

  /** What a callback returns: nil, the error `Prune`, or another error. */
  datatype Reply = Continue | Prune | Fail(error: Error)

  /** An arbitrary visitor: its state changes with every event, and it sees the current path. */
  datatype Visitor<!S> = Visitor(react: (S, seq<Bytes>, Event) -> (S, Reply))

  datatype Visit = Visit(path: seq<Bytes>, event: Event, reply: Reply)

  datatype Step =
    | Emit(event: Event, soft: bool, inner: seq<Step>)   // call, then `inner`; if `soft`, Prune only skips `inner`
    | Scope(name: Bytes, inner: seq<Step>)               // PushPath, `inner`, PopPath
    | Halt(error: Error)                                 // the decoder gives up

  datatype Result<S> = Result(st: S, reply: Reply, log: seq<Visit>)

  function Then<S>(r: Result<S>, q: Result<S>): Result<S> {
    Result(q.st, q.reply, r.log + q.log)
  }

  function RunStep<S>(step: Step, v: Visitor<S>, path: seq<Bytes>, st: S): Result<S>
    decreases step, 0
  {
    match step
    case Halt(error) => Result(st, Fail(error), [])
    case Scope(name, inner) => Run(inner, v, path + [name], st)
    case Emit(event, soft, inner) =>
      var (st', reply) := v.react(st, path, event);
      var first := Result(st', reply, [Visit(path, event, reply)]);
      if reply.Continue? then Then(first, Run(inner, v, path, st'))
      else if reply.Prune? && soft then first.(reply := Continue)
      else first
  }

  function Run<S>(steps: seq<Step>, v: Visitor<S>, path: seq<Bytes>, st: S): Result<S>
    decreases steps, 1
  {
    if steps == [] then Result(st, Continue, [])
    else
      var r := RunStep(steps[0], v, path, st);
      if r.reply.Continue? then Then(r, Run(steps[1..], v, path, r.st)) else r
  }

  lemma {:induction false} RunAppend<S>(a: seq<Step>, b: seq<Step>, v: Visitor<S>, path: seq<Bytes>, st: S)
    ensures var r := Run(a, v, path, st);
      Run(a + b, v, path, st) == if r.reply.Continue? then Then(r, Run(b, v, path, r.st)) else r
  {
    if a == [] {
      assert a + b == b;
      assert [] + Run(b, v, path, st).log == Run(b, v, path, st).log;
    } else {
      assert (a + b)[1..] == a[1..] + b;
      var r := RunStep(a[0], v, path, st);
      if r.reply.Continue? {
        RunAppend(a[1..], b, v, path, r.st);
        var q := Run(a[1..], v, path, r.st);
        if q.reply.Continue? {
          assert r.log + (q.log + Run(b, v, path, q.st).log) == r.log + q.log + Run(b, v, path, q.st).log;
        }
      }
    }
  }

  lemma RunOne<S>(step: Step, v: Visitor<S>, path: seq<Bytes>, st: S)
    ensures Run([step], v, path, st) == RunStep(step, v, path, st)
  {
    var r := RunStep(step, v, path, st);
    assert [step][1..] == [];
    assert r.log + [] == r.log;
  }

  /** A callback with nothing inside. */
  lemma RunCall<S>(e: Event, v: Visitor<S>, path: seq<Bytes>, st: S)
    ensures var r := RunStep(Emit(e, false, []), v, path, st); (r.st, r.reply) == v.react(st, path, e)
  {
  }

  /** A bracketed step: the opening callback, the body, and the closing callback when the body succeeds. */
  lemma RunEnclosed<S>(first: Event, body: seq<Step>, last: Event, v: Visitor<S>, path: seq<Bytes>, st: S)
    requires v.react(st, path, first).1.Continue?
    ensures var whole := RunStep(Emit(first, true, body + [Emit(last, false, [])]), v, path, st);
      var inner := Run(body, v, path, v.react(st, path, first).0);
      (whole.st, whole.reply) ==
        if inner.reply.Continue? then v.react(inner.st, path, last) else (inner.st, inner.reply)
  {
    var inner := Run(body, v, path, v.react(st, path, first).0);
    RunAppend(body, [Emit(last, false, [])], v, path, v.react(st, path, first).0);
    RunOne(Emit(last, false, []), v, path, inner.st);
    RunCall(last, v, path, inner.st);
  }

  /** Running a script after what is already in `log`. */
  function Onward<S>(st: S, log: seq<Visit>, steps: seq<Step>, v: Visitor<S>, path: seq<Bytes>): Result<S> {
    Then(Result(st, Continue, log), Run(steps, v, path, st))
  }

  lemma OnwardEmpty<S>(st: S, log: seq<Visit>, v: Visitor<S>, path: seq<Bytes>)
    ensures Onward(st, log, [], v, path) == Result(st, Continue, log)
    ensures forall e :: Onward(st, log, [Halt(e)], v, path) == Result(st, Fail(e), log)
  {
    assert log + [] == log;
    forall e ensures Onward(st, log, [Halt(e)], v, path) == Result(st, Fail(e), log) {
      RunOne(Halt(e), v, path, st);
    }
  }

  lemma OnwardDone<S(!new)>(v: Visitor<S>, path: seq<Bytes>)
    ensures forall st: S, log: seq<Visit> :: Onward(st, log, [], v, path) == Result(st, Continue, log)
  {
    forall st: S, log: seq<Visit> {
      OnwardEmpty(st, log, v, path);
    }
  }

  lemma OnwardAppend<S>(st: S, log: seq<Visit>, a: seq<Step>, b: seq<Step>, v: Visitor<S>, path: seq<Bytes>)
    ensures var r := Onward(st, log, a, v, path);
      Onward(st, log, a + b, v, path) == if r.reply.Continue? then Onward(r.st, r.log, b, v, path) else r
  {
    RunAppend(a, b, v, path, st);
    var r := Run(a, v, path, st);
    assert log + (r.log + Run(b, v, path, r.st).log) == log + r.log + Run(b, v, path, r.st).log;
  }

  lemma OnwardEmit<S>(st: S, log: seq<Visit>, e: Event, soft: bool, inner: seq<Step>, v: Visitor<S>, path: seq<Bytes>)
    ensures var (st', reply) := v.react(st, path, e);
      var log' := log + [Visit(path, e, reply)];
      Onward(st, log, [Emit(e, soft, inner)], v, path) ==
        if reply.Continue? then Onward(st', log', inner, v, path)
        else Result(st', if reply.Prune? && soft then Continue else reply, log')
  {
    RunOne(Emit(e, soft, inner), v, path, st);
    var (st', reply) := v.react(st, path, e);
    var visit := [Visit(path, e, reply)];
    assert log + (visit + Run(inner, v, path, st').log) == log + visit + Run(inner, v, path, st').log;
  }

  lemma OnwardScope<S>(st: S, log: seq<Visit>, name: Bytes, inner: seq<Step>, v: Visitor<S>, path: seq<Bytes>)
    ensures Onward(st, log, [Scope(name, inner)], v, path) == Onward(st, log, inner, v, path + [name])
  {
    RunOne(Scope(name, inner), v, path, st);
  }

  // ---- the shape of decoder scripts --------------------------------------------------------

  /** Events whose Prune only skips the node they announce. */
  predicate Prunable(e: Event) {
    e.EarlyVisit? || e.ChunkSeen? || e.Back? || e.Enter? || e.Open?
  }

  predicate Opening(e: Event) {
    e.Enter? || e.Open?
  }

  predicate Closing(e: Event) {
    e.Leave? || e.Close?
  }

  function ClosingOf(e: Event): Event
    requires Opening(e)
  {
    if e.Enter? then Leave(e.props) else Close(e.props)
  }

  /** Softness follows the event, closing events come last inside their opening one, and only there. */
  predicate ShapedStep(step: Step)
    decreases step, 0
  {
    match step
    case Halt(_) => true
    case Scope(_, inner) => Shaped(inner)
    case Emit(e, soft, inner) =>
      && soft == Prunable(e)
      && !Closing(e)
      && if Opening(e) then
           && inner != []
           && (inner[|inner| - 1].Halt? || inner[|inner| - 1] == Emit(ClosingOf(e), false, []))
           && Shaped(inner[..|inner| - 1])
         else Shaped(inner)
  }

  predicate Shaped(steps: seq<Step>)
    decreases steps, 1
  {
    steps == [] || (ShapedStep(steps[0]) && Shaped(steps[1..]))
  }

  lemma ShapedOne(step: Step)
    ensures Shaped([step]) == ShapedStep(step)
  {
    assert [step][1..] == [];
  }

  lemma {:induction false} ShapedAppend(a: seq<Step>, b: seq<Step>)
    requires Shaped(a) && Shaped(b)
    ensures Shaped(a + b)
  {
    if a == [] {
      assert a + b == b;
    } else {
      ShapedAppend(a[1..], b);
      assert (a + b)[1..] == a[1..] + b;
    }
  }

  // ---- bracket discipline ------------------------------------------------------------------

  datatype Bracket = Bracket(path: seq<Bytes>, event: Event)

  /** Matches the events of a log against a stack of the closing events still due; every accepted
      Enter and Open adds one, with the path it was called at. */
  function Match(log: seq<Visit>, due: seq<Bracket>): Option<seq<Bracket>> {
    if log == [] then Some(due)
    else
      var v := log[0];
      if Opening(v.event) && v.reply.Continue? then
        Match(log[1..], [Bracket(v.path, ClosingOf(v.event))] + due)
      else if Closing(v.event) then
        if due != [] && due[0] == Bracket(v.path, v.event) then Match(log[1..], due[1..]) else None
      else Match(log[1..], due)
  }

  lemma {:induction false} MatchAppend(a: seq<Visit>, b: seq<Visit>, due: seq<Bracket>)
    ensures Match(a + b, due) == match Match(a, due) case Some(d) => Match(b, d) case None => None
  {
    if a == [] {
      assert a + b == b;
    } else {
      assert (a + b)[1..] == a[1..] + b;
      var v := a[0];
      if Opening(v.event) && v.reply.Continue? {
        MatchAppend(a[1..], b, [Bracket(v.path, ClosingOf(v.event))] + due);
      } else if Closing(v.event) {
        if due != [] && due[0] == Bracket(v.path, v.event) {
          MatchAppend(a[1..], b, due[1..]);
        }
      } else {
        MatchAppend(a[1..], b, due);
      }
    }
  }

  /** When a walk succeeds, each accepted Enter has its Leave and each accepted Open its Close, with the same
      properties and at the same path, properly nested; a pruned Enter or Open has none. */
  lemma {:induction false} RunBalanced<S>(steps: seq<Step>, v: Visitor<S>, path: seq<Bytes>, st: S, due: seq<Bracket>)
    requires Shaped(steps) && Run(steps, v, path, st).reply.Continue?
    ensures Match(Run(steps, v, path, st).log, due) == Some(due)
    decreases steps, 1
  {
    if steps != [] {
      var r := RunStep(steps[0], v, path, st);
      StepBalanced(steps[0], v, path, st, due);
      RunBalanced(steps[1..], v, path, r.st, due);
      MatchAppend(r.log, Run(steps[1..], v, path, r.st).log, due);
    }
  }

  lemma {:induction false} StepBalanced<S>(step: Step, v: Visitor<S>, path: seq<Bytes>, st: S, due: seq<Bracket>)
    requires ShapedStep(step) && RunStep(step, v, path, st).reply.Continue?
    ensures Match(RunStep(step, v, path, st).log, due) == Some(due)
    decreases step, 0
  {
    match step
    case Halt(_) =>
    case Scope(name, inner) => RunBalanced(inner, v, path + [name], st, due);
    case Emit(e, soft, inner) =>
      var (st', reply) := v.react(st, path, e);
      if reply.Continue? {
        if Opening(e) {
          var n := |inner| - 1;
          var body, last := inner[..n], inner[n];
          assert inner == body + [last];
          RunAppend(body, [last], v, path, st');
          var r := Run(body, v, path, st');
          RunOne(last, v, path, r.st);
          var due' := [Bracket(path, ClosingOf(e))] + due;
          RunBalanced(body, v, path, st', due');
          var closing := Run([last], v, path, r.st).log;
          assert closing == [Visit(path, ClosingOf(e), Continue)];
          MatchAppend(r.log, closing, due');
          assert due'[1..] == due;
          var log := RunStep(step, v, path, st).log;
          assert log == [Visit(path, e, reply)] + (r.log + closing);
          assert log[1..] == r.log + closing;
        } else {
          RunBalanced(inner, v, path, st', due);
          var log := RunStep(step, v, path, st).log;
          assert log[1..] == Run(inner, v, path, st').log;
        }
      }
  }

  // ---- what aborts and what is skipped -----------------------------------------------------

  /** A callback result after which a walk goes on. */
  predicate GoesOn(v: Visit) {
    var e := v.event;
    v.reply.Continue? ||
    (v.reply.Prune? && (e.EarlyVisit? || e.ChunkSeen? || e.Back? || e.Enter? || e.Open?))
  }

  /** A walk goes on past a callback exactly when it returned nil, or Prune from one of the five announcing
      callbacks. Otherwise the walk ends there and returns that very error; Prune itself comes out of a walk
      only when Leave, Close, Node or Blob returned it. */
  lemma {:induction false} RunAborts<S>(steps: seq<Step>, v: Visitor<S>, path: seq<Bytes>, st: S)
    requires Shaped(steps)
    ensures var r := Run(steps, v, path, st);
      && (forall i :: 0 <= i < |r.log| - 1 ==> GoesOn(r.log[i]))
      && (r.reply.Continue? ==> forall i :: 0 <= i < |r.log| ==> GoesOn(r.log[i]))
      && (r.log != [] && !GoesOn(r.log[|r.log| - 1]) ==> r.reply == r.log[|r.log| - 1].reply)
      && (r.reply.Prune? ==> r.log != [] && r.log[|r.log| - 1].reply.Prune? && !GoesOn(r.log[|r.log| - 1]))
    decreases steps, 1
  {
    if steps != [] {
      var r := RunStep(steps[0], v, path, st);
      StepAborts(steps[0], v, path, st);
      if r.reply.Continue? {
        RunAborts(steps[1..], v, path, r.st);
      }
    }
  }

  lemma {:induction false} StepAborts<S>(step: Step, v: Visitor<S>, path: seq<Bytes>, st: S)
    requires ShapedStep(step) || (step.Emit? && Closing(step.event) && !step.soft && step.inner == [])
    ensures var r := RunStep(step, v, path, st);
      && (forall i :: 0 <= i < |r.log| - 1 ==> GoesOn(r.log[i]))
      && (r.reply.Continue? ==> forall i :: 0 <= i < |r.log| ==> GoesOn(r.log[i]))
      && (r.log != [] && !GoesOn(r.log[|r.log| - 1]) ==> r.reply == r.log[|r.log| - 1].reply)
      && (r.reply.Prune? ==> r.log != [] && r.log[|r.log| - 1].reply.Prune? && !GoesOn(r.log[|r.log| - 1]))
    decreases step, 0
  {
    match step
    case Halt(_) =>
    case Scope(name, inner) => RunAborts(inner, v, path + [name], st);
    case Emit(e, soft, inner) =>
      var (st', reply) := v.react(st, path, e);
      if reply.Continue? {
        if Opening(e) {
          var n := |inner| - 1;
          assert inner == inner[..n] + [inner[n]];
          RunAborts(inner[..n], v, path, st');
          RunAppend(inner[..n], [inner[n]], v, path, st');
          var r := Run(inner[..n], v, path, st');
          RunOne(inner[n], v, path, r.st);
          StepAborts(inner[n], v, path, r.st);
        } else if !Closing(e) {
          RunAborts(inner, v, path, st');
        }
      }
  }

  datatype Seen = Seen(path: seq<Bytes>, event: Event)

  /** All events of a script in order, as a visitor that never prunes sees them. */
  function Events(steps: seq<Step>, path: seq<Bytes>): seq<Seen>
    decreases steps
  {
    if steps == [] then []
    else
      (match steps[0]
       case Halt(_) => []
       case Scope(name, inner) => Events(inner, path + [name])
       case Emit(e, _, inner) => [Seen(path, e)] + Events(inner, path))
      + Events(steps[1..], path)
  }

  function SeenIn(log: seq<Visit>): (r: seq<Seen>)
    ensures |r| == |log| && forall i :: 0 <= i < |log| ==> r[i] == Seen(log[i].path, log[i].event)
  {
    seq(|log|, i requires 0 <= i < |log| => Seen(log[i].path, log[i].event))
  }

  /** The script with everything below a pruned event taken out; `replies` are the answers to the events
      that remain, in order. */
  function Cut(steps: seq<Step>, replies: seq<Reply>): seq<Step>
    decreases steps, 1
  {
    if steps == [] then []
    else
      var first := CutStep(steps[0], replies);
      var used := |Events([first], [])|;
      [first] + Cut(steps[1..], if used <= |replies| then replies[used..] else [])
  }

  function CutStep(step: Step, replies: seq<Reply>): Step
    decreases step, 0
  {
    match step
    case Halt(_) => step
    case Scope(name, inner) => Scope(name, Cut(inner, replies))
    case Emit(e, soft, inner) =>
      if replies == [] || replies[0].Prune? then Emit(e, soft, []) else Emit(e, soft, Cut(inner, replies[1..]))
  }

  function Replies(log: seq<Visit>): (r: seq<Reply>)
    ensures |r| == |log| && forall i :: 0 <= i < |log| ==> r[i] == log[i].reply
  {
    seq(|log|, i requires 0 <= i < |log| => log[i].reply)
  }

  lemma {:induction false} EventsLength(steps: seq<Step>, p: seq<Bytes>, q: seq<Bytes>)
    ensures |Events(steps, p)| == |Events(steps, q)|
    decreases steps
  {
    if steps != [] {
      EventsLength(steps[1..], p, q);
      match steps[0]
      case Halt(_) =>
      case Scope(name, inner) => EventsLength(inner, p + [name], q + [name]);
      case Emit(_, _, inner) => EventsLength(inner, p, q);
    }
  }

  lemma LogCons(visit: Visit, log: seq<Visit>, more: seq<Reply>)
    ensures SeenIn([visit] + log) == [Seen(visit.path, visit.event)] + SeenIn(log)
    ensures Replies([visit] + log) + more == [visit.reply] + (Replies(log) + more)
  {
  }

  lemma LogAppend(a: seq<Visit>, b: seq<Visit>, more: seq<Reply>)
    ensures SeenIn(a + b) == SeenIn(a) + SeenIn(b)
    ensures Replies(a + b) + more == Replies(a) + (Replies(b) + more)
  {
  }

  lemma CutCons(step: Step, rest: seq<Step>, replies: seq<Reply>, more: seq<Reply>, path: seq<Bytes>)
    requires |replies| == |Events([CutStep(step, replies + more)], path)|
    ensures var first := CutStep(step, replies + more);
      Events(Cut([step] + rest, replies + more), path) == Events([first], path) + Events(Cut(rest, more), path)
  {
    var first := CutStep(step, replies + more);
    EventsLength([first], [], path);
    assert ([step] + rest)[1..] == rest;
    assert (replies + more)[|replies|..] == more;
    EventsCons(first, Cut(rest, more), path);
  }

  lemma EventsCons(step: Step, rest: seq<Step>, path: seq<Bytes>)
    ensures Events([step] + rest, path) == Events([step], path) + Events(rest, path)
  {
    assert ([step] + rest)[1..] == rest;
    assert [step][1..] == [];
  }

  /** Prune from an announcing callback takes exactly that node's remaining events and its subtree out of
      the trace: a successful walk sees the events of the script cut at the pruned events, all of them, in order. */
  lemma {:induction false} RunSeesCut<S>(steps: seq<Step>, v: Visitor<S>, path: seq<Bytes>, st: S, more: seq<Reply>)
    requires Run(steps, v, path, st).reply.Continue?
    ensures var log := Run(steps, v, path, st).log;
      SeenIn(log) == Events(Cut(steps, Replies(log) + more), path)
    decreases steps, 1
  {
    if steps != [] {
      var r := RunStep(steps[0], v, path, st);
      var q := Run(steps[1..], v, path, r.st);
      var later := Replies(q.log) + more;
      StepSeesCut(steps[0], v, path, st, later);
      RunSeesCut(steps[1..], v, path, r.st, more);
      LogAppend(r.log, q.log, more);
      CutCons(steps[0], steps[1..], Replies(r.log), later, path);
      assert [steps[0]] + steps[1..] == steps;
    }
  }

  lemma EventsOfEmit(e: Event, soft: bool, inner: seq<Step>, path: seq<Bytes>)
    ensures Events([Emit(e, soft, inner)], path) == [Seen(path, e)] + Events(inner, path)
  {
    assert [Emit(e, soft, inner)][1..] == [];
  }

  lemma EventsOfScope(name: Bytes, inner: seq<Step>, path: seq<Bytes>)
    ensures Events([Scope(name, inner)], path) == Events(inner, path + [name])
  {
    assert [Scope(name, inner)][1..] == [];
  }

  lemma {:induction false} StepSeesCut<S>(step: Step, v: Visitor<S>, path: seq<Bytes>, st: S, more: seq<Reply>)
    requires RunStep(step, v, path, st).reply.Continue?
    ensures var log := RunStep(step, v, path, st).log;
      SeenIn(log) == Events([CutStep(step, Replies(log) + more)], path)
    decreases step, 0
  {
    match step
    case Halt(_) =>
    case Scope(name, inner) =>
      RunSeesCut(inner, v, path + [name], st, more);
      EventsOfScope(name, Cut(inner, Replies(Run(inner, v, path + [name], st).log) + more), path);
    case Emit(e, soft, inner) =>
      var (st', reply) := v.react(st, path, e);
      var below := if reply.Continue? then Run(inner, v, path, st').log else [];
      LogCons(Visit(path, e, reply), below, more);
      assert [Visit(path, e, reply)] + [] == [Visit(path, e, reply)];
      CutOfEmit(e, soft, inner, reply, Replies(below) + more);
      if reply.Continue? {
        RunSeesCut(inner, v, path, st', more);
        EventsOfEmit(e, soft, Cut(inner, Replies(below) + more), path);
      } else {
        EventsOfEmit(e, soft, [], path);
      }
  }

  lemma CutOfEmit(e: Event, soft: bool, inner: seq<Step>, reply: Reply, more: seq<Reply>)
    ensures CutStep(Emit(e, soft, inner), [reply] + more)
         == Emit(e, soft, if reply.Prune? then [] else Cut(inner, more))
  {
    assert ([reply] + more)[1..] == more;
  }

  ghost predicate NeverRefuses<S(!new)>(v: Visitor<S>) {
    forall st: S, path: seq<Bytes>, e: Event :: v.react(st, path, e).1.Continue?
  }

  /** Somewhere in the script the decoder gives up. */
  predicate Halts(steps: seq<Step>)
    decreases steps
  {
    steps != [] && (steps[0].Halt? || (!steps[0].Halt? && Halts(steps[0].inner)) || Halts(steps[1..]))
  }

  /** A visitor that never refuses sees every event of the script, in order and at its path. */
  lemma {:induction false} RunSeesAll<S(!new)>(steps: seq<Step>, v: Visitor<S>, path: seq<Bytes>, st: S)
    requires NeverRefuses(v) && !Halts(steps)
    ensures var r := Run(steps, v, path, st); r.reply.Continue? && SeenIn(r.log) == Events(steps, path)
    decreases steps
  {
    if steps != [] {
      var r := RunStep(steps[0], v, path, st);
      match steps[0] {
        case Halt(_) =>
        case Scope(name, inner) => RunSeesAll(inner, v, path + [name], st);
        case Emit(e, _, inner) =>
          var (st', reply) := v.react(st, path, e);
          RunSeesAll(inner, v, path, st');
          LogCons(Visit(path, e, reply), Run(inner, v, path, st').log, []);
      }
      RunSeesAll(steps[1..], v, path, r.st);
      LogAppend(r.log, Run(steps[1..], v, path, r.st).log, []);
    }
  }

  // ---- visitors that only look at decoded nodes --------------------------------------------

  predicate Raw(e: Event) {
    e.EarlyVisit? || e.ChunkSeen?
  }

  /** The visitor leaves EarlyVisit and Chunk at their empty defaults. */
  ghost predicate IgnoresRaw<S(!new)>(v: Visitor<S>) {
    forall st: S, path: seq<Bytes>, e: Event :: Raw(e) ==> v.react(st, path, e) == (st, Continue)
  }

  /** The script without EarlyVisit and Chunk. */
  function Strip(steps: seq<Step>): seq<Step>
    decreases steps, 1
  {
    if steps == [] then [] else StripStep(steps[0]) + Strip(steps[1..])
  }

  function StripStep(step: Step): seq<Step>
    decreases step, 0
  {
    match step
    case Halt(error) => [Halt(error)]
    case Scope(name, inner) => [Scope(name, Strip(inner))]
    case Emit(e, soft, inner) => if Raw(e) then Strip(inner) else [Emit(e, soft, Strip(inner))]
  }

  lemma AssocSteps(a: seq<Step>, b: seq<Step>, c: seq<Step>)
    ensures a + b + c == a + (b + c)
  {
  }

  lemma {:induction false} StripAppend(a: seq<Step>, b: seq<Step>)
    ensures Strip(a + b) == Strip(a) + Strip(b)
  {
    if a == [] {
      assert a + b == b;
    } else {
      StripAppend(a[1..], b);
      assert (a + b)[1..] == a[1..] + b;
      AssocSteps(StripStep(a[0]), Strip(a[1..]), Strip(b));
    }
  }

  function DecodedVisits(log: seq<Visit>): seq<Visit> {
    if log == [] then []
    else (if Raw(log[0].event) then [] else [log[0]]) + DecodedVisits(log[1..])
  }

  lemma {:induction false} DecodedAppend(a: seq<Visit>, b: seq<Visit>)
    ensures DecodedVisits(a + b) == DecodedVisits(a) + DecodedVisits(b)
  {
    if a == [] {
      assert a + b == b;
    } else {
      DecodedAppend(a[1..], b);
      var first := if Raw(a[0].event) then [] else [a[0]];
      DecodedFirst(a, b, first);
      hide DecodedVisits;
      AssocVisits(first, DecodedVisits(a[1..]), DecodedVisits(b));
    }
  }

  lemma DecodedFirst(a: seq<Visit>, b: seq<Visit>, first: seq<Visit>)
    requires a != [] && first == if Raw(a[0].event) then [] else [a[0]]
    ensures DecodedVisits(a) == first + DecodedVisits(a[1..])
    ensures DecodedVisits(a + b) == first + DecodedVisits(a[1..] + b)
  {
    assert (a + b)[1..] == a[1..] + b;
  }

  lemma AssocVisits(a: seq<Visit>, b: seq<Visit>, c: seq<Visit>)
    ensures a + (b + c) == a + b + c
  {
  }

  /** Such a visitor ends in the same state, with the same reply and the same decoded events. */
  lemma {:induction false} RunStrip<S(!new)>(steps: seq<Step>, v: Visitor<S>, path: seq<Bytes>, st: S)
    requires IgnoresRaw(v)
    ensures var r, s := Run(steps, v, path, st), Run(Strip(steps), v, path, st);
      r.st == s.st && r.reply == s.reply && DecodedVisits(r.log) == s.log
    decreases steps, 1
  {
    if steps != [] {
      var r := RunStep(steps[0], v, path, st);
      StepStrip(steps[0], v, path, st);
      assert [steps[0]] + steps[1..] == steps;
      StripAppend([steps[0]], steps[1..]);
      RunAppend(Strip([steps[0]]), Strip(steps[1..]), v, path, st);
      if r.reply.Continue? {
        RunStrip(steps[1..], v, path, r.st);
        DecodedAppend(r.log, Run(steps[1..], v, path, r.st).log);
      }
    }
  }

  lemma {:induction false} StepStrip<S(!new)>(step: Step, v: Visitor<S>, path: seq<Bytes>, st: S)
    requires IgnoresRaw(v)
    ensures var r, s := RunStep(step, v, path, st), Run(Strip([step]), v, path, st);
      r.st == s.st && r.reply == s.reply && DecodedVisits(r.log) == s.log
    decreases step, 0
  {
    assert [step][1..] == [];
    match step
    case Halt(error) =>
      assert Strip([step]) == [Halt(error)];
      RunOne(Halt(error), v, path, st);
    case Scope(name, inner) =>
      assert Strip([step]) == [Scope(name, Strip(inner))];
      RunOne(Scope(name, Strip(inner)), v, path, st);
      RunStrip(inner, v, path + [name], st);
    case Emit(e, soft, inner) =>
      var (st', reply) := v.react(st, path, e);
      var visit := Visit(path, e, reply);
      RunStrip(inner, v, path, st');
      DecodedAppend([visit], Run(inner, v, path, st').log);
      assert [visit][1..] == [];
      if Raw(e) {
        assert Strip([step]) == Strip(inner);
      } else {
        assert Strip([step]) == [Emit(e, soft, Strip(inner))];
        RunOne(Emit(e, soft, Strip(inner)), v, path, st);
      }
  }

  /** The decoded events of a sequence. */
  function DecodedSeen(events: seq<Seen>): seq<Seen> {
    if events == [] then []
    else (if Raw(events[0].event) then [] else [events[0]]) + DecodedSeen(events[1..])
  }

  lemma {:induction false} DecodedSeenAppend(a: seq<Seen>, b: seq<Seen>)
    ensures DecodedSeen(a + b) == DecodedSeen(a) + DecodedSeen(b)
  {
    if a == [] {
      assert a + b == b;
    } else {
      DecodedSeenAppend(a[1..], b);
      assert (a + b)[1..] == a[1..] + b;
      AssocSeen(if Raw(a[0].event) then [] else [a[0]], DecodedSeen(a[1..]), DecodedSeen(b));
    }
  }

  lemma AssocSeen(a: seq<Seen>, b: seq<Seen>, c: seq<Seen>)
    ensures a + b + c == a + (b + c)
  {
  }

  lemma {:induction false} EventsAppend(a: seq<Step>, b: seq<Step>, path: seq<Bytes>)
    ensures Events(a + b, path) == Events(a, path) + Events(b, path)
  {
    if a == [] {
      assert a + b == b;
    } else {
      hide Events;
      EventsAppend(a[1..], b, path);
      assert a + b == [a[0]] + (a[1..] + b) && a == [a[0]] + a[1..];
      EventsCons(a[0], a[1..] + b, path);
      EventsCons(a[0], a[1..], path);
      AssocSeen(Events([a[0]], path), Events(a[1..], path), Events(b, path));
    }
  }

  lemma {:induction false} HaltsAppend(a: seq<Step>, b: seq<Step>)
    ensures Halts(a + b) <==> Halts(a) || Halts(b)
  {
    if a == [] {
      assert a + b == b;
    } else {
      HaltsAppend(a[1..], b);
      assert (a + b)[1..] == a[1..] + b;
    }
  }

  /** The stripped script has the decoded events of the script, at their paths and in order. */
  lemma {:induction false} EventsStrip(steps: seq<Step>, path: seq<Bytes>)
    ensures Events(Strip(steps), path) == DecodedSeen(Events(steps, path))
    decreases steps, 1
  {
    if steps != [] {
      hide Events, DecodedSeen, StripStep;
      EventsAppend(StripStep(steps[0]), Strip(steps[1..]), path);
      EventsStrip(steps[1..], path);
      assert steps == [steps[0]] + steps[1..];
      EventsCons(steps[0], steps[1..], path);
      DecodedSeenAppend(Events([steps[0]], path), Events(steps[1..], path));
      StepEventsStrip(steps[0], path);
    }
  }

  lemma {:induction false} StepEventsStrip(step: Step, path: seq<Bytes>)
    ensures Events(StripStep(step), path) == DecodedSeen(Events([step], path))
    decreases step, 0
  {
    match step
    case Halt(_) => NoEvents(step, path);
    case Scope(name, inner) =>
      EventsStrip(inner, path + [name]);
      EventsOfScope(name, inner, path);
      EventsOfScope(name, Strip(inner), path);
    case Emit(e, soft, inner) =>
      EventsStrip(inner, path);
      EventsOfEmit(e, soft, inner, path);
      EventsOfEmit(e, soft, Strip(inner), path);
      assert ([Seen(path, e)] + Events(inner, path))[1..] == Events(inner, path);
  }

  lemma NoEvents(step: Step, path: seq<Bytes>)
    requires step.Halt?
    ensures Events([step], path) == []
  {
    assert [step][1..] == [];
  }

  lemma {:induction false} HaltsStrip(steps: seq<Step>)
    ensures Halts(Strip(steps)) <==> Halts(steps)
    decreases steps
  {
    if steps != [] {
      HaltsAppend(StripStep(steps[0]), Strip(steps[1..]));
      HaltsStrip(steps[1..]);
      assert StripStep(steps[0]) != [] ==> StripStep(steps[0]) == [StripStep(steps[0])[0]] + StripStep(steps[0])[1..];
      match steps[0]
      case Halt(_) =>
      case Scope(name, inner) => HaltsStrip(inner); OneHalts(Scope(name, Strip(inner)));
      case Emit(e, soft, inner) => HaltsStrip(inner); OneHalts(Emit(e, soft, Strip(inner)));
    }
  }

  lemma OneHalts(step: Step)
    requires !step.Halt?
    ensures Halts([step]) <==> Halts(step.inner)
  {
    assert [step][1..] == [];
  }

  /** Walking with a visitor that never refuses: its decoded events are those of the stripped script. */
  lemma RunSeesStripped<S(!new)>(steps: seq<Step>, v: Visitor<S>, path: seq<Bytes>, st: S)
    requires NeverRefuses(v) && !Halts(Strip(steps))
    ensures var r := Run(steps, v, path, st);
      r.reply.Continue? && DecodedSeen(SeenIn(r.log)) == Events(Strip(steps), path)
  {
    HaltsStrip(steps);
    RunSeesAll(steps, v, path, st);
    EventsStrip(steps, path);
  }

  // ---- invariants of a visitor -------------------------------------------------------------

  /** All events of a script are of a kind. */
  ghost predicate Allowed(steps: seq<Step>, ok: Event -> bool)
    decreases steps, 1
  {
    forall i :: 0 <= i < |steps| ==> AllowedStep(steps[i], ok)
  }

  ghost predicate AllowedStep(step: Step, ok: Event -> bool)
    decreases step, 0
  {
    match step
    case Halt(_) => true
    case Scope(_, inner) => Allowed(inner, ok)
    case Emit(e, _, inner) => ok(e) && Allowed(inner, ok)
  }

  ghost predicate Maintains<S(!new)>(v: Visitor<S>, inv: S -> bool, ok: Event -> bool) {
    forall st: S, path, e :: inv(st) && ok(e) ==> inv(v.react(st, path, e).0)
  }

  /** What every callback keeps holds after a run, wherever it stops. */
  lemma {:induction false} RunMaintains<S(!new)>(steps: seq<Step>, v: Visitor<S>, path: seq<Bytes>, st: S,
                                                 inv: S -> bool, ok: Event -> bool)
    requires Maintains(v, inv, ok) && Allowed(steps, ok) && inv(st)
    ensures inv(Run(steps, v, path, st).st)
    decreases steps, 1
  {
    hide AllowedStep, Maintains;
    if steps != [] {
      StepMaintains(steps[0], v, path, st, inv, ok);
      var r := RunStep(steps[0], v, path, st);
      if r.reply.Continue? {
        RunMaintains(steps[1..], v, path, r.st, inv, ok);
      }
    }
  }

  lemma {:induction false} StepMaintains<S(!new)>(step: Step, v: Visitor<S>, path: seq<Bytes>, st: S,
                                                  inv: S -> bool, ok: Event -> bool)
    requires Maintains(v, inv, ok) && AllowedStep(step, ok) && inv(st)
    ensures inv(RunStep(step, v, path, st).st)
    decreases step, 0
  {
    match step
    case Halt(_) =>
    case Scope(name, inner) => RunMaintains(inner, v, path + [name], st, inv, ok);
    case Emit(e, _, inner) =>
      assert inv(v.react(st, path, e).0);
      if v.react(st, path, e).1.Continue? {
        RunMaintains(inner, v, path, v.react(st, path, e).0, inv, ok);
      }
  }
}
