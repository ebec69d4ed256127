/**
 The dispatch loop at work: bytes arrive, the loop reads a frame at a time and
 starts a goroutine for it, the goroutines run whenever they like, handlers come
 and go, and a failed answer or anybody else may end the invoker meanwhile.
 */
module DispatchRuns {
  import opened Prelude
  import opened IntCodec
  import opened Framing
  import opened Dispatch
  import Text

  /** The two-way handlers, by their numbers. */
  type Handlers = (nat, Request) -> Response

  datatype Loop =
    | AtTop                                   // before HasInvoke
    | AtSelect                                // before the select on the context
    | Reading                                 // in ReadInvoke
    | LookUni(req: Request, path: string)     // before GetUniHandler
    | LookBidi(req: Request, path: string)    // before GetBidiHandler
    | Ended

  datatype CallPhase = Spawned | Running | Answered(ok: bool)

  /** What has become of a frame. Running: the handler has been called and its answer is not written yet. */
  datatype Task =
    | HandingOff(resp: Response, done: bool)
    | CallingOneWay(handler: nat, req: Request, done: bool)
    | CallingTwoWay(handler: nat, req: Request, phase: CallPhase)
    | Dropped

  /** What the goroutine of the n-th frame does to the outside. */
  datatype Event =
    | Delivered(n: nat, resp: Response)
    | Called(n: nat, handler: nat, req: Request)
    | AnswerTried(n: nat, resp: Response, ok: bool)

  /** A moment, by the numbers of table operations that have been made. */
  datatype Moment = Moment(uni: nat, bidi: nat)

  /**
   arrived is everything that has arrived on the stream, pending what the loop
   has not read of it, bodies and messages what it has read, and readAt when.
   tasks has an entry for each message, startedAt says when it was made, and
   events what the goroutines have done. removing counts the removals from the
   route that failed answers have left to do.
   */
  datatype State = State(
    arrived: seq<byte>, pending: seq<byte>, bodies: seq<Body>, messages: seq<Message>, readAt: seq<Moment>,
    uniOps: seq<TableOp>, bidiOps: seq<TableOp>,
    inRoute: bool, cancelled: bool, removing: nat,
    loop: Loop, tasks: seq<Task>, startedAt: seq<Moment>, events: seq<Event>)

  datatype Action =
    | Arrive(p: seq<byte>) | ChangeUni(op: TableOp) | ChangeBidi(op: TableOp)
    | Check | Select | Read | ReadFails | LookUp
    | Work(n: nat)                // the goroutine of message n: hand-off or call
    | WriteAnswer(n: nat, ok: bool)
    | RemoveInvoker               // left to do by a failed answer
    | Cancel | Leave              // for any other reason

  ghost predicate Enabled(s: State, a: Action) {
    match a
    case Check => s.loop == AtTop
    case Select => s.loop == AtSelect
    case Read => s.loop == Reading && ParseFrame(s.pending) != NeedMore
    case ReadFails => s.loop == Reading
    case LookUp => s.loop.LookUni? || s.loop.LookBidi?
    case Work(n) => n < |s.tasks| && CanWork(s.tasks[n])
    case WriteAnswer(n, _) => n < |s.tasks| && s.tasks[n].CallingTwoWay? && s.tasks[n].phase == Running
    case RemoveInvoker => s.removing > 0
    case _ => true
  }

  predicate CanWork(t: Task) {
    match t
    case HandingOff(_, done) => !done
    case CallingOneWay(_, _, done) => !done
    case CallingTwoWay(_, _, phase) => phase == Spawned
    case Dropped => false
  }

  /** The loop gives up: it closes the invoker and takes it out of the route. */
  function GiveUp(s: State): State {
    s.(loop := Ended, cancelled := true, inRoute := false)
  }

  function Now(s: State): Moment {
    Moment(|s.uniOps|, |s.bidiOps|)
  }

  function Took(s: State, b: Body, rest: seq<byte>, m: Message, loop: Loop): State {
    s.(pending := rest, bodies := s.bodies + [b], messages := s.messages + [m], readAt := s.readAt + [Now(s)],
       loop := loop)
  }

  /** The loop has dealt with a message and goes on to the next. */
  function Started(s: State, task: Task): State {
    s.(tasks := s.tasks + [task], startedAt := s.startedAt + [Now(s)], loop := AtTop)
  }

  /** The frame of body b has been read from the stream. */
  function TakeFrame(c: Codec, s: State, b: Body, rest: seq<byte>): State {
    match ReadInvoke(c, b)
    case Got(m) =>
      (match m
       case Resp(resp) => Started(Took(s, b, rest, m, AtTop), HandingOff(resp, false))
       case Req(req, path) => Took(s, b, rest, m, LookUni(req, path)))
    case InvalidType => GiveUp(s.(pending := rest))
    case Panic => s.(pending := rest, loop := Ended)
  }

  function ReadParsed(c: Codec, s: State, p: Parse): State {
    match p
    case Done(b, rest) => TakeFrame(c, s, b, rest)
    case _ => s.(loop := Ended)
  }

  function ReadStep(c: Codec, s: State): State {
    ReadParsed(c, s, ParseFrame(s.pending))
  }

  function LookUpStep(s: State): State
    requires s.loop.LookUni? || s.loop.LookBidi?
  {
    if s.loop.LookUni? then
      match Lookup(AfterOps(s.uniOps), s.loop.path)
      case Some(f) => Started(s, CallingOneWay(f, s.loop.req, false))
      case None => s.(loop := LookBidi(s.loop.req, s.loop.path))
    else
      match Lookup(AfterOps(s.bidiOps), s.loop.path)
      case Some(f) => Started(s, CallingTwoWay(f, s.loop.req, Spawned))
      case None => Started(s, Dropped)
  }

  function WorkStep(s: State, n: nat): State
    requires n < |s.tasks| && CanWork(s.tasks[n])
  {
    match s.tasks[n]
    case HandingOff(resp, _) => s.(tasks := s.tasks[n := HandingOff(resp, true)], events := s.events + [Delivered(n, resp)])
    case CallingOneWay(f, req, _) =>
      s.(tasks := s.tasks[n := CallingOneWay(f, req, true)], events := s.events + [Called(n, f, req)])
    case CallingTwoWay(f, req, _) =>
      s.(tasks := s.tasks[n := CallingTwoWay(f, req, Running)], events := s.events + [Called(n, f, req)])
  }

  function Apply(c: Codec, h: Handlers, s: State, a: Action): State
    requires Enabled(s, a)
  {
    match a
    case Arrive(p) => s.(arrived := s.arrived + p, pending := s.pending + p)
    case ChangeUni(op) => s.(uniOps := s.uniOps + [op])
    case ChangeBidi(op) => s.(bidiOps := s.bidiOps + [op])
    case Check => s.(loop := if s.inRoute then AtSelect else Ended)
    case Select => if s.cancelled then GiveUp(s) else s.(loop := Reading)
    case Read => ReadStep(c, s)
    case ReadFails => GiveUp(s)
    case LookUp => LookUpStep(s)
    case Work(n) => WorkStep(s, n)
    case WriteAnswer(n, ok) =>
      var t := s.tasks[n];
      var s' := s.(tasks := s.tasks[n := CallingTwoWay(t.handler, t.req, Answered(ok))],
                   events := s.events + [AnswerTried(n, h(t.handler, t.req), ok)]);
      if ok then s' else s'.(cancelled := true, removing := s.removing + 1)
    case RemoveInvoker => s.(inRoute := false, removing := s.removing - 1)
    case Cancel => s.(cancelled := true)
    case Leave => s.(inRoute := false)
  }

  ghost predicate Run(c: Codec, h: Handlers, s: State, acts: seq<Action>, t: State)
    decreases |acts|
  {
    if acts == [] then s == t else Enabled(s, acts[0]) && Run(c, h, Apply(c, h, s, acts[0]), acts[1..], t)
  }

  function Init(): State {
    State([], [], [], [], [], [], [], true, false, 0, AtTop, [], [], [])
  }

  // ---------- the stream ----------

  /** The loop has read whole frames from the beginning of the stream, each of them a message. */
  ghost predicate StreamInv(c: Codec, s: State) {
    && EncodeAll(s.bodies) <= s.arrived
    && (s.loop != Ended ==> s.arrived == EncodeAll(s.bodies) + s.pending)
    && |s.messages| == |s.bodies|
    && forall n :: 0 <= n < |s.bodies| ==> ReadInvoke(c, s.bodies[n]) == Got(s.messages[n])
  }

  lemma OneFrameFurther(bodies: seq<Body>, pending: seq<byte>)
    requires ParseFrame(pending).Done?
    ensures var p := ParseFrame(pending);
      EncodeAll(bodies) + pending == EncodeAll(bodies + [p.body]) + p.rest
  {
    var p := ParseFrame(pending);
    WholeFrame(pending);
    EncodeAllPush(bodies, p.body);
    assert EncodeAll(bodies) + (Frame(p.body) + p.rest) == EncodeAll(bodies) + Frame(p.body) + p.rest;
  }

  lemma TakeFrameStream(c: Codec, s: State, b: Body, rest: seq<byte>)
    requires StreamInv(c, s) && s.arrived == EncodeAll(s.bodies + [b]) + rest
    ensures StreamInv(c, TakeFrame(c, s, b, rest))
  {
    var r := ReadInvoke(c, b);
    if r.Got? {
      TookStream(c, s, b, rest, r.m, TakeFrame(c, s, b, rest).loop);
    }
  }

  lemma TookStream(c: Codec, s: State, b: Body, rest: seq<byte>, m: Message, loop: Loop)
    requires StreamInv(c, s) && s.arrived == EncodeAll(s.bodies + [b]) + rest && ReadInvoke(c, b) == Got(m)
    ensures StreamInv(c, Took(s, b, rest, m, loop))
  {
    var whole := EncodeAll(s.bodies + [b]);
    assert whole <= whole + rest;
  }

  /** The frames read are the first frames of the stream, and the messages read are the first messages. */
  lemma ReadsInOrder(c: Codec, s: State)
    requires StreamInv(c, s)
    ensures s.messages <= ReadMessages(c, DecodeAll(s.arrived))
  {
    var rest := s.arrived[|EncodeAll(s.bodies)|..];
    assert s.arrived == EncodeAll(s.bodies) + rest;
    DecodeAfter(s.bodies, rest);
    MessagesAfter(c, s.bodies, s.messages, DecodeAll(rest));
  }

  lemma DecodeOne(b: Body, rest: seq<byte>)
    ensures DecodeAll(Frame(b) + rest) == [b] + DecodeAll(rest)
  {
    ParseWholeFrame(b, rest);
  }

  lemma DecodeFirst(bodies: seq<Body>, rest: seq<byte>)
    requires bodies != []
    ensures DecodeAll(EncodeAll(bodies) + rest) == [bodies[0]] + DecodeAll(EncodeAll(bodies[1..]) + rest)
  {
    var tail := EncodeAll(bodies[1..]) + rest;
    DecodeOne(bodies[0], tail);
    assert EncodeAll(bodies) + rest == Frame(bodies[0]) + tail;
  }

  lemma HeadAndTail(bodies: seq<Body>, more: seq<Body>)
    requires bodies != []
    ensures [bodies[0]] + (bodies[1..] + more) == bodies + more
  {
  }

  lemma {:induction false} DecodeAfter(bodies: seq<Body>, rest: seq<byte>)
    ensures DecodeAll(EncodeAll(bodies) + rest) == bodies + DecodeAll(rest)
    decreases |bodies|
  {
    if bodies == [] {
      assert EncodeAll(bodies) + rest == rest;
    } else {
      DecodeFirst(bodies, rest);
      DecodeAfter(bodies[1..], rest);
      HeadAndTail(bodies, DecodeAll(rest));
    }
  }

  lemma {:induction false} MessagesAfter(c: Codec, bodies: seq<Body>, ms: seq<Message>, more: seq<Body>)
    requires |ms| == |bodies| && forall n :: 0 <= n < |bodies| ==> ReadInvoke(c, bodies[n]) == Got(ms[n])
    ensures ms <= ReadMessages(c, bodies + more)
    decreases |bodies|
  {
    if bodies != [] {
      assert (bodies + more)[0] == bodies[0] && (bodies + more)[1..] == bodies[1..] + more;
      MessagesAfter(c, bodies[1..], ms[1..], more);
      assert ReadMessages(c, bodies + more) == [ms[0]] + ReadMessages(c, bodies[1..] + more);
    }
  }

  // ---------- the goroutines ----------

  /** The events about message n, in order. */
  function About(events: seq<Event>, n: nat): seq<Event> {
    if events == [] then []
    else
      var last := |events| - 1;
      About(events[..last], n) + if events[last].n == n then [events[last]] else []
  }

  lemma AboutPush(events: seq<Event>, e: Event, n: nat)
    ensures About(events + [e], n) == About(events, n) + if e.n == n then [e] else []
  {
    assert (events + [e])[..|events|] == events;
  }

  /** What the goroutine of message n has done so far. */
  function DoneBy(h: Handlers, n: nat, t: Task): seq<Event> {
    match t
    case HandingOff(resp, done) => if done then [Delivered(n, resp)] else []
    case CallingOneWay(f, req, done) => if done then [Called(n, f, req)] else []
    case CallingTwoWay(f, req, phase) =>
      (match phase
       case Spawned => []
       case Running => [Called(n, f, req)]
       case Answered(ok) => [Called(n, f, req), AnswerTried(n, h(f, req), ok)])
    case Dropped => []
  }

  /** Between these two moments there is one at which a lookup of the path in the table gives f. */
  ghost predicate FoundIn(ops: seq<TableOp>, path: string, f: Option<nat>, from: nat, to: nat) {
    exists p: nat :: LookedUp(ops, path, f, from, to, p)
  }

  ghost predicate LookedUp(ops: seq<TableOp>, path: string, f: Option<nat>, from: nat, to: nat, p: nat) {
    from <= p <= to && p <= |ops| && Lookup(AfterOps(ops[..p]), path) == f
  }

  /** The goroutine fits its message and what the tables had to say between the read and its start. */
  ghost predicate Fits(s: State, m: Message, t: Task, from: Moment, to: Moment) {
    match t
    case HandingOff(resp, _) => m == Resp(resp)
    case CallingOneWay(f, req, _) => m.Req? && m.req == req && FoundIn(s.uniOps, m.path, Some(f), from.uni, to.uni)
    case CallingTwoWay(f, req, _) =>
      && m.Req? && m.req == req
      && FoundIn(s.uniOps, m.path, None, from.uni, to.uni) && FoundIn(s.bidiOps, m.path, Some(f), from.bidi, to.bidi)
    case Dropped =>
      && m.Req?
      && FoundIn(s.uniOps, m.path, None, from.uni, to.uni) && FoundIn(s.bidiOps, m.path, None, from.bidi, to.bidi)
  }

  predicate NotAfter(a: Moment, b: Moment) {
    a.uni <= b.uni && a.bidi <= b.bidi
  }

  /** The message whose handler is being looked up has no goroutine yet. */
  ghost predicate LoopInv(s: State) {
    && |s.readAt| == |s.messages| && |s.startedAt| == |s.tasks|
    && (forall n :: 0 <= n < |s.readAt| ==> NotAfter(s.readAt[n], Now(s)))
    && match s.loop
       case LookUni(req, path) => |s.messages| == |s.tasks| + 1 && s.messages[|s.tasks|] == Req(req, path)
       case LookBidi(req, path) =>
         && |s.messages| == |s.tasks| + 1 && s.messages[|s.tasks|] == Req(req, path)
         && FoundIn(s.uniOps, path, None, s.readAt[|s.tasks|].uni, |s.uniOps|)
       case _ => |s.messages| == |s.tasks|
  }

  ghost predicate TaskOk(h: Handlers, s: State, n: nat)
    requires n < |s.tasks|
  {
    && n < |s.messages| && n < |s.readAt| && n < |s.startedAt|
    && Fits(s, s.messages[n], s.tasks[n], s.readAt[n], s.startedAt[n])
    && About(s.events, n) == DoneBy(h, n, s.tasks[n])
  }

  ghost predicate TasksInv(h: Handlers, s: State) {
    && (forall n: nat {:trigger TaskOk(h, s, n)} :: n < |s.tasks| ==> TaskOk(h, s, n))
    && (forall i :: 0 <= i < |s.events| ==> s.events[i].n < |s.tasks|)
  }

  /** A failed answer has cancelled the context, and the removal is done or still to come. */
  ghost predicate FailureInv(s: State) {
    (exists i :: 0 <= i < |s.events| && s.events[i].AnswerTried? && !s.events[i].ok) ==>
      s.cancelled && (s.removing > 0 || !s.inRoute)
  }

  ghost predicate Inv(c: Codec, h: Handlers, s: State) {
    StreamInv(c, s) && LoopInv(s) && TasksInv(h, s) && FailureInv(s)
  }

  lemma FoundStays(ops: seq<TableOp>, op: TableOp, path: string, f: Option<nat>, from: nat, to: nat)
    requires FoundIn(ops, path, f, from, to)
    ensures FoundIn(ops + [op], path, f, from, to) && FoundIn(ops + [op], path, f, from, to + 1)
  {
    var p: nat :| LookedUp(ops, path, f, from, to, p);
    assert (ops + [op])[..p] == ops[..p];
    assert LookedUp(ops + [op], path, f, from, to, p) && LookedUp(ops + [op], path, f, from, to + 1, p);
  }

  lemma FoundNow(ops: seq<TableOp>, path: string, from: nat)
    requires from <= |ops|
    ensures FoundIn(ops, path, Lookup(AfterOps(ops), path), from, |ops|)
  {
    assert ops[..|ops|] == ops;
    assert LookedUp(ops, path, Lookup(AfterOps(ops), path), from, |ops|, |ops|);
  }

  lemma NoEventsYet(events: seq<Event>, n: nat)
    requires forall i :: 0 <= i < |events| ==> events[i].n < n
    ensures About(events, n) == []
  {
  }

  lemma FitsStays(s: State, t: State, m: Message, task: Task, from: Moment, to: Moment)
    requires Fits(s, m, task, from, to)
    requires t.uniOps == s.uniOps || (|t.uniOps| > 0 && t.uniOps == s.uniOps + [t.uniOps[|t.uniOps| - 1]])
    requires t.bidiOps == s.bidiOps || (|t.bidiOps| > 0 && t.bidiOps == s.bidiOps + [t.bidiOps[|t.bidiOps| - 1]])
    ensures Fits(t, m, task, from, to)
  {
    if m.Req? {
      forall f | FoundIn(s.uniOps, m.path, f, from.uni, to.uni) ensures FoundIn(t.uniOps, m.path, f, from.uni, to.uni) {
        if t.uniOps != s.uniOps {
          FoundStays(s.uniOps, t.uniOps[|t.uniOps| - 1], m.path, f, from.uni, to.uni);
        }
      }
      forall f | FoundIn(s.bidiOps, m.path, f, from.bidi, to.bidi)
        ensures FoundIn(t.bidiOps, m.path, f, from.bidi, to.bidi)
      {
        if t.bidiOps != s.bidiOps {
          FoundStays(s.bidiOps, t.bidiOps[|t.bidiOps| - 1], m.path, f, from.bidi, to.bidi);
        }
      }
    }
  }

  /** A step that changes neither tasks nor events, and the tables at most by growing. */
  lemma TasksStay(h: Handlers, s: State, t: State)
    requires TasksInv(h, s) && t.tasks == s.tasks && t.events == s.events && s.messages <= t.messages
    requires s.readAt <= t.readAt && t.startedAt == s.startedAt
    requires t.uniOps == s.uniOps || (|t.uniOps| > 0 && t.uniOps == s.uniOps + [t.uniOps[|t.uniOps| - 1]])
    requires t.bidiOps == s.bidiOps || (|t.bidiOps| > 0 && t.bidiOps == s.bidiOps + [t.bidiOps[|t.bidiOps| - 1]])
    ensures TasksInv(h, t)
  {
    forall n: nat | n < |t.tasks| ensures TaskOk(h, t, n) {
      assert TaskOk(h, s, n);
      FitsStays(s, t, s.messages[n], s.tasks[n], s.readAt[n], s.startedAt[n]);
    }
  }

  /** A new goroutine for the message that has none. */
  lemma TaskStarts(h: Handlers, s: State, t: State, task: Task)
    requires TasksInv(h, s) && t.tasks == s.tasks + [task] && t.events == s.events
    requires s.messages <= t.messages && t.uniOps == s.uniOps && t.bidiOps == s.bidiOps
    requires s.readAt <= t.readAt && t.startedAt == s.startedAt + [Now(s)] && |s.startedAt| == |s.tasks|
    requires |t.messages| == |t.tasks| == |t.readAt| && DoneBy(h, |s.tasks|, task) == []
    requires Fits(t, t.messages[|s.tasks|], task, t.readAt[|s.tasks|], Now(s))
    ensures TasksInv(h, t)
  {
    forall n: nat | n < |t.tasks| ensures TaskOk(h, t, n) {
      if n < |s.tasks| {
        assert TaskOk(h, s, n);
      } else {
        NoEventsYet(s.events, n);
      }
    }
  }

  /** A goroutine takes a step. */
  lemma TaskMoves(h: Handlers, s: State, t: State, n: nat, task: Task, e: Event)
    requires TasksInv(h, s) && n < |s.tasks| <= |s.messages| && t.tasks == s.tasks[n := task]
    requires t.events == s.events + [e] && e.n == n
    requires t.messages == s.messages && t.uniOps == s.uniOps && t.bidiOps == s.bidiOps
    requires t.readAt == s.readAt && t.startedAt == s.startedAt
    requires |s.readAt| == |s.messages| && |s.startedAt| == |s.tasks|
    requires Fits(t, s.messages[n], task, s.readAt[n], s.startedAt[n]) && DoneBy(h, n, task) == DoneBy(h, n, s.tasks[n]) + [e]
    ensures TasksInv(h, t)
  {
    forall k: nat | k < |t.tasks| ensures TaskOk(h, t, k) {
      assert TaskOk(h, s, k);
      AboutPush(s.events, e, k);
    }
  }

  lemma LookUniKeeps(c: Codec, h: Handlers, s: State)
    requires Inv(c, h, s) && s.loop.LookUni?
    ensures Inv(c, h, LookUpStep(s))
  {
    var t := LookUpStep(s);
    FoundNow(s.uniOps, s.loop.path, s.readAt[|s.tasks|].uni);
    if |t.tasks| > |s.tasks| {
      TaskStarts(h, s, t, t.tasks[|s.tasks|]);
    } else {
      TasksStay(h, s, t);
    }
  }

  lemma BidiTaskFits(s: State)
    requires LoopInv(s) && s.loop.LookBidi?
    ensures var t, n := LookUpStep(s), |s.tasks|;
      |t.tasks| == n + 1 && Fits(t, s.messages[n], t.tasks[n], s.readAt[n], Now(s))
  {
    FoundNow(s.bidiOps, s.loop.path, s.readAt[|s.tasks|].bidi);
  }

  lemma LookBidiStarts(h: Handlers, s: State)
    requires LoopInv(s) && TasksInv(h, s) && s.loop.LookBidi?
    ensures LoopInv(LookUpStep(s)) && TasksInv(h, LookUpStep(s))
  {
    BidiTaskFits(s);
    var t := LookUpStep(s);
    TaskStarts(h, s, t, t.tasks[|s.tasks|]);
  }

  lemma LookBidiKeeps(c: Codec, h: Handlers, s: State)
    requires Inv(c, h, s) && s.loop.LookBidi?
    ensures Inv(c, h, LookUpStep(s))
  {
    LookBidiStarts(h, s);
  }

  lemma ReadStarts(c: Codec, h: Handlers, s: State, b: Body, rest: seq<byte>)
    requires LoopInv(s) && TasksInv(h, s) && s.loop == Reading
    ensures LoopInv(TakeFrame(c, s, b, rest)) && TasksInv(h, TakeFrame(c, s, b, rest))
  {
    var t := TakeFrame(c, s, b, rest);
    if |t.tasks| > |s.tasks| {
      TaskStarts(h, s, t, t.tasks[|s.tasks|]);
    } else {
      TasksStay(h, s, t);
    }
  }

  lemma ParsedKeeps(c: Codec, h: Handlers, s: State, p: Parse)
    requires Inv(c, h, s) && s.loop == Reading
    requires p.Done? ==> s.arrived == EncodeAll(s.bodies + [p.body]) + p.rest
    ensures Inv(c, h, ReadParsed(c, s, p))
  {
    if p.Done? {
      TakeFrameStream(c, s, p.body, p.rest);
      ReadStarts(c, h, s, p.body, p.rest);
    } else {
      TasksStay(h, s, ReadParsed(c, s, p));
    }
  }

  lemma ReadKeeps(c: Codec, h: Handlers, s: State)
    requires Inv(c, h, s) && s.loop == Reading
    ensures Inv(c, h, ReadStep(c, s))
  {
    var p := ParseFrame(s.pending);
    if p.Done? {
      OneFrameFurther(s.bodies, s.pending);
    }
    ParsedKeeps(c, h, s, p);
  }

  lemma WorkMoves(h: Handlers, s: State, n: nat)
    requires LoopInv(s) && TasksInv(h, s) && Enabled(s, Work(n))
    ensures TasksInv(h, WorkStep(s, n))
  {
    assert TaskOk(h, s, n);
    var t := WorkStep(s, n);
    TaskMoves(h, s, t, n, t.tasks[n], t.events[|s.events|]);
  }

  lemma FailureStays(s: State, t: State, e: Event)
    requires FailureInv(s) && t.events == s.events + [e] && !(e.AnswerTried? && !e.ok)
    requires t.cancelled == s.cancelled && t.removing == s.removing && t.inRoute == s.inRoute
    ensures FailureInv(t)
  {
    if i :| 0 <= i < |t.events| && t.events[i].AnswerTried? && !t.events[i].ok {
      assert s.events[i] == t.events[i];
    }
  }

  lemma WorkKeeps(c: Codec, h: Handlers, s: State, n: nat)
    requires Inv(c, h, s) && Enabled(s, Work(n))
    ensures Inv(c, h, WorkStep(s, n))
  {
    WorkMoves(h, s, n);
    FailureStays(s, WorkStep(s, n), WorkStep(s, n).events[|s.events|]);
  }

  lemma AnswerMoves(c: Codec, h: Handlers, s: State, n: nat, ok: bool)
    requires LoopInv(s) && TasksInv(h, s) && Enabled(s, WriteAnswer(n, ok))
    ensures TasksInv(h, Apply(c, h, s, WriteAnswer(n, ok)))
  {
    assert TaskOk(h, s, n);
    var t := Apply(c, h, s, WriteAnswer(n, ok));
    TaskMoves(h, s, t, n, t.tasks[n], t.events[|s.events|]);
  }

  lemma AnswerKeeps(c: Codec, h: Handlers, s: State, n: nat, ok: bool)
    requires Inv(c, h, s) && Enabled(s, WriteAnswer(n, ok))
    ensures Inv(c, h, Apply(c, h, s, WriteAnswer(n, ok)))
  {
    AnswerMoves(c, h, s, n, ok);
    if ok {
      var t := Apply(c, h, s, WriteAnswer(n, ok));
      FailureStays(s, t, t.events[|s.events|]);
    }
  }

  lemma ArriveKeeps(c: Codec, h: Handlers, s: State, p: seq<byte>)
    requires Inv(c, h, s)
    ensures Inv(c, h, Apply(c, h, s, Arrive(p)))
  {
    assert s.loop != Ended ==> s.arrived + p == EncodeAll(s.bodies) + (s.pending + p);
    TasksStay(h, s, Apply(c, h, s, Arrive(p)));
  }

  lemma ChangeUniKeeps(c: Codec, h: Handlers, s: State, op: TableOp)
    requires Inv(c, h, s)
    ensures Inv(c, h, s.(uniOps := s.uniOps + [op]))
  {
    TasksStay(h, s, s.(uniOps := s.uniOps + [op]));
    if s.loop.LookBidi? {
      FoundStays(s.uniOps, op, s.loop.path, None, s.readAt[|s.tasks|].uni, |s.uniOps|);
    }
  }

  lemma ChangeBidiKeeps(c: Codec, h: Handlers, s: State, op: TableOp)
    requires Inv(c, h, s)
    ensures Inv(c, h, s.(bidiOps := s.bidiOps + [op]))
  {
    TasksStay(h, s, s.(bidiOps := s.bidiOps + [op]));
  }

  lemma ActionKeeps(c: Codec, h: Handlers, s: State, a: Action)
    requires Inv(c, h, s) && Enabled(s, a)
    ensures Inv(c, h, Apply(c, h, s, a))
  {
    match a
    case Arrive(p) => ArriveKeeps(c, h, s, p);
    case ChangeUni(op) => ChangeUniKeeps(c, h, s, op);
    case ChangeBidi(op) => ChangeBidiKeeps(c, h, s, op);
    case Read => ReadKeeps(c, h, s);
    case LookUp =>
      if s.loop.LookUni? {
        LookUniKeeps(c, h, s);
      } else {
        LookBidiKeeps(c, h, s);
      }
    case Work(n) => WorkKeeps(c, h, s, n);
    case WriteAnswer(n, ok) => AnswerKeeps(c, h, s, n, ok);
    case _ => TasksStay(h, s, Apply(c, h, s, a));
  }

  lemma {:induction false} RunKeepsInv(c: Codec, h: Handlers, s: State, acts: seq<Action>, t: State)
    requires Inv(c, h, s) && Run(c, h, s, acts, t)
    ensures Inv(c, h, t)
    decreases |acts|
  {
    if acts != [] {
      ActionKeeps(c, h, s, acts[0]);
      RunKeepsInv(c, h, Apply(c, h, s, acts[0]), acts[1..], t);
    }
  }

  // ---------- main results ----------

  /**
   What has to happen to message n, no more and no less, given what the tables
   said between its read and the moment the loop went on.
   */
  ghost predicate Handled(h: Handlers, s: State, n: nat, es: seq<Event>) {
    && n < |s.messages| && n < |s.readAt| && n < |s.startedAt|
    && match s.messages[n]
       case Resp(resp) => es == [Delivered(n, resp)]
       case Req(req, path) =>
         var from, to := s.readAt[n], s.startedAt[n];
         || (exists f :: FoundIn(s.uniOps, path, Some(f), from.uni, to.uni) && es == [Called(n, f, req)])
         || (FoundIn(s.uniOps, path, None, from.uni, to.uni) && exists f, ok ::
               && FoundIn(s.bidiOps, path, Some(f), from.bidi, to.bidi)
               && es == [Called(n, f, req), AnswerTried(n, h(f, req), ok)])
         || (FoundIn(s.uniOps, path, None, from.uni, to.uni) && FoundIn(s.bidiOps, path, None, from.bidi, to.bidi)
             && es == [])
  }

  /** What has happened to message n so far is the beginning of that. */
  ghost predicate OnItsWay(h: Handlers, s: State, n: nat) {
    exists es :: Handled(h, s, n, es) && About(s.events, n) <= es
  }

  /** No goroutine has anything left to do. */
  ghost predicate AtRest(s: State) {
    forall a: Action :: a.Work? || a.WriteAnswer? ==> !Enabled(s, a)
  }

  /** The goroutine of message n is on its way to one of the proper endings, and there once it can do no more. */
  lemma TaskIsHandled(h: Handlers, s: State, n: nat) returns (es: seq<Event>)
    requires n < |s.tasks| && TaskOk(h, s, n)
    ensures Handled(h, s, n, es) && About(s.events, n) <= es
    ensures !Enabled(s, Work(n)) && !Enabled(s, WriteAnswer(n, true)) ==> About(s.events, n) == es
  {
    match s.tasks[n]
    case HandingOff(resp, _) => es := [Delivered(n, resp)];
    case CallingOneWay(f, req, _) => es := [Called(n, f, req)];
    case CallingTwoWay(f, req, phase) =>
      var ok := if phase.Answered? then phase.ok else true;
      es := [Called(n, f, req), AnswerTried(n, h(f, req), ok)];
    case Dropped => es := [];
  }

  lemma AllHandled(h: Handlers, t: State)
    requires LoopInv(t) && TasksInv(h, t)
    ensures |t.messages| == |t.tasks| + if t.loop.LookUni? || t.loop.LookBidi? then 1 else 0
    ensures forall n: nat :: n < |t.tasks| ==> OnItsWay(h, t, n)
    ensures AtRest(t) ==> forall n: nat :: n < |t.tasks| ==> Handled(h, t, n, About(t.events, n))
  {
    forall n: nat | n < |t.tasks| ensures OnItsWay(h, t, n) {
      assert TaskOk(h, t, n);
      var es := TaskIsHandled(h, t, n);
    }
    if AtRest(t) {
      forall n: nat | n < |t.tasks| ensures Handled(h, t, n, About(t.events, n)) {
        assert TaskOk(h, t, n);
        var es := TaskIsHandled(h, t, n);
      }
    }
  }

  /**
   Conservation. In every reachable state the messages read are the first ones
   of the stream; each of them has one goroutine (or none if it has no handler),
   which does what the message and the tables ask for, each thing once and in
   order: a response is handed off, a one-way handler is called, a two-way
   handler is called and its answer tried exactly once. Nothing else happens, and
   nothing is left undone when the goroutines are at rest, whatever else ended
   the invoker meanwhile.
   */
  lemma Conservation(c: Codec, h: Handlers, acts: seq<Action>, t: State)
    requires Run(c, h, Init(), acts, t)
    ensures t.messages <= ReadMessages(c, DecodeAll(t.arrived))
    ensures |t.messages| == |t.tasks| + if t.loop.LookUni? || t.loop.LookBidi? then 1 else 0
    ensures forall n: nat :: n < |t.tasks| ==> OnItsWay(h, t, n)
    ensures AtRest(t) ==> forall n: nat :: n < |t.tasks| ==> Handled(h, t, n, About(t.events, n))
    ensures forall i :: 0 <= i < |t.events| ==> t.events[i].n < |t.tasks|
  {
    RunKeepsInv(c, h, Init(), acts, t);
    ReadsInOrder(c, t);
    AllHandled(h, t);
  }

  // ---------- handlers in force ----------

  /** No operation between these two moments is about the path. */
  ghost predicate NoneAbout(ops: seq<TableOp>, path: string, from: nat, to: nat) {
    forall i :: from <= i < to && i < |ops| ==> Text.GetPath(ops[i].path) != Text.GetPath(path)
  }

  lemma OtherPathStays(t: Table, op: TableOp, path: string)
    requires Text.GetPath(op.path) != Text.GetPath(path)
    ensures Lookup(ApplyTable(t, op), path) == Lookup(t, path)
  {
  }

  lemma LookupSkips(ops: seq<TableOp>, path: string, p: nat)
    requires 0 < p <= |ops| && Text.GetPath(ops[p - 1].path) != Text.GetPath(path)
    ensures Lookup(AfterOps(ops[..p]), path) == Lookup(AfterOps(ops[..p - 1]), path)
  {
    AfterOneMore(ops[..p - 1], ops[p - 1]);
    OtherPathStays(AfterOps(ops[..p - 1]), ops[p - 1], path);
    assert ops[..p] == ops[..p - 1] + [ops[p - 1]];
  }

  lemma {:induction false} Steady<T>(vals: seq<T>, from: nat, p: nat)
    requires from <= p < |vals| && forall q :: from < q <= p ==> vals[q] == vals[q - 1]
    ensures vals[p] == vals[from]
    decreases p
  {
    if from < p {
      Steady(vals, from, p - 1);
    }
  }

  /** What a lookup of the path gives after each number of operations. */
  function FoundAfter(ops: seq<TableOp>, path: string): (found: seq<Option<nat>>)
    ensures |found| == |ops| + 1
    ensures forall q :: 0 <= q <= |ops| ==> found[q] == Lookup(AfterOps(ops[..q]), path)
  {
    seq(|ops| + 1, q requires 0 <= q <= |ops| => Lookup(AfterOps(ops[..q]), path))
  }

  lemma FoundSteady(ops: seq<TableOp>, path: string, from: nat, to: nat, q: nat)
    requires NoneAbout(ops, path, from, to) && from < q <= to && q <= |ops|
    ensures FoundAfter(ops, path)[q] == FoundAfter(ops, path)[q - 1]
  {
    LookupSkips(ops, path, q);
  }

  /** Then all lookups in between say the same. */
  lemma LookupsAgree(ops: seq<TableOp>, path: string, from: nat, to: nat, p: nat)
    requires NoneAbout(ops, path, from, to) && from <= p <= to && p <= |ops|
    ensures Lookup(AfterOps(ops[..p]), path) == Lookup(AfterOps(ops[..from]), path)
  {
    var found := FoundAfter(ops, path);
    forall q | from < q <= p ensures found[q] == found[q - 1] {
      FoundSteady(ops, path, from, to, q);
    }
    Steady(found, from, p);
  }

  lemma FoundIsInForce(ops: seq<TableOp>, path: string, f: Option<nat>, from: nat, to: nat)
    requires NoneAbout(ops, path, from, to) && FoundIn(ops, path, f, from, to)
    ensures from <= |ops| && f == Lookup(AfterOps(ops[..from]), path)
  {
    var p: nat :| LookedUp(ops, path, f, from, to, p);
    LookupsAgree(ops, path, from, to, p);
  }

  /** What a request calls for that is routed to this target. */
  ghost predicate CalledAs(h: Handlers, n: nat, req: Request, target: Target, es: seq<Event>) {
    match target
    case OneWay(f) => es == [Called(n, f, req)]
    case TwoWay(f) => exists ok :: es == [Called(n, f, req), AnswerTried(n, h(f, req), ok)]
    case NoHandler => es == []
  }

  /** With the same handlers in force from the read to the start, a request is dealt with as they say. */
  lemma HandledAsPicked(h: Handlers, s: State, n: nat, es: seq<Event>, uni: Table, bidi: Table)
    requires Handled(h, s, n, es) && s.messages[n].Req?
    requires s.readAt[n].uni <= |s.uniOps| && s.readAt[n].bidi <= |s.bidiOps|
    requires uni == AfterOps(s.uniOps[..s.readAt[n].uni]) && bidi == AfterOps(s.bidiOps[..s.readAt[n].bidi])
    requires NoneAbout(s.uniOps, s.messages[n].path, s.readAt[n].uni, s.startedAt[n].uni)
    requires NoneAbout(s.bidiOps, s.messages[n].path, s.readAt[n].bidi, s.startedAt[n].bidi)
    ensures CalledAs(h, n, s.messages[n].req, Pick(uni, bidi, s.messages[n].path), es)
  {
    var path, from, to := s.messages[n].path, s.readAt[n], s.startedAt[n];
    forall f | FoundIn(s.uniOps, path, f, from.uni, to.uni) ensures f == Lookup(uni, path) {
      FoundIsInForce(s.uniOps, path, f, from.uni, to.uni);
    }
    forall f | FoundIn(s.bidiOps, path, f, from.bidi, to.bidi) ensures f == Lookup(bidi, path) {
      FoundIsInForce(s.bidiOps, path, f, from.bidi, to.bidi);
    }
  }

  /** Histories only grow. */
  ghost predicate Grows(s: State, t: State) {
    s.uniOps <= t.uniOps && s.bidiOps <= t.bidiOps && s.messages <= t.messages && s.readAt <= t.readAt
  }

  lemma StepGrows(c: Codec, h: Handlers, s: State, a: Action)
    requires Enabled(s, a)
    ensures Grows(s, Apply(c, h, s, a))
  {
    match a
    case Read => ParsedGrows(c, s, ParseFrame(s.pending));
    case _ =>
  }

  lemma ParsedGrows(c: Codec, s: State, p: Parse)
    ensures Grows(s, ReadParsed(c, s, p))
  {
  }

  lemma GrowsOn(s: State, s1: State, t: State)
    requires Grows(s, s1) && Grows(s1, t)
    ensures Grows(s, t)
  {
  }

  lemma {:induction false} HistoryGrows(c: Codec, h: Handlers, s: State, acts: seq<Action>, t: State)
    requires Run(c, h, s, acts, t)
    ensures Grows(s, t)
    decreases |acts|
  {
    if acts != [] {
      var s1 := Apply(c, h, s, acts[0]);
      StepGrows(c, h, s, acts[0]);
      HistoryGrows(c, h, s1, acts[1..], t);
      GrowsOn(s, s1, t);
    }
  }

  /** The loop reads this request in state s, which takes it to state s1. */
  ghost predicate ReadsRequest(c: Codec, s: State, req: Request, path: string, s1: State) {
    && s.loop == Reading && ParseFrame(s.pending).Done? && s1 == ReadStep(c, s)
    && s1.loop == LookUni(req, path) && s1.messages == s.messages + [Req(req, path)] && s1.readAt == s.readAt + [Now(s)]
  }

  /** That is what a step into the lookup is. */
  lemma ReadsRequestExactly(c: Codec, s: State, req: Request, path: string)
    requires Enabled(s, Read)
    ensures ReadsRequest(c, s, req, path, ReadStep(c, s)) <==> ReadStep(c, s).loop == LookUni(req, path)
  {
    ParsedRequest(c, s, req, path, ParseFrame(s.pending));
  }

  lemma ParsedRequest(c: Codec, s: State, req: Request, path: string, p: Parse)
    ensures var s1 := ReadParsed(c, s, p);
      s1.loop == LookUni(req, path) ==>
        p.Done? && s1.messages == s.messages + [Req(req, path)] && s1.readAt == s.readAt + [Now(s)]
  {
  }

  /** After the read of a request the tables of that moment are those at its place in the history. */
  lemma ReadMoment(s: State, s1: State, t: State, req: Request, path: string)
    requires s1.messages == s.messages + [Req(req, path)] && s1.readAt == s.readAt + [Now(s)] && Grows(s1, t)
    requires Grows(s, s1) && |s.readAt| == |s.messages|
    ensures |s.messages| < |t.messages| && |s.messages| < |t.readAt|
    ensures t.messages[|s.messages|] == Req(req, path) && t.readAt[|s.messages|] == Now(s)
    ensures |s.uniOps| <= |t.uniOps| && t.uniOps[..|s.uniOps|] == s.uniOps
    ensures |s.bidiOps| <= |t.bidiOps| && t.bidiOps[..|s.bidiOps|] == s.bidiOps
  {
    GrowsOn(s, s1, t);
    assert s1.messages[|s.messages|] == Req(req, path) && s1.readAt[|s.messages|] == Now(s);
  }

  /**
   A request is read while certain handlers are registered, and until the loop has
   started its goroutine nobody changes those of its path. Then, once the
   goroutines are at rest, it has been dealt with by the handler that was
   registered at the read, one-way handlers first, and it has been dropped only
   if there was none.
   */
  lemma CalledAsPicked(c: Codec, h: Handlers, before: seq<Action>, s: State, req: Request, path: string, s1: State,
                       after: seq<Action>, t: State, n: nat)
    requires Run(c, h, Init(), before, s) && ReadsRequest(c, s, req, path, s1) && n == |s.messages|
    requires Run(c, h, s1, after, t) && AtRest(t) && n < |t.tasks| == |t.startedAt|
    requires NoneAbout(t.uniOps, path, |s.uniOps|, t.startedAt[n].uni)
    requires NoneAbout(t.bidiOps, path, |s.bidiOps|, t.startedAt[n].bidi)
    ensures CalledAs(h, n, req, Pick(AfterOps(s.uniOps), AfterOps(s.bidiOps), path), About(t.events, n))
  {
    RunKeepsInv(c, h, Init(), before, s);
    ReadKeeps(c, h, s);
    RunKeepsInv(c, h, s1, after, t);
    ParsedGrows(c, s, ParseFrame(s.pending));
    HistoryGrows(c, h, s1, after, t);
    ReadMoment(s, s1, t, req, path);
    PickedAtRest(c, h, t, n, AfterOps(s.uniOps), AfterOps(s.bidiOps));
  }

  lemma PickedAtRest(c: Codec, h: Handlers, t: State, n: nat, uni: Table, bidi: Table)
    requires Inv(c, h, t) && AtRest(t) && n < |t.tasks| && t.messages[n].Req?
    requires t.readAt[n].uni <= |t.uniOps| && t.readAt[n].bidi <= |t.bidiOps|
    requires uni == AfterOps(t.uniOps[..t.readAt[n].uni]) && bidi == AfterOps(t.bidiOps[..t.readAt[n].bidi])
    requires NoneAbout(t.uniOps, t.messages[n].path, t.readAt[n].uni, t.startedAt[n].uni)
    requires NoneAbout(t.bidiOps, t.messages[n].path, t.readAt[n].bidi, t.startedAt[n].bidi)
    ensures CalledAs(h, n, t.messages[n].req, Pick(uni, bidi, t.messages[n].path), About(t.events, n))
  {
    AllHandled(h, t);
    HandledAsPicked(h, t, n, About(t.events, n), uni, bidi);
  }

  // ---------- the stream and the end of the invoker ----------

  /** If the peer writes messages, what the loop reads is a prefix of them. */
  lemma ReadsWhatWasWritten(c: Codec, h: Handlers, acts: seq<Action>, t: State, ms: seq<Message>)
    requires RoundTrips(c) && Run(c, h, Init(), acts, t) && t.arrived <= EncodeAll(EncodeMessages(c, ms))
    ensures t.messages <= ms
  {
    RunKeepsInv(c, h, Init(), acts, t);
    ReadsInOrder(c, t);
    MessagesArePrefix(c, ms, t.arrived);
  }

  /** A failed answer cancels the context at once, and the invoker is out of the route when the removals are done. */
  lemma FailedAnswerEnds(c: Codec, h: Handlers, acts: seq<Action>, t: State, i: nat)
    requires Run(c, h, Init(), acts, t) && i < |t.events| && t.events[i].AnswerTried? && !t.events[i].ok
    ensures t.cancelled && (t.removing == 0 ==> !t.inRoute)
  {
    RunKeepsInv(c, h, Init(), acts, t);
  }

  /** How many frames the loop may still read once the context is cancelled. */
  function LastReads(s: State): nat {
    if s.loop.Reading? then 1 else 0
  }

  /** After that the loop reads the frame it is already waiting for, at most, while the goroutines run on. */
  lemma {:induction false} FewReadsAfterCancel(c: Codec, h: Handlers, s: State, acts: seq<Action>, t: State)
    requires Run(c, h, s, acts, t) && s.cancelled
    ensures t.cancelled && |t.messages| + LastReads(t) <= |s.messages| + LastReads(s)
    decreases |acts|
  {
    if acts != [] {
      FewReadsAfterCancel(c, h, Apply(c, h, s, acts[0]), acts[1..], t);
    }
  }
}
