/**
 How the dispatch loop of DispatchRuns ends and what its end does to the invoker,
 what the outside contributes to a run, and that a message, once it has
 arrived, can be taken all the way to its handler.
 */
module DispatchEnds {
  import opened Prelude
  import opened Framing
  import opened Dispatch
  import opened DispatchRuns

  // ---------- the end of the loop ----------

  /** The loop has ended and the invoker is closed and out of the route. */
  ghost predicate ClosedAndOut(s: State) {
    s.loop == Ended && s.cancelled && !s.inRoute
  }

  lemma StepKeepsEnds(c: Codec, h: Handlers, s: State, a: Action)
    requires Enabled(s, a)
    ensures var t := Apply(c, h, s, a);
      && (s.cancelled ==> t.cancelled)
      && (!s.inRoute ==> !t.inRoute)
      && (s.loop == Ended ==> t.loop == Ended && t.messages == s.messages)
  {
    match a
    case Read => ParsedKeepsEnds(c, s, ParseFrame(s.pending));
    case _ =>
  }

  lemma ParsedKeepsEnds(c: Codec, s: State, p: Parse)
    ensures var t := ReadParsed(c, s, p); (s.cancelled ==> t.cancelled) && (!s.inRoute ==> !t.inRoute)
  {
  }

  /** A closed invoker stays closed, one outside the route stays outside, and a loop that has ended reads no more. */
  lemma {:induction false} EndsStay(c: Codec, h: Handlers, s: State, acts: seq<Action>, t: State)
    requires Run(c, h, s, acts, t)
    ensures (s.cancelled ==> t.cancelled) && (!s.inRoute ==> !t.inRoute)
    ensures s.loop == Ended ==> t.loop == Ended && t.messages == s.messages
    decreases |acts|
  {
    if acts != [] {
      StepKeepsEnds(c, h, s, acts[0]);
      EndsStay(c, h, Apply(c, h, s, acts[0]), acts[1..], t);
    }
  }

  /** After a failed read the invoker is closed and out of the route, whatever else the run contains. */
  lemma {:induction false} FailedReadCloses(c: Codec, h: Handlers, s: State, acts: seq<Action>, t: State)
    requires Run(c, h, s, acts, t) && ReadFails in acts
    ensures t.loop == Ended && t.cancelled && !t.inRoute
    decreases |acts|
  {
    var s1 := Apply(c, h, s, acts[0]);
    if acts[0] == ReadFails {
      EndsStay(c, h, s1, acts[1..], t);
    } else {
      FailedReadCloses(c, h, s1, acts[1..], t);
    }
  }

  /** So it is when the loop comes to its select after the context was cancelled. */
  lemma {:induction false} CancelledSelectCloses(c: Codec, h: Handlers, s: State, acts: seq<Action>, t: State)
    requires Run(c, h, s, acts, t) && s.cancelled && Select in acts
    ensures t.loop == Ended && t.cancelled && !t.inRoute
    decreases |acts|
  {
    var s1 := Apply(c, h, s, acts[0]);
    StepKeepsEnds(c, h, s, acts[0]);
    if acts[0] == Select {
      EndsStay(c, h, s1, acts[1..], t);
    } else {
      CancelledSelectCloses(c, h, s1, acts[1..], t);
    }
  }

  lemma ParsedFrame(c: Codec, s: State, body: Body, rest: seq<byte>)
    requires s.pending == Frame(body) + rest
    ensures ReadStep(c, s) == TakeFrame(c, s, body, rest)
  {
    ParseWholeFrame(body, rest);
  }

  /** So it is, too, when the frame read has a type other than "1" and "2"; the frame is taken off the stream. */
  lemma InvalidTypeCloses(c: Codec, h: Handlers, s: State, body: Body, rest: seq<byte>, acts: seq<Action>, t: State)
    requires s.loop == Reading && s.pending == Frame(body) + rest
    requires c.typeOf(body).Some? && c.typeOf(body).value != "1" && c.typeOf(body).value != "2"
    requires Run(c, h, ReadStep(c, s), acts, t)
    ensures t.loop == Ended && t.cancelled && !t.inRoute && t.messages == s.messages
    ensures ReadStep(c, s).pending == rest
  {
    ParsedFrame(c, s, body, rest);
    EndsStay(c, h, ReadStep(c, s), acts, t);
  }

  /** A frame without a type makes the loop panic: it ends, but nothing is closed and nobody leaves the route. */
  lemma NoTypePanics(c: Codec, s: State, body: Body, rest: seq<byte>)
    requires s.pending == Frame(body) + rest && c.typeOf(body) == None
    ensures var t := ReadStep(c, s);
      && t.loop == Ended && t.cancelled == s.cancelled && t.inRoute == s.inRoute
      && t.messages == s.messages && t.tasks == s.tasks
  {
    ParsedFrame(c, s, body, rest);
  }

  /** What a read of this stream gives is a message. */
  ghost predicate IsMessage(c: Codec, p: Parse) {
    p.Done? && c.typeOf(p.body) in {Some("1"), Some("2")}
  }

  lemma ParsedEnds(c: Codec, s: State, p: Parse)
    requires s.loop == Reading
    ensures ReadParsed(c, s, p).loop == Ended <==> !IsMessage(c, p)
  {
  }

  /**
   A step ends the loop exactly if it is a check outside the route, a select after
   a cancel, a failed read, or a read of something that is no message. The check
   closes nothing; the select and the failed read close the invoker and take it
   out of the route.
   */
  lemma LoopEndsExactly(c: Codec, h: Handlers, s: State, a: Action)
    requires Enabled(s, a) && s.loop != Ended
    ensures var t := Apply(c, h, s, a);
      && (t.loop == Ended <==>
        || (a == Action.Check && !s.inRoute)
        || (a == Select && s.cancelled)
        || a == ReadFails
        || (a == Read && !IsMessage(c, ParseFrame(s.pending))))
      && (a == Action.Check ==> t == s.(loop := if s.inRoute then AtSelect else Ended))
      && (a == ReadFails || (a == Select && s.cancelled) ==> t == s.(loop := Ended, cancelled := true, inRoute := false))
      && (a == Select && !s.cancelled ==> t == s.(loop := Reading))
  {
    match a
    case Read => ParsedEnds(c, s, ParseFrame(s.pending));
    case _ =>
  }

  // ---------- what comes from outside ----------

  /** Everything that arrives in a run. */
  function Arrivals(acts: seq<Action>): seq<byte> {
    if acts == [] then [] else (if acts[0].Arrive? then acts[0].p else []) + Arrivals(acts[1..])
  }

  function UniChanges(acts: seq<Action>): seq<TableOp> {
    if acts == [] then [] else (if acts[0].ChangeUni? then [acts[0].op] else []) + UniChanges(acts[1..])
  }

  function BidiChanges(acts: seq<Action>): seq<TableOp> {
    if acts == [] then [] else (if acts[0].ChangeBidi? then [acts[0].op] else []) + BidiChanges(acts[1..])
  }

  lemma ReadOutside(c: Codec, s: State, p: Parse)
    ensures var t := ReadParsed(c, s, p);
      && t.arrived == s.arrived && t.uniOps == s.uniOps && t.bidiOps == s.bidiOps && t.events == s.events
      && t.removing == s.removing
      && (t.loop != Ended ==> t.cancelled == s.cancelled && t.inRoute == s.inRoute)
  {
  }

  lemma StepOutside(c: Codec, h: Handlers, s: State, a: Action)
    requires Enabled(s, a)
    ensures var t := Apply(c, h, s, a);
      && t.arrived == s.arrived + (if a.Arrive? then a.p else [])
      && t.uniOps == s.uniOps + (if a.ChangeUni? then [a.op] else [])
      && t.bidiOps == s.bidiOps + (if a.ChangeBidi? then [a.op] else [])
      && (s.loop == Ended || t.loop != Ended ==>
        && (t.cancelled <==> s.cancelled || a == Cancel || (a.WriteAnswer? && !a.ok))
        && (t.inRoute <==> s.inRoute && a != Leave && a != RemoveInvoker))
  {
    match a
    case Read => ReadOutside(c, s, ParseFrame(s.pending));
    case _ =>
  }

  /** The stream holds what has arrived, in order, and the tables have seen the changes made to them, in order. */
  lemma {:induction false} HistoriesAreTheRun(c: Codec, h: Handlers, s: State, acts: seq<Action>, t: State)
    requires Run(c, h, s, acts, t)
    ensures t.arrived == s.arrived + Arrivals(acts)
    ensures t.uniOps == s.uniOps + UniChanges(acts) && t.bidiOps == s.bidiOps + BidiChanges(acts)
    decreases |acts|
  {
    if acts != [] {
      StepOutside(c, h, s, acts[0]);
      HistoriesAreTheRun(c, h, Apply(c, h, s, acts[0]), acts[1..], t);
    }
  }

  /** Somebody closes the invoker in this run: from outside, or by a failed answer. */
  ghost predicate ClosedFromOutside(acts: seq<Action>) {
    exists i :: 0 <= i < |acts| && (acts[i] == Cancel || (acts[i].WriteAnswer? && !acts[i].ok))
  }

  /**
   While the loop goes on, the invoker is closed exactly if someone cancelled it or
   an answer failed, and out of the route exactly if someone removed it or a
   failed answer did.
   */
  lemma {:induction false} ClosedExactly(c: Codec, h: Handlers, s: State, acts: seq<Action>, t: State)
    requires Run(c, h, s, acts, t) && t.loop != Ended
    ensures t.cancelled <==> s.cancelled || ClosedFromOutside(acts)
    ensures t.inRoute <==> s.inRoute && Leave !in acts && RemoveInvoker !in acts
    decreases |acts|
  {
    if acts != [] {
      var s1 := Apply(c, h, s, acts[0]);
      StepOutside(c, h, s, acts[0]);
      if s1.loop == Ended {
        EndsStay(c, h, s1, acts[1..], t);
      }
      ClosedExactly(c, h, s1, acts[1..], t);
      FirstOrLater(acts);
    }
  }

  lemma FirstOrLater(acts: seq<Action>)
    requires acts != []
    ensures ClosedFromOutside(acts) <==>
      acts[0] == Cancel || (acts[0].WriteAnswer? && !acts[0].ok) || ClosedFromOutside(acts[1..])
  {
    if ClosedFromOutside(acts[1..]) {
      var i :| 0 <= i < |acts[1..]| && (acts[1..][i] == Cancel || (acts[1..][i].WriteAnswer? && !acts[1..][i].ok));
      assert acts[1..][i] == acts[i + 1];
    }
    if i :| 0 < i < |acts| && (acts[i] == Cancel || (acts[i].WriteAnswer? && !acts[i].ok)) {
      assert acts[1..][i - 1] == acts[i];
    }
  }

  // ---------- a message gets through ----------

  lemma {:induction false} RunPush(c: Codec, h: Handlers, s: State, acts: seq<Action>, t: State, a: Action)
    requires Run(c, h, s, acts, t) && Enabled(t, a)
    ensures Run(c, h, s, acts + [a], Apply(c, h, t, a))
    decreases |acts|
  {
    if acts == [] {
      assert [a][1..] == [];
    } else {
      RunPush(c, h, Apply(c, h, s, acts[0]), acts[1..], t, a);
      assert (acts + [a])[1..] == acts[1..] + [a];
    }
  }

  lemma Push(c: Codec, h: Handlers, s: State, acts: seq<Action>, t: State, a: Action, u: State) returns (more: seq<Action>)
    requires Run(c, h, s, acts, t) && Enabled(t, a) && Apply(c, h, t, a) == u
    ensures more == acts + [a] && Run(c, h, s, more, u)
  {
    RunPush(c, h, s, acts, t, a);
    more := acts + [a];
  }

  /** The loop can read: it is at the top, the invoker is in the route and open, and a message has arrived. */
  ghost predicate CanRead(c: Codec, s: State, body: Body, rest: seq<byte>, ty: string) {
    s.loop == AtTop && s.inRoute && !s.cancelled && s.pending == Frame(body) + rest && c.typeOf(body) == Some(ty)
  }

  /** State s after message m has been read. */
  function AfterRead(s: State, body: Body, rest: seq<byte>, m: Message): State {
    s.(pending := rest, bodies := s.bodies + [body], messages := s.messages + [m],
       readAt := s.readAt + [Moment(|s.uniOps|, |s.bidiOps|)])
  }

  lemma ReadsRun(c: Codec, h: Handlers, s: State, body: Body, rest: seq<byte>, ty: string) returns (acts: seq<Action>)
    requires CanRead(c, s, body, rest, ty)
    ensures acts == [Action.Check, Select] && Run(c, h, s, acts, s.(loop := Reading))
    ensures ParseFrame(s.pending) == Done(body, rest)
  {
    acts := Push(c, h, s, [], s, Action.Check, s.(loop := AtSelect));
    acts := Push(c, h, s, acts, s.(loop := AtSelect), Select, s.(loop := Reading));
    ParseWholeFrame(body, rest);
  }

  /** A response is read and handed off. */
  lemma ResponseRun(c: Codec, h: Handlers, s: State, body: Body, rest: seq<byte>, ty: string, resp: Response)
    returns (acts: seq<Action>, t: State)
    requires CanRead(c, s, body, rest, ty) && ty in {"1", "2"} && c.decode(body) == Resp(resp) && |s.tasks| == |s.messages|
    ensures acts == [Action.Check, Select, Read, Work(|s.tasks|)] && Run(c, h, s, acts, t)
    ensures t == AfterRead(s, body, rest, Resp(resp)).(
      tasks := s.tasks + [HandingOff(resp, true)], startedAt := s.startedAt + [Now(s)],
      events := s.events + [Delivered(|s.tasks|, resp)])
  {
    var n := |s.tasks|;
    acts := ReadsRun(c, h, s, body, rest, ty);
    var read := AfterRead(s, body, rest, Resp(resp)).(
      tasks := s.tasks + [HandingOff(resp, false)], startedAt := s.startedAt + [Now(s)]);
    acts := Push(c, h, s, acts, s.(loop := Reading), Read, read);
    t := read.(tasks := s.tasks + [HandingOff(resp, true)], events := s.events + [Delivered(n, resp)]);
    assert read.tasks[n := HandingOff(resp, true)] == t.tasks;
    acts := Push(c, h, s, acts, read, Work(n), t);
  }

  /** What the goroutine of this target has to do; nothing has happened yet. */
  function TaskFor(target: Target, req: Request): Task {
    match target
    case OneWay(f) => CallingOneWay(f, req, false)
    case TwoWay(f) => CallingTwoWay(f, req, Spawned)
    case NoHandler => Dropped
  }

  /** State s after a request has been read and its goroutine started. */
  function AfterStart(s: State, body: Body, rest: seq<byte>, req: Request, path: string, task: Task): State {
    AfterRead(s, body, rest, Req(req, path)).(tasks := s.tasks + [task], startedAt := s.startedAt + [Now(s)])
  }

  /** A request is read, its handler looked up, and its goroutine started. */
  lemma StartRun(c: Codec, h: Handlers, s: State, body: Body, rest: seq<byte>, ty: string, req: Request, path: string,
                 target: Target)
    returns (acts: seq<Action>)
    requires CanRead(c, s, body, rest, ty) && ty in {"1", "2"} && c.decode(body) == Req(req, path)
    requires target == Pick(AfterOps(s.uniOps), AfterOps(s.bidiOps), path)
    ensures acts == [Action.Check, Select, Read, LookUp] + if target.OneWay? then [] else [LookUp]
    ensures Run(c, h, s, acts, AfterStart(s, body, rest, req, path, TaskFor(target, req)))
  {
    acts := ReadsRun(c, h, s, body, rest, ty);
    var read := AfterRead(s, body, rest, Req(req, path)).(loop := LookUni(req, path));
    acts := Push(c, h, s, acts, s.(loop := Reading), Read, read);
    if target.OneWay? {
      acts := Push(c, h, s, acts, read, LookUp, AfterStart(s, body, rest, req, path, TaskFor(target, req)));
    } else {
      var look := read.(loop := LookBidi(req, path));
      acts := Push(c, h, s, acts, read, LookUp, look);
      acts := Push(c, h, s, acts, look, LookUp, AfterStart(s, body, rest, req, path, TaskFor(target, req)));
    }
  }

  /** The goroutine of a request to a one-way handler calls it. */
  lemma OneWayRun(c: Codec, h: Handlers, s: State, n: nat, f: nat, req: Request) returns (acts: seq<Action>)
    requires n < |s.tasks| && s.tasks[n] == CallingOneWay(f, req, false)
    ensures acts == [Work(n)]
    ensures Run(c, h, s, acts, s.(tasks := s.tasks[n := CallingOneWay(f, req, true)],
                                  events := s.events + [Called(n, f, req)]))
  {
    acts := Push(c, h, s, [], s, Work(n), s.(tasks := s.tasks[n := CallingOneWay(f, req, true)],
                                             events := s.events + [Called(n, f, req)]));
  }

  /** State s after the goroutine of message n has called its two-way handler and tried the answer. */
  function AfterAnswer(h: Handlers, s: State, n: nat, f: nat, req: Request, ok: bool): State
    requires n < |s.tasks|
  {
    s.(tasks := s.tasks[n := CallingTwoWay(f, req, Answered(ok))],
       events := s.events + [Called(n, f, req), AnswerTried(n, h(f, req), ok)])
  }

  /** The goroutine of a request to a two-way handler calls it and tries its answer. */
  lemma TwoWayRun(c: Codec, h: Handlers, s: State, n: nat, f: nat, req: Request) returns (acts: seq<Action>)
    requires n < |s.tasks| && s.tasks[n] == CallingTwoWay(f, req, Spawned)
    ensures acts == [Work(n), WriteAnswer(n, true)] && Run(c, h, s, acts, AfterAnswer(h, s, n, f, req, true))
  {
    var called := s.(tasks := s.tasks[n := CallingTwoWay(f, req, Running)], events := s.events + [Called(n, f, req)]);
    acts := Push(c, h, s, [], s, Work(n), called);
    assert called.tasks[n := CallingTwoWay(f, req, Answered(true))] == s.tasks[n := CallingTwoWay(f, req, Answered(true))];
    acts := Push(c, h, s, acts, called, WriteAnswer(n, true), AfterAnswer(h, s, n, f, req, true));
  }

  /** If the answer cannot be written, the invoker is closed at once and then taken out of the route. */
  lemma FailedAnswerRun(c: Codec, h: Handlers, s: State, n: nat, f: nat, req: Request) returns (acts: seq<Action>)
    requires n < |s.tasks| && s.tasks[n] == CallingTwoWay(f, req, Spawned)
    ensures acts == [Work(n), WriteAnswer(n, false), RemoveInvoker]
    ensures Run(c, h, s, acts, AfterAnswer(h, s, n, f, req, false).(cancelled := true, inRoute := false))
  {
    var called := s.(tasks := s.tasks[n := CallingTwoWay(f, req, Running)], events := s.events + [Called(n, f, req)]);
    acts := Push(c, h, s, [], s, Work(n), called);
    assert called.tasks[n := CallingTwoWay(f, req, Answered(false))] == s.tasks[n := CallingTwoWay(f, req, Answered(false))];
    var failed := AfterAnswer(h, s, n, f, req, false).(cancelled := true, removing := s.removing + 1);
    acts := Push(c, h, s, acts, called, WriteAnswer(n, false), failed);
    acts := Push(c, h, s, acts, failed, RemoveInvoker, failed.(inRoute := false, removing := s.removing));
  }
}
