/**
 Multiplexed RPC over one command stream: any number of concurrent Invoke calls
 at one end, a peer that answers each request it receives, and one
 receiveResponse goroutine per answer. The table of response channels is guarded
 by one lock, which receiveResponse keeps while it sends on an unbuffered channel.
 */
module Rpc {
  import opened Prelude

  datatype Request = Request(id: string, body: string)
  datatype Response = Response(id: string, body: string)

  datatype Outcome = Answer(resp: Response) | WriteFailed | ContextDone

  /** Where a goroutine is inside Invoke. */
  datatype Caller =
    | Start                       // before getResponseChan
    | HasChan                     // channel in the table, request not written yet
    | Written                     // request written, select not reached yet
    | Waiting                     // in the select
    | Leaving(outcome: Outcome)   // running the deferred RemoveResponseChan
    | Returned(outcome: Outcome)

  /** What has become of the call's request on its way to the peer and back. */
  datatype Message =
    | Unsent
    | AtPeer                      // written; the peer's handler has not answered it yet
    | Incoming(resp: Response)    // the answer is on the stream
    | Receiving(resp: Response)   // its receiveResponse goroutine wants the lock
    | Sending(resp: Response, chan: nat)  // holds the lock, blocked on the send to that channel
    | Gone

  datatype Call = Call(req: Request, pc: Caller, msg: Message)

  /**
   A channel is named after the call that made it. The other critical sections
   do not block, so only a sender is ever seen holding the lock.
   */
  datatype State = State(
    calls: seq<Call>,
    table: map<string, nat>,
    lock: Option<nat>,
    cancelled: bool)

  datatype Action =
    | Register(i: nat) | WriteOk(i: nat) | WriteError(i: nat) | Select(i: nat)
    | Handle(i: nat) | Spawn(i: nat) | TakeLock(i: nat) | Rendezvous(i: nat)
    | Cancel | SeeDone(i: nat) | Remove(i: nat)

  /** The peer's handler; every handler of the node answers with the id of the request. */
  type Handler = Request -> string

  function AnswerTo(h: Handler, req: Request): Response {
    Response(req.id, h(req))
  }

  ghost predicate Enabled(s: State, a: Action) {
    match a
    case Cancel => !s.cancelled
    case Register(i) => i < |s.calls| && s.calls[i].pc.Start? && s.lock.None?
    case WriteOk(i) => i < |s.calls| && s.calls[i].pc.HasChan? && s.calls[i].msg.Unsent?
    case WriteError(i) => i < |s.calls| && s.calls[i].pc.HasChan?
    case Select(i) => i < |s.calls| && s.calls[i].pc.Written?
    case Handle(i) => i < |s.calls| && s.calls[i].msg.AtPeer?
    case Spawn(i) => i < |s.calls| && s.calls[i].msg.Incoming?
    case TakeLock(i) => i < |s.calls| && s.calls[i].msg.Receiving? && s.lock.None?
    case Rendezvous(i) =>
      && i < |s.calls| && s.calls[i].msg.Sending? && s.calls[i].msg.chan < |s.calls|
      && s.calls[s.calls[i].msg.chan].pc.Waiting?
    case SeeDone(i) => i < |s.calls| && s.calls[i].pc.Waiting? && s.cancelled
    case Remove(i) => i < |s.calls| && s.calls[i].pc.Leaving? && s.lock.None?
  }

  /** The table after getResponseChan; newChan names the channel it makes if there is none. */
  function WithChan(table: map<string, nat>, id: string, newChan: nat): map<string, nat> {
    if id in table then table else table[id := newChan]
  }

  /** The critical sections on invokeMap. */
  class ResponseTable {
    var invokeMap: map<string, nat>

    constructor ()
      ensures invokeMap == map[]
    {
      invokeMap := map[];
    }

    method GetResponseChan(request: Request, newChan: nat) returns (chan: nat)
      modifies this
      ensures request.id in old(invokeMap) ==> chan == old(invokeMap)[request.id] && invokeMap == old(invokeMap)
      ensures request.id !in old(invokeMap) ==> chan == newChan && invokeMap == old(invokeMap)[request.id := newChan]
      ensures invokeMap == WithChan(old(invokeMap), request.id, newChan)
    {
      if request.id in invokeMap {
        chan := invokeMap[request.id];
      } else {
        chan := newChan;
        invokeMap := invokeMap[request.id := chan];
      }
    }

    method RemoveResponseChan(requestId: string)
      modifies this
      ensures invokeMap == old(invokeMap) - {requestId}
    {
      invokeMap := map id | id in invokeMap && id != requestId :: invokeMap[id];
    }
  }

  function SetPc(s: State, i: nat, pc: Caller): State
    requires i < |s.calls|
  {
    s.(calls := s.calls[i := s.calls[i].(pc := pc)])
  }

  function SetMsg(s: State, i: nat, msg: Message): State
    requires i < |s.calls|
  {
    s.(calls := s.calls[i := s.calls[i].(msg := msg)])
  }

  function Apply(h: Handler, s: State, a: Action): State
    requires Enabled(s, a)
  {
    match a
    case Cancel => s.(cancelled := true)
    case Register(i) =>
      var id := s.calls[i].req.id;
      SetPc(s, i, HasChan).(table := WithChan(s.table, id, i))
    case WriteOk(i) => SetMsg(SetPc(s, i, Written), i, AtPeer)
    case WriteError(i) => SetPc(s, i, Leaving(WriteFailed))
    case Select(i) => SetPc(s, i, Waiting)
    case Handle(i) => SetMsg(s, i, Incoming(AnswerTo(h, s.calls[i].req)))
    case Spawn(i) => SetMsg(s, i, Receiving(s.calls[i].msg.resp))
    case TakeLock(i) =>
      var resp := s.calls[i].msg.resp;
      if resp.id in s.table
      then SetMsg(s, i, Sending(resp, s.table[resp.id])).(lock := Some(i))
      else SetMsg(s, i, Gone)
    case Rendezvous(i) =>
      var m := s.calls[i].msg;
      SetMsg(SetPc(s, m.chan, Leaving(Answer(m.resp))), i, Gone).(lock := None)
    case SeeDone(i) => SetPc(s, i, Leaving(ContextDone))
    case Remove(i) =>
      SetPc(s, i, Returned(s.calls[i].pc.outcome)).(table := s.table - {s.calls[i].req.id})
  }

  ghost predicate Run(h: Handler, s: State, acts: seq<Action>, t: State)
    decreases |acts|
  {
    if acts == [] then s == t
    else Enabled(s, acts[0]) && Run(h, Apply(h, s, acts[0]), acts[1..], t)
  }

  function Fresh(reqs: seq<Request>): seq<Call> {
    if reqs == [] then [] else [Call(reqs[0], Start, Unsent)] + Fresh(reqs[1..])
  }

  function Init(reqs: seq<Request>): State {
    State(Fresh(reqs), map[], None, false)
  }

  ghost predicate DistinctIds(reqs: seq<Request>) {
    forall i, j :: 0 <= i < j < |reqs| ==> reqs[i].id != reqs[j].id
  }

  // ---------- invariant ----------

  /** Between getResponseChan and RemoveResponseChan. */
  predicate Registered(c: Call) {
    c.pc.HasChan? || c.pc.Written? || c.pc.Waiting? || c.pc.Leaving?
  }

  ghost predicate CallInv(h: Handler, c: Call) {
    && (c.pc.Start? || c.pc.HasChan? ==> c.msg.Unsent?)
    && (c.msg.Incoming? || c.msg.Receiving? || c.msg.Sending? ==> c.msg.resp == AnswerTo(h, c.req))
    && (c.pc.Leaving? || c.pc.Returned? ==>
      match c.pc.outcome
      case Answer(resp) => resp == AnswerTo(h, c.req) && c.msg.Gone?
      case WriteFailed => c.msg.Unsent?
      case ContextDone => !c.msg.Unsent?)
    && (c.pc.Written? || c.pc.Waiting? ==> !c.msg.Unsent? && !c.msg.Gone?)
  }

  /** The lock and the table entry of call i fit what the call is doing. */
  predicate Fits(c: Call, i: nat, table: map<string, nat>, lock: Option<nat>) {
    && (Registered(c) <==> c.req.id in table)
    && (Registered(c) ==> table[c.req.id] == i)
    && (c.msg.Sending? <==> lock == Some(i))
    && (c.msg.Sending? ==> c.msg.chan == i && Registered(c))
  }

  /** Who gave up because the context was done. */
  predicate GaveUp(c: Call) {
    c.pc == Leaving(ContextDone) || c.pc == Returned(ContextDone)
  }

  ghost predicate Inv(h: Handler, s: State) {
    && (forall i, j :: 0 <= i < j < |s.calls| ==> s.calls[i].req.id != s.calls[j].req.id)
    && (forall i :: 0 <= i < |s.calls| ==> CallInv(h, s.calls[i]))
    && (forall i :: 0 <= i < |s.calls| ==> Fits(s.calls[i], i, s.table, s.lock))
    && (forall id :: id in s.table ==> s.table[id] < |s.calls| && s.calls[s.table[id]].req.id == id)
    && (s.lock.Some? ==> s.lock.value < |s.calls|)
    && (!s.cancelled ==> forall i :: 0 <= i < |s.calls| ==> !GaveUp(s.calls[i]))
  }

  /** A step changes one call, that call's table entry and perhaps the lock. */
  lemma UpdateKeeps(h: Handler, s: State, i: nat, t: State)
    requires Inv(h, s) && i < |s.calls| == |t.calls|
    requires t.calls == s.calls[i := t.calls[i]] && t.calls[i].req == s.calls[i].req
    requires CallInv(h, t.calls[i]) && Fits(t.calls[i], i, t.table, t.lock)
    requires t.table == s.table
      || (t.table == s.table[s.calls[i].req.id := i])
      || (t.table == s.table - {s.calls[i].req.id})
    requires t.lock == s.lock || (s.lock.None? && t.lock == Some(i)) || (s.lock == Some(i) && t.lock.None?)
    requires t.cancelled == s.cancelled && (!t.cancelled ==> !GaveUp(t.calls[i]))
    ensures Inv(h, t)
  {
    forall j | 0 <= j < |t.calls| ensures Fits(t.calls[j], j, t.table, t.lock) {
      assert Fits(s.calls[j], j, s.table, s.lock);
      assert j != i ==> t.calls[j] == s.calls[j] && s.calls[j].req.id != s.calls[i].req.id;
    }
  }

  lemma ActionKeeps(h: Handler, s: State, a: Action)
    requires Inv(h, s) && Enabled(s, a)
    ensures Inv(h, Apply(h, s, a))
  {
    if !a.Cancel? {
      var t := Apply(h, s, a);
      var i := a.i;
      assert CallInv(h, s.calls[i]) && Fits(s.calls[i], i, s.table, s.lock);
      UpdateKeeps(h, s, i, t);
    }
  }

  lemma {:induction false} FreshCalls(reqs: seq<Request>)
    ensures |Fresh(reqs)| == |reqs|
    ensures forall i :: 0 <= i < |reqs| ==> Fresh(reqs)[i] == Call(reqs[i], Start, Unsent)
  {
    if reqs != [] {
      FreshCalls(reqs[1..]);
    }
  }

  lemma {:induction false} RunKeepsInv(h: Handler, s: State, acts: seq<Action>, t: State)
    requires Inv(h, s) && Run(h, s, acts, t)
    ensures Inv(h, t)
    decreases |acts|
  {
    if acts != [] {
      ActionKeeps(h, s, acts[0]);
      RunKeepsInv(h, Apply(h, s, acts[0]), acts[1..], t);
    }
  }

  lemma ReachableInv(h: Handler, reqs: seq<Request>, acts: seq<Action>, t: State)
    requires DistinctIds(reqs) && Run(h, Init(reqs), acts, t)
    ensures Inv(h, t)
  {
    FreshCalls(reqs);
    RunKeepsInv(h, Init(reqs), acts, t);
  }

  lemma {:induction false} RunKeepsRequests(h: Handler, s: State, acts: seq<Action>, t: State)
    requires Run(h, s, acts, t)
    ensures |t.calls| == |s.calls|
    ensures forall i :: 0 <= i < |s.calls| ==> t.calls[i].req == s.calls[i].req
    decreases |acts|
  {
    if acts != [] {
      RunKeepsRequests(h, Apply(h, s, acts[0]), acts[1..], t);
    }
  }

  // ---------- correlation ----------

  /**
   A call that succeeds returns the answer the peer's handler gave to that very
   request; the table holds exactly the calls between registration and removal;
   and an answer that arrives finds its channel, unless its call has given up
   because the context was done.
   */
  lemma Correlation(h: Handler, reqs: seq<Request>, acts: seq<Action>, t: State)
    requires DistinctIds(reqs) && Run(h, Init(reqs), acts, t)
    ensures |t.calls| == |reqs|
    ensures forall i, resp :: 0 <= i < |reqs| && t.calls[i].pc == Returned(Answer(resp)) ==>
      resp == Response(reqs[i].id, h(reqs[i]))
    ensures forall i :: 0 <= i < |reqs| ==> (reqs[i].id in t.table <==> Registered(t.calls[i]))
    ensures forall id :: id in t.table ==> exists i :: 0 <= i < |reqs| && reqs[i].id == id
    ensures forall i :: 0 <= i < |reqs| && t.calls[i].msg.Receiving? ==>
      reqs[i].id in t.table || t.calls[i].pc == Returned(ContextDone)
  {
    ReachableInv(h, reqs, acts, t);
    FreshCalls(reqs);
    RunKeepsRequests(h, Init(reqs), acts, t);
    forall id | id in t.table ensures exists i :: 0 <= i < |reqs| && reqs[i].id == id {
      assert reqs[t.table[id]].id == id;
    }
  }

  // ---------- progress ----------

  /** Steps of this end's own goroutines, as opposed to the peer's answers and the end of the context. */
  predicate Internal(a: Action) {
    !a.Handle? && !a.Cancel?
  }

  /** Everything that can finish has finished: what is left waits for an answer the peer has not given. */
  ghost predicate Quiescent(s: State) {
    && s.lock.None?
    && forall i :: 0 <= i < |s.calls| ==>
      (s.calls[i].pc.Returned? && (s.calls[i].msg.Unsent? || s.calls[i].msg.AtPeer? || s.calls[i].msg.Gone?))
      || (s.calls[i].pc.Waiting? && s.calls[i].msg.AtPeer? && !s.cancelled)
  }

  /** A receiver holds the lock for a call that has left its select, and that needs the lock to leave. */
  ghost predicate Jammed(s: State) {
    && s.lock.Some? && s.lock.value < |s.calls|
    && s.calls[s.lock.value].msg.Sending? && s.calls[s.lock.value].pc.Leaving?
  }

  function CallRank(c: Call): nat {
    (match c.pc
     case Start => 5 case HasChan => 4 case Written => 3 case Waiting => 2 case Leaving(_) => 1 case Returned(_) => 0)
    +
    (match c.msg
     case Unsent => 5 case AtPeer => 4 case Incoming(_) => 3 case Receiving(_) => 2 case Sending(_, _) => 1 case Gone => 0)
  }

  function Total(calls: seq<Call>): nat {
    if calls == [] then 0 else CallRank(calls[0]) + Total(calls[1..])
  }

  function Measure(s: State): nat {
    Total(s.calls) + if s.cancelled then 0 else 1
  }

  lemma {:induction false} TotalUpdate(calls: seq<Call>, i: nat, c: Call)
    requires i < |calls|
    ensures Total(calls[i := c]) == Total(calls) - CallRank(calls[i]) + CallRank(c)
  {
    if i == 0 {
      assert calls[0 := c][1..] == calls[1..];
    } else {
      TotalUpdate(calls[1..], i - 1, c);
      assert calls[i := c][1..] == calls[1..][i - 1 := c];
    }
  }

  lemma RankDecreases(h: Handler, s: State, a: Action, c: Call)
    requires Inv(h, s) && Enabled(s, a) && !a.Cancel? && c == Apply(h, s, a).calls[a.i]
    ensures CallRank(c) < CallRank(s.calls[a.i])
  {
    assert CallInv(h, s.calls[a.i]) && Fits(s.calls[a.i], a.i, s.table, s.lock);
  }

  /** Every step uses up some of a finite budget, so no run goes on for ever. */
  lemma MeasureDecreases(h: Handler, s: State, a: Action)
    requires Inv(h, s) && Enabled(s, a)
    ensures Measure(Apply(h, s, a)) < Measure(s)
  {
    if !a.Cancel? {
      var t := Apply(h, s, a);
      var i := a.i;
      RankDecreases(h, s, a, t.calls[i]);
      assert t.calls == s.calls[i := t.calls[i]];
      TotalUpdate(s.calls, i, t.calls[i]);
    }
  }

  lemma {:induction false} RunLength(h: Handler, s: State, acts: seq<Action>, t: State)
    requires Inv(h, s) && Run(h, s, acts, t)
    ensures |acts| + Measure(t) <= Measure(s)
    decreases |acts|
  {
    if acts != [] {
      MeasureDecreases(h, s, acts[0]);
      ActionKeeps(h, s, acts[0]);
      RunLength(h, Apply(h, s, acts[0]), acts[1..], t);
    }
  }

  /** A goroutine of this end that can move, if there is one. */
  function NextAction(c: Call, i: nat): Action {
    if c.msg.Incoming? then Spawn(i)
    else if c.msg.Receiving? then TakeLock(i)
    else if c.msg.Sending? && c.pc.Waiting? then Rendezvous(i)
    else match c.pc
      case Start => Register(i)
      case HasChan => WriteOk(i)
      case Written => Select(i)
      case Waiting => SeeDone(i)
      case Leaving(_) => Remove(i)
      case Returned(_) => Remove(i)
  }

  /** No reachable state is stuck on the lock or a channel unless it is jammed. */
  lemma CanMove(h: Handler, s: State)
    requires Inv(h, s) && !Quiescent(s) && !Jammed(s)
    ensures exists a :: Internal(a) && Enabled(s, a)
  {
    if s.lock.Some? {
      var i := s.lock.value;
      assert CallInv(h, s.calls[i]) && Fits(s.calls[i], i, s.table, s.lock);
      assert Enabled(s, NextAction(s.calls[i], i));
    } else {
      var i :| 0 <= i < |s.calls| && !((s.calls[i].pc.Returned? && (s.calls[i].msg.Unsent? || s.calls[i].msg.AtPeer? || s.calls[i].msg.Gone?))
        || (s.calls[i].pc.Waiting? && s.calls[i].msg.AtPeer? && !s.cancelled));
      assert CallInv(h, s.calls[i]) && Fits(s.calls[i], i, s.table, s.lock);
      assert Enabled(s, NextAction(s.calls[i], i));
    }
  }

  lemma NotJammedBeforeCancel(h: Handler, s: State)
    requires Inv(h, s) && !s.cancelled
    ensures !Jammed(s)
  {
  }

  lemma QuiescentIffIdle(h: Handler, s: State)
    requires Inv(h, s) && !Jammed(s)
    ensures Quiescent(s) <==> forall a :: Internal(a) ==> !Enabled(s, a)
  {
    if !Quiescent(s) {
      CanMove(h, s);
    }
  }

  lemma AnsweredHasReturned(h: Handler, s: State, i: nat)
    requires Inv(h, s) && Quiescent(s) && !s.cancelled && i < |s.calls| && s.calls[i].msg.Gone?
    ensures s.calls[i].pc == Returned(Answer(AnswerTo(h, s.calls[i].req)))
    ensures s.calls[i].req.id !in s.table
  {
    assert CallInv(h, s.calls[i]) && Fits(s.calls[i], i, s.table, s.lock);
  }

  /**
   While the context is not cancelled: a run can go on until every call has
   returned or waits for an answer the peer has not given; it takes a bounded
   number of steps; and then every answered call has its answer and its table
   entry is gone.
   */
  lemma Progress(h: Handler, reqs: seq<Request>, acts: seq<Action>, t: State)
    requires DistinctIds(reqs) && Run(h, Init(reqs), acts, t) && !t.cancelled
    ensures Quiescent(t) <==> forall a :: Internal(a) ==> !Enabled(t, a)
    ensures |acts| <= 10 * |reqs| + 1
    ensures |t.calls| == |reqs|
    ensures Quiescent(t) ==> forall i :: 0 <= i < |reqs| && t.calls[i].msg.Gone? ==>
      t.calls[i].pc == Returned(Answer(Response(reqs[i].id, h(reqs[i])))) && reqs[i].id !in t.table
  {
    ReachableInv(h, reqs, acts, t);
    NotJammedBeforeCancel(h, t);
    QuiescentIffIdle(h, t);
    RunBounds(h, reqs, acts, t);
    if Quiescent(t) {
      forall i | 0 <= i < |reqs| && t.calls[i].msg.Gone?
        ensures t.calls[i].pc == Returned(Answer(Response(reqs[i].id, h(reqs[i])))) && reqs[i].id !in t.table
      {
        AnsweredHasReturned(h, t, i);
      }
    }
  }

  lemma RunBounds(h: Handler, reqs: seq<Request>, acts: seq<Action>, t: State)
    requires DistinctIds(reqs) && Run(h, Init(reqs), acts, t)
    ensures |acts| <= 10 * |reqs| + 1
    ensures |t.calls| == |reqs|
    ensures forall i :: 0 <= i < |reqs| ==> t.calls[i].req == reqs[i]
  {
    FreshCalls(reqs);
    RunKeepsRequests(h, Init(reqs), acts, t);
    ReachableInv(h, reqs, [], Init(reqs));
    RunLength(h, Init(reqs), acts, t);
    FreshTotal(reqs);
  }

  lemma {:induction false} FreshTotal(reqs: seq<Request>)
    ensures Total(Fresh(reqs)) == 10 * |reqs|
  {
    if reqs != [] {
      FreshTotal(reqs[1..]);
      assert Fresh(reqs)[1..] == Fresh(reqs[1..]);
    }
  }

  // ---------- what cancelling can do ----------

  /**
   The two ways into a jam, for any reachable state: the call takes the
   context's branch while its receiver is already blocked on the send, or the
   receiver takes the lock while the call is on its way to the removal.
   */
  lemma JamExactly(h: Handler, s: State, a: Action)
    requires Inv(h, s) && !Jammed(s) && Enabled(s, a)
    ensures Jammed(Apply(h, s, a)) <==>
      || (a.SeeDone? && s.calls[a.i].msg.Sending?)
      || (a.TakeLock? && s.calls[a.i].pc.Leaving?)
  {
    if !a.Cancel? {
      assert CallInv(h, s.calls[a.i]) && Fits(s.calls[a.i], a.i, s.table, s.lock);
    }
  }

  lemma JamStep(h: Handler, s: State, a: Action)
    requires Inv(h, s) && Jammed(s) && Enabled(s, a)
    ensures var t := Apply(h, s, a);
      && Jammed(t) && t.lock == s.lock && |t.calls| == |s.calls|
      && forall i :: 0 <= i < |s.calls| && s.calls[i].pc.Leaving? ==> t.calls[i].pc == s.calls[i].pc
  {
    assert Fits(s.calls[s.lock.value], s.lock.value, s.table, s.lock);
    if !a.Cancel? {
      assert Fits(s.calls[a.i], a.i, s.table, s.lock);
    }
  }

  /** A jam is for ever: the lock is never released and no call that needs it returns. */
  lemma {:induction false} JamIsForever(h: Handler, s: State, acts: seq<Action>, t: State)
    requires Inv(h, s) && Jammed(s) && Run(h, s, acts, t)
    ensures Jammed(t) && t.lock == s.lock
    ensures |t.calls| == |s.calls|
    ensures forall i :: 0 <= i < |s.calls| && s.calls[i].pc.Leaving? ==> t.calls[i].pc == s.calls[i].pc
    decreases |acts|
  {
    if acts != [] {
      ActionKeeps(h, s, acts[0]);
      JamStep(h, s, acts[0]);
      JamIsForever(h, Apply(h, s, acts[0]), acts[1..], t);
    }
  }

  /** With the context cancelled too: a state in which nothing can move is quiescent exactly when it is not jammed. */
  lemma StuckExactly(h: Handler, reqs: seq<Request>, acts: seq<Action>, t: State)
    requires DistinctIds(reqs) && Run(h, Init(reqs), acts, t)
    requires forall a :: Internal(a) ==> !Enabled(t, a)
    ensures Quiescent(t) <==> !Jammed(t)
  {
    ReachableInv(h, reqs, acts, t);
    if !Quiescent(t) && !Jammed(t) {
      CanMove(h, t);
    }
  }

  function Single(req: Request, pc: Caller, msg: Message, lock: Option<nat>, cancelled: bool): State {
    State([Call(req, pc, msg)], map[req.id := 0], lock, cancelled)
  }

  /** A single call whose context ends while its answer is being handed over. */
  lemma CancelCanJam(h: Handler, req: Request) returns (acts: seq<Action>, t: State)
    ensures Run(h, Init([req]), acts, t) && Jammed(t)
    ensures forall a :: Internal(a) ==> !Enabled(t, a)
  {
    var s4 := Single(req, Waiting, Incoming(AnswerTo(h, req)), None, false);
    acts, t := CancelDuringSend(h, req, s4);
    acts := CallUntilAnswered(h, req, s4, acts, t);
  }

  lemma CancelDuringSend(h: Handler, req: Request, s4: State) returns (acts: seq<Action>, t: State)
    requires s4 == Single(req, Waiting, Incoming(AnswerTo(h, req)), None, false)
    ensures Run(h, s4, acts, t) && Jammed(t)
    ensures forall a :: Internal(a) ==> !Enabled(t, a)
  {
    var r := AnswerTo(h, req);
    var s5 := Single(req, Waiting, Receiving(r), None, false);
    var s6 := Single(req, Waiting, Sending(r, 0), Some(0), false);
    var s7 := Single(req, Waiting, Sending(r, 0), Some(0), true);
    t := Single(req, Leaving(ContextDone), Sending(r, 0), Some(0), true);
    acts := Prepend(h, s7, SeeDone(0), t, [], t);
    acts := Prepend(h, s6, Cancel, s7, acts, t);
    acts := Prepend(h, s5, TakeLock(0), s6, acts, t);
    acts := Prepend(h, s4, Spawn(0), s5, acts, t);
  }

  lemma CallUntilAnswered(h: Handler, req: Request, s4: State, rest: seq<Action>, t: State)
    returns (acts: seq<Action>)
    requires s4 == Single(req, Waiting, Incoming(AnswerTo(h, req)), None, false) && Run(h, s4, rest, t)
    ensures Run(h, Init([req]), acts, t)
  {
    var s0 := State([Call(req, Start, Unsent)], map[], None, false);
    var s1 := Single(req, HasChan, Unsent, None, false);
    var s2 := Single(req, Written, AtPeer, None, false);
    var s3 := Single(req, Waiting, AtPeer, None, false);
    acts := Prepend(h, s3, Handle(0), s4, rest, t);
    acts := Prepend(h, s2, Select(0), s3, acts, t);
    acts := Prepend(h, s1, WriteOk(0), s2, acts, t);
    acts := Prepend(h, s0, Register(0), s1, acts, t);
    FreshCalls([req]);
    assert Init([req]) == s0;
  }

  lemma Prepend(h: Handler, s: State, a: Action, s': State, acts: seq<Action>, t: State)
    returns (longer: seq<Action>)
    requires Enabled(s, a) && Apply(h, s, a) == s' && Run(h, s', acts, t)
    ensures Run(h, s, longer, t)
  {
    longer := [a] + acts;
    assert longer[1..] == acts;
  }

  // ---------- whole calls ----------

  lemma {:induction false} RunPush(h: Handler, s: State, acts: seq<Action>, t: State, a: Action)
    requires Run(h, s, acts, t) && Enabled(t, a)
    ensures Run(h, s, acts + [a], Apply(h, t, a))
    decreases |acts|
  {
    if acts == [] {
      assert [a][1..] == [];
    } else {
      RunPush(h, Apply(h, s, acts[0]), acts[1..], t, a);
      assert (acts + [a])[1..] == acts[1..] + [a];
    }
  }

  lemma Push(h: Handler, s: State, acts: seq<Action>, t: State, a: Action, u: State) returns (more: seq<Action>)
    requires Run(h, s, acts, t) && Enabled(t, a) && Apply(h, t, a) == u
    ensures more == acts + [a] && Run(h, s, more, u)
  {
    RunPush(h, s, acts, t, a);
    more := acts + [a];
  }

  /** The state of a single call that has returned: nothing is left of it in the table, and the lock is free. */
  function Over(req: Request, outcome: Outcome, msg: Message, cancelled: bool): State {
    State([Call(req, Returned(outcome), msg)], map[], None, cancelled)
  }

  lemma WaitingRun(h: Handler, req: Request) returns (acts: seq<Action>)
    ensures acts == [Register(0), WriteOk(0), Select(0)]
    ensures Run(h, Init([req]), acts, Single(req, Waiting, AtPeer, None, false))
  {
    var s0 := State([Call(req, Start, Unsent)], map[], None, false);
    FreshCalls([req]);
    assert Init([req]) == s0;
    acts := Push(h, s0, [], s0, Register(0), Single(req, HasChan, Unsent, None, false));
    acts := Push(h, s0, acts, Single(req, HasChan, Unsent, None, false), WriteOk(0),
                 Single(req, Written, AtPeer, None, false));
    acts := Push(h, s0, acts, Single(req, Written, AtPeer, None, false), Select(0),
                 Single(req, Waiting, AtPeer, None, false));
  }

  /** A call that goes well returns what the peer's handler made of its request, under its id. */
  lemma AnsweredRun(h: Handler, req: Request) returns (acts: seq<Action>)
    ensures acts == [Register(0), WriteOk(0), Select(0), Handle(0), Spawn(0), TakeLock(0), Rendezvous(0), Remove(0)]
    ensures Run(h, Init([req]), acts, Over(req, Answer(Response(req.id, h(req))), Gone, false))
  {
    var s, r := Init([req]), Response(req.id, h(req));
    acts := WaitingRun(h, req);
    acts := Push(h, s, acts, Single(req, Waiting, AtPeer, None, false), Handle(0),
                 Single(req, Waiting, Incoming(r), None, false));
    acts := Push(h, s, acts, Single(req, Waiting, Incoming(r), None, false), Spawn(0),
                 Single(req, Waiting, Receiving(r), None, false));
    acts := Push(h, s, acts, Single(req, Waiting, Receiving(r), None, false), TakeLock(0),
                 Single(req, Waiting, Sending(r, 0), Some(0), false));
    acts := Push(h, s, acts, Single(req, Waiting, Sending(r, 0), Some(0), false), Rendezvous(0),
                 Single(req, Leaving(Answer(r)), Gone, None, false));
    acts := Push(h, s, acts, Single(req, Leaving(Answer(r)), Gone, None, false), Remove(0),
                 Over(req, Answer(r), Gone, false));
  }

  /** A call that cannot write its request returns that error. */
  lemma WriteFailedRun(h: Handler, req: Request) returns (acts: seq<Action>)
    ensures acts == [Register(0), WriteError(0), Remove(0)]
    ensures Run(h, Init([req]), acts, Over(req, WriteFailed, Unsent, false))
  {
    var s0 := State([Call(req, Start, Unsent)], map[], None, false);
    FreshCalls([req]);
    assert Init([req]) == s0;
    acts := Push(h, s0, [], s0, Register(0), Single(req, HasChan, Unsent, None, false));
    acts := Push(h, s0, acts, Single(req, HasChan, Unsent, None, false), WriteError(0),
                 Single(req, Leaving(WriteFailed), Unsent, None, false));
    acts := Push(h, s0, acts, Single(req, Leaving(WriteFailed), Unsent, None, false), Remove(0),
                 Over(req, WriteFailed, Unsent, false));
  }

  /** A call whose context ends returns without an answer; one that comes later finds no channel and is dropped. */
  lemma LateAnswerRun(h: Handler, req: Request) returns (acts: seq<Action>)
    ensures acts == [Register(0), WriteOk(0), Select(0), Cancel, SeeDone(0), Remove(0), Handle(0), Spawn(0), TakeLock(0)]
    ensures Run(h, Init([req]), acts, Over(req, ContextDone, Gone, true))
  {
    var s, r := Init([req]), Response(req.id, h(req));
    acts := WaitingRun(h, req);
    acts := Push(h, s, acts, Single(req, Waiting, AtPeer, None, false), Cancel,
                 Single(req, Waiting, AtPeer, None, true));
    acts := Push(h, s, acts, Single(req, Waiting, AtPeer, None, true), SeeDone(0),
                 Single(req, Leaving(ContextDone), AtPeer, None, true));
    acts := Push(h, s, acts, Single(req, Leaving(ContextDone), AtPeer, None, true), Remove(0),
                 Over(req, ContextDone, AtPeer, true));
    acts := Push(h, s, acts, Over(req, ContextDone, AtPeer, true), Handle(0), Over(req, ContextDone, Incoming(r), true));
    acts := Push(h, s, acts, Over(req, ContextDone, Incoming(r), true), Spawn(0),
                 Over(req, ContextDone, Receiving(r), true));
    acts := Push(h, s, acts, Over(req, ContextDone, Receiving(r), true), TakeLock(0), Over(req, ContextDone, Gone, true));
  }
}
