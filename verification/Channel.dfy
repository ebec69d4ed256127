/**
 Any number of goroutines writing frames to one stream under the writer lock
 (writeInvokeData), and one reader at the other end (readInvokeStr). Writes and
 reads move arbitrary pieces; the stream may fail at any time.
 */
module Channel {
  import opened Prelude
  import opened Framing

  /** A frame put on the stream by goroutine writer. */
  datatype Entry = Entry(writer: nat, body: Body)

  /**
   todo[w] is what goroutine w has still to write. log lists the frames in the
   order their writers took the lock; unsent is the part of the last one that
   has not been written yet. buf is what the reader holds of the current frame.
   */
  datatype State = State(
    todo: seq<seq<Body>>,
    owner: Option<nat>,
    log: seq<Entry>,
    unsent: seq<byte>,
    queue: seq<byte>,
    buf: seq<byte>,
    decoded: seq<Body>,
    failed: bool)

  function Init(todo: seq<seq<Body>>): State {
    State(todo, None, [], [], [], [], [], false)
  }

  datatype Action = Lock(w: nat) | Put(n: nat) | Unlock | Fail | Take(n: nat)

  ghost predicate Enabled(s: State, a: Action) {
    match a
    case Lock(w) => s.owner.None? && w < |s.todo| && s.todo[w] != []
    case Put(n) => s.owner.Some? && !s.failed && 0 < n <= |s.unsent|
    case Unlock => s.owner.Some? && (s.failed || s.unsent == [])
    case Fail => true
    case Take(n) => 0 < n <= Want(s.buf) && n <= |s.queue|
  }

  function Apply(s: State, a: Action): State
    requires Enabled(s, a)
  {
    match a
    case Lock(w) =>
      var s' := s.(owner := Some(w), todo := s.todo[w := s.todo[w][1..]]);
      // on a failed stream the write returns an error at once
      if s.failed then s'
      else s'.(log := s.log + [Entry(w, s.todo[w][0])], unsent := Frame(s.todo[w][0]))
    case Put(n) => s.(queue := s.queue + s.unsent[..n], unsent := s.unsent[n..])
    case Unlock => s.(owner := None)
    case Fail => s.(failed := true)
    case Take(n) =>
      var buf := s.buf + s.queue[..n];
      var s' := s.(queue := s.queue[n..]);
      match ParseFrame(buf)
      case Done(b, _) => s'.(buf := [], decoded := s.decoded + [b])
      case _ => s'.(buf := buf)
  }

  ghost predicate Run(s: State, acts: seq<Action>, t: State)
    decreases |acts|
  {
    if acts == [] then s == t else Enabled(s, acts[0]) && Run(Apply(s, acts[0]), acts[1..], t)
  }

  function Bodies(log: seq<Entry>): seq<Body> {
    if log == [] then [] else [log[0].body] + Bodies(log[1..])
  }

  /** What goroutine w put on the stream, in order. */
  function WrittenBy(log: seq<Entry>, w: nat): seq<Body> {
    if log == [] then []
    else (if log[0].writer == w then [log[0].body] else []) + WrittenBy(log[1..], w)
  }

  // ---------- invariant ----------

  /** Nothing is lost or reordered between the log and the reader. */
  ghost predicate WireInv(s: State) {
    && EncodeAll(s.decoded) + s.buf + s.queue + s.unsent == EncodeAll(Bodies(s.log))
    && s.decoded <= Bodies(s.log)
    && (s.decoded == Bodies(s.log) ==> s.buf == [])
    && (|s.decoded| < |Bodies(s.log)| ==> s.buf < Frame(Bodies(s.log)[|s.decoded|]))
    && (s.owner.None? && !s.failed ==> s.unsent == [])
  }

  /** Each goroutine's frames appear in the order in which it writes them. */
  ghost predicate OrderInv(s: State, todo0: seq<seq<Body>>) {
    && |s.todo| == |todo0|
    && (forall w :: 0 <= w < |todo0| ==> WrittenBy(s.log, w) <= todo0[w])
    && (!s.failed ==> forall w :: 0 <= w < |todo0| ==> WrittenBy(s.log, w) + s.todo[w] == todo0[w])
    && (forall i :: 0 <= i < |s.log| ==> s.log[i].writer < |todo0|)
  }

  lemma {:induction false} PushLog(log: seq<Entry>, e: Entry)
    ensures Bodies(log + [e]) == Bodies(log) + [e.body]
    ensures forall w :: WrittenBy(log + [e], w) == WrittenBy(log, w) + (if e.writer == w then [e.body] else [])
  {
    if log == [] {
      assert log + [e] == [e];
    } else {
      PushLog(log[1..], e);
      assert (log + [e])[1..] == log[1..] + [e];
    }
  }

  /** What follows the decoded frames is the frames still to be decoded. */
  lemma Remainder(s: State)
    requires WireInv(s)
    ensures s.buf + s.queue + s.unsent == EncodeAll(Bodies(s.log)[|s.decoded|..])
  {
    var all := Bodies(s.log);
    var d := |s.decoded|;
    assert all == s.decoded + all[d..];
    EncodeAllAppend(s.decoded, all[d..]);
    SameTail(EncodeAll(s.decoded), s.buf + s.queue + s.unsent, EncodeAll(all[d..]));
  }

  lemma SameTail(a: seq<byte>, x: seq<byte>, y: seq<byte>)
    requires a + x == a + y
    ensures x == y
  {
    assert x == (a + x)[|a|..] == (a + y)[|a|..] == y;
  }

  lemma LockKeepsWire(s: State, w: nat)
    requires WireInv(s) && Enabled(s, Lock(w))
    ensures WireInv(Apply(s, Lock(w)))
  {
    if !s.failed {
      var e := Entry(w, s.todo[w][0]);
      PushLog(s.log, e);
      EncodeAllPush(Bodies(s.log), e.body);
      Remainder(s);
      if s.decoded == Bodies(s.log) {
        assert Bodies(s.log)[|s.decoded|..] == [];
        assert s.buf + s.queue + s.unsent == [];
      }
    }
  }

  lemma LockKeepsOrder(s: State, w: nat, todo0: seq<seq<Body>>)
    requires OrderInv(s, todo0) && Enabled(s, Lock(w))
    ensures OrderInv(Apply(s, Lock(w)), todo0)
  {
    if !s.failed {
      var e := Entry(w, s.todo[w][0]);
      PushLog(s.log, e);
      assert [e.body] + s.todo[w][1..] == s.todo[w];
      forall v | 0 <= v < |todo0|
        ensures WrittenBy(s.log + [e], v) + Apply(s, Lock(w)).todo[v] == todo0[v]
      {
        if v == w {
          assert WrittenBy(s.log, w) + [e.body] + s.todo[w][1..] == WrittenBy(s.log, w) + s.todo[w];
        }
      }
    }
  }

  lemma PutKeeps(s: State, n: nat)
    requires WireInv(s) && Enabled(s, Put(n))
    ensures WireInv(Apply(s, Put(n)))
  {
    assert s.unsent == s.unsent[..n] + s.unsent[n..];
  }

  /** As long as bytes are on their way, a frame remains to be decoded and the reader holds a part of it. */
  lemma NextFrame(s: State)
    requires WireInv(s) && s.queue != []
    ensures |s.decoded| < |Bodies(s.log)|
    ensures s.buf + s.queue + s.unsent
         == Frame(Bodies(s.log)[|s.decoded|]) + EncodeAll(Bodies(s.log)[|s.decoded| + 1..])
  {
    var all := Bodies(s.log);
    var rest := all[|s.decoded|..];
    Remainder(s);
    assert EncodeAll(rest) != [];
    assert rest != [];
    assert rest[1..] == all[|s.decoded| + 1..];
  }

  lemma CutWithin(buf: seq<byte>, more: seq<byte>, f: seq<byte>, rest: seq<byte>)
    requires buf + more == f + rest && |buf| <= |f|
    ensures buf <= f
  {
    assert buf == (buf + more)[..|buf|] == (f + rest)[..|buf|] == f[..|buf|];
  }

  /** The reader asks for no more than the missing part of the frame, so it stops exactly at its end. */
  lemma TakeStaysInFrame(s: State, n: nat)
    requires WireInv(s) && Enabled(s, Take(n))
    ensures |s.decoded| < |Bodies(s.log)|
    ensures s.buf + s.queue[..n] <= Frame(Bodies(s.log)[|s.decoded|])
  {
    NextFrame(s);
    var b := Bodies(s.log)[|s.decoded|];
    var buf := s.buf + s.queue[..n];
    PartOfFrame(b, s.buf);
    assert s.queue == s.queue[..n] + s.queue[n..];
    assert buf + (s.queue[n..] + s.unsent) == s.buf + s.queue + s.unsent;
    CutWithin(buf, s.queue[n..] + s.unsent, Frame(b), EncodeAll(Bodies(s.log)[|s.decoded| + 1..]));
  }

  lemma TakeKeeps(s: State, n: nat)
    requires WireInv(s) && Enabled(s, Take(n))
    ensures WireInv(Apply(s, Take(n)))
  {
    var all := Bodies(s.log);
    var d := |s.decoded|;
    TakeStaysInFrame(s, n);
    var buf := s.buf + s.queue[..n];
    PartOfFrame(all[d], buf);
    assert s.queue == s.queue[..n] + s.queue[n..];
    assert s.buf + s.queue == buf + s.queue[n..];
    if buf == Frame(all[d]) {
      TakeDecodes(s, n);
    } else {
      assert EncodeAll(s.decoded) + buf + s.queue[n..] + s.unsent
          == EncodeAll(s.decoded) + s.buf + s.queue + s.unsent;
    }
  }

  lemma SameWire(done: seq<byte>, buf: seq<byte>, queue: seq<byte>, n: nat, unsent: seq<byte>, f: seq<byte>)
    requires n <= |queue| && buf + queue[..n] == f
    ensures (done + f) + [] + queue[n..] + unsent == done + buf + queue + unsent
  {
    assert queue == queue[..n] + queue[n..];
    assert done + buf + queue == done + (buf + queue[..n]) + queue[n..];
  }

  lemma TakeDecodes(s: State, n: nat)
    requires WireInv(s) && Enabled(s, Take(n)) && |s.decoded| < |Bodies(s.log)|
    requires s.buf + s.queue[..n] == Frame(Bodies(s.log)[|s.decoded|])
    ensures WireInv(Apply(s, Take(n)))
  {
    var all := Bodies(s.log);
    var d := |s.decoded|;
    PartOfFrame(all[d], Frame(all[d]));
    EncodeAllPush(s.decoded, all[d]);
    assert all[..d + 1] == all[..d] + [all[d]] == s.decoded + [all[d]];
    SameWire(EncodeAll(s.decoded), s.buf, s.queue, n, s.unsent, Frame(all[d]));
    if d + 1 < |all| {
      assert |Frame(all[d + 1])| > 0;
    }
  }

  lemma {:induction false} RunKeepsInv(s: State, acts: seq<Action>, t: State, todo0: seq<seq<Body>>)
    requires WireInv(s) && OrderInv(s, todo0) && Run(s, acts, t)
    ensures WireInv(t) && OrderInv(t, todo0)
    decreases |acts|
  {
    if acts != [] {
      match acts[0] {
        case Lock(w) =>
          LockKeepsWire(s, w);
          LockKeepsOrder(s, w, todo0);
        case Put(n) => PutKeeps(s, n);
        case Take(n) => TakeKeeps(s, n);
        case _ =>
      }
      RunKeepsInv(Apply(s, acts[0]), acts[1..], t, todo0);
    }
  }

  // ---------- main results ----------

  /**
   In every reachable state the decoded bodies are a prefix of the frames in
   the order in which the writer lock was taken, and that order keeps the order
   of each writer.
   */
  lemma DecodedIsLinearisation(todo0: seq<seq<Body>>, acts: seq<Action>, t: State)
    requires Run(Init(todo0), acts, t)
    ensures t.decoded <= Bodies(t.log)
    ensures forall w :: 0 <= w < |todo0| ==> WrittenBy(t.log, w) <= todo0[w]
  {
    RunKeepsInv(Init(todo0), acts, t, todo0);
  }

  lemma HeadOfRemainder(bodies: seq<Body>, d: nat)
    requires d <= |bodies|
    ensures d < |bodies| ==> |EncodeAll(bodies[d..])| >= |Frame(bodies[d])|
  {
  }

  /** Once everybody is done and nothing is in flight, everything has been decoded. */
  lemma AllDecodedAtRest(todo0: seq<seq<Body>>, acts: seq<Action>, t: State)
    requires Run(Init(todo0), acts, t)
    requires !t.failed && t.owner.None? && t.queue == []
    requires forall w :: 0 <= w < |t.todo| ==> t.todo[w] == []
    ensures t.decoded == Bodies(t.log) && t.buf == []
    ensures forall w :: 0 <= w < |todo0| ==> WrittenBy(t.log, w) == todo0[w]
  {
    RunKeepsInv(Init(todo0), acts, t, todo0);
    Remainder(t);
    assert t.buf == EncodeAll(Bodies(t.log)[|t.decoded|..]);
    HeadOfRemainder(Bodies(t.log), |t.decoded|);
    forall w | 0 <= w < |todo0| ensures WrittenBy(t.log, w) == todo0[w] {
      assert WrittenBy(t.log, w) + t.todo[w] == WrittenBy(t.log, w);
    }
  }

  /** The reader never panics and, while bytes are queued, it can always take some. */
  lemma ReaderNeverStuck(todo0: seq<seq<Body>>, acts: seq<Action>, t: State)
    requires Run(Init(todo0), acts, t)
    ensures ParseFrame(t.buf) == NeedMore
    ensures t.queue != [] ==> Enabled(t, Take(1))
  {
    RunKeepsInv(Init(todo0), acts, t, todo0);
    if |t.decoded| < |Bodies(t.log)| {
      PartOfFrame(Bodies(t.log)[|t.decoded|], t.buf);
    }
  }

  // ---------- everything can get through ----------

  /** Frames that nobody has begun to write. */
  function ToWrite(todo: seq<seq<Body>>): nat {
    if todo == [] then 0 else |todo[0]| + ToWrite(todo[1..])
  }

  lemma {:induction false} ToWriteUpdate(todo: seq<seq<Body>>, w: nat, frames: seq<Body>)
    requires w < |todo|
    ensures ToWrite(todo[w := frames]) == ToWrite(todo) - |todo[w]| + |frames|
  {
    if w == 0 {
      assert todo[0 := frames][1..] == todo[1..];
    } else {
      ToWriteUpdate(todo[1..], w - 1, frames);
      assert todo[w := frames][1..] == todo[1..][w - 1 := frames];
    }
  }

  ghost predicate AtRest(s: State) {
    s.owner.None? && s.queue == [] && forall w :: 0 <= w < |s.todo| ==> s.todo[w] == []
  }

  lemma KeepsInv(s: State, a: Action, todo0: seq<seq<Body>>)
    requires WireInv(s) && OrderInv(s, todo0) && Enabled(s, a)
    ensures WireInv(Apply(s, a)) && OrderInv(Apply(s, a), todo0)
  {
    var t := Apply(s, a);
    assert [a][1..] == [] && Run(t, [], t);
    RunKeepsInv(s, [a], t, todo0);
  }

  /** Somebody can move, unless all is done. */
  lemma NextStep(s: State) returns (a: Action)
    requires WireInv(s) && !s.failed && !AtRest(s)
    ensures Enabled(s, a) && a != Fail && !Apply(s, a).failed
    ensures var t := Apply(s, a);
      || ToWrite(t.todo) < ToWrite(s.todo)
      || (t.todo == s.todo && |t.unsent| < |s.unsent|)
      || (t.todo == s.todo && t.unsent == s.unsent && s.owner.Some? && t.owner.None?)
      || (t.todo == s.todo && t.unsent == s.unsent && t.owner == s.owner && |t.queue| < |s.queue|)
  {
    if s.queue != [] {
      a := Take(1);
      NextFrame(s);
      if |s.decoded| < |Bodies(s.log)| {
        PartOfFrame(Bodies(s.log)[|s.decoded|], s.buf);
      }
    } else if s.owner.Some? {
      a := if s.unsent == [] then Unlock else Put(1);
    } else {
      var w :| 0 <= w < |s.todo| && s.todo[w] != [];
      a := Lock(w);
      ToWriteUpdate(s.todo, w, s.todo[w][1..]);
    }
  }

  /**
   From every state in which the stream has not failed there is a run to the end:
   every writer gets the lock for all its frames, and all of them are decoded.
   */
  lemma {:induction false} AllGetThrough(s: State, todo0: seq<seq<Body>>) returns (acts: seq<Action>, t: State)
    requires WireInv(s) && OrderInv(s, todo0) && !s.failed
    ensures Run(s, acts, t) && AtRest(t) && !t.failed && Fail !in acts && WireInv(t) && OrderInv(t, todo0)
    decreases ToWrite(s.todo), |s.unsent|, s.owner.Some?, |s.queue|
  {
    if AtRest(s) {
      acts, t := [], s;
    } else {
      var a := NextStep(s);
      KeepsInv(s, a, todo0);
      var rest;
      rest, t := AllGetThrough(Apply(s, a), todo0);
      acts := [a] + rest;
      assert acts[1..] == rest;
    }
  }

  /** So nothing that a run has done keeps any frame from being decoded later. */
  lemma EverythingArrives(todo0: seq<seq<Body>>, acts: seq<Action>, s: State) returns (more: seq<Action>, t: State)
    requires Run(Init(todo0), acts, s) && !s.failed
    ensures Run(s, more, t) && t.decoded == Bodies(t.log) && t.buf == []
    ensures forall w :: 0 <= w < |todo0| ==> WrittenBy(t.log, w) == todo0[w]
  {
    RunKeepsInv(Init(todo0), acts, s, todo0);
    more, t := AllGetThrough(s, todo0);
    RunJoins(Init(todo0), acts, s, more, t);
    AllDecodedAtRest(todo0, acts + more, t);
  }

  lemma {:induction false} RunJoins(s: State, acts: seq<Action>, t: State, more: seq<Action>, u: State)
    requires Run(s, acts, t) && Run(t, more, u)
    ensures Run(s, acts + more, u)
    decreases |acts|
  {
    if acts == [] {
      assert [] + more == more;
    } else {
      RunJoins(Apply(s, acts[0]), acts[1..], t, more, u);
      assert (acts + more)[0] == acts[0] && (acts + more)[1..] == acts[1..] + more;
    }
  }

  /** After a failure nothing more is written; what has been written can still be read. */
  lemma {:induction false} NothingAfterFailure(s: State, acts: seq<Action>, t: State)
    requires Run(s, acts, t) && s.failed
    ensures t.failed && t.log == s.log && t.unsent == s.unsent && |t.queue| <= |s.queue|
    ensures t.queue == s.queue[|s.queue| - |t.queue|..]
    decreases |acts|
  {
    if acts != [] {
      NothingAfterFailure(Apply(s, acts[0]), acts[1..], t);
    }
  }

  /** A stream fails once and for all. */
  lemma {:induction false} FailedExactly(s: State, acts: seq<Action>, t: State)
    requires Run(s, acts, t)
    ensures t.failed <==> s.failed || Fail in acts
    decreases |acts|
  {
    if acts != [] {
      FailedExactly(Apply(s, acts[0]), acts[1..], t);
    }
  }

  /** No writer is left waiting by a failure: each of them gets the lock for every frame it still has, and its error. */
  lemma {:induction false} WritersReturn(s: State) returns (acts: seq<Action>, t: State)
    requires s.failed
    ensures Run(s, acts, t) && t.owner.None? && t.log == s.log && forall w :: 0 <= w < |t.todo| ==> t.todo[w] == []
    decreases ToWrite(s.todo), s.owner.Some?
  {
    if s.owner.None? && forall w :: 0 <= w < |s.todo| ==> s.todo[w] == [] {
      acts, t := [], s;
    } else {
      var a := Unlock;
      if s.owner.None? {
        var w :| 0 <= w < |s.todo| && s.todo[w] != [];
        a := Lock(w);
        ToWriteUpdate(s.todo, w, s.todo[w][1..]);
      }
      var rest;
      rest, t := WritersReturn(Apply(s, a));
      acts := [a] + rest;
      assert acts[1..] == rest;
    }
  }
}
