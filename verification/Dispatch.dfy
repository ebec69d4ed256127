/** The handler tables and the dispatch loop of rpc/invoke.go. */
module Dispatch {
  import opened Prelude
  import opened Framing
  import opened Text
  import Rpc

  type Request = Rpc.Request
  type Response = Rpc.Response

  // ---------- messages ----------

  datatype Message = Req(req: Request, path: string) | Resp(resp: Response)

  /** The JSON codec: each message is put in an envelope whose type field is "1" or "2". */
  datatype Codec = Codec(encode: Message -> Body, typeOf: Body -> Option<string>, decode: Body -> Message)

  ghost predicate RoundTrips(c: Codec) {
    forall m: Message :: c.decode(c.encode(m)) == m && c.typeOf(c.encode(m)) == Some(if m.Req? then "1" else "2")
  }

  datatype Invocation = Got(m: Message) | InvalidType | Panic

  /** ReadInvoke on the body of one frame; an envelope without a type makes the type assertion panic. */
  function ReadInvoke(c: Codec, body: Body): Invocation {
    match c.typeOf(body)
    case None => Panic
    case Some(t) => if t != "1" && t != "2" then InvalidType else Got(c.decode(body))
  }

  function EncodeMessages(c: Codec, ms: seq<Message>): seq<Body> {
    if ms == [] then [] else [c.encode(ms[0])] + EncodeMessages(c, ms[1..])
  }

  /** Reads of successive frames, up to the first that is not a message. */
  function ReadMessages(c: Codec, bodies: seq<Body>): seq<Message> {
    if bodies == [] then []
    else match ReadInvoke(c, bodies[0])
      case Got(m) => [m] + ReadMessages(c, bodies[1..])
      case _ => []
  }

  /** However much of the byte stream has arrived, the messages read are a prefix of those written. */
  lemma MessagesArePrefix(c: Codec, ms: seq<Message>, part: seq<byte>)
    requires RoundTrips(c) && part <= EncodeAll(EncodeMessages(c, ms))
    ensures ReadMessages(c, DecodeAll(part)) <= ms
    ensures part == EncodeAll(EncodeMessages(c, ms)) ==> ReadMessages(c, DecodeAll(part)) == ms
  {
    DecodePrefix(part, EncodeMessages(c, ms));
    ReadPrefix(c, ms, DecodeAll(part));
  }

  lemma {:induction false} ReadPrefix(c: Codec, ms: seq<Message>, bodies: seq<Body>)
    requires RoundTrips(c) && bodies <= EncodeMessages(c, ms)
    ensures ReadMessages(c, bodies) <= ms && |ReadMessages(c, bodies)| == |bodies|
    ensures bodies == EncodeMessages(c, ms) ==> ReadMessages(c, bodies) == ms
  {
    if bodies != [] {
      assert bodies[0] == c.encode(ms[0]);
      assert bodies[1..] <= EncodeMessages(c, ms)[1..] == EncodeMessages(c, ms[1..]);
      ReadPrefix(c, ms[1..], bodies[1..]);
    }
  }

  // ---------- handler tables ----------

  /** Handlers are named by numbers. */
  type Table = map<string, nat>

  function FindIn(t: Table, key: string): Option<nat> {
    if key in t then Some(t[key]) else None
  }

  function Lookup(t: Table, path: string): Option<nat> {
    FindIn(t, GetPath(path))
  }

  class InvokeRoute {
    var bidiHandlers: Table
    var uniHandlers: Table

    constructor ()
      ensures bidiHandlers == uniHandlers == map[]
    {
      bidiHandlers, uniHandlers := map[], map[];
    }

    method AddRpcHandler(path: string, handler: nat)
      modifies this`bidiHandlers
      ensures bidiHandlers == ApplyTable(old(bidiHandlers), Add(path, handler))
    {
      bidiHandlers := bidiHandlers[ToLower(TrimSpace(path)) := handler];
    }

    method AddUniHandler(path: string, handler: nat)
      modifies this`uniHandlers
      ensures uniHandlers == ApplyTable(old(uniHandlers), Add(path, handler))
    {
      uniHandlers := uniHandlers[ToLower(TrimSpace(path)) := handler];
    }

    method RemoveRpcHandler(path: string)
      modifies this`bidiHandlers
      ensures bidiHandlers == ApplyTable(old(bidiHandlers), Remove(path))
    {
      bidiHandlers := map k | k in bidiHandlers && k != ToLower(TrimSpace(path)) :: bidiHandlers[k];
    }

    method RemoveUniHandler(path: string)
      modifies this`uniHandlers
      ensures uniHandlers == ApplyTable(old(uniHandlers), Remove(path))
    {
      uniHandlers := map k | k in uniHandlers && k != ToLower(TrimSpace(path)) :: uniHandlers[k];
    }

    /** Which handler the dispatch loop picks for a request: one-way handlers come first. */
    method Route(path: string) returns (target: Target)
      ensures target == Pick(uniHandlers, bidiHandlers, path)
    {
      var key := ToLower(TrimSpace(path));
      if key in uniHandlers {
        return OneWay(uniHandlers[key]);
      }
      if key in bidiHandlers {
        return TwoWay(bidiHandlers[key]);
      }
      return NoHandler;
    }
  }

  datatype TableOp = Add(path: string, handler: nat) | Remove(path: string)

  function ApplyAt(t: Table, key: string, op: TableOp): Table {
    match op
    case Add(_, h) => t[key := h]
    case Remove(_) => t - {key}
  }

  function ApplyTable(t: Table, op: TableOp): Table {
    ApplyAt(t, GetPath(op.path), op)
  }

  function ResultOf(op: TableOp): Option<nat> {
    match op
    case Add(_, h) => Some(h)
    case Remove(_) => None
  }

  function Keys(ops: seq<TableOp>): (keys: seq<string>)
    ensures |keys| == |ops|
    ensures forall i :: 0 <= i < |ops| ==> keys[i] == GetPath(ops[i].path)
  {
    seq(|ops|, i requires 0 <= i < |ops| => GetPath(ops[i].path))
  }

  /** Position i is the last one with this key. */
  ghost predicate LastAt(keys: seq<string>, key: string, i: nat) {
    i < |keys| && keys[i] == key && forall j :: i < j < |keys| ==> keys[j] != key
  }

  /** Operation i is the last one on this path, up to case and outer spaces. */
  ghost predicate LastAbout(ops: seq<TableOp>, path: string, i: nat) {
    LastAt(Keys(ops), GetPath(path), i)
  }

  /** The table after operations on these keys. */
  function AfterAt(keys: seq<string>, ops: seq<TableOp>): Table
    requires |keys| == |ops|
  {
    if ops == [] then map[]
    else
      var n := |ops| - 1;
      ApplyAt(AfterAt(keys[..n], ops[..n]), keys[n], ops[n])
  }

  function AfterOps(ops: seq<TableOp>): Table {
    AfterAt(Keys(ops), ops)
  }

  /** One more operation changes the table as AddUniHandler and the others do. */
  lemma AfterOneMore(ops: seq<TableOp>, op: TableOp)
    ensures AfterOps(ops + [op]) == ApplyTable(AfterOps(ops), op)
  {
    var all := ops + [op];
    assert all[..|ops|] == ops;
    assert Keys(all)[..|ops|] == Keys(ops);
  }

  lemma {:induction false} FoundUnderKey(keys: seq<string>, ops: seq<TableOp>, key: string)
    requires |keys| == |ops|
    ensures forall i: nat :: LastAt(keys, key, i) ==> FindIn(AfterAt(keys, ops), key) == ResultOf(ops[i])
    ensures key !in keys ==> key !in AfterAt(keys, ops)
  {
    if ops != [] {
      var n := |ops| - 1;
      FoundUnderKey(keys[..n], ops[..n], key);
      forall i: nat | LastAt(keys, key, i)
        ensures FindIn(AfterAt(keys, ops), key) == ResultOf(ops[i])
      {
        if i < n {
          assert LastAt(keys[..n], key, i);
        }
      }
    }
  }

  /** A lookup finds what the last operation on that path left, and nothing if there was none. */
  lemma LookupFollowsLastOp(ops: seq<TableOp>, path: string)
    ensures forall i: nat :: LastAbout(ops, path, i) ==> Lookup(AfterOps(ops), path) == ResultOf(ops[i])
    ensures GetPath(path) !in Keys(ops) ==> Lookup(AfterOps(ops), path) == None
  {
    FoundUnderKey(Keys(ops), ops, GetPath(path));
  }

  // ---------- the dispatch loop ----------

  datatype Target = OneWay(handler: nat) | TwoWay(handler: nat) | NoHandler

  function Pick(uni: Table, bidi: Table, path: string): Target {
    match Lookup(uni, path)
    case Some(h) => OneWay(h)
    case None =>
      match Lookup(bidi, path)
      case Some(h) => TwoWay(h)
      case None => NoHandler
  }

  /** No operation on this path is in force: there was none, or the last one removed the handler. */
  ghost predicate Unset(ops: seq<TableOp>, path: string) {
    forall i: nat :: LastAbout(ops, path, i) ==> ops[i].Remove?
  }

  /**
   After any registrations and removals a request goes to the one-way handler
   set last for its path; only if there is none, to the two-way handler set last;
   only if there is none either, nowhere.
   */
  lemma RoutingFollowsOps(uniOps: seq<TableOp>, bidiOps: seq<TableOp>, path: string)
    ensures var target := Pick(AfterOps(uniOps), AfterOps(bidiOps), path);
      && (target.OneWay? <==> !Unset(uniOps, path))
      && (target.TwoWay? <==> Unset(uniOps, path) && !Unset(bidiOps, path))
      && (forall i: nat :: LastAbout(uniOps, path, i) && uniOps[i].Add? ==> target == OneWay(uniOps[i].handler))
      && (forall i: nat :: Unset(uniOps, path) && LastAbout(bidiOps, path, i) && bidiOps[i].Add? ==>
        target == TwoWay(bidiOps[i].handler))
  {
    FoundExactly(uniOps, path);
    FoundExactly(bidiOps, path);
  }

  lemma FoundExactly(ops: seq<TableOp>, path: string)
    ensures Lookup(AfterOps(ops), path).Some? <==> !Unset(ops, path)
    ensures forall i: nat :: LastAbout(ops, path, i) && ops[i].Add? ==> Lookup(AfterOps(ops), path) == Some(ops[i].handler)
  {
    LookupFollowsLastOp(ops, path);
    if GetPath(path) in Keys(ops) {
      var i := LastOccurrence(Keys(ops), GetPath(path));
      assert LastAbout(ops, path, i);
    }
  }

  /** If any operation is about the key, one of them is the last. */
  lemma {:induction false} LastOccurrence(keys: seq<string>, key: string) returns (i: nat)
    requires key in keys
    ensures LastAt(keys, key, i)
  {
    i := |keys| - 1;
    if keys[i] != key {
      i := LastOccurrence(keys[..i], key);
    }
  }

  /** What the loop does with a message: it starts a goroutine, or none. */
  datatype Handling =
    | HandOff(resp: Response)                     // go receiveResponse
    | CallOneWay(handler: nat, req: Request)      // go uniHandler
    | CallTwoWay(handler: nat, req: Request)      // go: call the handler, write its answer
    | Drop(req: Request)

  function Handle(uni: Table, bidi: Table, m: Message): Handling {
    match m
    case Resp(resp) => HandOff(resp)
    case Req(req, path) =>
      match Pick(uni, bidi, path)
      case OneWay(h) => CallOneWay(h, req)
      case TwoWay(h) => CallTwoWay(h, req)
      case NoHandler => Drop(req)
  }

  /**
   A response is handed off. A request is called one way by the handler set last
   for its path; if there is none, two ways by the one set last; else it is dropped.
   */
  lemma HandlingFollowsOps(uniOps: seq<TableOp>, bidiOps: seq<TableOp>, m: Message)
    ensures m.Resp? ==> Handle(AfterOps(uniOps), AfterOps(bidiOps), m) == HandOff(m.resp)
    ensures m.Req? ==> forall i: nat :: LastAbout(uniOps, m.path, i) && uniOps[i].Add? ==>
      Handle(AfterOps(uniOps), AfterOps(bidiOps), m) == CallOneWay(uniOps[i].handler, m.req)
    ensures m.Req? && Unset(uniOps, m.path) ==> forall i: nat :: LastAbout(bidiOps, m.path, i) && bidiOps[i].Add? ==>
      Handle(AfterOps(uniOps), AfterOps(bidiOps), m) == CallTwoWay(bidiOps[i].handler, m.req)
    ensures m.Req? && Unset(uniOps, m.path) && Unset(bidiOps, m.path) ==>
      Handle(AfterOps(uniOps), AfterOps(bidiOps), m) == Drop(m.req)
  {
    if m.Req? {
      RoutingFollowsOps(uniOps, bidiOps, m.path);
    }
  }

  /** What a turn of the loop finds: is the invoker still in the route, is its context done? */
  datatype Check = Check(inRoute: bool, ctxDone: bool)

  datatype Ending = LeftRoute | ClosedAndRemoved | Panicked | StillRunning

  /** The messages of a stream, from what its first frame parses to. */
  function MessagesFrom(c: Codec, p: Parse): seq<Message> {
    if p.Done? && ReadInvoke(c, p.body).Got? then [ReadInvoke(c, p.body).m] + ReadMessages(c, DecodeAll(p.rest)) else []
  }

  lemma FirstMessage(c: Codec, pending: seq<byte>)
    ensures ReadMessages(c, DecodeAll(pending)) == MessagesFrom(c, ParseFrame(pending))
  {
    var p := ParseFrame(pending);
    if p.Done? {
      var all := DecodeAll(pending);
      assert all[0] == p.body && all[1..] == DecodeAll(p.rest);
    }
  }

  /** What a read finds behind the last message: nothing more, or a frame that is no message. */
  function AfterMessages(c: Codec, pending: seq<byte>): Option<Invocation>
    decreases |pending|
  {
    match ParseFrame(pending)
    case NeedMore => None
    case Panics => Some(Panic)
    case Done(b, rest) => if ReadInvoke(c, b).Got? then AfterMessages(c, rest) else Some(ReadInvoke(c, b))
  }

  /** The frame of this body is no message: it has no type, or one other than "1" and "2". */
  ghost predicate NoMessage(c: Codec, body: Body) {
    c.typeOf(body) != Some("1") && c.typeOf(body) != Some("2")
  }

  lemma EncodedFirst(c: Codec, ms: seq<Message>, tail: seq<byte>)
    requires ms != []
    ensures EncodeAll(EncodeMessages(c, ms)) + tail ==
      Frame(c.encode(ms[0])) + (EncodeAll(EncodeMessages(c, ms[1..])) + tail)
  {
    assert EncodeMessages(c, ms)[1..] == EncodeMessages(c, ms[1..]);
  }

  lemma AfterFirst(c: Codec, b: Body, rest: seq<byte>)
    ensures AfterMessages(c, Frame(b) + rest) ==
      if ReadInvoke(c, b).Got? then AfterMessages(c, rest) else Some(ReadInvoke(c, b))
  {
    ParseWholeFrame(b, rest);
  }

  lemma AfterTail(c: Codec, body: Body, rest: seq<byte>)
    requires NoMessage(c, body)
    ensures AfterMessages(c, Frame(body) + rest) == Some(if c.typeOf(body).None? then Panic else InvalidType)
  {
    AfterFirst(c, body, rest);
  }

  /**
   Behind the messages that a peer has written stands the first frame that is no
   message: one without a type makes the loop panic, one with another type does
   not. Of an incomplete frame nothing is found.
   */
  lemma {:induction false} AfterWritten(c: Codec, ms: seq<Message>, tail: seq<byte>)
    requires RoundTrips(c)
    ensures ParseFrame(tail).NeedMore? ==> AfterMessages(c, EncodeAll(EncodeMessages(c, ms)) + tail) == None
    ensures ParseFrame(tail).Panics? ==> AfterMessages(c, EncodeAll(EncodeMessages(c, ms)) + tail) == Some(Panic)
    ensures forall body, rest :: tail == Frame(body) + rest && NoMessage(c, body) ==>
      AfterMessages(c, EncodeAll(EncodeMessages(c, ms)) + tail) ==
        Some(if c.typeOf(body).None? then Panic else InvalidType)
    decreases |ms|
  {
    if ms == [] {
      assert EncodeAll(EncodeMessages(c, ms)) + tail == tail;
      forall body, rest | tail == Frame(body) + rest && NoMessage(c, body)
        ensures AfterMessages(c, tail) == Some(if c.typeOf(body).None? then Panic else InvalidType)
      {
        AfterTail(c, body, rest);
      }
    } else {
      EncodedFirst(c, ms, tail);
      AfterFirst(c, c.encode(ms[0]), EncodeAll(EncodeMessages(c, ms[1..])) + tail);
      AfterWritten(c, ms[1..], tail);
    }
  }

  /** ReadInvoke on the stream: the first message, or what stands there instead. */
  method ReadMessage(stream: Stream, c: Codec) returns (r: Option<Invocation>)
    modifies stream`chunks
    ensures var ms := ReadMessages(c, DecodeAll(old(stream.Pending())));
      if r.Some? && r.value.Got?
      then
        && ms == [r.value.m] + ReadMessages(c, DecodeAll(stream.Pending()))
        && AfterMessages(c, stream.Pending()) == AfterMessages(c, old(stream.Pending()))
      else ms == [] && r == AfterMessages(c, old(stream.Pending()))
  {
    FirstMessage(c, stream.Pending());
    var str := stream.ReadInvokeStr();
    match str {
      case Str(body) => r := Some(ReadInvoke(c, body));
      case ReadPanics => r := Some(Panic);
      case ReadError => r := None;
    }
  }

  /** One turn of the loop. */
  method Turn(stream: Stream, c: Codec, route: InvokeRoute, check: Check) returns (h: Option<Handling>, ending: Ending)
    modifies stream`chunks
    ensures var ms := ReadMessages(c, DecodeAll(old(stream.Pending())));
      if h.Some?
      then
        && check == Check(true, false) && ms != [] && h.value == Handle(route.uniHandlers, route.bidiHandlers, ms[0])
        && ReadMessages(c, DecodeAll(stream.Pending())) == ms[1..]
        && AfterMessages(c, stream.Pending()) == AfterMessages(c, old(stream.Pending()))
      else
        && ending != StillRunning && (ending == LeftRoute <==> !check.inRoute)
        && (ending == ClosedAndRemoved ==> check.ctxDone || ms == [])
        && (ending == Panicked <==>
          ms == [] && check == Check(true, false) && AfterMessages(c, old(stream.Pending())) == Some(Panic))
  {
    if !check.inRoute {
      return None, LeftRoute;
    }
    if check.ctxDone {
      return None, ClosedAndRemoved;
    }
    var r := ReadMessage(stream, c);
    if r.None? || r.value.InvalidType? {
      return None, ClosedAndRemoved;
    }
    if r.value.Panic? {
      return None, Panicked;
    }
    var started := Start(route, r.value.m);
    return Some(started), StillRunning;
  }

  /** What the loop starts for messages it reads one after the other. */
  function HandleEach(uni: Table, bidi: Table, ms: seq<Message>): (hs: seq<Handling>)
    ensures |hs| == |ms| && forall k :: 0 <= k < |ms| ==> hs[k] == Handle(uni, bidi, ms[k])
  {
    seq(|ms|, k requires 0 <= k < |ms| => Handle(uni, bidi, ms[k]))
  }

  /** How the loop ends after n messages. */
  ghost predicate EndsAfter(n: nat, count: nat, checks: seq<Check>, after: Option<Invocation>, ending: Ending) {
    && n <= count && n <= |checks|
    && (ending == StillRunning <==> n == |checks|)
    && (ending == LeftRoute <==> n < |checks| && !checks[n].inRoute)
    && (ending == ClosedAndRemoved ==> checks[n].ctxDone || n == count)
    && (ending == Panicked <==> n == count && n < |checks| && checks[n] == Check(true, false) && after == Some(Panic))
  }

  /**
   The loop over a stream, with one check per turn: the messages on the stream
   are handled one for one and in order, as the tables say. It ends at the first
   turn that finds the invoker out of the route (nothing is closed then), or its
   context done or no further message on the stream.
   */
  method DispatchInvoke(stream: Stream, c: Codec, route: InvokeRoute, checks: seq<Check>)
    returns (handled: seq<Handling>, ending: Ending)
    modifies stream`chunks
    ensures var ms := ReadMessages(c, DecodeAll(old(stream.Pending())));
      && EndsAfter(|handled|, |ms|, checks, AfterMessages(c, old(stream.Pending())), ending)
      && handled == HandleEach(route.uniHandlers, route.bidiHandlers, ms)[..|handled|]
      && forall k :: 0 <= k < |handled| ==> checks[k] == Check(true, false)
  {
    ghost var after := AfterMessages(c, stream.Pending());
    ghost var ms := ReadMessages(c, DecodeAll(stream.Pending()));
    ghost var expected := HandleEach(route.uniHandlers, route.bidiHandlers, ms);
    handled := [];
    for i := 0 to |checks|
      invariant |handled| == i <= |ms|
      invariant ReadMessages(c, DecodeAll(stream.Pending())) == ms[i..]
      invariant AfterMessages(c, stream.Pending()) == after
      invariant handled == expected[..i]
      invariant forall k :: 0 <= k < i ==> checks[k] == Check(true, false)
    {
      var h;
      h, ending := Turn(stream, c, route, checks[i]);
      if h.None? {
        return;
      }
      assert ms[i..][0] == ms[i] && ms[i..][1..] == ms[i + 1..];
      handled := handled + [h.value];
    }
    ending := StillRunning;
  }

  method Start(route: InvokeRoute, m: Message) returns (h: Handling)
    ensures h == Handle(route.uniHandlers, route.bidiHandlers, m)
  {
    match m {
      case Resp(resp) => h := HandOff(resp);
      case Req(req, path) =>
        var uniHandler := Lookup(route.uniHandlers, path);
        if uniHandler.Some? {
          return CallOneWay(uniHandler.value, req);
        }
        var rpcHandler := Lookup(route.bidiHandlers, path);
        if rpcHandler.Some? {
          return CallTwoWay(rpcHandler.value, req);
        }
        h := Drop(req);
    }
  }
}
