/**
 A whole tunnel: the listener's socket, its stream to the node, the node's
 relay, the target's stream and the target's socket. Each of the two clients is
 an End: it dials a stream, writes one header frame (ListenIn at the listener,
 TransferGo at the target) and then copies raw bytes both ways. The node reads
 that one frame (ConnectionIn) and later joins the two streams (Invoker.Copy).
 */
module Tunnel {
  import opened Prelude
  import opened Framing
  import H = Handshake

  /** One io.Copy loop: the chunk it has read and not yet written; a closed source or sink stops it for good. */
  datatype Copier = Copier(hold: seq<byte>, stopped: bool)

  /**
   inRead: bytes read from the local socket; rawUp: those written to the stream;
   nodeRaw: those the node's relay has read; outWritten: bytes written to the
   local socket. headerLeft is the part of the header frame not yet written,
   nodeBuf what the node holds of it, nodeGot the header once it is complete.
   */
  datatype End = End(
    link: H.Link, header: Body, headerLeft: seq<byte>,
    inRead: seq<byte>, up: Copier, rawUp: seq<byte>,
    nodeBuf: seq<byte>, nodeGot: Option<Body>, nodeRaw: seq<byte>,
    down: Copier, outWritten: seq<byte>)

  datatype EndAction =
    | Shake(h: H.Action)
    | PutHeader(n: nat) | TakeHeader(n: nat)
    | ReadSocket(p: seq<byte>) | WriteUp(n: nat)
    | ReadDown(n: nat) | WriteSocket(n: nat)
    | StopUp | StopDown

  ghost predicate Idle(c: Copier) {
    !c.stopped && c.hold == []
  }

  ghost predicate EndEnabled(e: End, a: EndAction) {
    match a
    case Shake(h) => (h.Push? || h.OverRead? || h.PutId? || h.TakeId?) && H.Enabled(e.link, h)
    case PutHeader(n) => e.link.d.Open? && 0 < n <= |e.headerLeft|
    case TakeHeader(n) =>
      e.link.a.Ready? && e.nodeGot.None? && 0 < n <= Want(e.nodeBuf) && n <= |e.link.up|
    case ReadSocket(p) => e.link.d.Open? && e.headerLeft == [] && Idle(e.up)
    case WriteUp(n) => e.link.d.Open? && !e.up.stopped && 0 < n <= |e.up.hold|
    case ReadDown(n) =>
      e.link.d.Open? && e.headerLeft == [] && Idle(e.down) && 0 < n <= |e.link.down|
    case WriteSocket(n) => !e.down.stopped && 0 < n <= |e.down.hold|
    case StopUp => true
    case StopDown => true
  }

  function EndApply(e: End, a: EndAction): End
    requires EndEnabled(e, a)
  {
    match a
    case Shake(h) => e.(link := H.Apply(e.link, h))
    case PutHeader(n) =>
      e.(link := H.Apply(e.link, H.DialerWrite(e.headerLeft[..n])), headerLeft := e.headerLeft[n..])
    case TakeHeader(n) =>
      var buf := e.nodeBuf + e.link.up[..n];
      e.(link := H.Apply(e.link, H.AcceptorRead(n)), nodeBuf := buf,
         nodeGot := match ParseFrame(buf) case Done(b, _) => Some(b) case _ => None)
    case ReadSocket(p) => e.(inRead := e.inRead + p, up := e.up.(hold := p))
    case WriteUp(n) =>
      e.(link := H.Apply(e.link, H.DialerWrite(e.up.hold[..n])),
         rawUp := e.rawUp + e.up.hold[..n], up := e.up.(hold := e.up.hold[n..]))
    case ReadDown(n) =>
      e.(link := H.Apply(e.link, H.DialerRead(n)), down := e.down.(hold := e.link.down[..n]))
    case WriteSocket(n) =>
      e.(outWritten := e.outWritten + e.down.hold[..n], down := e.down.(hold := e.down.hold[n..]))
    case StopUp => e.(up := e.up.(stopped := true))
    case StopDown => e.(down := e.down.(stopped := true))
  }

  /** xy copies from x's stream to y's, yx the other way. */
  datatype State = State(x: End, y: End, joined: bool, xy: Copier, yx: Copier)

  datatype Action =
    | AtX(a: EndAction) | AtY(a: EndAction)
    | Join                    // onInvokerTransferGo: both headers are in, start Copy
    | RelayReadX(n: nat) | RelayWriteY(n: nat)
    | RelayReadY(n: nat) | RelayWriteX(n: nat)
    | StopXY | StopYX

  /** The acceptor's side of the handshake is over (always so once the header is in). */
  ghost predicate NodeCanUse(e: End) {
    e.link.a.Ready?
  }

  ghost predicate Enabled(s: State, a: Action) {
    match a
    case AtX(b) => EndEnabled(s.x, b)
    case AtY(b) => EndEnabled(s.y, b)
    case Join => !s.joined && s.x.nodeGot.Some? && s.y.nodeGot.Some?
    case RelayReadX(n) => s.joined && NodeCanUse(s.x) && Idle(s.xy) && 0 < n <= |s.x.link.up|
    case RelayReadY(n) => s.joined && NodeCanUse(s.y) && Idle(s.yx) && 0 < n <= |s.y.link.up|
    case RelayWriteY(n) => s.joined && NodeCanUse(s.y) && !s.xy.stopped && 0 < n <= |s.xy.hold|
    case RelayWriteX(n) => s.joined && NodeCanUse(s.x) && !s.yx.stopped && 0 < n <= |s.yx.hold|
    case StopXY => true
    case StopYX => true
  }

  function NodeRead(e: End, n: nat): End
    requires NodeCanUse(e) && n <= |e.link.up|
  {
    e.(link := H.Apply(e.link, H.AcceptorRead(n)), nodeRaw := e.nodeRaw + e.link.up[..n])
  }

  function NodeWrite(e: End, p: seq<byte>): End
    requires NodeCanUse(e)
  {
    e.(link := H.Apply(e.link, H.AcceptorWrite(p)))
  }

  function Apply(s: State, a: Action): State
    requires Enabled(s, a)
  {
    match a
    case AtX(b) => s.(x := EndApply(s.x, b))
    case AtY(b) => s.(y := EndApply(s.y, b))
    case Join => s.(joined := true)
    case RelayReadX(n) => s.(x := NodeRead(s.x, n), xy := s.xy.(hold := s.x.link.up[..n]))
    case RelayReadY(n) => s.(y := NodeRead(s.y, n), yx := s.yx.(hold := s.y.link.up[..n]))
    case RelayWriteY(n) => s.(y := NodeWrite(s.y, s.xy.hold[..n]), xy := s.xy.(hold := s.xy.hold[n..]))
    case RelayWriteX(n) => s.(x := NodeWrite(s.x, s.yx.hold[..n]), yx := s.yx.(hold := s.yx.hold[n..]))
    case StopXY => s.(xy := s.xy.(stopped := true))
    case StopYX => s.(yx := s.yx.(stopped := true))
  }

  function InitEnd(id: Body, header: Body): End {
    End(H.Init(id), header, Frame(header), [], Copier([], false), [], [], None, [], Copier([], false), [])
  }

  function Init(listenId: Body, targetId: Body, listenIn: Body, transferGo: Body): State {
    State(InitEnd(listenId, listenIn), InitEnd(targetId, transferGo), false, Copier([], false), Copier([], false))
  }

  ghost predicate Run(s: State, acts: seq<Action>, t: State)
    decreases |acts|
  {
    if acts == [] then s == t else Enabled(s, acts[0]) && Run(Apply(s, acts[0]), acts[1..], t)
  }

  // ---------- invariant ----------

  /** What a copier has written so far, given everything it has read. */
  ghost predicate Copied(read: seq<byte>, written: seq<byte>, c: Copier) {
    if c.stopped then written <= read else written + c.hold == read
  }

  ghost predicate NodeInv(e: End) {
    match e.nodeGot
    case None => e.link.upGot == e.nodeBuf && e.nodeBuf < Frame(e.header) && e.nodeRaw == []
    case Some(b) =>
      b == e.header && e.link.a.Ready? && e.link.upGot == Frame(e.header) + e.nodeRaw
  }

  ghost predicate EndInv(e: End) {
    && H.Inv(e.link)
    && e.link.upSent + e.headerLeft == Frame(e.header) + e.rawUp
    && (e.headerLeft != [] ==> e.rawUp == e.inRead == [] && e.up.hold == [])
    && Copied(e.inRead, e.rawUp, e.up)
    && Copied(e.link.downGot, e.outWritten, e.down)
    && NodeInv(e)
  }

  ghost predicate Inv(s: State) {
    && EndInv(s.x) && EndInv(s.y)
    && Copied(s.x.nodeRaw, s.y.link.downSent, s.xy)
    && Copied(s.y.nodeRaw, s.x.link.downSent, s.yx)
    && (s.joined ==> s.x.nodeGot.Some? && s.y.nodeGot.Some?)
  }

  lemma CopierReads(read: seq<byte>, written: seq<byte>, c: Copier, p: seq<byte>)
    requires Copied(read, written, c) && Idle(c)
    ensures Copied(read + p, written, c.(hold := p))
  {
  }

  lemma CopierWrites(read: seq<byte>, written: seq<byte>, c: Copier, n: nat)
    requires Copied(read, written, c) && !c.stopped && n <= |c.hold|
    ensures Copied(read, written + c.hold[..n], c.(hold := c.hold[n..]))
  {
    assert c.hold == c.hold[..n] + c.hold[n..];
  }

  lemma CopierStops(read: seq<byte>, written: seq<byte>, c: Copier)
    requires Copied(read, written, c)
    ensures Copied(read, written, c.(stopped := true))
  {
  }

  /** The part of the stream the node has not read yet. */
  lemma NodeView(e: End)
    requires EndInv(e) && e.link.a.Ready?
    ensures e.link.upGot + e.link.up + e.headerLeft == Frame(e.header) + e.rawUp
  {
  }

  /** The node stops reading exactly at the end of the header frame. */
  lemma TakeHeaderKeeps(e: End, n: nat)
    requires EndInv(e) && EndEnabled(e, TakeHeader(n))
    ensures EndInv(EndApply(e, TakeHeader(n)))
    ensures var e' := EndApply(e, TakeHeader(n));
      e'.link.upGot <= Frame(e.header) && (e'.nodeGot == Some(e.header) <==> e'.link.upGot == Frame(e.header))
  {
    var f := Frame(e.header);
    var up := e.link.up;
    var buf := e.nodeBuf + up[..n];
    H.ActionKeeps(e.link, H.AcceptorRead(n));
    NodeView(e);
    PartOfFrame(e.header, e.nodeBuf);
    assert up == up[..n] + up[n..];
    assert buf + (up[n..] + e.headerLeft) == f + e.rawUp;
    assert buf == (f + e.rawUp)[..|buf|] == f[..|buf|];
    PartOfFrame(e.header, buf);
    if buf == f {
      assert f + [] == f;
    }
  }

  lemma PutHeaderKeeps(e: End, n: nat)
    requires EndInv(e) && EndEnabled(e, PutHeader(n))
    ensures EndInv(EndApply(e, PutHeader(n)))
  {
    H.ActionKeeps(e.link, H.DialerWrite(e.headerLeft[..n]));
    assert e.headerLeft == e.headerLeft[..n] + e.headerLeft[n..];
    assert e.link.upSent + e.headerLeft[..n] + e.headerLeft[n..] == e.link.upSent + e.headerLeft;
  }

  lemma WriteUpKeeps(e: End, n: nat)
    requires EndInv(e) && EndEnabled(e, WriteUp(n))
    ensures EndInv(EndApply(e, WriteUp(n)))
  {
    var p := e.up.hold[..n];
    H.ActionKeeps(e.link, H.DialerWrite(p));
    CopierWrites(e.inRead, e.rawUp, e.up, n);
    assert e.link.upSent + p + [] == (e.link.upSent + []) + p;
    assert Frame(e.header) + e.rawUp + p == Frame(e.header) + (e.rawUp + p);
  }

  lemma EndActionKeeps(e: End, a: EndAction)
    requires EndInv(e) && EndEnabled(e, a)
    ensures EndInv(EndApply(e, a))
  {
    match a
    case Shake(h) => H.ActionKeeps(e.link, h);
    case PutHeader(n) => PutHeaderKeeps(e, n);
    case TakeHeader(n) => TakeHeaderKeeps(e, n);
    case ReadSocket(p) => CopierReads(e.inRead, e.rawUp, e.up, p);
    case WriteUp(n) => WriteUpKeeps(e, n);
    case ReadDown(n) =>
      H.ActionKeeps(e.link, H.DialerRead(n));
      CopierReads(e.link.downGot, e.outWritten, e.down, e.link.down[..n]);
    case WriteSocket(n) => CopierWrites(e.link.downGot, e.outWritten, e.down, n);
    case StopUp => CopierStops(e.inRead, e.rawUp, e.up);
    case StopDown => CopierStops(e.link.downGot, e.outWritten, e.down);
  }

  /** What an end does on its own stays out of what the relay has read and written. */
  lemma EndActionLeavesRelayAlone(e: End, a: EndAction)
    requires EndInv(e) && EndEnabled(e, a)
    ensures EndApply(e, a).nodeRaw == e.nodeRaw && EndApply(e, a).link.downSent == e.link.downSent
    ensures e.nodeGot.Some? ==> EndApply(e, a).nodeGot.Some?
  {
  }

  lemma NodeReadKeeps(e: End, n: nat)
    requires EndInv(e) && e.nodeGot.Some? && n <= |e.link.up|
    ensures EndInv(NodeRead(e, n))
  {
    H.ActionKeeps(e.link, H.AcceptorRead(n));
    assert Frame(e.header) + e.nodeRaw + e.link.up[..n] == Frame(e.header) + (e.nodeRaw + e.link.up[..n]);
  }

  lemma NodeWriteKeeps(e: End, p: seq<byte>)
    requires EndInv(e) && e.nodeGot.Some?
    ensures EndInv(NodeWrite(e, p))
  {
    H.ActionKeeps(e.link, H.AcceptorWrite(p));
  }

  lemma ActionKeeps(s: State, a: Action)
    requires Inv(s) && Enabled(s, a)
    ensures Inv(Apply(s, a))
  {
    match a
    case AtX(b) => EndActionKeeps(s.x, b); EndActionLeavesRelayAlone(s.x, b);
    case AtY(b) => EndActionKeeps(s.y, b); EndActionLeavesRelayAlone(s.y, b);
    case RelayReadX(n) =>
      NodeReadKeeps(s.x, n);
      CopierReads(s.x.nodeRaw, s.y.link.downSent, s.xy, s.x.link.up[..n]);
    case RelayReadY(n) =>
      NodeReadKeeps(s.y, n);
      CopierReads(s.y.nodeRaw, s.x.link.downSent, s.yx, s.y.link.up[..n]);
    case RelayWriteY(n) =>
      NodeWriteKeeps(s.y, s.xy.hold[..n]);
      CopierWrites(s.x.nodeRaw, s.y.link.downSent, s.xy, n);
    case RelayWriteX(n) =>
      NodeWriteKeeps(s.x, s.yx.hold[..n]);
      CopierWrites(s.y.nodeRaw, s.x.link.downSent, s.yx, n);
    case StopXY => CopierStops(s.x.nodeRaw, s.y.link.downSent, s.xy);
    case StopYX => CopierStops(s.y.nodeRaw, s.x.link.downSent, s.yx);
    case Join =>
  }

  lemma {:induction false} RunKeepsInv(s: State, acts: seq<Action>, t: State)
    requires Inv(s) && Run(s, acts, t)
    ensures Inv(t)
    decreases |acts|
  {
    if acts != [] {
      ActionKeeps(s, acts[0]);
      RunKeepsInv(Apply(s, acts[0]), acts[1..], t);
    }
  }

  lemma InitInv(listenId: Body, targetId: Body, listenIn: Body, transferGo: Body)
    ensures Inv(Init(listenId, targetId, listenIn, transferGo))
  {
    assert [] + Frame(listenIn) == Frame(listenIn) + [];
    assert [] + Frame(transferGo) == Frame(transferGo) + [];
  }

  // ---------- main results ----------

  /** From the socket of one end to the socket of the other, given the invariant. */
  lemma OneWay(e: End, f: End, c: Copier)
    requires EndInv(e) && EndInv(f) && Copied(e.nodeRaw, f.link.downSent, c)
    ensures f.outWritten <= e.inRead
    ensures e.nodeRaw <= e.rawUp
  {
    assert f.outWritten <= f.link.downGot <= f.link.downSent <= e.nodeRaw;
    if e.nodeGot.Some? {
      var h := Frame(e.header);
      NodeView(e);
      assert h + (e.nodeRaw + e.link.up + e.headerLeft) == h + e.nodeRaw + e.link.up + e.headerLeft;
      assert e.nodeRaw + e.link.up + e.headerLeft == (h + e.rawUp)[|h|..] == e.rawUp;
    }
    assert e.rawUp <= e.inRead;
  }

  /**
   Tunnel transparency. In every reachable state the bytes written to either
   socket are a prefix of the bytes read from the other; each header frame
   reaches the node whole and no byte of it is taken for data.
   */
  lemma Transparent(listenId: Body, targetId: Body, listenIn: Body, transferGo: Body, acts: seq<Action>, t: State)
    requires Run(Init(listenId, targetId, listenIn, transferGo), acts, t)
    ensures t.y.outWritten <= t.x.inRead && t.x.outWritten <= t.y.inRead
    ensures t.x.nodeGot in {None, Some(listenIn)} && t.y.nodeGot in {None, Some(transferGo)}
    ensures t.joined ==> t.x.nodeGot == Some(listenIn) && t.y.nodeGot == Some(transferGo)
  {
    InitInv(listenId, targetId, listenIn, transferGo);
    RunKeepsInv(Init(listenId, targetId, listenIn, transferGo), acts, t);
    RunKeepsHeaders(Init(listenId, targetId, listenIn, transferGo), acts, t);
    OneWay(t.x, t.y, t.xy);
    OneWay(t.y, t.x, t.yx);
  }

  lemma {:induction false} RunKeepsHeaders(s: State, acts: seq<Action>, t: State)
    requires Run(s, acts, t)
    ensures t.x.header == s.x.header && t.y.header == s.y.header
    decreases |acts|
  {
    if acts != [] {
      RunKeepsHeaders(Apply(s, acts[0]), acts[1..], t);
    }
  }

  /** Nothing left on the way from e's socket to f's. */
  ghost predicate Drained(e: End, f: End, c: Copier) {
    && e.headerLeft == [] && Idle(e.up) && e.link.up == []
    && Idle(c) && f.link.down == [] && Idle(f.down)
  }

  /** Once the header is in, the dialer is through its handshake. */
  lemma HeaderMeansOpen(e: End)
    requires EndInv(e) && e.nodeGot.Some?
    ensures e.link.d.Open?
  {
    assert |e.link.upGot| >= 8;
  }

  lemma Arrives(e: End, f: End, c: Copier)
    requires EndInv(e) && EndInv(f) && Copied(e.nodeRaw, f.link.downSent, c)
    requires e.nodeGot.Some? && Drained(e, f, c) && f.link.d.Open?
    ensures f.outWritten == e.inRead
  {
    OneWay(e, f, c);
    NodeView(e);
    assert |e.link.upGot| == |Frame(e.header)| + |e.nodeRaw|;
    assert |e.nodeRaw| == |e.rawUp|;
  }

  /** If nobody has closed and nothing is on the way any more, everything has arrived, in either direction. */
  lemma AllArrives(listenId: Body, targetId: Body, listenIn: Body, transferGo: Body, acts: seq<Action>, t: State)
    requires Run(Init(listenId, targetId, listenIn, transferGo), acts, t) && t.joined
    ensures Drained(t.x, t.y, t.xy) ==> t.y.outWritten == t.x.inRead
    ensures Drained(t.y, t.x, t.yx) ==> t.x.outWritten == t.y.inRead
  {
    InitInv(listenId, targetId, listenIn, transferGo);
    RunKeepsInv(Init(listenId, targetId, listenIn, transferGo), acts, t);
    HeaderMeansOpen(t.x);
    HeaderMeansOpen(t.y);
    if Drained(t.x, t.y, t.xy) {
      Arrives(t.x, t.y, t.xy);
    }
    if Drained(t.y, t.x, t.yx) {
      Arrives(t.y, t.x, t.yx);
    }
  }
}
