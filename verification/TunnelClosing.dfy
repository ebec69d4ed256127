/**
 What becomes of a joined tunnel: bytes move on as long as their copiers run, and
 the end of any copier spreads until everything is closed.
 */
module TunnelClosing {
  import opened Prelude
  import opened Framing
  import opened Tunnel

  // ---------- bytes on the way ----------

  /** What is left to do for the bytes on the way from the socket of e to that of f, stage by stage. */
  function Transit(e: End, f: End, c: Copier): nat {
    6 * |e.headerLeft| + 6 * |e.up.hold| + 5 * |e.link.up| + 4 * |c.hold| + 3 * |f.link.down| + 2 * |f.down.hold|
  }

  /** The copiers that the bytes pass are running. */
  predicate Running(e: End, f: End, c: Copier) {
    !e.up.stopped && !c.stopped && !f.down.stopped
  }

  /** A step of the bytes on their way, from x to y. */
  function MoveXY(s: State): Action {
    if s.y.down.hold != [] then AtY(WriteSocket(|s.y.down.hold|))
    else if s.y.link.down != [] then AtY(ReadDown(|s.y.link.down|))
    else if s.xy.hold != [] then RelayWriteY(|s.xy.hold|)
    else if s.x.link.up != [] then RelayReadX(|s.x.link.up|)
    else if s.x.headerLeft != [] then AtX(PutHeader(|s.x.headerLeft|))
    else AtX(WriteUp(|s.x.up.hold|))
  }

  function MoveYX(s: State): Action {
    if s.x.down.hold != [] then AtX(WriteSocket(|s.x.down.hold|))
    else if s.x.link.down != [] then AtX(ReadDown(|s.x.link.down|))
    else if s.yx.hold != [] then RelayWriteX(|s.yx.hold|)
    else if s.y.link.up != [] then RelayReadY(|s.y.link.up|)
    else if s.y.headerLeft != [] then AtY(PutHeader(|s.y.headerLeft|))
    else AtY(WriteUp(|s.y.up.hold|))
  }

  /** No header byte is left to write once the header is in. */
  lemma HeaderIsOut(e: End)
    requires EndInv(e) && e.nodeGot.Some?
    ensures e.headerLeft == []
  {
    assert |e.link.upSent| >= |e.link.upGot| >= |Frame(e.header)|;
    assert |e.link.upSent| + |e.headerLeft| == |Frame(e.header)| + |e.rawUp|;
  }

  /**
   In a joined tunnel, as long as the copiers of a direction run and not all that
   was read at the one socket has been written to the other, some copier can move,
   and its step brings the bytes on the way closer to their end.
   */
  lemma BytesMoveOn(listenId: Body, targetId: Body, listenIn: Body, transferGo: Body, acts: seq<Action>, t: State)
    requires Run(Tunnel.Init(listenId, targetId, listenIn, transferGo), acts, t) && t.joined
    ensures Running(t.x, t.y, t.xy) && t.y.outWritten != t.x.inRead ==>
      Enabled(t, MoveXY(t)) && var t' := Apply(t, MoveXY(t)); Transit(t'.x, t'.y, t'.xy) < Transit(t.x, t.y, t.xy)
    ensures Running(t.y, t.x, t.yx) && t.x.outWritten != t.y.inRead ==>
      Enabled(t, MoveYX(t)) && var t' := Apply(t, MoveYX(t)); Transit(t'.y, t'.x, t'.yx) < Transit(t.y, t.x, t.yx)
  {
    InitInv(listenId, targetId, listenIn, transferGo);
    RunKeepsInv(Tunnel.Init(listenId, targetId, listenIn, transferGo), acts, t);
    AllArrives(listenId, targetId, listenIn, transferGo, acts, t);
    HeaderMeansOpen(t.x);
    HeaderMeansOpen(t.y);
    HeaderIsOut(t.x);
    HeaderIsOut(t.y);
    if Running(t.x, t.y, t.xy) && t.y.outWritten != t.x.inRead {
      XYMoves(t);
    }
    if Running(t.y, t.x, t.yx) && t.x.outWritten != t.y.inRead {
      YXMoves(t);
    }
  }

  ghost predicate Ready(e: End) {
    e.link.d.Open? && e.link.a.Ready? && e.headerLeft == []
  }

  lemma XYMoves(t: State)
    requires t.joined && Ready(t.x) && Ready(t.y) && Running(t.x, t.y, t.xy) && !Drained(t.x, t.y, t.xy)
    ensures Enabled(t, MoveXY(t))
    ensures var t' := Apply(t, MoveXY(t)); Transit(t'.x, t'.y, t'.xy) < Transit(t.x, t.y, t.xy)
  {
  }

  lemma YXMoves(t: State)
    requires t.joined && Ready(t.x) && Ready(t.y) && Running(t.y, t.x, t.yx) && !Drained(t.y, t.x, t.yx)
    ensures Enabled(t, MoveYX(t))
    ensures var t' := Apply(t, MoveYX(t)); Transit(t'.y, t'.x, t'.yx) < Transit(t.y, t.x, t.yx)
  {
  }

  // ---------- how closing spreads ----------

  /** Everything that Copy can close: the two sockets, and both ends of the two streams. */
  datatype Handle = ListenSocket | ListenStream | NodeListen | NodeTarget | TargetStream | TargetSocket

  /** The other half of the same Copy: at the listener, at the node and at the target. */
  function Joined(h: Handle): Handle {
    match h
    case ListenSocket => ListenStream
    case ListenStream => ListenSocket
    case NodeListen => NodeTarget
    case NodeTarget => NodeListen
    case TargetStream => TargetSocket
    case TargetSocket => TargetStream
  }

  /** The far end of the same stream; the far ends of the sockets are outside. */
  function Peer(h: Handle): Handle {
    match h
    case ListenStream => NodeListen
    case NodeListen => ListenStream
    case NodeTarget => TargetStream
    case TargetStream => NodeTarget
    case _ => h
  }

  /** The copier that reads h ends once h or its far end is closed, and closes both sides, unless they are closed already. */
  predicate CanEnd(closed: set<Handle>, h: Handle) {
    (h in closed || Peer(h) in closed) && !({h, Joined(h)} <= closed)
  }

  /** The copiers reading these handles end one after the other. */
  ghost predicate CloseRun(closed: set<Handle>, ended: seq<Handle>, t: set<Handle>)
    decreases |ended|
  {
    if ended == [] then closed == t
    else CanEnd(closed, ended[0]) && CloseRun(closed + {ended[0], Joined(ended[0])}, ended[1..], t)
  }

  function AllHandles(): set<Handle> {
    {ListenSocket, ListenStream, NodeListen, NodeTarget, TargetStream, TargetSocket}
  }

  lemma EveryHandle(h: Handle)
    ensures h in AllHandles()
  {
    match h
    case ListenSocket =>
    case ListenStream =>
    case NodeListen =>
    case NodeTarget =>
    case TargetStream =>
    case TargetSocket =>
  }

  lemma {:induction false} CloseRunGrows(closed: set<Handle>, ended: seq<Handle>, t: set<Handle>)
    requires CloseRun(closed, ended, t)
    ensures closed <= t && |closed| + |ended| <= |t|
    decreases |ended|
  {
    if ended != [] {
      var more := closed + {ended[0], Joined(ended[0])};
      CloseRunGrows(more, ended[1..], t);
      var extra := if ended[0] in closed then Joined(ended[0]) else ended[0];
      assert closed + {extra} <= more;
      SubsetSize(closed + {extra}, more);
    }
  }

  lemma {:induction false} SubsetSize(a: set<Handle>, b: set<Handle>)
    requires a <= b
    ensures |a| <= |b|
  {
    if a != {} {
      var x :| x in a;
      SubsetSize(a - {x}, b - {x});
    }
  }

  /**
   Once anything of a joined tunnel is closed, a copier can end until everything
   is: the closing runs through all six handles, in fewer than six steps and
   in whatever order the copiers notice.
   */
  lemma ClosingSpreads(closed: set<Handle>, ended: seq<Handle>, t: set<Handle>)
    requires closed != {} && CloseRun(closed, ended, t)
    ensures (forall h :: !CanEnd(t, h)) <==> t == AllHandles()
    ensures |ended| < 6
  {
    CloseRunGrows(closed, ended, t);
    forall h | h in t ensures h in AllHandles() {
      EveryHandle(h);
    }
    SubsetSize(t, AllHandles());
    SubsetSize({}, closed);
    if forall h :: !CanEnd(t, h) {
      var h :| h in closed;
      QuietMeansClosed(t, h);
    }
  }

  lemma QuietMeansClosed(t: set<Handle>, h: Handle)
    requires h in t && forall k :: !CanEnd(t, k)
    ensures t == AllHandles()
  {
    assert !CanEnd(t, h);
    assert Joined(h) in t;
    assert !CanEnd(t, ListenSocket) && !CanEnd(t, ListenStream) && !CanEnd(t, NodeListen);
    assert !CanEnd(t, NodeTarget) && !CanEnd(t, TargetStream) && !CanEnd(t, TargetSocket);
    assert forall k :: k in t ==> Joined(k) in t;
    assert forall k :: k in t ==> Peer(k) in t;
    forall k | k in t ensures k in AllHandles() {
      EveryHandle(k);
    }
  }

  /** The closing goes from one Copy to the next; nothing closes by itself. */
  lemma ClosingFromTheListener(h: Handle)
    ensures !CanEnd({}, h)
    ensures CanEnd({ListenSocket}, h) <==> h == ListenSocket
    ensures CanEnd({ListenSocket, ListenStream}, h) <==> h == NodeListen
    ensures CanEnd({ListenSocket, ListenStream, NodeListen, NodeTarget}, h) <==> h == TargetStream
    ensures CanEnd({TargetSocket}, h) <==> h == TargetSocket
    ensures CanEnd({TargetSocket, TargetStream}, h) <==> h == NodeTarget
    ensures CanEnd({TargetSocket, TargetStream, NodeTarget, NodeListen}, h) <==> h == ListenStream
  {
  }

  // ---------- the same in the tunnel ----------

  /** The copier that reads h comes to its end. */
  function StopOf(h: Handle): Action {
    match h
    case ListenSocket => AtX(StopUp)
    case ListenStream => AtX(StopDown)
    case NodeListen => StopXY
    case NodeTarget => StopYX
    case TargetStream => AtY(StopDown)
    case TargetSocket => AtY(StopUp)
  }

  /** A copier that has come to its end has closed what it joins. */
  function ClosedIn(s: State): set<Handle> {
    (if s.x.up.stopped || s.x.down.stopped then {ListenSocket, ListenStream} else {})
    + (if s.xy.stopped || s.yx.stopped then {NodeListen, NodeTarget} else {})
    + (if s.y.up.stopped || s.y.down.stopped then {TargetStream, TargetSocket} else {})
  }

  /** The bytes that wait to be read from h; what the sockets have to give is not in the state. */
  function Waiting(s: State, h: Handle): seq<byte> {
    match h
    case ListenStream => s.x.link.down
    case NodeListen => s.x.link.up
    case NodeTarget => s.y.link.up
    case TargetStream => s.y.link.down
    case _ => []
  }

  /** What the copier that reads h has read and not written yet. */
  function Held(s: State, h: Handle): seq<byte> {
    match h
    case ListenSocket => s.x.up.hold
    case ListenStream => s.x.down.hold
    case NodeListen => s.xy.hold
    case NodeTarget => s.yx.hold
    case TargetStream => s.y.down.hold
    case TargetSocket => s.y.up.hold
  }

  /** Its next write. */
  function WriteOf(h: Handle, n: nat): Action {
    match h
    case ListenSocket => AtX(WriteUp(n))
    case ListenStream => AtX(WriteSocket(n))
    case NodeListen => RelayWriteY(n)
    case NodeTarget => RelayWriteX(n)
    case TargetStream => AtY(WriteSocket(n))
    case TargetSocket => AtY(WriteUp(n))
  }

  /**
   The handles are joined as the bytes flow: what the copier of h writes can be
   read at the far end of what h is joined to, and nowhere else.
   */
  lemma CopiersFollowHandles(s: State, h: Handle, n: nat, q: Handle)
    requires Enabled(s, WriteOf(h, n))
    ensures var t := Apply(s, WriteOf(h, n));
      && Held(t, h) == Held(s, h)[n..]
      && Waiting(t, q) ==
        Waiting(s, q) + if q == Peer(Joined(h)) && q != Joined(h) then Held(s, h)[..n] else []
  {
  }

  /** Once the copier has come to its end it writes no more. */
  lemma EndedCopierIsQuiet(s: State, h: Handle, n: nat)
    ensures !Enabled(Apply(s, StopOf(h)), WriteOf(h, n))
  {
  }

  lemma StopCloses(s: State, h: Handle)
    ensures Enabled(s, StopOf(h)) && ClosedIn(Apply(s, StopOf(h))) == ClosedIn(s) + {h, Joined(h)}
  {
  }

  lemma {:induction false} SomeHandleOpen(closed: set<Handle>) returns (h: Handle)
    requires closed != {} && closed != AllHandles()
    ensures CanEnd(closed, h)
  {
    if forall k :: !CanEnd(closed, k) {
      var k :| k in closed;
      QuietMeansClosed(closed, k);
      assert false;
    }
    h :| CanEnd(closed, h);
  }

  /**
   As soon as one copier of a tunnel has ended, there is a run in which further
   copiers end, each of them because what it reads has been closed, until all six
   handles are closed. ClosingSpreads says that no order of ends leads elsewhere.
   */
  lemma {:induction false} TunnelCloses(s: State) returns (ended: seq<Handle>, acts: seq<Action>, t: State)
    requires ClosedIn(s) != {}
    ensures CloseRun(ClosedIn(s), ended, AllHandles()) && |ended| < 6
    ensures |acts| == |ended| && forall n :: 0 <= n < |acts| ==> acts[n] == StopOf(ended[n])
    ensures Run(s, acts, t) && ClosedIn(t) == AllHandles()
    decreases AllHandles() - ClosedIn(s)
  {
    if ClosedIn(s) == AllHandles() {
      ended, acts, t := [], [], s;
    } else {
      var h := SomeHandleOpen(ClosedIn(s));
      var s1 := Apply(s, StopOf(h));
      StopCloses(s, h);
      EveryHandle(h);
      EveryHandle(Joined(h));
      var later, more;
      later, more, t := TunnelCloses(s1);
      ended, acts := [h] + later, [StopOf(h)] + more;
      assert ended[1..] == later && acts[1..] == more;
    }
    ClosingSpreads(ClosedIn(s), ended, AllHandles());
  }
}
