/**
 A tunnel that works: both ends dial and send their headers, the node joins
 them, and what is read at one socket then comes out at the other.
 */
module TunnelRuns {
  import opened Prelude
  import opened Framing
  import opened Tunnel
  import opened TunnelClosing
  import H = Handshake

  lemma {:induction false} RunJoins(s: State, acts: seq<Action>, t: State, more: seq<Action>, u: State)
    requires Run(s, acts, t) && Run(t, more, u)
    ensures Run(s, acts + more, u)
    decreases |acts|
  {
    if acts == [] {
      assert [] + more == more;
    } else {
      RunJoins(Apply(s, acts[0]), acts[1..], t, more, u);
      assert (acts + more)[0] == acts[0] && (acts + more)[1..] == acts[1..] + more;
    }
  }

  // ---------- one end on its own ----------

  ghost predicate EndRun(e: End, acts: seq<EndAction>, f: End)
    decreases |acts|
  {
    if acts == [] then e == f else EndEnabled(e, acts[0]) && EndRun(EndApply(e, acts[0]), acts[1..], f)
  }

  lemma {:induction false} EndPush(e: End, acts: seq<EndAction>, f: End, a: EndAction)
    requires EndRun(e, acts, f) && EndEnabled(f, a)
    ensures EndRun(e, acts + [a], EndApply(f, a))
    decreases |acts|
  {
    if acts == [] {
      assert [a][1..] == [];
    } else {
      EndPush(EndApply(e, acts[0]), acts[1..], f, a);
      assert (acts + [a])[1..] == acts[1..] + [a];
    }
  }

  lemma Push(e: End, acts: seq<EndAction>, f: End, a: EndAction, g: End) returns (more: seq<EndAction>)
    requires EndRun(e, acts, f) && EndEnabled(f, a) && EndApply(f, a) == g
    ensures more == acts + [a] && EndRun(e, more, g)
  {
    EndPush(e, acts, f, a);
    more := acts + [a];
  }

  /** The steps of a handshake, as steps of the end that dials. */
  lemma {:induction false} ShakeRun(e: End, hs: seq<H.Action>, l: H.Link) returns (acts: seq<EndAction>)
    requires H.Run(e.link, hs, l) && forall h :: h in hs ==> h.Push? || h.OverRead? || h.PutId? || h.TakeId?
    ensures EndRun(e, acts, e.(link := l))
    decreases |hs|
  {
    acts := [];
    if hs != [] {
      assert hs[0] in hs;
      var e1 := EndApply(e, Shake(hs[0]));
      var rest := ShakeRun(e1, hs[1..], l);
      acts := [Shake(hs[0])] + rest;
      assert acts[1..] == rest;
    }
  }

  /** An end whose header has reached the node, and nothing else has happened. */
  function Announced(id: Body, header: Body): End {
    End(H.Through(id).(upSent := Frame(header), upGot := Frame(header)), header, [], [], Copier([], false), [],
        Frame(header), Some(header), [], Copier([], false), [])
  }

  /** The end dials, and its header goes up; the node reads its length and then the header itself. */
  lemma AnnounceRun(id: Body, header: Body) returns (acts: seq<EndAction>)
    requires id != [] && header != []
    ensures EndRun(InitEnd(id, header), acts, Announced(id, header))
  {
    var f := Frame(header);
    H.IdInTwoReads(header);
    var e := InitEnd(id, header);
    var shaken := e.(link := H.Through(id));
    var sent := shaken.(link := H.Through(id).(up := f, upSent := f), headerLeft := []);
    var half := sent.(link := H.Through(id).(up := f[8..], upSent := f, upGot := f[..8]), nodeBuf := f[..8]);
    var hs := H.HandshakeRun(id);
    acts := ShakeRun(e, hs, H.Through(id));
    assert f[..8 + |header|] == f && [] + f == f && f[8 + |header|..] == [];
    acts := Push(e, acts, shaken, PutHeader(8 + |header|), sent);
    assert [] + f[..8] == f[..8];
    acts := Push(e, acts, sent, TakeHeader(8), half);
    assert f[8..][..|header|] == f[8..] && f[..8] + f[8..] == f && f[8..][|header|..] == [];
    acts := Push(e, acts, half, TakeHeader(|header|), Announced(id, header));
  }

  lemma {:induction false} LiftX(s: State, acts: seq<EndAction>, e: End) returns (all: seq<Action>)
    requires EndRun(s.x, acts, e)
    ensures Run(s, all, s.(x := e))
    decreases |acts|
  {
    all := [];
    if acts != [] {
      var rest := LiftX(s.(x := EndApply(s.x, acts[0])), acts[1..], e);
      all := [AtX(acts[0])] + rest;
      assert all[1..] == rest;
    }
  }

  lemma {:induction false} LiftY(s: State, acts: seq<EndAction>, e: End) returns (all: seq<Action>)
    requires EndRun(s.y, acts, e)
    ensures Run(s, all, s.(y := e))
    decreases |acts|
  {
    all := [];
    if acts != [] {
      var rest := LiftY(s.(y := EndApply(s.y, acts[0])), acts[1..], e);
      all := [AtY(acts[0])] + rest;
      assert all[1..] == rest;
    }
  }

  function Joined(listenId: Body, targetId: Body, listenIn: Body, transferGo: Body): State {
    State(Announced(listenId, listenIn), Announced(targetId, transferGo), true, Copier([], false), Copier([], false))
  }

  /** From the start to the join, with all copiers idle and both headers at the node. */
  lemma TunnelOpens(listenId: Body, targetId: Body, listenIn: Body, transferGo: Body) returns (acts: seq<Action>)
    requires listenId != [] && targetId != [] && listenIn != [] && transferGo != []
    ensures Run(Init(listenId, targetId, listenIn, transferGo), acts, Joined(listenId, targetId, listenIn, transferGo))
  {
    var s := Init(listenId, targetId, listenIn, transferGo);
    var t := Joined(listenId, targetId, listenIn, transferGo);
    var s1 := s.(x := t.x);
    var s2 := s1.(y := t.y);
    var ex := AnnounceRun(listenId, listenIn);
    acts := LiftX(s, ex, t.x);
    var ey := AnnounceRun(targetId, transferGo);
    var more := LiftY(s1, ey, t.y);
    RunJoins(s, acts, s1, more, s2);
    acts := acts + more;
    assert [Join][1..] == [] && Run(t, [], t);
    assert Run(s2, [Join], t);
    RunJoins(s, acts, s2, [Join], t);
    acts := acts + [Join];
  }

  // ---------- the bytes arrive ----------

  lemma StepToArrive(s: State)
    requires s.joined && TunnelClosing.Ready(s.x) && TunnelClosing.Ready(s.y) && Running(s.x, s.y, s.xy)
    requires !Drained(s.x, s.y, s.xy)
    ensures Enabled(s, MoveXY(s))
    ensures var t := Apply(s, MoveXY(s));
      && t.joined && TunnelClosing.Ready(t.x) && TunnelClosing.Ready(t.y) && Running(t.x, t.y, t.xy)
      && Transit(t.x, t.y, t.xy) < Transit(s.x, s.y, s.xy) && t.x.inRead == s.x.inRead
  {
  }

  /** The copiers of a direction can go on until nothing is left on the way. */
  lemma {:induction false} DrainsXY(s: State) returns (acts: seq<Action>, t: State)
    requires s.joined && TunnelClosing.Ready(s.x) && TunnelClosing.Ready(s.y) && Running(s.x, s.y, s.xy)
    ensures Run(s, acts, t) && t.joined && Drained(t.x, t.y, t.xy) && t.x.inRead == s.x.inRead
    decreases Transit(s.x, s.y, s.xy)
  {
    if Drained(s.x, s.y, s.xy) {
      acts, t := [], s;
    } else {
      StepToArrive(s);
      var rest;
      rest, t := DrainsXY(Apply(s, MoveXY(s)));
      acts := [MoveXY(s)] + rest;
      assert acts[1..] == rest;
    }
  }

  lemma StepToReturn(s: State)
    requires s.joined && TunnelClosing.Ready(s.x) && TunnelClosing.Ready(s.y) && Running(s.y, s.x, s.yx)
    requires !Drained(s.y, s.x, s.yx)
    ensures Enabled(s, MoveYX(s))
    ensures var t := Apply(s, MoveYX(s));
      && t.joined && TunnelClosing.Ready(t.x) && TunnelClosing.Ready(t.y) && Running(t.y, t.x, t.yx)
      && Transit(t.y, t.x, t.yx) < Transit(s.y, s.x, s.yx) && t.y.inRead == s.y.inRead
  {
  }

  lemma {:induction false} DrainsYX(s: State) returns (acts: seq<Action>, t: State)
    requires s.joined && TunnelClosing.Ready(s.x) && TunnelClosing.Ready(s.y) && Running(s.y, s.x, s.yx)
    ensures Run(s, acts, t) && t.joined && Drained(t.y, t.x, t.yx) && t.y.inRead == s.y.inRead
    decreases Transit(s.y, s.x, s.yx)
  {
    if Drained(s.y, s.x, s.yx) {
      acts, t := [], s;
    } else {
      StepToReturn(s);
      var rest;
      rest, t := DrainsYX(Apply(s, MoveYX(s)));
      acts := [MoveYX(s)] + rest;
      assert acts[1..] == rest;
    }
  }

  /** A joined tunnel is past both handshakes and headers. */
  lemma JoinedIsReady(start: State, acts: seq<Action>, s: State)
    requires Inv(start) && Run(start, acts, s) && s.joined
    ensures Inv(s) && TunnelClosing.Ready(s.x) && TunnelClosing.Ready(s.y)
  {
    RunKeepsInv(start, acts, s);
    HeaderMeansOpen(s.x);
    HeaderMeansOpen(s.y);
    HeaderIsOut(s.x);
    HeaderIsOut(s.y);
  }

  /**
   Whatever has happened before in a joined tunnel: as long as the copiers run,
   the bytes read next at the listener's socket can all come out at the target's,
   behind everything that was read before them.
   */
  lemma ListenerBytesArrive(listenId: Body, targetId: Body, listenIn: Body, transferGo: Body, acts: seq<Action>, s: State,
                            p: seq<byte>)
    returns (more: seq<Action>, t: State)
    requires Run(Init(listenId, targetId, listenIn, transferGo), acts, s) && s.joined
    requires Running(s.x, s.y, s.xy) && s.x.up.hold == []
    ensures Run(s, [AtX(ReadSocket(p))] + more, t) && t.y.outWritten == s.x.inRead + p
  {
    var start := Init(listenId, targetId, listenIn, transferGo);
    InitInv(listenId, targetId, listenIn, transferGo);
    JoinedIsReady(start, acts, s);
    var s1 := Apply(s, AtX(ReadSocket(p)));
    ActionKeeps(s, AtX(ReadSocket(p)));
    more, t := DrainsXY(s1);
    assert ([AtX(ReadSocket(p))] + more)[1..] == more;
    JoinedIsReady(s1, more, t);
    Arrives(t.x, t.y, t.xy);
  }

  /** And the other way. */
  lemma TargetBytesArrive(listenId: Body, targetId: Body, listenIn: Body, transferGo: Body, acts: seq<Action>, s: State,
                          p: seq<byte>)
    returns (more: seq<Action>, t: State)
    requires Run(Init(listenId, targetId, listenIn, transferGo), acts, s) && s.joined
    requires Running(s.y, s.x, s.yx) && s.y.up.hold == []
    ensures Run(s, [AtY(ReadSocket(p))] + more, t) && t.x.outWritten == s.y.inRead + p
  {
    var start := Init(listenId, targetId, listenIn, transferGo);
    InitInv(listenId, targetId, listenIn, transferGo);
    JoinedIsReady(start, acts, s);
    var s1 := Apply(s, AtY(ReadSocket(p)));
    ActionKeeps(s, AtY(ReadSocket(p)));
    more, t := DrainsYX(s1);
    assert ([AtY(ReadSocket(p))] + more)[1..] == more;
    JoinedIsReady(s1, more, t);
    Arrives(t.y, t.x, t.yx);
  }
}
