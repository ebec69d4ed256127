/**
 One dialled stream: AddDialInvoker at one end, AddAcceptInvoker followed by the
 id frame of upgradeWebTransport at the other. Both directions are byte queues
 and every read and write moves an arbitrary piece.
 */
module Handshake {
  import opened Prelude
  import opened Framing

  const PUSH: byte := 88
  /** The size of the buffer behind bufio.NewReader. */
  const BUFIO_SIZE := 4096

  datatype Dialer =
    | Fresh
    | AwaitId(got: seq<byte>)   // the push byte is written, the id frame is being read
    | Open(id: Body)

  datatype Acceptor =
    | AwaitPush
    | SendId(rest: seq<byte>)   // the push byte is read, the id frame is being written
    | Ready

  /**
   up and down are the bytes in flight from and to the dialer. upSent and
   downSent record what each side wrote after its handshake, upGot and downGot
   what the other side has read of it, and lost what the acceptor's throw-away
   buffered reader swallowed besides the push byte.
   */
  datatype Link = Link(
    issued: Body, d: Dialer, a: Acceptor,
    up: seq<byte>, down: seq<byte>,
    upSent: seq<byte>, upGot: seq<byte>, downSent: seq<byte>, downGot: seq<byte>,
    lost: seq<byte>)

  function Init(issued: Body): Link {
    Link(issued, Fresh, AwaitPush, [], [], [], [], [], [], [])
  }

  datatype Action =
    | Push | OverRead(n: nat) | PutId(n: nat) | TakeId(n: nat)
    | DialerWrite(p: seq<byte>) | AcceptorRead(n: nat)
    | AcceptorWrite(p: seq<byte>) | DialerRead(n: nat)

  ghost predicate Enabled(l: Link, act: Action) {
    match act
    case Push => l.d.Fresh?
    case OverRead(n) => l.a.AwaitPush? && 0 < n <= |l.up| && n <= BUFIO_SIZE
    case PutId(n) => l.a.SendId? && 0 < n <= |l.a.rest|
    case TakeId(n) => l.d.AwaitId? && 0 < n <= Want(l.d.got) && n <= |l.down|
    case DialerWrite(_) => l.d.Open?
    case AcceptorRead(n) => l.a.Ready? && n <= |l.up|
    case AcceptorWrite(_) => l.a.Ready?
    case DialerRead(n) => l.d.Open? && n <= |l.down|
  }

  function Apply(l: Link, act: Action): Link
    requires Enabled(l, act)
  {
    match act
    case Push => l.(d := AwaitId([]), up := l.up + [PUSH])
    case OverRead(n) =>
      // one Read into the buffer; ReadByte returns its first byte and the rest goes with the buffer
      l.(a := SendId(Frame(l.issued)), up := l.up[n..], lost := l.lost + l.up[1..n])
    case PutId(n) =>
      l.(a := if n == |l.a.rest| then Ready else SendId(l.a.rest[n..]), down := l.down + l.a.rest[..n])
    case TakeId(n) =>
      var got := l.d.got + l.down[..n];
      l.(down := l.down[n..],
         d := match ParseFrame(got) case Done(id, _) => Open(id) case _ => AwaitId(got))
    case DialerWrite(p) => l.(up := l.up + p, upSent := l.upSent + p)
    case AcceptorRead(n) => l.(up := l.up[n..], upGot := l.upGot + l.up[..n])
    case AcceptorWrite(p) => l.(down := l.down + p, downSent := l.downSent + p)
    case DialerRead(n) => l.(down := l.down[n..], downGot := l.downGot + l.down[..n])
  }

  ghost predicate Run(l: Link, acts: seq<Action>, l': Link)
    decreases |acts|
  {
    if acts == [] then l == l' else Enabled(l, acts[0]) && Run(Apply(l, acts[0]), acts[1..], l')
  }

  // ---------- invariant ----------

  function IdUnsent(a: Acceptor): seq<byte> {
    if a.SendId? then a.rest else []
  }

  ghost predicate Inv(l: Link) {
    && l.lost == []
    && l.upSent == l.upGot + (if l.a.AwaitPush? then [] else l.up)
    && (l.a.AwaitPush? ==>
      && l.down == l.downSent == l.upSent == [] && !l.d.Open?
      && l.up == if l.d.Fresh? then [] else [PUSH])
    && (l.a.SendId? ==> l.a.rest != [] && l.downSent == [])
    && match l.d
       case Fresh => l.a.AwaitPush? && l.downGot == []
       case AwaitId(got) =>
         && l.upSent == l.downGot == []
         && (l.a.AwaitPush? ==> got == [])
         && got < Frame(l.issued)
         && (!l.a.AwaitPush? ==> got + l.down + IdUnsent(l.a) == Frame(l.issued) + l.downSent)
       case Open(id) =>
         id == l.issued && l.a.Ready? && l.downSent == l.downGot + l.down
  }

  /** The dialer stays within the id frame, and what follows it is what the acceptor sent afterwards. */
  lemma TakeIdStaysInFrame(l: Link, n: nat)
    requires Inv(l) && Enabled(l, TakeId(n)) && !l.a.AwaitPush?
    ensures l.d.got + l.down[..n] <= Frame(l.issued)
    ensures l.d.got + l.down[..n] + l.down[n..] + IdUnsent(l.a) == Frame(l.issued) + l.downSent
    ensures l.d.got + l.down[..n] == Frame(l.issued) ==> l.down[n..] + IdUnsent(l.a) == l.downSent
  {
    var f := Frame(l.issued);
    var got := l.d.got + l.down[..n];
    var rest := l.down[n..] + IdUnsent(l.a);
    PartOfFrame(l.issued, l.d.got);
    assert l.down == l.down[..n] + l.down[n..];
    assert got + rest == f + l.downSent;
    assert got == (got + rest)[..|got|] == f[..|got|];
    assert rest == (got + rest)[|got|..];
  }

  lemma TakeIdKeeps(l: Link, n: nat)
    requires Inv(l) && Enabled(l, TakeId(n))
    ensures Inv(Apply(l, TakeId(n)))
  {
    TakeIdStaysInFrame(l, n);
    PartOfFrame(l.issued, l.d.got + l.down[..n]);
  }

  lemma PutIdKeeps(l: Link, n: nat)
    requires Inv(l) && Enabled(l, PutId(n))
    ensures Inv(Apply(l, PutId(n)))
  {
    var l' := Apply(l, PutId(n));
    assert l.a.rest == l.a.rest[..n] + l.a.rest[n..];
    assert IdUnsent(l'.a) == l.a.rest[n..];
    assert l.d.got + (l.down + l.a.rest[..n]) + l.a.rest[n..] == l.d.got + l.down + l.a.rest;
  }

  lemma AcceptorWriteKeeps(l: Link, p: seq<byte>)
    requires Inv(l) && Enabled(l, AcceptorWrite(p))
    ensures Inv(Apply(l, AcceptorWrite(p)))
  {
    if l.d.AwaitId? {
      var f := Frame(l.issued);
      assert l.d.got + (l.down + p) + [] == (l.d.got + l.down + []) + p;
      assert (f + l.downSent) + p == f + (l.downSent + p);
    }
  }

  lemma AcceptorReadKeeps(l: Link, n: nat)
    requires Inv(l) && Enabled(l, AcceptorRead(n))
    ensures Inv(Apply(l, AcceptorRead(n)))
  {
    assert l.up == l.up[..n] + l.up[n..];
  }

  lemma DialerReadKeeps(l: Link, n: nat)
    requires Inv(l) && Enabled(l, DialerRead(n))
    ensures Inv(Apply(l, DialerRead(n)))
  {
    assert l.down == l.down[..n] + l.down[n..];
  }

  lemma ActionKeeps(l: Link, act: Action)
    requires Inv(l) && Enabled(l, act)
    ensures Inv(Apply(l, act))
  {
    match act
    case TakeId(n) => TakeIdKeeps(l, n);
    case PutId(n) => PutIdKeeps(l, n);
    case AcceptorRead(n) => AcceptorReadKeeps(l, n);
    case DialerRead(n) => DialerReadKeeps(l, n);
    case AcceptorWrite(p) => AcceptorWriteKeeps(l, p);
    case _ =>
  }

  lemma {:induction false} RunKeepsInv(l: Link, acts: seq<Action>, l': Link)
    requires Inv(l) && Run(l, acts, l')
    ensures Inv(l')
    decreases |acts|
  {
    if acts != [] {
      ActionKeeps(l, acts[0]);
      RunKeepsInv(Apply(l, acts[0]), acts[1..], l');
    }
  }

  // ---------- main results ----------

  /**
   In every interleaving the over-reading buffered read discards nothing, the
   dialer adopts exactly the assigned id, and what either side has read is a
   prefix of what the other side wrote after the handshake.
   */
  lemma NothingLost(issued: Body, acts: seq<Action>, l: Link)
    requires Run(Init(issued), acts, l)
    ensures l.lost == []
    ensures l.d.Open? ==> l.d.id == issued
    ensures l.upGot <= l.upSent && l.downGot <= l.downSent
  {
    RunKeepsInv(Init(issued), acts, l);
    RunKeepsAssigned(Init(issued), acts, l);
  }

  lemma {:induction false} RunKeepsAssigned(l: Link, acts: seq<Action>, l': Link)
    requires Run(l, acts, l')
    ensures l'.issued == l.issued
    decreases |acts|
  {
    if acts != [] {
      RunKeepsAssigned(Apply(l, acts[0]), acts[1..], l');
    }
  }

  /** On a command stream: the frames either side decodes are a prefix of the frames the other side wrote. */
  lemma FramesArePrefix(issued: Body, acts: seq<Action>, l: Link, upLog: seq<Body>, downLog: seq<Body>)
    requires Run(Init(issued), acts, l)
    requires l.upSent <= EncodeAll(upLog) && l.downSent <= EncodeAll(downLog)
    ensures DecodeAll(l.upGot) <= upLog && DecodeAll(l.downGot) <= downLog
  {
    NothingLost(issued, acts, l);
    DecodePrefix(l.upGot, upLog);
    DecodePrefix(l.downGot, downLog);
  }

  /** The handshake cannot get stuck: until both sides are through, one of them can move. */
  lemma NeverStuck(issued: Body, acts: seq<Action>, l: Link)
    requires Run(Init(issued), acts, l)
    ensures (l.d.Open? && l.a.Ready?)
         || Enabled(l, Push) || Enabled(l, OverRead(1)) || Enabled(l, PutId(1)) || Enabled(l, TakeId(1))
  {
    RunKeepsInv(Init(issued), acts, l);
    if l.d.AwaitId? && l.a.Ready? {
      PartOfFrame(l.issued, l.d.got);
      assert |l.d.got + l.down + IdUnsent(l.a)| == |l.d.got| + |l.down|;
    }
  }

  lemma {:induction false} RunPush(l: Link, acts: seq<Action>, l': Link, act: Action)
    requires Run(l, acts, l') && Enabled(l', act)
    ensures Run(l, acts + [act], Apply(l', act))
    decreases |acts|
  {
    if acts == [] {
      assert [act][1..] == [];
    } else {
      RunPush(Apply(l, acts[0]), acts[1..], l', act);
      assert (acts + [act])[1..] == acts[1..] + [act];
    }
  }

  lemma PushOn(l: Link, acts: seq<Action>, l': Link, act: Action, l'': Link) returns (more: seq<Action>)
    requires Run(l, acts, l') && Enabled(l', act) && Apply(l', act) == l''
    ensures more == acts + [act] && Run(l, more, l'')
  {
    RunPush(l, acts, l', act);
    more := acts + [act];
  }

  /** Both sides through: the dialer knows its id, and nothing is on the way. */
  function Through(issued: Body): Link {
    Link(issued, Open(issued), Ready, [], [], [], [], [], [], [])
  }

  lemma IdInTwoReads(issued: Body)
    ensures Want([]) == 8 && Want(Frame(issued)[..8]) == |issued| && |Frame(issued)| == 8 + |issued|
    ensures ParseFrame(Frame(issued)) == Done(issued, [])
    ensures issued != [] ==> ParseFrame(Frame(issued)[..8]) == NeedMore
  {
    PartOfFrame(issued, Frame(issued));
    PartOfFrame(issued, Frame(issued)[..8]);
    HeaderOfPrefix(issued, Frame(issued)[..8]);
    assert issued != [] ==> Frame(issued)[..8] != Frame(issued);
  }

  /**
   The handshake as it goes: the push byte goes up, the id frame comes down, the
   dialer reads its length and then its body, and both sides are through.
   */
  lemma HandshakeRun(issued: Body) returns (acts: seq<Action>)
    requires issued != []
    ensures acts == [Push, OverRead(1), PutId(8 + |issued|), TakeId(8), TakeId(|issued|)]
    ensures Run(Init(issued), acts, Through(issued))
  {
    var f := Frame(issued);
    IdInTwoReads(issued);
    var pushed := Init(issued).(d := AwaitId([]), up := [88]);
    var seen := pushed.(a := SendId(f), up := []);
    var sent := seen.(a := Ready, down := f);
    var half := sent.(d := AwaitId(f[..8]), down := f[8..]);
    acts := PushOn(Init(issued), [], Init(issued), Push, pushed);
    acts := PushOn(Init(issued), acts, pushed, OverRead(1), seen);
    assert f[..8 + |issued|] == f && [] + f == f;
    acts := PushOn(Init(issued), acts, seen, PutId(8 + |issued|), sent);
    assert [] + f[..8] == f[..8];
    acts := PushOn(Init(issued), acts, sent, TakeId(8), half);
    assert f[8..][..|issued|] == f[8..] && f[..8] + f[8..] == f && f[8..][|issued|..] == [];
    acts := PushOn(Init(issued), acts, half, TakeId(|issued|), Through(issued));
  }

  /** After it the bytes of either side reach the other. */
  lemma DataRun(issued: Body, p: seq<byte>, q: seq<byte>) returns (acts: seq<Action>)
    ensures acts == [DialerWrite(p), AcceptorWrite(q), AcceptorRead(|p|), DialerRead(|q|)]
    ensures Run(Through(issued), acts, Through(issued).(upSent := p, upGot := p, downSent := q, downGot := q))
  {
    var l := Through(issued);
    var l1 := l.(up := p, upSent := p);
    var l2 := l1.(down := q, downSent := q);
    var l3 := l2.(up := [], upGot := p);
    assert [] + p == p && [] + q == q && p[..|p|] == p && q[..|q|] == q && p[|p|..] == [] && q[|q|..] == [];
    acts := PushOn(l, [], l, DialerWrite(p), l1);
    acts := PushOn(l, acts, l1, AcceptorWrite(q), l2);
    acts := PushOn(l, acts, l2, AcceptorRead(|p|), l3);
    acts := PushOn(l, acts, l3, DialerRead(|q|), l3.(down := [], downGot := q));
  }

  /** What the buffered read takes at once is its byte, what it loses, and leaves the rest. */
  lemma OverReadTakes(l: Link, n: nat)
    requires Enabled(l, OverRead(n))
    ensures var l' := Apply(l, OverRead(n));
      && l.lost <= l'.lost && |l'.lost| == |l.lost| + n - 1
      && [l.up[0]] + l'.lost[|l.lost|..] + l'.up == l.up && l'.a == SendId(Frame(l.issued))
  {
    assert l.up == [l.up[0]] + l.up[1..n] + l.up[n..];
  }

  // ---------- the two constructors, each run on its own ----------

  /** bufio gives up after this many reads without a byte. */
  const MAX_EMPTY_READS := 100

  /** Chunk i is the first that is not empty. */
  ghost predicate FirstFull(chunks: seq<seq<byte>>, i: nat) {
    i < |chunks| && chunks[i] != [] && forall j :: 0 <= j < i ==> chunks[j] == []
  }

  lemma {:induction false} FirstPending(chunks: seq<seq<byte>>, i: nat)
    requires FirstFull(chunks, i)
    ensures Flatten(chunks) != [] && Flatten(chunks)[0] == chunks[i][0]
    decreases i
  {
    if i > 0 {
      assert chunks[0] == [];
      FirstPending(chunks[1..], i - 1);
    }
  }

  /**
   AddAcceptInvoker: ReadByte on a reader that is thrown away. It takes the first
   byte there is, unless the stream fails before or a hundred reads in a row give
   nothing. lost is what its buffer held besides: the rest of that chunk, as far as
   the buffer reaches. If the push byte is all that has arrived, as NothingLost
   shows it to be, nothing is lost.
   */
  method AddAcceptInvoker(rw: Stream) returns (push: Option<byte>, lost: seq<byte>)
    modifies rw`chunks
    ensures push.None? <==> forall i :: 0 <= i < 100 && i < |old(rw.chunks)| ==> old(rw.chunks)[i] == []
    ensures push.Some? ==> old(rw.Pending()) != [] && push.value == old(rw.Pending())[0]
    ensures push.Some? ==> [push.value] + lost + rw.Pending() == old(rw.Pending())
    ensures push.None? ==> rw.Pending() == old(rw.Pending()) && lost == []
    ensures forall i: nat :: FirstFull(old(rw.chunks), i) && i < 100 ==>
      [push.value] + lost == old(rw.chunks)[i][..Min(|old(rw.chunks)[i]|, 4096)]
    ensures old(rw.chunks) == [[88]] ==> push == Some(88) && lost == [] && rw.Pending() == []
  {
    push, lost := None, [];
    ghost var all := rw.chunks;
    for i := 0 to MAX_EMPTY_READS
      invariant rw.Pending() == old(rw.Pending())
      invariant i <= |all| && rw.chunks == all[i..]
      invariant forall j :: 0 <= j < i ==> all[j] == []
    {
      var p, ok := rw.Read(BUFIO_SIZE);
      if p != [] {
        assert p == [p[0]] + p[1..] && FirstFull(all, i);
        FirstPending(all, i);
        return Some(p[0]), p[1..];
      }
      if !ok {
        return;
      }
    }
  }

  /** AddDialInvoker: the push byte goes out, then exactly one frame is read; its body carries the invoker's id. */
  method AddDialInvoker(out: Sink, rw: Stream) returns (id: ReadResult)
    modifies out, rw
    ensures out.written == old(out.written) + (if old(out.room) > 0 then [88] else [])
    ensures match ParseFrame(old(rw.Pending()))
            case Done(b, rest) => id == Str(b) && rw.Pending() == rest
            case Panics => id == ReadPanics
            case NeedMore => id == ReadError
  {
    var n, ok := out.Write([PUSH]);
    assert [PUSH][..n] == if n > 0 then [PUSH] else [];
    id := rw.ReadInvokeStr();
  }
}
