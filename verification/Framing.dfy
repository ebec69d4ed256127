/**
 Frames of rpc/invoke.go: an eight-byte big-endian length followed by the body.
 The JSON body is opaque here; Dispatch.dfy gives it a codec.
 */
module Framing {
  import opened Prelude
  import opened IntCodec

  /** The longest slice that Go makes on the 64-bit hosts the program is built for; a longer one panics. */
  const MAX_ALLOC := 0x1_0000_0000_0000

  /** A body that can be held in memory. */
  type Body = b: seq<byte> | |b| <= MAX_ALLOC

  function Frame(b: Body): seq<byte> {
    IntToBytes(|b|) + b
  }

  function EncodeAll(log: seq<Body>): seq<byte> {
    if log == [] then [] else Frame(log[0]) + EncodeAll(log[1..])
  }

  /**
   What a reader makes of a byte string. A negative length, or one that is too
   large, makes the allocation in readInvokeStr panic.
   */
  datatype Parse = NeedMore | Panics | Done(body: Body, rest: seq<byte>)

  function ParseFrame(bs: seq<byte>): Parse {
    if |bs| < 8 then NeedMore
    else
      var l := BytesToInt(bs);
      if l < 0 || l > MAX_ALLOC then Panics
      else if |bs| < 8 + l then NeedMore
      else Done(bs[8..8 + l], bs[8 + l..])
  }

  /** How many more bytes readInvokeStr asks for once it holds buf. */
  function Want(buf: seq<byte>): nat {
    if |buf| < 8 then 8 - |buf|
    else
      var total := 8 + BytesToInt(buf);
      if |buf| < total then total - |buf| else 0
  }

  lemma HeaderOfFrame(b: Body, tail: seq<byte>)
    ensures BytesToInt(Frame(b) + tail) == |b|
  {
    BytesToIntInvertsIntToBytes(|b|, b + tail);
    assert Frame(b) + tail == IntToBytes(|b|) + (b + tail);
  }

  /** Reading a frame consumes that frame and nothing else. */
  lemma ParseWholeFrame(b: Body, tail: seq<byte>)
    ensures ParseFrame(Frame(b) + tail) == Done(b, tail)
  {
    HeaderOfFrame(b, tail);
    assert (Frame(b) + tail)[8..8 + |b|] == b;
    assert (Frame(b) + tail)[8 + |b|..] == tail;
  }

  /** A frame is eight bytes that spell the length, most significant first, then the body. */
  lemma FrameLayout(b: Body)
    ensures |Frame(b)| == 8 + |b| && Frame(b)[8..] == b && Weighted(Frame(b)) == |b|
  {
    BytesOfInt(|b|);
    assert Frame(b)[..8] == IntToBytes(|b|);
    assert Frame(b)[8..] == b;
  }

  lemma WholeFrame(bs: seq<byte>)
    requires ParseFrame(bs).Done?
    ensures bs == Frame(ParseFrame(bs).body) + ParseFrame(bs).rest
  {
    var l := BytesToInt(bs);
    var head := bs[..8];
    assert head[..8] == bs[..8];
    IntToBytesInvertsBytesToInt(head);
    assert bs == head + bs[8..8 + l] + bs[8 + l..];
  }

  /**
   What a byte string is taken for: a frame and a rest exactly if it is that frame
   followed by that rest; a panic exactly if the length is there and is negative
   or above 2^48; otherwise more bytes are needed.
   */
  lemma ParseExactly(bs: seq<byte>, b: Body, rest: seq<byte>)
    ensures ParseFrame(bs) == Done(b, rest) <==> bs == Frame(b) + rest
    ensures ParseFrame(bs) == Panics <==>
      |bs| >= 8 && (BytesToInt(bs) < 0 || BytesToInt(bs) > 0x1_0000_0000_0000)
  {
    ParseWholeFrame(b, rest);
    if ParseFrame(bs).Done? {
      WholeFrame(bs);
    }
  }

  lemma HeaderOfPrefix(b: Body, buf: seq<byte>)
    requires buf <= Frame(b) && |buf| >= 8
    ensures BytesToInt(buf) == |b|
  {
    HeaderOfFrame(b, []);
    assert Frame(b) + [] == Frame(b);
    assert buf[..8] == Frame(b)[..8];
  }

  /** Part of a frame is never taken for a frame, and the reader asks for no more than what is missing. */
  lemma PartOfFrame(b: Body, buf: seq<byte>)
    requires buf <= Frame(b)
    ensures ParseFrame(buf) == if buf == Frame(b) then Done(b, []) else NeedMore
    ensures |buf| + Want(buf) <= |Frame(b)|
    ensures Want(buf) == 0 <==> buf == Frame(b)
  {
    if |buf| >= 8 {
      HeaderOfPrefix(b, buf);
    }
    if buf == Frame(b) {
      ParseWholeFrame(b, []);
      assert Frame(b) + [] == Frame(b);
    }
  }

  lemma {:induction false} EncodeAllAppend(a: seq<Body>, b: seq<Body>)
    ensures EncodeAll(a + b) == EncodeAll(a) + EncodeAll(b)
  {
    if a == [] {
      assert a + b == b;
    } else {
      EncodeAllAppend(a[1..], b);
      assert (a + b)[1..] == a[1..] + b;
    }
  }

  lemma EncodeAllPush(a: seq<Body>, b: Body)
    ensures EncodeAll(a + [b]) == EncodeAll(a) + Frame(b)
  {
    EncodeAllAppend(a, [b]);
    assert EncodeAll([b]) == Frame(b) + EncodeAll([]);
  }

  /** Every frame that a byte string starts with, in order. */
  function DecodeAll(bs: seq<byte>): seq<Body>
    decreases |bs|
  {
    match ParseFrame(bs)
    case Done(b, rest) => [b] + DecodeAll(rest)
    case _ => []
  }

  /**
   However much of a frame stream has arrived, what it decodes to is a prefix
   of what was written; the whole stream decodes to exactly that.
   */
  lemma {:induction false} DecodePrefix(part: seq<byte>, log: seq<Body>)
    requires part <= EncodeAll(log)
    ensures DecodeAll(part) <= log
    ensures part == EncodeAll(log) ==> DecodeAll(part) == log
    decreases |log|
  {
    if log == [] {
      assert part == [];
    } else {
      var b := log[0];
      if |part| < |Frame(b)| {
        assert part == EncodeAll(log)[..|part|] == Frame(b)[..|part|];
        PartOfFrame(b, part);
      } else {
        var rest := part[|Frame(b)|..];
        assert part[..|Frame(b)|] == EncodeAll(log)[..|Frame(b)|] == Frame(b);
        assert part == Frame(b) + rest;
        assert rest == EncodeAll(log)[|Frame(b)|..][..|rest|] == EncodeAll(log[1..])[..|rest|];
        ParseWholeFrame(b, rest);
        DecodePrefix(rest, log[1..]);
        if part == EncodeAll(log) {
          assert rest == EncodeAll(log[1..]);
        }
      }
    }
  }

  // ---------- the reading side ----------

  /** The bytes of the given chunks, one after the other. */
  function Flatten(chunks: seq<seq<byte>>): seq<byte> {
    if chunks == [] then [] else chunks[0] + Flatten(chunks[1..])
  }

  datatype ReadResult = Str(body: Body) | ReadError | ReadPanics

  /**
   A stream as its reader sees it: the transport hands over the remaining bytes
   in these chunks (possibly empty ones) and then fails.
   */
  class Stream {
    var chunks: seq<seq<byte>>
    var closed: bool

    constructor (arriving: seq<seq<byte>>)
      ensures chunks == arriving && !closed
    {
      chunks, closed := arriving, false;
    }

    ghost function Pending(): seq<byte>
      reads this`chunks
    {
      Flatten(chunks)
    }

    /** io.Reader: at most max bytes, never from two chunks at once. */
    method Read(max: nat) returns (p: seq<byte>, ok: bool)
      requires max > 0
      modifies this`chunks
      ensures ok == (old(chunks) != []) && |p| <= max
      ensures ok ==> p == old(chunks)[0][..Min(|old(chunks)[0]|, max)]
      ensures ok && |p| < |old(chunks)[0]| ==> chunks == [old(chunks)[0][|p|..]] + old(chunks)[1..]
      ensures ok && |p| == |old(chunks)[0]| ==> chunks == old(chunks)[1..]
      ensures p + Pending() == old(Pending())
      ensures ok ==> |Pending()| + |chunks| < old(|Pending()| + |chunks|)
      ensures !ok ==> p == [] && chunks == []
    {
      if chunks == [] {
        return [], false;
      }
      var c := chunks[0];
      ok := true;
      if |c| <= max {
        p, chunks := c, chunks[1..];
      } else {
        p := c[..max];
        chunks := [c[max..]] + chunks[1..];
        assert chunks[1..] == old(chunks)[1..];
        assert c == c[..max] + c[max..];
      }
    }

    /** io.ReadFull: loops until n bytes are there or the stream fails. */
    method ReadFull(n: nat) returns (buf: seq<byte>, ok: bool)
      modifies this`chunks
      ensures ok == (n <= |old(Pending())|)
      ensures ok ==> buf == old(Pending())[..n] && Pending() == old(Pending())[n..]
      ensures !ok ==> Pending() == []
    {
      buf, ok := [], true;
      while |buf| < n && ok
        invariant |buf| <= n
        invariant buf + Pending() == old(Pending())
        invariant !ok ==> chunks == [] && |buf| < n
        decreases ok, |Pending()| + |chunks|
      {
        var p;
        p, ok := Read(n - |buf|);
        buf := buf + p;
      }
    }

    /**
     readInvokeStr: the outcome depends on the bytes alone, not on how they are
     cut into chunks, and exactly one frame is consumed.
     */
    method ReadInvokeStr() returns (r: ReadResult)
      modifies this`chunks
      ensures match ParseFrame(old(Pending()))
              case Done(b, rest) => r == Str(b) && Pending() == rest
              case Panics => r == ReadPanics
              case NeedMore => r == ReadError && Pending() == []
    {
      ghost var all := Pending();
      var lenBytes, ok := ReadFull(8);
      if !ok {
        return ReadError;
      }
      var l := BytesToInt(lenBytes);
      assert lenBytes[..8] == all[..8];
      if l < 0 || l > MAX_ALLOC {
        return ReadPanics;
      }
      var strBytes;
      strBytes, ok := ReadFull(l);
      if !ok {
        return ReadError;
      }
      assert strBytes == all[8..8 + l];
      return Str(strBytes);
    }
  }

  // ---------- the writing side ----------

  function Min(a: nat, b: nat): nat {
    if a <= b then a else b
  }

  /** A stream as its writer sees it: it takes room more bytes and then fails. */
  class Sink {
    var written: seq<byte>
    var room: nat
    var closed: bool

    constructor (room: nat)
      ensures written == [] && this.room == room && !closed
    {
      written, this.room, closed := [], room, false;
    }

    /** io.Writer: a short count comes with an error. */
    method Write(p: seq<byte>) returns (n: nat, ok: bool)
      modifies this`written, this`room
      ensures n == Min(|p|, old(room)) && ok == (n == |p|)
      ensures written == old(written) + p[..n] && room == old(room) - n
    {
      n := Min(|p|, room);
      ok := n == |p|;
      written, room := written + p[..n], room - n;
    }

    /** writeInvokeData, under the writer lock: the whole frame, or an error and a part of it. */
    method WriteInvokeData(body: Body) returns (ok: bool)
      modifies this`written, this`room
      ensures ok <==> |Frame(body)| <= old(room)
      ensures written == old(written) + Frame(body)[..Min(|Frame(body)|, old(room))]
      ensures room == old(room) - Min(|Frame(body)|, old(room))
    {
      var writeBytes := IntToBytes(|body|);
      writeBytes := writeBytes + body;
      var n;
      n, ok := Write(writeBytes);
    }
  }

  /** The buffer of io.Copy. */
  const COPY_SIZE := 32768

  lemma CopyStep(all: seq<byte>, done: nat, p: seq<byte>, rest: seq<byte>, n: nat)
    requires done <= |all| && p + rest == all[done..] && n <= |p|
    ensures done + n <= |all| && all[..done] + p[..n] == all[..done + n]
    ensures n == |p| ==> rest == all[done + n..]
  {
    assert p[..n] == (p + rest)[..n] == all[done..][..n];
    assert rest == (p + rest)[|p|..];
  }

  /**
   One direction of Invoker.Copy: reads and writes until either side fails. The
   target has then received everything the source had to give, or as much of it
   as it would take, and always from the beginning and without a gap.
   */
  method IoCopy(dst: Sink, src: Stream)
    modifies dst`written, dst`room, src`chunks
    ensures var n := Min(|old(src.Pending())|, old(dst.room));
      dst.written == old(dst.written) + old(src.Pending())[..n] && dst.room == old(dst.room) - n
  {
    ghost var all := src.Pending();
    ghost var done: nat := 0;
    var ok := true;
    while ok
      invariant done <= |all| && dst.room == old(dst.room) - done
      invariant dst.written == old(dst.written) + all[..done]
      invariant ok ==> src.Pending() == all[done..]
      invariant !ok ==> done == Min(|all|, old(dst.room))
      decreases ok, |src.Pending()| + |src.chunks|
    {
      var p, n;
      p, ok := src.Read(COPY_SIZE);
      if ok {
        n, ok := dst.Write(p);
        CopyStep(all, done, p, src.Pending(), n);
        done := done + n;
      }
    }
  }

  /** One of the two goroutines of Invoker.Copy: whatever ended the copying, both sides are closed after it. */
  method CopyAndClose(dst: Sink, src: Stream)
    modifies dst, src
    ensures src.closed && dst.closed
    ensures var n := Min(|old(src.Pending())|, old(dst.room));
      dst.written == old(dst.written) + old(src.Pending())[..n] && dst.room == old(dst.room) - n
  {
    IoCopy(dst, src);
    src.closed := true;
    dst.closed := true;
  }
}
