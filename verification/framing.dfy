/**
  * The wire format of the camera and detection feeds: each frame is an 8-byte
  * unsigned little-endian payload length followed by that many payload bytes.
  *
  * `Extract` is the specification of one drain of a receive buffer: it takes
  * complete frames off the front while a whole frame is buffered and leaves
  * the rest. The handlers in module FeedPage are proved against it; the
  * lemmas below say what it preserves (every byte, the order of frames, a
  * trailing partial frame) and that it inverts `Encode` whatever the chunking.
  */
module Framing {

  newtype byte = x: int | 0 <= x < 256

  /** Width of the length prefix. */
  const HeaderSize: nat := 8

  function Pow256(n: nat): (r: nat)
    ensures r >= 1
  {
    if n == 0 then 1 else 256 * Pow256(n - 1)
  }

  /** Unsigned little-endian value of `s`: `s[0]` is the least significant byte. */
  function LittleEndian(s: seq<byte>): (v: nat)
    ensures v < Pow256(|s|)
  {
    if s == [] then 0 else s[0] as nat + 256 * LittleEndian(s[1..])
  }

  /** The `width`-byte little-endian representation of `v`. */
  function ToLittleEndian(v: nat, width: nat): (s: seq<byte>)
    requires v < Pow256(width)
    ensures |s| == width
  {
    if width == 0 then []
    else
      assert v / 256 < Pow256(width - 1);
      [(v % 256) as byte] + ToLittleEndian(v / 256, width - 1)
  }

  lemma {:induction false} LittleEndianOfToLittleEndian(v: nat, width: nat)
    requires v < Pow256(width)
    ensures LittleEndian(ToLittleEndian(v, width)) == v
  {
    if width > 0 {
      assert v / 256 < Pow256(width - 1);
      var s := ToLittleEndian(v, width);
      assert s[1..] == ToLittleEndian(v / 256, width - 1);
      LittleEndianOfToLittleEndian(v / 256, width - 1);
    }
  }

  lemma {:induction false} ToLittleEndianOfLittleEndian(s: seq<byte>)
    ensures ToLittleEndian(LittleEndian(s), |s|) == s
  {
    if s != [] {
      var v := LittleEndian(s);
      assert v % 256 == s[0] as nat && v / 256 == LittleEndian(s[1..]);
      ToLittleEndianOfLittleEndian(s[1..]);
    }
  }

  /** The payload length a buffered header declares (`getBigUint64(0, true)`). */
  function FrameSize(buf: seq<byte>): nat
    requires |buf| >= HeaderSize
  {
    LittleEndian(buf[..HeaderSize])
  }

  /** No complete frame is at the front of `buf`: fewer than 8 bytes, or fewer than `8 + L`. */
  predicate Stalled(buf: seq<byte>)
  {
    |buf| < HeaderSize || |buf| < HeaderSize + FrameSize(buf)
  }

  /** What one drain of a receive buffer yields: the frames in order and the bytes kept. */
  datatype Drained = Drained(frames: seq<seq<byte>>, rest: seq<byte>)

  function Extract(buf: seq<byte>): Drained
    decreases |buf|
  {
    if Stalled(buf) then Drained([], buf)
    else
      var n := FrameSize(buf);
      var tail := Extract(buf[HeaderSize + n..]);
      Drained([buf[HeaderSize..HeaderSize + n]] + tail.frames, tail.rest)
  }

  /** A payload length fits the 64-bit header. */
  predicate Encodable(payloads: seq<seq<byte>>)
  {
    forall i :: 0 <= i < |payloads| ==> |payloads[i]| < Pow256(HeaderSize)
  }

  function Header(len: nat): seq<byte>
    requires len < Pow256(HeaderSize)
  {
    ToLittleEndian(len, HeaderSize)
  }

  /** The byte stream a sender produces for `payloads`: header then payload, frame after frame. */
  function Encode(payloads: seq<seq<byte>>): seq<byte>
    requires Encodable(payloads)
  {
    if payloads == [] then [] else Header(|payloads[0]|) + payloads[0] + Encode(payloads[1..])
  }

  /** The header of `Header(n) + rest` declares `n`. */
  lemma FrameSizeOfHeader(n: nat, rest: seq<byte>)
    requires n < Pow256(HeaderSize)
    ensures |Header(n) + rest| >= HeaderSize && FrameSize(Header(n) + rest) == n
  {
    assert (Header(n) + rest)[..HeaderSize] == Header(n);
    LittleEndianOfToLittleEndian(n, HeaderSize);
  }

  /**
    * After a drain the buffer keeps a suffix of what it held, and that suffix
    * holds no complete frame: fewer than 8 bytes, or a header whose `8 + L`
    * exceeds the buffered length.
    */
  lemma {:induction false} ExtractRestStalled(buf: seq<byte>)
    ensures Stalled(Extract(buf).rest)
    ensures |Extract(buf).rest| <= |buf|
    ensures Extract(buf).rest == buf[|buf| - |Extract(buf).rest|..]
  {
    if !Stalled(buf) {
      ExtractRestStalled(buf[HeaderSize + FrameSize(buf)..]);
    }
  }

  /** Draining twice with nothing appended in between yields nothing the second time. */
  lemma DrainTwiceYieldsNothing(buf: seq<byte>)
    ensures Extract(Extract(buf).rest) == Drained([], Extract(buf).rest)
  {
    ExtractRestStalled(buf);
  }

  /**
    * Conservation: the buffered bytes are exactly the re-encoding of the
    * extracted frames, in order, followed by the bytes kept.
    */
  lemma {:induction false} ExtractConserves(buf: seq<byte>)
    ensures Encodable(Extract(buf).frames)
    ensures Encode(Extract(buf).frames) + Extract(buf).rest == buf
  {
    if !Stalled(buf) {
      var n := FrameSize(buf);
      var next := buf[HeaderSize + n..];
      var p := buf[HeaderSize..HeaderSize + n];
      var d := Extract(next);
      ExtractConserves(next);
      assert Extract(buf) == Drained([p] + d.frames, d.rest);
      ToLittleEndianOfLittleEndian(buf[..HeaderSize]);
      EncodeCons(p, d.frames);
      assert Header(|p|) == buf[..HeaderSize];
      SplitFrame(buf, n);
      Associate(Header(|p|) + p, Encode(d.frames), d.rest);
    }
  }

  lemma SplitFrame(buf: seq<byte>, n: nat)
    requires HeaderSize + n <= |buf|
    ensures buf == buf[..HeaderSize] + buf[HeaderSize..HeaderSize + n] + buf[HeaderSize + n..]
  {
  }

  lemma Associate(a: seq<byte>, b: seq<byte>, c: seq<byte>)
    ensures a + b + c == a + (b + c)
  {
  }

  lemma SlicesOfAppend(a: seq<byte>, b: seq<byte>, i: nat, j: nat)
    requires i <= j <= |a|
    ensures (a + b)[i..j] == a[i..j] && (a + b)[j..] == a[j..] + b
  {
  }

  lemma AssociateFrames(a: seq<seq<byte>>, b: seq<seq<byte>>, c: seq<seq<byte>>)
    ensures a + b + c == a + (b + c)
  {
  }

  lemma EncodeCons(p: seq<byte>, ps: seq<seq<byte>>)
    requires |p| < Pow256(HeaderSize) && Encodable(ps)
    ensures Encodable([p] + ps)
    ensures Encode([p] + ps) == Header(|p|) + p + Encode(ps)
  {
    assert ([p] + ps)[1..] == ps;
  }

  /**
    * Appending bytes never changes the frames already complete in the
    * buffer: draining `s1 + s2` is draining `s1`, then draining what `s1`
    * kept followed by `s2`.
    */
  lemma {:induction false} ExtractAppend(s1: seq<byte>, s2: seq<byte>)
    ensures var d1 := Extract(s1); var d2 := Extract(d1.rest + s2);
            Extract(s1 + s2) == Drained(d1.frames + d2.frames, d2.rest)
  {
    if !Stalled(s1) {
      var n := FrameSize(s1);
      SlicesOfAppend(s1, s2, HeaderSize, HeaderSize + n);
      SlicesOfAppend(s1, s2, 0, HeaderSize);
      ExtractAppend(s1[HeaderSize + n..], s2);
      var d := Extract(s1[HeaderSize + n..]);
      var e := Extract(d.rest + s2);
      AssociateFrames([s1[HeaderSize..HeaderSize + n]], d.frames, e.frames);
    }
  }

  /** A whole frame at the front of the buffer is taken off first. */
  lemma ExtractFront(p: seq<byte>, after: seq<byte>)
    requires |p| < Pow256(HeaderSize)
    ensures Extract(Header(|p|) + p + after) == Drained([p] + Extract(after).frames, Extract(after).rest)
  {
    var buf := Header(|p|) + p + after;
    Associate(Header(|p|), p, after);
    FrameSizeOfHeader(|p|, p + after);
    SlicesOfAppend(Header(|p|) + p, after, HeaderSize, HeaderSize + |p|);
    assert (Header(|p|) + p)[HeaderSize..HeaderSize + |p|] == p;
    assert (Header(|p|) + p)[HeaderSize + |p|..] == [];
    assert buf[HeaderSize + |p|..] == after;
  }

  /** Draining an encoded stream followed by anything yields the encoded payloads first. */
  lemma {:induction false} ExtractEncoded(payloads: seq<seq<byte>>, tail: seq<byte>)
    requires Encodable(payloads)
    ensures Extract(Encode(payloads) + tail)
         == Drained(payloads + Extract(tail).frames, Extract(tail).rest)
  {
    if payloads != [] {
      var p := payloads[0];
      var after := Encode(payloads[1..]) + tail;
      Associate(Header(|p|) + p, Encode(payloads[1..]), tail);
      ExtractFront(p, after);
      ExtractEncoded(payloads[1..], tail);
      AssociateFrames([p], payloads[1..], Extract(tail).frames);
      assert payloads == [p] + payloads[1..];
    } else {
      assert Encode(payloads) + tail == tail;
      assert payloads + Extract(tail).frames == Extract(tail).frames;
    }
  }

  /** Framing round trip: draining exactly an encoded stream yields the payloads and keeps nothing. */
  lemma RoundTrip(payloads: seq<seq<byte>>)
    requires Encodable(payloads)
    ensures Extract(Encode(payloads)) == Drained(payloads, [])
  {
    ExtractEncoded(payloads, []);
    assert Encode(payloads) + [] == Encode(payloads);
  }

  /**
    * Partial-frame retention: a header followed by fewer than `L` payload
    * bytes yields no frame and is kept whole; appending the missing bytes
    * then yields exactly the one frame.
    */
  lemma PartialFrameRetained(p: seq<byte>, k: nat)
    requires |p| < Pow256(HeaderSize) && k < |p|
    ensures Extract(Header(|p|) + p[..k]) == Drained([], Header(|p|) + p[..k])
    ensures Extract(Header(|p|) + p[..k] + p[k..]) == Drained([p], [])
  {
    FrameSizeOfHeader(|p|, p[..k]);
    assert Header(|p|) + p[..k] + p[k..] == Encode([p]) by {
      assert p[..k] + p[k..] == p;
    }
    RoundTrip([p]);
  }

  function Concat(chunks: seq<seq<byte>>): seq<byte>
  {
    if chunks == [] then [] else chunks[0] + Concat(chunks[1..])
  }

  /** Frames and kept bytes after a handler call per chunk, starting from buffer `buf`. */
  function FeedAll(buf: seq<byte>, chunks: seq<seq<byte>>): Drained
    decreases chunks
  {
    if chunks == [] then Drained([], buf)
    else
      var d := Extract(buf + chunks[0]);
      var more := FeedAll(d.rest, chunks[1..]);
      Drained(d.frames + more.frames, more.rest)
  }

  /**
    * Chunking does not matter: starting from a buffer a handler could have
    * left, feeding chunk by chunk is draining their concatenation once.
    */
  lemma {:induction false} FeedAllIsExtract(buf: seq<byte>, chunks: seq<seq<byte>>)
    requires Stalled(buf)
    decreases chunks
    ensures FeedAll(buf, chunks) == Extract(buf + Concat(chunks))
  {
    if chunks == [] {
      assert buf + [] == buf;
    } else {
      var d := Extract(buf + chunks[0]);
      ExtractRestStalled(buf + chunks[0]);
      FeedAllIsExtract(d.rest, chunks[1..]);
      ExtractAppend(buf + chunks[0], Concat(chunks[1..]));
      Associate(buf, chunks[0], Concat(chunks[1..]));
    }
  }

  /**
    * Any split of an encoded stream into messages, fed to a fresh buffer one
    * message at a time, yields the original payloads in order and leaves the
    * buffer empty.
    */
  lemma ChunkedRoundTrip(payloads: seq<seq<byte>>, chunks: seq<seq<byte>>)
    requires Encodable(payloads) && Concat(chunks) == Encode(payloads)
    ensures FeedAll([], chunks) == Drained(payloads, [])
  {
    FeedAllIsExtract([], chunks);
    assert [] + Concat(chunks) == Encode(payloads);
    RoundTrip(payloads);
  }
}
