/** Frames of the Bluetooth session on the wire: [type: 1][length: 4 BE][data]. */
module Framing {
  import opened Types
  import opened Bytes

  const MAX_FRAME_LEN: nat := 0x10_0000

  datatype RawFrame = RawFrame(ftype: Byte, data: seq<Byte>)

  /** What one readFrame finds at the front of a stream: a frame and the bytes after it, a
      length over the cap, or too few bytes yet. */
  datatype ReadResult = Got(frame: RawFrame, rest: seq<Byte>) | TooLarge | NeedMore

  predicate Sendable(f: RawFrame) {
    |f.data| <= MAX_FRAME_LEN
  }

  function WriteFrame(f: RawFrame): (b: seq<Byte>)
    requires Sendable(f)
    ensures |b| == 5 + |f.data|
  {
    PowerValues();
    [f.ftype] + BE(|f.data|, 4) + f.data
  }

  function ReadFrame(s: seq<Byte>): ReadResult {
    if |s| < 5 then NeedMore else
      var length := FromBE(s[1..5]);
      if length > MAX_FRAME_LEN then TooLarge
      else if |s| < 5 + length then NeedMore
      else Got(RawFrame(s[0], s[5..5 + length]), s[5 + length..])
  }

  function WriteAll(fs: seq<RawFrame>): seq<Byte>
    requires forall f :: f in fs ==> Sendable(f)
  {
    if fs == [] then [] else WriteFrame(fs[0]) + WriteAll(fs[1..])
  }

  /** Every complete frame at the front of a stream, and the bytes left over. */
  function ReadAll(s: seq<Byte>): (seq<RawFrame>, seq<Byte>)
    decreases |s|
  {
    match ReadFrame(s)
    case Got(f, rest) => var (fs, left) := ReadAll(rest); ([f] + fs, left)
    case _ => ([], s)
  }

  /** Reading takes exactly the bytes that writing produced, whatever follows. */
  lemma ReadWritten(f: RawFrame, rest: seq<Byte>)
    requires Sendable(f)
    ensures ReadFrame(WriteFrame(f) + rest) == Got(f, rest)
    ensures var b := WriteFrame(f);
            b[0] == f.ftype && FromBE(b[1..5]) == |f.data| && b[5..] == f.data
  {
    PowerValues();
    var s := WriteFrame(f) + rest;
    assert s[1..5] == WriteFrame(f)[1..5] == BE(|f.data|, 4);
    FromBEofBE(|f.data|, 4);
    assert s[5..5 + |f.data|] == f.data && s[5 + |f.data|..] == rest;
  }

  /** A stream is refused exactly when it announces more than a mebibyte. */
  lemma RefusedExactly(s: seq<Byte>)
    ensures ReadFrame(s) == TooLarge <==> |s| >= 5 && FromBE(s[1..5]) > 1048576
  {}

  /** A frame that has only partly arrived is waited for. */
  lemma ReadPartial(f: RawFrame, n: nat)
    requires Sendable(f) && n < |WriteFrame(f)|
    ensures ReadFrame(WriteFrame(f)[..n]) == NeedMore
  {
    if n >= 5 {
      PowerValues();
      var s := WriteFrame(f)[..n];
      assert s[1..5] == BE(|f.data|, 4);
      FromBEofBE(|f.data|, 4);
    }
  }

  /** Parsing inverts writing on any concatenation of frames, cut off anywhere: the complete
      frames come back in order and a partial one stays unread. */
  lemma ReadAllWritten(fs: seq<RawFrame>, last: RawFrame, n: nat)
    requires (forall f :: f in fs ==> Sendable(f)) && Sendable(last) && n < |WriteFrame(last)|
    ensures ReadAll(WriteAll(fs) + WriteFrame(last)[..n]) == (fs, WriteFrame(last)[..n])
  {
    ReadPartial(last, n);
    ReadAllBefore(fs, WriteFrame(last)[..n]);
  }

  lemma {:induction false} ReadAllBefore(fs: seq<RawFrame>, tail: seq<Byte>)
    requires (forall f :: f in fs ==> Sendable(f)) && ReadFrame(tail) == NeedMore
    ensures ReadAll(WriteAll(fs) + tail) == (fs, tail)
  {
    if fs == [] {
      assert WriteAll(fs) + tail == tail;
    } else {
      var rest := WriteAll(fs[1..]) + tail;
      WriteAllFront(fs, tail);
      ReadWritten(fs[0], rest);
      ReadAllBefore(fs[1..], tail);
      ReadAllStep(WriteAll(fs) + tail, fs[0], rest);
      assert fs == [fs[0]] + fs[1..];
    }
  }

  lemma WriteAllFront(fs: seq<RawFrame>, tail: seq<Byte>)
    requires fs != [] && forall f :: f in fs ==> Sendable(f)
    ensures WriteAll(fs) + tail == WriteFrame(fs[0]) + (WriteAll(fs[1..]) + tail)
  {}

  lemma ReadAllStep(s: seq<Byte>, f: RawFrame, rest: seq<Byte>)
    requires ReadFrame(s) == Got(f, rest)
    ensures ReadAll(s) == ([f] + ReadAll(rest).0, ReadAll(rest).1)
  {}
}
