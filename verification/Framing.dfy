/** Frames on the byte stream: a 32-bit length, the type byte, the payload. The one-shot
    decoder over a whole stream is the reference for both readers of the system. */
module Framing {
  import opened Bytes

  /** The length field holds 32 bits. */
  function Wire(f: Frame): (bytes: seq<Byte>)
    ensures |bytes| == 5 + |f.payload|
  {
    Be32((1 + |f.payload|) % TWO32) + Raw(f)
  }

  predicate AllFit(frames: seq<Frame>) {
    forall i :: 0 <= i < |frames| ==> Fits(frames[i])
  }

  function WireAll(frames: seq<Frame>): seq<Byte> {
    if frames == [] then [] else WireAll(frames[..|frames| - 1]) + Wire(frames[|frames| - 1])
  }

  // ----- The one-shot decoder -----

  datatype Decoded = Incomplete | Bad | Complete(frame: Frame, rest: seq<Byte>)

  function DecodeOne(stream: seq<Byte>): Decoded {
    if |stream| < 4 then Incomplete else
    var length := Read32(stream, 0);
    if length == 0 || length > FRAME_MAX_SIZE then Bad
    else if |stream| < 4 + length then Incomplete
    else if !ValidFrameType(stream[4]) then Bad
    else Complete(Frame(stream[4], stream[5..4 + length]), stream[4 + length..])
  }

  /** All the frames of a stream in order, what is left of an unfinished one, and whether
      the stream is still acceptable. */
  datatype Decoding = Decoding(frames: seq<Frame>, rest: seq<Byte>, ok: bool)

  function DecodeAll(stream: seq<Byte>): Decoding
    decreases |stream|
  {
    match DecodeOne(stream)
    case Incomplete => Decoding([], stream, true)
    case Bad => Decoding([], stream, false)
    case Complete(frame, rest) =>
      var d := DecodeAll(rest);
      Decoding([frame] + d.frames, d.rest, d.ok)
  }

  /** A stream may end only between two frames. */
  predicate CleanEnd(stream: seq<Byte>) {
    DecodeAll(stream).ok && DecodeAll(stream).rest == []
  }

  /** What it means that a frame has been found. */
  lemma FoundParts(stream: seq<Byte>)
    requires DecodeOne(stream).Complete?
    ensures var f, rest := DecodeOne(stream).frame, DecodeOne(stream).rest; var n := |f.payload|;
            && Fits(f) && 5 + n <= |stream| && Read32(stream, 0) == 1 + n
            && f == Frame(stream[4], stream[5..5 + n]) && rest == stream[5 + n..]
  {
  }

  lemma CompleteIsWire(stream: seq<Byte>)
    requires DecodeOne(stream).Complete?
    ensures Fits(DecodeOne(stream).frame)
    ensures stream == Wire(DecodeOne(stream).frame) + DecodeOne(stream).rest
  {
    FoundParts(stream);
    WireOfParts(stream, DecodeOne(stream).frame, DecodeOne(stream).rest);
  }

  lemma WireOfParts(stream: seq<Byte>, f: Frame, rest: seq<Byte>)
    requires var n := |f.payload|;
             && n < FRAME_MAX_SIZE && 5 + n <= |stream| && Read32(stream, 0) == 1 + n
             && f == Frame(stream[4], stream[5..5 + n]) && rest == stream[5 + n..]
    ensures stream == Wire(f) + rest
  {
    var n := |f.payload|;
    ReadWritten32(stream, 0, 1 + n);
    FourParts(stream, 5 + n);
    assert Raw(f) == [stream[4]] + stream[5..5 + n];
  }

  lemma FourParts(stream: seq<Byte>, end: nat)
    requires 5 <= end <= |stream|
    ensures stream == stream[0..4] + ([stream[4]] + stream[5..end]) + stream[end..]
  {
  }

  lemma WireParts(f: Frame, rest: seq<Byte>)
    ensures var stream, n := Wire(f) + rest, |f.payload|;
            && |stream| == 5 + n + |rest| && stream[0..4] == Be32((1 + n) % TWO32) && stream[4] == f.kind
            && stream[5..5 + n] == f.payload && stream[5 + n..] == rest
  {
    var header, body, n := Be32((1 + |f.payload|) % TWO32), Raw(f) + rest, |f.payload|;
    assert Wire(f) + rest == header + body && (header + body)[4..] == body;
    assert body[1..1 + n] == f.payload && body[1 + n..] == rest;
    assert (header + body)[5..5 + n] == body[1..1 + n] && (header + body)[5 + n..] == body[1 + n..];
  }

  lemma Found(stream: seq<Byte>, n: nat)
    requires 4 + n <= |stream| && 0 < n <= FRAME_MAX_SIZE && Read32(stream, 0) == n && ValidFrameType(stream[4])
    ensures DecodeOne(stream) == Complete(Frame(stream[4], stream[5..4 + n]), stream[4 + n..])
  {
  }

  lemma WireIsComplete(f: Frame, rest: seq<Byte>)
    requires Fits(f)
    ensures DecodeOne(Wire(f) + rest) == Complete(f, rest)
  {
    WireParts(f, rest);
    ReadWritten32(Wire(f) + rest, 0, 1 + |f.payload|);
    Found(Wire(f) + rest, 1 + |f.payload|);
  }

  lemma {:induction false} WireAllAppend(a: seq<Frame>, b: seq<Frame>)
    ensures WireAll(a + b) == WireAll(a) + WireAll(b)
  {
    if b == [] {
      assert a + b == a;
    } else {
      var front, last := b[..|b| - 1], b[|b| - 1];
      assert (a + b)[..|a + b| - 1] == a + front && (a + b)[|a + b| - 1] == last;
      WireAllAppend(a, front);
      Regroup(WireAll(a), WireAll(front), Wire(last));
    }
  }

  lemma WireAllOne(f: Frame)
    ensures WireAll([f]) == Wire(f)
  {
    assert [f][..0] == [];
  }

  lemma WireAllCons(f: Frame, frames: seq<Frame>)
    ensures WireAll([f] + frames) == Wire(f) + WireAll(frames)
  {
    WireAllAppend([f], frames);
    WireAllOne(f);
  }

  /** Decoding is inverse to encoding: what decodes is the encoding of its frames followed
      by the unfinished rest. */
  lemma {:induction false} DecodeAllSound(stream: seq<Byte>)
    ensures AllFit(DecodeAll(stream).frames)
    ensures stream == WireAll(DecodeAll(stream).frames) + DecodeAll(stream).rest
    decreases |stream|
  {
    match DecodeOne(stream)
    case Incomplete =>
    case Bad =>
    case Complete(frame, rest) =>
      CompleteIsWire(stream);
      DecodeAllSound(rest);
      WireAllCons(frame, DecodeAll(rest).frames);
      Regroup(Wire(frame), WireAll(DecodeAll(rest).frames), DecodeAll(rest).rest);
  }

  lemma Regroup<T>(a: seq<T>, b: seq<T>, c: seq<T>)
    ensures a + (b + c) == a + b + c
  {
  }

  /** Every list of frames survives the wire, followed by whatever else is there. */
  lemma {:induction false} DecodeAllComplete(frames: seq<Frame>, rest: seq<Byte>)
    requires AllFit(frames)
    ensures DecodeAll(WireAll(frames) + rest) ==
            Decoding(frames + DecodeAll(rest).frames, DecodeAll(rest).rest, DecodeAll(rest).ok)
    decreases |frames|
  {
    if frames == [] {
      assert WireAll(frames) + rest == rest && frames + DecodeAll(rest).frames == DecodeAll(rest).frames;
    } else {
      var head, tail := frames[0], frames[1..];
      assert [head] + tail == frames;
      WireAllCons(head, tail);
      Regroup(Wire(head), WireAll(tail), rest);
      WireIsComplete(head, WireAll(tail) + rest);
      DecodeAllComplete(tail, rest);
      Regroup([head], tail, DecodeAll(rest).frames);
    }
  }

  lemma {:induction false} RestIsUnfinished(stream: seq<Byte>)
    ensures DecodeAll(stream).ok ==> DecodeOne(DecodeAll(stream).rest).Incomplete?
    ensures !DecodeAll(stream).ok ==> DecodeOne(DecodeAll(stream).rest).Bad?
    decreases |stream|
  {
    if DecodeOne(stream).Complete? {
      RestIsUnfinished(DecodeOne(stream).rest);
    }
  }

  /** Decoding can stop anywhere and go on later: only the unfinished rest matters. */
  lemma DecodeMore(stream: seq<Byte>, more: seq<Byte>)
    ensures var d := DecodeAll(stream); var e := DecodeAll(d.rest + more);
            DecodeAll(stream + more) == Decoding(d.frames + e.frames, e.rest, e.ok)
  {
    var d := DecodeAll(stream);
    DecodeAllSound(stream);
    DecodeAllComplete(d.frames, d.rest + more);
    Regroup(WireAll(d.frames), d.rest, more);
  }

  /** A reader that has seen part of what was written has decoded the first of the frames. */
  lemma PrefixDecodes(frames: seq<Frame>, seen: seq<Byte>, rest: seq<Byte>)
    requires AllFit(frames) && WireAll(frames) == seen + rest
    ensures var d := DecodeAll(seen);
            && d.ok && |d.frames| <= |frames| && frames[..|d.frames|] == d.frames
            && (rest == [] ==> d == Decoding(frames, [], true))
  {
    var d := DecodeAll(seen);
    DecodeMore(seen, rest);
    DecodeAllComplete(frames, []);
    assert WireAll(frames) + [] == WireAll(frames) && frames + DecodeAll([]).frames == frames;
    RestIsUnfinished(seen);
    if !d.ok {
      BadStaysBad(d.rest, rest);
    }
    if rest == [] {
      assert seen + rest == seen;
    }
  }

  lemma BadStaysBad(stream: seq<Byte>, more: seq<Byte>)
    requires DecodeOne(stream).Bad?
    ensures !DecodeAll(stream + more).ok
  {
    assert forall i :: 0 <= i < |stream| ==> (stream + more)[i] == stream[i];
    assert DecodeOne(stream + more).Bad?;
  }
}
