/** One connection's reader and writer state between two TLS calls (server_worker.c). */
module WorkerSpec {
  import opened Bytes
  import opened Framing

  datatype Wait = NoWait | ForRead | ForWrite

  /** `incoming` is the part of the current header or frame read so far, `needed` how many
      bytes complete it; `outgoing` is the frame being written, empty when there is none. */
  datatype Io = Io(
    incoming: seq<Byte>, needed: nat, readWait: Wait,
    outgoing: seq<Byte>, sent: nat, writeWait: Wait)

  const HEADER: nat := 4
  const BUFFER: nat := HEADER + FRAME_MAX_SIZE

  const FRESH := Io([], HEADER, NoWait, [], 0, NoWait)

  ghost predicate ReaderValid(io: Io) {
    && |io.incoming| < io.needed <= BUFFER
    && (io.needed == HEADER ||
          (HEADER <= |io.incoming| && io.needed == HEADER + Read32(io.incoming, 0) && HEADER < io.needed))
  }

  ghost predicate WriterValid(io: Io) {
    if io.outgoing == [] then io.sent == 0 else io.sent < |io.outgoing| <= BUFFER
  }

  // ----- Writing -----

  function Loaded(io: Io, f: Frame): Io {
    io.(outgoing := Wire(f), sent := 0)
  }

  function AfterWrote(io: Io, count: nat): Io {
    if io.sent + count == |io.outgoing| then io.(outgoing := [], sent := 0, writeWait := NoWait)
    else io.(sent := io.sent + count, writeWait := NoWait)
  }

  // ----- Reading -----

  datatype ReadOutcome = More(io: Io) | Deliver(raw: seq<Byte>, io: Io) | Reject

  function AfterGot(io: Io, data: seq<Byte>): ReadOutcome {
    var bytes := io.incoming + data;
    if |bytes| < io.needed || |bytes| < HEADER then More(io.(incoming := bytes, readWait := NoWait))
    else if io.needed == HEADER then
      var length := Read32(bytes, 0);
      if length == 0 || length > FRAME_MAX_SIZE then Reject
      else More(io.(incoming := bytes, needed := HEADER + length, readWait := NoWait))
    else if |bytes| == HEADER || !ValidFrameType(bytes[HEADER]) then Reject
    else Deliver(bytes[HEADER..], io.(incoming := [], needed := HEADER, readWait := NoWait))
  }

  /** Reading never goes beyond the current header or frame, so what has been read is an
      unfinished frame of the one-shot decoder, and the reader acts exactly when that
      decoder would: one frame and nothing behind it, or an unacceptable one. */
  lemma GotIsDecoding(io: Io, data: seq<Byte>)
    requires ReaderValid(io) && |data| <= io.needed - |io.incoming|
    ensures DecodeOne(io.incoming).Incomplete?
    ensures match AfterGot(io, data)
            case More(io') =>
              ReaderValid(io') && io'.incoming == io.incoming + data && DecodeOne(io.incoming + data).Incomplete?
            case Deliver(raw, io') =>
              && ReaderValid(io') && io'.incoming == [] && 0 < |raw| && raw == [raw[0]] + raw[1..]
              && DecodeOne(io.incoming + data) == Complete(Frame(raw[0], raw[1..]), [])
            case Reject => DecodeOne(io.incoming + data).Bad?
  {
    var bytes := io.incoming + data;
    if io.needed != HEADER {
      SameHeader(io.incoming, data);
    }
    if AfterGot(io, data).Deliver? {
      assert bytes[HEADER..][1..] == bytes[5..];
    }
  }

  lemma SameHeader(a: seq<Byte>, b: seq<Byte>)
    requires HEADER <= |a|
    ensures Read32(a + b, 0) == Read32(a, 0)
  {
    assert forall i :: 0 <= i < 4 ==> (a + b)[i] == a[i];
  }

  /** The whole stream read so far, decoded at once, gives the frames delivered so far. */
  lemma GotExtendsDecoding(io: Io, data: seq<Byte>, consumed: seq<Byte>, frames: seq<Frame>)
    requires ReaderValid(io) && |data| <= io.needed - |io.incoming|
    requires DecodeAll(consumed) == Decoding(frames, io.incoming, true)
    ensures var after := DecodeAll(consumed + data);
            match AfterGot(io, data)
            case More(io') => after == Decoding(frames, io'.incoming, true)
            case Deliver(raw, io') => 0 < |raw| && after == Decoding(frames + [Frame(raw[0], raw[1..])], io'.incoming, true)
            case Reject => after == Decoding(frames, io.incoming + data, false)
  {
    GotIsDecoding(io, data);
    DecodeMore(consumed, data);
    var bytes := io.incoming + data;
    assert DecodeAll([]) == Decoding([], [], true);
    match AfterGot(io, data)
    case More(_) =>
      assert DecodeAll(bytes) == Decoding([], bytes, true);
    case Deliver(raw, _) =>
      assert DecodeAll(bytes) == Decoding([Frame(raw[0], raw[1..])] + [], [], true);
    case Reject =>
      assert DecodeAll(bytes) == Decoding([], bytes, false);
  }
}
