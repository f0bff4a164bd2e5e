/** The file-transfer frames: name validation, encoders and decoders (file_protocol.c). */
module FileProtocol {
  import opened Bytes

  const FILE_NAME_MAX_LENGTH: nat := 255
  const BEGIN_FIXED_SIZE: nat := 16
  const BEGIN_MAX_SIZE: nat := BEGIN_FIXED_SIZE + (USERNAME_SIZE - 1) + FILE_NAME_MAX_LENGTH
  const CHUNK_MAX_SIZE: nat := 4 + FILE_CHUNK_SIZE

  predicate PeerByte(b: Byte) {
    b != 0 && !IsSpace(b) && !IsControl(b)
  }

  predicate ValidPeer(name: seq<Byte>) {
    0 < |name| < USERNAME_SIZE && forall i :: 0 <= i < |name| ==> PeerByte(name[i])
  }

  predicate FilenameByte(b: Byte) {
    b != 0 && b != '/' as int && b != '\\' as int && !IsControl(b)
  }

  predicate ValidFilename(name: seq<Byte>) {
    && 0 < |name| <= FILE_NAME_MAX_LENGTH
    && name != ['.' as int]
    && name != ['.' as int, '.' as int]
    && forall i :: 0 <= i < |name| ==> FilenameByte(name[i])
  }

  datatype Begin = Begin(id: Word, size: Quad, peer: seq<Byte>, filename: seq<Byte>)
  datatype Chunk = Chunk(id: Word, data: seq<Byte>)

  predicate ValidBegin(b: Begin) {
    ValidPeer(b.peer) && ValidFilename(b.filename)
  }

  predicate ValidChunk(c: Chunk) {
    0 < |c.data| <= FILE_CHUNK_SIZE
  }

  // ----- Payload layouts -----

  function BeginPayload(b: Begin): (p: seq<Byte>)
    requires |b.peer| < TWO16 && |b.filename| < TWO16
    ensures |p| == BEGIN_FIXED_SIZE + |b.peer| + |b.filename|
  {
    Be32(b.id) + Be64(b.size) + Be16(|b.peer|) + Be16(|b.filename|) + b.peer + b.filename
  }

  function ChunkPayload(c: Chunk): (p: seq<Byte>)
    ensures |p| == 4 + |c.data|
  {
    Be32(c.id) + c.data
  }

  // ----- Encoders: None stands for the error return -----

  function EncodeBegin(b: Begin): Option<seq<Byte>>
  {
    if ValidPeer(b.peer) && ValidFilename(b.filename) then Some(BeginPayload(b)) else None
  }

  function EncodeChunk(c: Chunk): Option<seq<Byte>>
  {
    if 0 < |c.data| <= FILE_CHUNK_SIZE then Some(ChunkPayload(c)) else None
  }

  // ----- Decoders: the argument is the complete frame, type byte included -----

  function DecodeBegin(frame: seq<Byte>): Option<Begin> {
    if |frame| < 1 + BEGIN_FIXED_SIZE || frame[0] != FILE_BEGIN then None else
    var peerLength := Read16(frame, 13);
    var filenameLength := Read16(frame, 15);
    if peerLength + filenameLength != |frame| - 17 then None else
    var peer := frame[17..17 + peerLength];
    var filename := frame[17 + peerLength..];
    if ValidPeer(peer) && ValidFilename(filename)
    then Some(Begin(Read32(frame, 1), Read64(frame, 5), peer, filename))
    else None
  }

  function DecodeChunk(frame: seq<Byte>): Option<Chunk> {
    if |frame| <= 5 || frame[0] != FILE_CHUNK || |frame| > 5 + FILE_CHUNK_SIZE then None
    else Some(Chunk(Read32(frame, 1), frame[5..]))
  }

  function DecodeControl(frame: seq<Byte>, expected: Byte): Option<Word> {
    if |frame| != 5 || frame[0] != expected then None else Some(Read32(frame, 1))
  }

  function ReadTransferId(frame: seq<Byte>): Option<Word> {
    if |frame| < 5 then None else Some(Read32(frame, 1))
  }

  // ----- The codecs are inverse in both directions -----

  ghost predicate Laid(frame: seq<Byte>, b: Begin) {
    && |frame| == 17 + |b.peer| + |b.filename|
    && frame[0] == FILE_BEGIN
    && |b.peer| < TWO16 && |b.filename| < TWO16
    && frame[1..5] == Be32(b.id) && frame[5..13] == Be64(b.size)
    && frame[13..15] == Be16(|b.peer|) && frame[15..17] == Be16(|b.filename|)
    && frame[17..17 + |b.peer|] == b.peer && frame[17 + |b.peer|..] == b.filename
  }

  lemma EncodedIsLaid(b: Begin)
    requires ValidBegin(b)
    ensures Laid([FILE_BEGIN] + BeginPayload(b), b)
  {
    var g := [FILE_BEGIN] + BeginPayload(b);
    var names := b.peer + b.filename;
    var lengths := Be16(|b.peer|) + Be16(|b.filename|);
    assert g == [FILE_BEGIN] + Be32(b.id) + Be64(b.size) + lengths + names;
    assert g[17..] == names && g[13..17] == lengths && g[5..13] == Be64(b.size);
    assert g[13..15] == g[13..17][..2] && g[15..17] == g[13..17][2..];
    assert g[17..17 + |b.peer|] == g[17..][..|b.peer|] && g[17 + |b.peer|..] == g[17..][|b.peer|..];
  }

  lemma LaidIsEncoded(frame: seq<Byte>, b: Begin)
    requires Laid(frame, b)
    ensures frame == [FILE_BEGIN] + BeginPayload(b)
  {
    var pl := |b.peer|;
    assert frame == frame[..1] + frame[1..5] + frame[5..13] + frame[13..15] + frame[15..17]
                    + frame[17..17 + pl] + frame[17 + pl..];
    assert frame[..1] == [frame[0]];
  }

  /** Every valid begin record survives encoding and decoding, and a frame that decodes
      is the one and only encoding of what it decodes to. */
  lemma BeginCodec(frame: seq<Byte>, b: Begin)
    ensures DecodeBegin(frame) == Some(b) <==>
            ValidBegin(b) && frame == [FILE_BEGIN] + BeginPayload(b)
  {
    if ValidBegin(b) && |frame| == 17 + |b.peer| + |b.filename| {
      EncodedIsLaid(b);
      if Laid(frame, b) {
        LaidIsEncoded(frame, b);
      }
      ReadWritten32(frame, 1, b.id);
      ReadWritten64(frame, 5, b.size);
      ReadWritten16(frame, 13, |b.peer|);
      ReadWritten16(frame, 15, |b.filename|);
    }
  }

  lemma ChunkCodec(frame: seq<Byte>, c: Chunk)
    ensures DecodeChunk(frame) == Some(c) <==>
            ValidChunk(c) && frame == [FILE_CHUNK] + ChunkPayload(c)
  {
    if ValidChunk(c) && |frame| == 5 + |c.data| {
      ReadWritten32(frame, 1, c.id);
      assert frame == [frame[0]] + frame[1..5] + frame[5..];
      var g := [FILE_CHUNK] + ChunkPayload(c);
      assert g[1..5] == Be32(c.id) && g[5..] == c.data;
    }
  }

  lemma ControlCodec(frame: seq<Byte>, kind: Byte, id: Word)
    ensures DecodeControl(frame, kind) == Some(id) <==> frame == [kind] + Be32(id)
  {
    if |frame| == 5 {
      ReadWritten32(frame, 1, id);
      assert frame == [frame[0]] + frame[1..5];
      assert ([kind] + Be32(id))[1..5] == Be32(id);
    }
  }

  /** After a successful decode the relay's re-encoding under another id and peer name
      cannot fail, fits its payload buffer and fits a frame. */
  lemma ReencodeBegin(frame: seq<Byte>, b: Begin, id: Word, peer: seq<Byte>)
    requires DecodeBegin(frame) == Some(b) && ValidPeer(peer)
    ensures EncodeBegin(Begin(id, b.size, peer, b.filename)).Some?
    ensures |EncodeBegin(Begin(id, b.size, peer, b.filename)).value| <= BEGIN_MAX_SIZE < FRAME_MAX_SIZE
  {
    BeginCodec(frame, b);
  }

  lemma ReencodeChunk(frame: seq<Byte>, c: Chunk, id: Word)
    requires DecodeChunk(frame) == Some(c)
    ensures EncodeChunk(Chunk(id, c.data)).Some?
    ensures |EncodeChunk(Chunk(id, c.data)).value| <= CHUNK_MAX_SIZE < FRAME_MAX_SIZE
  {
    ChunkCodec(frame, c);
  }
}
