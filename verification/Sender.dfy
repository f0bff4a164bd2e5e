/** Sending a file (client_file_sender.c): the frames of one transfer, and the code that
    builds the envelope in buffers and cuts it into chunks. */
module Sender {
  import opened Bytes
  import opened FileProtocol
  import opened FileBuffers
  import opened FileCrypto
  import opened Framing
  import opened Sessions
  import Conn = Connection
  import RouteSpec

  // ----- The frames of a transfer -----

  /** Pieces of FILE_CHUNK_SIZE bytes, the last one shorter. */
  function Cut(bytes: seq<Byte>): (chunks: seq<seq<Byte>>)
    decreases |bytes|
  {
    if bytes == [] then []
    else if |bytes| <= FILE_CHUNK_SIZE then [bytes]
    else [bytes[..FILE_CHUNK_SIZE]] + Cut(bytes[FILE_CHUNK_SIZE..])
  }

  function Joined(chunks: seq<seq<Byte>>): seq<Byte> {
    if chunks == [] then [] else chunks[0] + Joined(chunks[1..])
  }

  /** Cutting loses nothing and makes only chunks that can be sent, all but the last full. */
  lemma {:induction false} CutIsExact(bytes: seq<Byte>)
    ensures Joined(Cut(bytes)) == bytes
    ensures forall i :: 0 <= i < |Cut(bytes)| ==> 0 < |Cut(bytes)[i]| <= FILE_CHUNK_SIZE
    ensures forall i :: 0 <= i < |Cut(bytes)| - 1 ==> |Cut(bytes)[i]| == 900
    decreases |bytes|
  {
    if |bytes| > FILE_CHUNK_SIZE {
      var rest := bytes[FILE_CHUNK_SIZE..];
      CutIsExact(rest);
      assert Cut(bytes)[1..] == Cut(rest);
      assert Joined(Cut(bytes)) == bytes[..FILE_CHUNK_SIZE] + rest;
    } else if bytes != [] {
      assert [bytes][1..] == [];
    }
  }

  function ChunkFrames(id: Word, chunks: seq<seq<Byte>>): (frames: seq<Frame>)
    ensures |frames| == |chunks|
  {
    if chunks == [] then []
    else [Frame(FILE_CHUNK, ChunkPayload(Chunk(id, chunks[0])))] + ChunkFrames(id, chunks[1..])
  }

  function TransferFrames(id: Word, recipient: seq<Byte>, filename: seq<Byte>, envelope: seq<Byte>): seq<Frame>
    requires ValidPeer(recipient) && ValidFilename(filename) && |envelope| < TWO64
  {
    [BeginFrame(Begin(id, |envelope|, recipient, filename))] + Rest(id, Cut(envelope))
  }

  /** What follows BEGIN. */
  function Rest(id: Word, chunks: seq<seq<Byte>>): seq<Frame> {
    ChunkFrames(id, chunks) + [EndFrame(id)]
  }

  // ----- The last component of a path -----

  function LastPart(path: seq<Byte>): seq<Byte> {
    if path == [] || path[|path| - 1] == '/' as int then []
    else LastPart(path[..|path| - 1]) + [path[|path| - 1]]
  }

  lemma {:induction false} LastPartIs(path: seq<Byte>, i: nat)
    requires i <= |path| && (i == 0 || path[i - 1] == '/' as int)
    requires forall j :: i <= j < |path| ==> path[j] != '/' as int
    ensures LastPart(path) == path[i..]
    decreases |path|
  {
    if i < |path| {
      LastPartIs(path[..|path| - 1], i);
      assert path[i..] == path[..|path| - 1][i..] + [path[|path| - 1]];
    }
  }

  method PathBasename(path: seq<Byte>) returns (name: Option<seq<Byte>>)
    ensures name == if path == [] then None else Some(LastPart(path))
    ensures name.Some? ==>
              && '/' as int !in name.value
              && exists directory :: path == directory + name.value
                                     && (directory == [] || directory[|directory| - 1] == '/' as int)
  {
    if path == [] {
      return None;
    }
    var i := |path|;
    while i > 0 && path[i - 1] != '/' as int
      invariant 0 <= i <= |path|
      invariant forall j :: i <= j < |path| ==> path[j] != '/' as int
    {
      i := i - 1;
    }
    assert path == path[..i] + path[i..];
    LastPartIs(path, i);
    return Some(path[i..]);
  }

  /** What opening and reading the file found: its size as reported, then its bytes. */
  datatype Disk = Missing | Irregular | Regular(size: nat, bytes: seq<Byte>, readOk: bool)

  /** The frames of a whole transfer, or none when the file cannot be sent. */
  function Transfer(box: Box, id: Word, recipient: seq<Byte>, path: seq<Byte>, disk: Disk,
                    nonce: seq<Byte>, theirKey: seq<Byte>, mine: Secret): Option<seq<Frame>>
  {
    var filename := LastPart(path);
    if !ValidPeer(recipient) || !ValidFilename(filename) then None
    else if !disk.Regular? || disk.size > PLAINTEXT_MAX_SIZE || !disk.readOk || |disk.bytes| != disk.size then None
    else match Envelope(box, filename, disk.bytes, nonce, theirKey, mine)
      case None => None
      case Some(e) => if |e| < TWO64 then Some(TransferFrames(id, recipient, filename, e)) else None
  }

  /** What makes a file sendable: both names are valid, it is a regular file that was read
      completely, it has at most 16 MiB, and the box seals it. */
  ghost predicate Sendable(box: Box, recipient: seq<Byte>, path: seq<Byte>, data: seq<Byte>,
                           nonce: seq<Byte>, theirKey: seq<Byte>, mine: Secret) {
    && ValidPeer(recipient) && ValidFilename(LastPart(path)) && |data| <= 16 * 1024 * 1024
    && box.seal(Plaintext(LastPart(path), data), nonce, theirKey, mine).Some?
  }

  /** The frames under id x that carry the sealed file to the recipient. */
  ghost function Carriers(box: Box, x: Word, recipient: seq<Byte>, path: seq<Byte>, data: seq<Byte>,
                          nonce: seq<Byte>, theirKey: seq<Byte>, mine: Secret): seq<Frame>
    requires Lawful(box) && |nonce| == NONCE_SIZE && Sendable(box, recipient, path, data, nonce, theirKey, mine)
  {
    TransferFrames(x, recipient, LastPart(path), Envelope(box, LastPart(path), data, nonce, theirKey, mine).value)
  }

  /** The sender sends exactly the sendable files, and nothing of any other. */
  lemma SendsExactly(box: Box, x: Word, recipient: seq<Byte>, path: seq<Byte>, disk: Disk,
                     nonce: seq<Byte>, theirKey: seq<Byte>, mine: Secret)
    requires Lawful(box) && |nonce| == NONCE_SIZE
    ensures Transfer(box, x, recipient, path, disk, nonce, theirKey, mine).Some? <==>
            exists data :: disk == Regular(|data|, data, true) && Sendable(box, recipient, path, data, nonce, theirKey, mine)
    ensures forall data :: disk == Regular(|data|, data, true) && Sendable(box, recipient, path, data, nonce, theirKey, mine) ==>
              Transfer(box, x, recipient, path, disk, nonce, theirKey, mine) ==
              Some(Carriers(box, x, recipient, path, data, nonce, theirKey, mine))
  {
    if Transfer(box, x, recipient, path, disk, nonce, theirKey, mine).Some? {
      assert disk == Regular(|disk.bytes|, disk.bytes, true);
      assert Sendable(box, recipient, path, disk.bytes, nonce, theirKey, mine);
    }
  }

  // ----- The envelope, written piece by piece -----

  method BuildPlaintext(filename: seq<Byte>, data: seq<Byte>) returns (plaintext: array<Byte>)
    requires |filename| <= FILE_NAME_MAX_LENGTH
    ensures plaintext[..] == Plaintext(filename, data)
  {
    plaintext := new Byte[METADATA_SIZE + |filename| + |data|](_ => 0);
    var offset := Put(plaintext, 0, MAGIC);
    offset := Put(plaintext, offset, [|filename| / 0x100 % 0x100, |filename| % 0x100]);
    offset := Put(plaintext, offset, filename);
    offset := Put(plaintext, offset, data);
    assert plaintext[..offset] == plaintext[..];
  }

  method BuildEnvelope(box: Box, filename: seq<Byte>, data: seq<Byte>, nonce: seq<Byte>, theirKey: seq<Byte>, mine: Secret)
    returns (encrypted: Option<array<Byte>>)
    requires Lawful(box) && |filename| <= FILE_NAME_MAX_LENGTH && |nonce| == NONCE_SIZE
    ensures encrypted.None? <==> Envelope(box, filename, data, nonce, theirKey, mine).None?
    ensures encrypted.Some? ==>
              && fresh(encrypted.value) && encrypted.value.Length == EnvelopeSize(filename, |data|)
              && Some(encrypted.value[..]) == Envelope(box, filename, data, nonce, theirKey, mine)
  {
    var plaintext := BuildPlaintext(filename, data);
    var sealed := box.seal(plaintext[..], nonce, theirKey, mine);
    if sealed.None? {
      return None;
    }
    var key := box.publicKey(mine);
    ghost var envelope := MAGIC + key + nonce + sealed.value;
    assert Envelope(box, filename, data, nonce, theirKey, mine) == Some(envelope);
    var buffer := new Byte[HEADER_SIZE + MAC_SIZE + plaintext.Length](_ => 0);
    var offset := Put(buffer, 0, MAGIC);
    offset := Put(buffer, offset, key);
    offset := Put(buffer, offset, nonce);
    offset := Put(buffer, offset, sealed.value);
    assert buffer[..] == buffer[..offset] == envelope;
    return Some(buffer);
  }

  /** The frames `done` have been sent, and the link has been spent accordingly. */
  ghost predicate Through(start: Conn.Link, before: seq<Byte>, done: seq<Frame>, now: Conn.Link, sent: seq<Byte>) {
    && Conn.Sends(start, before, WireAll(done), sent, true)
    && now == Conn.Spend(start, |WireAll(done)|)
  }

  /** One frame more, or the end of it. */
  lemma OneMore(start: Conn.Link, before: seq<Byte>, done: seq<Frame>, mid: seq<Byte>, f: Frame, rest: seq<Frame>,
                sent: seq<Byte>, ok: bool)
    requires Conn.Sends(start, before, WireAll(done), mid, true)
    requires Conn.Sends(Conn.Spend(start, |WireAll(done)|), mid, Wire(f), sent, ok)
    ensures done + ([f] + rest) == (done + [f]) + rest
    ensures Conn.Sends(start, before, WireAll(done + [f]), sent, ok)
    ensures !ok ==> Conn.Sends(start, before, WireAll(done + ([f] + rest)), sent, false)
  {
    Conn.SendsThen(start, before, WireAll(done), mid, Wire(f), sent, ok);
    WireAllAppend(done, [f]);
    WireAllOne(f);
    Regroup(done, [f], rest);
    if !ok {
      WireAllAppend(done + [f], rest);
      Conn.SendsNoMore(start, before, WireAll(done + [f]), sent, WireAll(rest));
    }
  }

  class Sender {
    var nextId: Word

    constructor ()
      ensures nextId == 1
    {
      nextId := 1;
    }

    /** Skips 0 when the 32-bit counter wraps. */
    method CreateTransferId() returns (id: Word)
      modifies this
      ensures id == RouteSpec.Candidate(old(nextId), 0) && nextId == RouteSpec.After(id)
    {
      id := nextId;
      nextId := (nextId + 1) % TWO32;
      while id == 0
        invariant id == 0 ==> old(nextId) == 0 && nextId == 1
        invariant id != 0 ==> id == RouteSpec.Candidate(old(nextId), 0) && nextId == RouteSpec.After(id)
        decreases if id == 0 then 1 else 0
      {
        id := nextId;
        nextId := (nextId + 1) % TWO32;
      }
    }

    /** One frame more of a transfer. */
    method SendNext(connection: Conn.Connection, f: Frame, ghost start: Conn.Link,
                    ghost before: seq<Byte>, ghost done: seq<Frame>, ghost rest: seq<Frame>) returns (ok: bool)
      requires Fits(f) && Through(start, before, done, connection.Output(), connection.sent)
      modifies connection
      ensures done + ([f] + rest) == (done + [f]) + rest
      ensures ok ==> Through(start, before, done + [f], connection.Output(), connection.sent)
      ensures !ok ==> Conn.Sends(start, before, WireAll(done + ([f] + rest)), connection.sent, false)
    {
      ghost var mid := connection.sent;
      ok := connection.SendFrame(f);
      OneMore(start, before, done, mid, f, rest, connection.sent, ok);
      WireAllAppend(done, [f]);
      WireAllOne(f);
    }

    /** Begin, chunks cut at a running offset, end: all of it on the wire exactly when the
        link takes all of it, otherwise as much as the link takes. */
    method SendTransfer(connection: Conn.Connection, id: Word, recipient: seq<Byte>, filename: seq<Byte>, encrypted: array<Byte>)
      returns (ok: bool)
      requires ValidPeer(recipient) && ValidFilename(filename) && encrypted.Length < TWO64
      modifies connection
      ensures Conn.Sends(old(connection.Output()), old(connection.sent),
                         WireAll(TransferFrames(id, recipient, filename, encrypted[..])), connection.sent, ok)
    {
      ghost var start, before, envelope := connection.Output(), connection.sent, encrypted[..];
      ghost var begin := BeginFrame(Begin(id, |envelope|, recipient, filename));
      ghost var rest := Rest(id, Cut(envelope));
      assert TransferFrames(id, recipient, filename, envelope) == [begin] + rest;
      WireAllCons(begin, rest);
      WireAllOne(begin);
      ok := connection.SendFrame(BeginFrame(Begin(id, encrypted.Length, recipient, filename)));
      if ok {
        ok := SendChunks(connection, id, encrypted, start, before, [begin], [begin] + rest);
      } else {
        Conn.SendsNoMore(start, before, Wire(begin), connection.sent, WireAll(rest));
      }
    }

    method SendChunks(connection: Conn.Connection, id: Word, encrypted: array<Byte>, ghost start: Conn.Link,
                      ghost before: seq<Byte>, ghost first: seq<Frame>, ghost frames: seq<Frame>) returns (ok: bool)
      requires Through(start, before, first, connection.Output(), connection.sent)
      requires frames == first + (ChunkFrames(id, Cut(encrypted[..])) + [EndFrame(id)])
      modifies connection
      ensures Conn.Sends(start, before, WireAll(frames), connection.sent, ok)
    {
      ghost var done := first;
      var offset := 0;
      assert encrypted[..] == encrypted[0..];
      while offset < encrypted.Length
        invariant 0 <= offset <= encrypted.Length
        invariant Through(start, before, done, connection.Output(), connection.sent)
        invariant frames == done + (ChunkFrames(id, Cut(encrypted[offset..])) + [EndFrame(id)])
      {
        var length := encrypted.Length - offset;
        if length > FILE_CHUNK_SIZE {
          length := FILE_CHUNK_SIZE;
        }
        var f := ChunkFrame(Chunk(id, encrypted[offset..offset + length]));
        ghost var rest := ChunkFrames(id, Cut(encrypted[offset + length..])) + [EndFrame(id)];
        NextChunk(id, encrypted[..], offset, encrypted[offset..offset + length]);
        Regroup([f], ChunkFrames(id, Cut(encrypted[offset + length..])), [EndFrame(id)]);
        ok := SendNext(connection, f, start, before, done, rest);
        if !ok {
          return;
        }
        done := done + [f];
        offset := offset + length;
      }
      assert frames == done + ([EndFrame(id)] + []);
      ok := SendNext(connection, EndFrame(id), start, before, done, []);
    }

    /** A file that can be sent goes out as the frames of one transfer under a fresh id:
        whole, and the call succeeds, exactly when the link takes all of them, and
        otherwise as far as it does. A file that cannot be sent sends nothing. */
    method SendFile(connection: Conn.Connection, box: Box, recipient: seq<Byte>, path: seq<Byte>, disk: Disk,
                    nonce: seq<Byte>, theirKey: seq<Byte>, mine: Secret) returns (ok: bool)
      requires Lawful(box) && |nonce| == NONCE_SIZE
      modifies this, connection
      ensures var id := RouteSpec.Candidate(old(nextId), 0);
              match Transfer(box, id, recipient, path, disk, nonce, theirKey, mine)
              case None => !ok && connection.sent == old(connection.sent) && nextId == old(nextId)
              case Some(frames) =>
                && nextId == RouteSpec.After(id)
                && Conn.Sends(old(connection.Output()), old(connection.sent), WireAll(frames), connection.sent, ok)
    {
      var filename := PathBasename(path);
      var recipientOk := CheckPeerName(recipient);
      var filenameOk := CheckFilename(if filename.None? then [] else filename.value);
      if !recipientOk || !filenameOk {
        return false;
      }
      if !disk.Regular? || disk.size > PLAINTEXT_MAX_SIZE || !disk.readOk || |disk.bytes| != disk.size {
        return false;
      }
      ok := SendChecked(connection, box, recipient, filename.value, disk.bytes, nonce, theirKey, mine);
    }

    method SendChecked(connection: Conn.Connection, box: Box, recipient: seq<Byte>, filename: seq<Byte>, data: seq<Byte>,
                       nonce: seq<Byte>, theirKey: seq<Byte>, mine: Secret) returns (ok: bool)
      requires Lawful(box) && |nonce| == NONCE_SIZE && ValidPeer(recipient) && ValidFilename(filename) && |data| <= PLAINTEXT_MAX_SIZE
      modifies this, connection
      ensures var id := RouteSpec.Candidate(old(nextId), 0);
              match Envelope(box, filename, data, nonce, theirKey, mine)
              case None => !ok && connection.sent == old(connection.sent) && nextId == old(nextId)
              case Some(e) =>
                && nextId == RouteSpec.After(id) && |e| < TWO64
                && Conn.Sends(old(connection.Output()), old(connection.sent),
                              WireAll(TransferFrames(id, recipient, filename, e)), connection.sent, ok)
    {
      var encrypted := BuildEnvelope(box, filename, data, nonce, theirKey, mine);
      if encrypted.None? {
        return false;
      }
      var id := CreateTransferId();
      ok := SendTransfer(connection, id, recipient, filename, encrypted.value);
    }
  }

  lemma NextChunk(id: Word, envelope: seq<Byte>, offset: nat, chunk: seq<Byte>)
    requires offset < |envelope| && 0 < |chunk| <= FILE_CHUNK_SIZE && offset + |chunk| <= |envelope|
    requires chunk == envelope[offset..offset + |chunk|]
    requires |chunk| < FILE_CHUNK_SIZE ==> offset + |chunk| == |envelope|
    ensures ChunkFrames(id, Cut(envelope[offset..])) ==
            [Frame(FILE_CHUNK, ChunkPayload(Chunk(id, chunk)))] + ChunkFrames(id, Cut(envelope[offset + |chunk|..]))
  {
    var bytes := envelope[offset..];
    assert envelope[offset + |chunk|..] == bytes[|chunk|..];
    if |bytes| <= FILE_CHUNK_SIZE {
      assert bytes == chunk && bytes[|chunk|..] == [];
    } else {
      assert bytes[..FILE_CHUNK_SIZE] == chunk;
      assert Cut(bytes)[1..] == Cut(bytes[FILE_CHUNK_SIZE..]);
    }
  }
}
