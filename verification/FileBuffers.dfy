/** The loops and buffers of file_protocol.c: name checks by index, payloads written
    piece by piece at a running offset. */
module FileBuffers {
  import opened Bytes
  import opened FileProtocol

  method CheckPeerName(name: seq<Byte>) returns (ok: bool)
    ensures ok == ValidPeer(name)
  {
    if |name| == 0 || |name| >= USERNAME_SIZE {
      return false;
    }
    for i := 0 to |name|
      invariant forall j :: 0 <= j < i ==> PeerByte(name[j])
    {
      if name[i] == 0 || IsSpace(name[i]) || IsControl(name[i]) {
        return false;
      }
    }
    return true;
  }

  method CheckFilename(name: seq<Byte>) returns (ok: bool)
    ensures ok == ValidFilename(name)
  {
    if |name| == 0 || |name| > FILE_NAME_MAX_LENGTH {
      return false;
    }
    if (|name| == 1 && name[0] == '.' as int) || (|name| == 2 && name[0] == '.' as int && name[1] == '.' as int) {
      return false;
    }
    for i := 0 to |name|
      invariant forall j :: 0 <= j < i ==> FilenameByte(name[j])
    {
      if name[i] == 0 || name[i] == '/' as int || name[i] == '\\' as int || IsControl(name[i]) {
        return false;
      }
    }
    return true;
  }

  /** Copy bytes to the running offset and advance it. */
  method Put(buffer: array<Byte>, offset: nat, bytes: seq<Byte>) returns (next: nat)
    requires offset + |bytes| <= buffer.Length
    modifies buffer
    ensures next == offset + |bytes|
    ensures buffer[..next] == old(buffer[..offset]) + bytes
    ensures forall i :: next <= i < buffer.Length ==> buffer[i] == old(buffer[i])
  {
    forall i | 0 <= i < |bytes| {
      buffer[offset + i] := bytes[i];
    }
    next := offset + |bytes|;
  }

  /** What an encoder leaves behind: the encoding at the start of the buffer, or nothing at all. */
  ghost predicate Encoded(encoding: Option<seq<Byte>>, before: seq<Byte>, after: seq<Byte>, length: Option<nat>) {
    && |after| == |before|
    && (length.Some? <==> encoding.Some? && |encoding.value| <= |before|)
    && match length
       case None => after == before
       case Some(n) => n == |encoding.value| && after == encoding.value + before[n..]
  }

  method WriteBegin(payload: array<Byte>, b: Begin) returns (length: Option<nat>)
    modifies payload
    ensures Encoded(EncodeBegin(b), old(payload[..]), payload[..], length)
  {
    var peerOk := CheckPeerName(b.peer);
    var filenameOk := CheckFilename(b.filename);
    if !peerOk || !filenameOk || payload.Length < BEGIN_FIXED_SIZE + |b.peer| + |b.filename| {
      return None;
    }
    var offset := WriteHeader(payload, b);
    offset := Put(payload, offset, b.peer);
    offset := Put(payload, offset, b.filename);
    assert payload[..offset] == BeginPayload(b);
    assert payload[..] == payload[..offset] + old(payload[..])[offset..];
    return Some(offset);
  }

  method WriteHeader(payload: array<Byte>, b: Begin) returns (offset: nat)
    requires BEGIN_FIXED_SIZE <= payload.Length && |b.peer| < TWO16 && |b.filename| < TWO16
    modifies payload
    ensures offset == BEGIN_FIXED_SIZE
    ensures payload[..offset] == Be32(b.id) + Be64(b.size) + Be16(|b.peer|) + Be16(|b.filename|)
    ensures forall i :: offset <= i < payload.Length ==> payload[i] == old(payload[i])
  {
    offset := Put(payload, 0, Be32(b.id));
    offset := Put(payload, offset, Be64(b.size));
    offset := Put(payload, offset, Be16(|b.peer|));
    offset := Put(payload, offset, Be16(|b.filename|));
  }

  method WriteChunk(payload: array<Byte>, c: Chunk) returns (length: Option<nat>)
    modifies payload
    ensures Encoded(EncodeChunk(c), old(payload[..]), payload[..], length)
  {
    if |c.data| == 0 || |c.data| > FILE_CHUNK_SIZE || payload.Length < 4 + |c.data| {
      return None;
    }
    var offset := Put(payload, 0, Be32(c.id));
    offset := Put(payload, offset, c.data);
    assert payload[..offset] == ChunkPayload(c);
    assert payload[..] == payload[..offset] + old(payload[..])[offset..];
    return Some(offset);
  }

  method WriteControl(payload: array<Byte>, id: Word) returns (length: Option<nat>)
    modifies payload
    ensures Encoded(Some(Be32(id)), old(payload[..]), payload[..], length)
  {
    if payload.Length < 4 {
      return None;
    }
    var offset := Put(payload, 0, Be32(id));
    assert payload[..] == payload[..offset] + old(payload[..])[offset..];
    return Some(offset);
  }
}
