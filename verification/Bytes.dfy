/** Bytes, the big-endian integers of the wire format, and length-prefixed frames. */
module Bytes {

  type Byte = x: int | 0 <= x < 256

  const TWO16: int := 0x1_0000
  const TWO32: int := 0x1_0000_0000
  const TWO64: int := 0x1_0000_0000_0000_0000

  type Word = x: int | 0 <= x < TWO32
  type Quad = x: int | 0 <= x < TWO64

  datatype Option<+T> = None | Some(value: T)

  // ----- Limits shared by client and server (common.h, client_manager.h) -----

  const USERNAME_SIZE: nat := 32
  const MESSAGE_MAX_SIZE: nat := 64 * 1024
  const FRAME_MAX_SIZE: nat := MESSAGE_MAX_SIZE + 256
  const FILE_CHUNK_SIZE: nat := 900
  const PUBLIC_KEY_SIZE: nat := 32
  const NONCE_SIZE: nat := 24
  const MAC_SIZE: nat := 16

  // ----- Frame types, in the order of the enumeration in common.h -----

  const FILE_BEGIN: Byte := 0
  const FILE_CHUNK: Byte := 1
  const FILE_END: Byte := 2
  const FILE_ERROR: Byte := 3
  const TEXT: Byte := 4
  const REQUEST_PK: Byte := 5
  const PEER_PK: Byte := 6
  const CIPHERTEXT: Byte := 7
  const REGISTER_PK: Byte := 8

  predicate ValidFrameType(kind: Byte) {
    kind <= REGISTER_PK
  }

  datatype Frame = Frame(kind: Byte, payload: seq<Byte>)

  /** What send_frame and the outgoing queues accept. */
  predicate Fits(f: Frame) {
    ValidFrameType(f.kind) && |f.payload| <= FRAME_MAX_SIZE - 1
  }

  /** The decoded frame handed to a handler: type byte, then payload. */
  function Raw(f: Frame): seq<Byte> {
    [f.kind] + f.payload
  }

  // ----- C-locale character classes -----

  predicate IsSpace(b: Byte) {
    9 <= b <= 13 || b == 32
  }

  predicate IsControl(b: Byte) {
    b < 32 || b == 127
  }

  // ----- Big-endian integers -----

  function Be16(v: int): (r: seq<Byte>)
    requires 0 <= v < TWO16
    ensures |r| == 2
  {
    [v / 0x100, v % 0x100]
  }

  function Be32(v: Word): (r: seq<Byte>)
    ensures |r| == 4
  {
    Be16(v / TWO16) + Be16(v % TWO16)
  }

  function Be64(v: Quad): (r: seq<Byte>)
    ensures |r| == 8
  {
    Be32(v / TWO32) + Be32(v % TWO32)
  }

  function Read16(s: seq<Byte>, at: nat): (v: nat)
    requires at + 2 <= |s|
    ensures v < TWO16
  {
    s[at] as int * 0x100 + s[at + 1]
  }

  function Read32(s: seq<Byte>, at: nat): Word
    requires at + 4 <= |s|
  {
    Read16(s, at) * TWO16 + Read16(s, at + 2)
  }

  function Read64(s: seq<Byte>, at: nat): Quad
    requires at + 8 <= |s|
  {
    Read32(s, at) as int * TWO32 + Read32(s, at + 4)
  }

  /** Wherever the bytes of a written value sit, reading there returns the value. */
  lemma ReadWritten16(s: seq<Byte>, at: nat, v: int)
    requires 0 <= v < TWO16 && at + 2 <= |s|
    ensures s[at..at + 2] == Be16(v) <==> Read16(s, at) == v
  {
    assert s[at..at + 2] == [s[at], s[at + 1]];
  }

  lemma ReadWritten32(s: seq<Byte>, at: nat, v: Word)
    requires at + 4 <= |s|
    ensures s[at..at + 4] == Be32(v) <==> Read32(s, at) == v
  {
    var high, low := v / TWO16, v % TWO16;
    ReadWritten16(s, at, high);
    ReadWritten16(s, at + 2, low);
    var b := s[at..at + 4];
    assert b[..2] == s[at..at + 2] && b[2..] == s[at + 2..at + 4];
    assert b == b[..2] + b[2..];
    if b == Be32(v) {
      assert Be32(v)[..2] == Be16(high) && Be32(v)[2..] == Be16(low);
    }
  }

  lemma ReadWritten64(s: seq<Byte>, at: nat, v: Quad)
    requires at + 8 <= |s|
    ensures s[at..at + 8] == Be64(v) <==> Read64(s, at) == v
  {
    var high, low := v / TWO32, v % TWO32;
    ReadWritten32(s, at, high);
    ReadWritten32(s, at + 4, low);
    var b := s[at..at + 8];
    assert b[..4] == s[at..at + 4] && b[4..] == s[at + 4..at + 8];
    assert b == b[..4] + b[4..];
    if b == Be64(v) {
      assert Be64(v)[..4] == Be32(high) && Be64(v)[4..] == Be32(low);
    }
  }
}
