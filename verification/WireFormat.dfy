/** The wire format spelled out: where every field lies, which byte is which, and which bytes
    a name may hold. */
module WireFormat {
  import opened Bytes
  import opened FileProtocol
  import opened FileCrypto
  import opened Framing
  import opened Sessions

  // ----- Integers -----

  function Power256(n: nat): (p: nat)
    ensures p > 0
  {
    if n == 0 then 1 else 256 * Power256(n - 1)
  }

  /** The number that some bytes stand for, most significant first. */
  function Value(s: seq<Byte>): nat {
    if s == [] then 0 else 256 * Value(s[..|s| - 1]) + s[|s| - 1]
  }

  lemma Further(d: nat, q: int, k: int)
    requires q < k
    ensures d * k >= d * q + d
  {
    assert d * k == d * q + d * (k - q);
    assert d * (k - q) == d * (k - q - 1) + d;
  }

  lemma SameQuotient(d: nat, q: int, r: int, k: int, m: int)
    requires d * q + r == d * k + m && 0 <= r < d && 0 <= m < d
    ensures q == k
  {
    if q < k {
      Further(d, q, k);
    } else if k < q {
      Further(d, k, q);
    }
  }

  lemma DivideTwice(x: nat, d: nat)
    requires d > 0
    ensures x / (256 * d) == (x / 256) / d
  {
    var y := x / 256;
    var q, r := y / d, y % d;
    assert y == d * q + r;
    assert x == 256 * y + x % 256;
    assert 256 * (d * q) == (256 * d) * q;
    SameQuotient(256 * d, q, 256 * r + x % 256, x / (256 * d), x % (256 * d));
  }

  /** Byte i of n is the value divided by 256^(n-1-i), modulo 256. */
  lemma {:induction false} ByteOfValue(s: seq<Byte>, i: nat)
    requires i < |s|
    ensures s[i] == Value(s) / Power256(|s| - 1 - i) % 256
    decreases |s|
  {
    if i < |s| - 1 {
      var front := s[..|s| - 1];
      ByteOfValue(front, i);
      DivideTwice(Value(s), Power256(|s| - 2 - i));
      assert Value(s) / 256 == Value(front);
    }
  }

  lemma ValueOf16(v: int)
    requires 0 <= v < TWO16
    ensures Value(Be16(v)) == v
  {
    var s := Be16(v);
    assert s[..1] == [s[0]] && s[..1][..0] == [];
    assert Value(s) == 256 * Value(s[..1]) + s[1];
  }

  lemma {:induction false} ValueConcat(a: seq<Byte>, b: seq<Byte>)
    ensures Value(a + b) == Value(a) * Power256(|b|) + Value(b)
    decreases |b|
  {
    if b == [] {
      assert a + b == a;
    } else {
      var front := b[..|b| - 1];
      assert (a + b)[..|a + b| - 1] == a + front;
      ValueConcat(a, front);
      assert 256 * (Value(a) * Power256(|front|)) == Value(a) * Power256(|b|);
    }
  }

  /** Integers are written most significant byte first. */
  lemma BigEndian16(v: int, i: nat)
    requires 0 <= v < TWO16 && i < 2
    ensures Be16(v)[i] == v / Power256(1 - i) % 256
  {
    ValueOf16(v);
    ByteOfValue(Be16(v), i);
  }

  lemma ValueOf32(v: Word)
    ensures Value(Be32(v)) == v
  {
    ValueOf16(v / TWO16);
    ValueOf16(v % TWO16);
    ValueConcat(Be16(v / TWO16), Be16(v % TWO16));
    assert Power256(2) == 256 * Power256(1) == TWO16;
  }

  lemma BigEndian32(v: Word, i: nat)
    requires i < 4
    ensures Be32(v)[i] == v / Power256(3 - i) % 256
  {
    ValueOf32(v);
    ByteOfValue(Be32(v), i);
  }

  lemma ValueOf64(v: Quad)
    ensures Value(Be64(v)) == v
  {
    ValueOf32(v / TWO32);
    ValueOf32(v % TWO32);
    ValueConcat(Be32(v / TWO32), Be32(v % TWO32));
    assert Power256(2) == 256 * Power256(1) == TWO16 && Power256(4) == 256 * Power256(3) == TWO32;
  }

  lemma BigEndian64(v: Quad, i: nat)
    requires i < 8
    ensures Be64(v)[i] == v / Power256(7 - i) % 256
  {
    ValueOf64(v);
    ByteOfValue(Be64(v), i);
  }

  // ----- Frames -----

  /** Length of type and payload, type, payload. */
  lemma FrameLayout(f: Frame)
    requires Fits(f)
    ensures Wire(f) == Be32(1 + |f.payload|) + [f.kind] + f.payload
  {
    var header := Be32(1 + |f.payload|);
    assert header + ([f.kind] + f.payload) == header + [f.kind] + f.payload;
  }

  /** Type, id, size, both name lengths, both names. */
  lemma BeginLayout(b: Begin)
    requires ValidBegin(b)
    ensures var raw := Raw(BeginFrame(b));
            && |raw| == 17 + |b.peer| + |b.filename| && raw[0] == 0
            && raw[1..5] == Be32(b.id) && raw[5..13] == Be64(b.size)
            && raw[13..15] == Be16(|b.peer|) && raw[15..17] == Be16(|b.filename|)
            && raw[17..17 + |b.peer|] == b.peer && raw[17 + |b.peer|..] == b.filename
  {
    EncodedIsLaid(b);
  }

  /** Type and id, then the data if there is any. */
  lemma ControlLayout(c: Chunk, id: Word)
    requires ValidChunk(c)
    ensures Raw(ChunkFrame(c)) == [1] + Be32(c.id) + c.data
    ensures Raw(EndFrame(id)) == [2] + Be32(id) && Raw(ErrorFrame(id)) == [3] + Be32(id)
  {
    assert [1] + (Be32(c.id) + c.data) == [1] + Be32(c.id) + c.data;
  }

  // ----- The envelope -----

  /** "CCFILE01", sender's key, nonce, box; in the box "CCFILE01", name length, name, data. */
  lemma EnvelopeLayout(box: Box, filename: seq<Byte>, data: seq<Byte>, nonce: seq<Byte>, theirKey: seq<Byte>, mine: Secret)
    requires Lawful(box) && |filename| < TWO16 && |nonce| == 24
    requires Envelope(box, filename, data, nonce, theirKey, mine).Some?
    ensures var e := Envelope(box, filename, data, nonce, theirKey, mine).value;
            && |e| == 90 + |filename| + |data|
            && e[..8] == [67, 67, 70, 73, 76, 69, 48, 49] && e[8..40] == box.publicKey(mine) && e[40..64] == nonce
            && Some(e[64..]) == box.seal([67, 67, 70, 73, 76, 69, 48, 49] + Be16(|filename|) + filename + data, nonce, theirKey, mine)
  {
    var sealed := box.seal(Plaintext(filename, data), nonce, theirKey, mine).value;
    var e := MAGIC + box.publicKey(mine) + nonce + sealed;
    assert e[64..] == sealed;
  }

  // ----- Names -----

  /** A user name holds no blank and no control byte. */
  lemma PeerNames(name: seq<Byte>)
    ensures ValidPeer(name) <==>
            1 <= |name| <= 31 && forall i :: 0 <= i < |name| ==> 33 <= name[i] <= 126 || 128 <= name[i]
  {
    if ValidPeer(name) {
      forall i | 0 <= i < |name| ensures 33 <= name[i] <= 126 || 128 <= name[i] {
        assert PeerByte(name[i]);
      }
    }
  }

  /** A filename holds no slash (47), no backslash (92) and no control byte, and is neither
      "." nor "..": it names a file in the directory it is put in. */
  lemma Filenames(name: seq<Byte>)
    ensures ValidFilename(name) <==>
            && 1 <= |name| <= 255 && name != [46] && name != [46, 46] && 47 !in name && 92 !in name
            && forall i :: 0 <= i < |name| ==> 32 <= name[i] && name[i] != 127
  {
    if ValidFilename(name) {
      forall i | 0 <= i < |name| ensures name[i] != 47 && name[i] != 92 && 32 <= name[i] && name[i] != 127 {
        assert FilenameByte(name[i]);
      }
    }
  }

  /** Whatever bytes arrive, the names of a decoded begin record are of this kind. */
  lemma DecodedNamesAreSafe(raw: seq<Byte>)
    requires DecodeBegin(raw).Some?
    ensures var b := DecodeBegin(raw).value;
            && 47 !in b.filename && 92 !in b.filename && b.filename != [46] && b.filename != [46, 46] && b.filename != []
            && (forall i :: 0 <= i < |b.filename| ==> 32 <= b.filename[i] && b.filename[i] != 127)
            && (forall i :: 0 <= i < |b.peer| ==> 33 <= b.peer[i] && b.peer[i] != 127)
  {
    Filenames(DecodeBegin(raw).value.filename);
    PeerNames(DecodeBegin(raw).value.peer);
  }
}
