/** The encrypted envelope in which a file travels (client_files.h): how the sender lays it
    out and how the receiver takes it apart. The box itself is any pair of functions that
    keeps the round-trip law of an authenticated public-key box. */
module FileCrypto {
  import opened Bytes
  import opened FileProtocol

  const MAGIC: seq<Byte> := [67, 67, 70, 73, 76, 69, 48, 49]
  const MAGIC_SIZE: nat := 8
  const HEADER_SIZE: nat := MAGIC_SIZE + PUBLIC_KEY_SIZE + NONCE_SIZE
  const METADATA_SIZE: nat := MAGIC_SIZE + 2
  const OVERHEAD: nat := HEADER_SIZE + MAC_SIZE + METADATA_SIZE
  const PLAINTEXT_MAX_SIZE: nat := 16 * 1024 * 1024

  type Secret = seq<Byte>

  /** seal(message, nonce, recipient key, own secret) and open(box, nonce, sender key, own secret). */
  datatype Box = Box(
    seal: (seq<Byte>, seq<Byte>, seq<Byte>, Secret) -> Option<seq<Byte>>,
    open: (seq<Byte>, seq<Byte>, seq<Byte>, Secret) -> Option<seq<Byte>>,
    publicKey: Secret -> seq<Byte>)

  ghost predicate Lawful(box: Box) {
    && (forall secret :: |box.publicKey(secret)| == PUBLIC_KEY_SIZE)
    && (forall m, nonce, key, secret :: box.seal(m, nonce, key, secret).Some? ==>
          |box.seal(m, nonce, key, secret).value| == |m| + MAC_SIZE)
    && (forall c, nonce, key, secret :: box.open(c, nonce, key, secret).Some? ==>
          |c| == |box.open(c, nonce, key, secret).value| + MAC_SIZE)
    && (forall m, nonce, mine, theirs :: SealsOpen(box, m, nonce, mine, theirs))
  }

  /** What is sealed from one secret to the public key of another opens the other way round. */
  ghost predicate SealsOpen(box: Box, m: seq<Byte>, nonce: seq<Byte>, mine: Secret, theirs: Secret) {
    var c := box.seal(m, nonce, box.publicKey(theirs), mine);
    c.Some? ==> box.open(c.value, nonce, box.publicKey(mine), theirs) == Some(m)
  }

  // ----- Building -----

  function Plaintext(filename: seq<Byte>, data: seq<Byte>): (p: seq<Byte>)
    requires |filename| < TWO16
    ensures |p| == METADATA_SIZE + |filename| + |data|
  {
    MAGIC + Be16(|filename|) + filename + data
  }

  function Envelope(box: Box, filename: seq<Byte>, data: seq<Byte>, nonce: seq<Byte>,
                    theirKey: seq<Byte>, mine: Secret): Option<seq<Byte>>
    requires |filename| < TWO16
  {
    match box.seal(Plaintext(filename, data), nonce, theirKey, mine)
    case None => None
    case Some(sealed) => Some(MAGIC + box.publicKey(mine) + nonce + sealed)
  }

  function EnvelopeSize(filename: seq<Byte>, size: nat): nat {
    OVERHEAD + |filename| + size
  }

  // ----- Taking apart -----

  /** The size test at FILE_BEGIN. */
  predicate AcceptableSize(filename: seq<Byte>, size: nat) {
    size >= OVERHEAD + |filename| && size - (OVERHEAD + |filename|) <= PLAINTEXT_MAX_SIZE
  }

  /** The size test accepts exactly the sizes a sender can produce for that filename. */
  lemma AcceptableSizeExact(filename: seq<Byte>, size: nat)
    ensures AcceptableSize(filename, size) <==>
            exists n: nat :: n <= PLAINTEXT_MAX_SIZE && size == EnvelopeSize(filename, n)
  {
    if AcceptableSize(filename, size) {
      var n: nat := size - (OVERHEAD + |filename|);
      assert size == EnvelopeSize(filename, n);
    }
  }

  /** decrypt_received_file on the staged bytes. The one size bound makes every offset and
      difference below nonnegative and in range, whatever the decrypted contents are. */
  ghost function OpenEnvelope(box: Box, filename: seq<Byte>, staged: seq<Byte>, secret: Secret): (data: Option<seq<Byte>>)
    requires Lawful(box) && AcceptableSize(filename, |staged|)
    ensures data.Some? ==> |staged| == EnvelopeSize(filename, |data.value|)
  {
    if staged[..MAGIC_SIZE] != MAGIC then None else
    var senderKey := staged[MAGIC_SIZE..MAGIC_SIZE + PUBLIC_KEY_SIZE];
    var nonce := staged[MAGIC_SIZE + PUBLIC_KEY_SIZE..HEADER_SIZE];
    match box.open(staged[HEADER_SIZE..], nonce, senderKey, secret)
    case None => None
    case Some(plain) =>
      var filenameLength := Read16(plain, MAGIC_SIZE);
      if plain[..MAGIC_SIZE] != MAGIC || filenameLength != |filename|
         || filenameLength > |plain| - METADATA_SIZE
         || plain[METADATA_SIZE..METADATA_SIZE + filenameLength] != filename then None
      else Some(plain[METADATA_SIZE + filenameLength..])
  }

  lemma PlaintextParts(filename: seq<Byte>, data: seq<Byte>)
    requires |filename| < TWO16
    ensures var p := Plaintext(filename, data);
            && p[..MAGIC_SIZE] == MAGIC && Read16(p, MAGIC_SIZE) == |filename|
            && p[METADATA_SIZE..METADATA_SIZE + |filename|] == filename
            && p[METADATA_SIZE + |filename|..] == data
  {
    var p := Plaintext(filename, data);
    assert p[MAGIC_SIZE..MAGIC_SIZE + 2] == Be16(|filename|);
    ReadWritten16(p, MAGIC_SIZE, |filename|);
  }

  /** Every file of at most 16 MiB, with any filename that can be sent, comes out of its
      envelope unchanged, and the size test lets it through. */
  lemma EnvelopeRoundTrip(box: Box, filename: seq<Byte>, data: seq<Byte>, nonce: seq<Byte>, mine: Secret, theirs: Secret)
    requires Lawful(box) && ValidFilename(filename) && |data| <= PLAINTEXT_MAX_SIZE && |nonce| == NONCE_SIZE
    ensures var e := Envelope(box, filename, data, nonce, box.publicKey(theirs), mine);
            e.Some? ==>
              && |e.value| == EnvelopeSize(filename, |data|) && AcceptableSize(filename, |e.value|)
              && OpenEnvelope(box, filename, e.value, theirs) == Some(data)
  {
    var key := box.publicKey(mine);
    var plain := Plaintext(filename, data);
    var sealed := box.seal(plain, nonce, box.publicKey(theirs), mine);
    if sealed.Some? {
      assert SealsOpen(box, plain, nonce, mine, theirs);
      var e := MAGIC + key + nonce + sealed.value;
      assert e[..MAGIC_SIZE] == MAGIC && e[HEADER_SIZE..] == sealed.value;
      assert e[MAGIC_SIZE..MAGIC_SIZE + PUBLIC_KEY_SIZE] == key && e[MAGIC_SIZE + PUBLIC_KEY_SIZE..HEADER_SIZE] == nonce;
      PlaintextParts(filename, data);
    }
  }

  /** And nothing else does: the receiver takes exactly the authenticated plaintexts that
      carry the announced filename. */
  lemma OpensExactly(box: Box, filename: seq<Byte>, staged: seq<Byte>, secret: Secret, data: seq<Byte>)
    requires Lawful(box) && ValidFilename(filename) && AcceptableSize(filename, |staged|)
    ensures OpenEnvelope(box, filename, staged, secret) == Some(data) <==>
            && staged[..MAGIC_SIZE] == MAGIC
            && box.open(staged[HEADER_SIZE..], staged[MAGIC_SIZE + PUBLIC_KEY_SIZE..HEADER_SIZE],
                        staged[MAGIC_SIZE..MAGIC_SIZE + PUBLIC_KEY_SIZE], secret) == Some(Plaintext(filename, data))
  {
    PlaintextParts(filename, data);
    if OpenEnvelope(box, filename, staged, secret) == Some(data) {
      var plain := box.open(staged[HEADER_SIZE..], staged[MAGIC_SIZE + PUBLIC_KEY_SIZE..HEADER_SIZE],
                            staged[MAGIC_SIZE..MAGIC_SIZE + PUBLIC_KEY_SIZE], secret).value;
      ReadWritten16(plain, MAGIC_SIZE, |filename|);
      assert plain == plain[..MAGIC_SIZE] + plain[MAGIC_SIZE..MAGIC_SIZE + 2]
                      + plain[METADATA_SIZE..METADATA_SIZE + |filename|] + plain[METADATA_SIZE + |filename|..];
    }
  }
}
