/** Private messages: built by one client, re-addressed by the server, opened by another
    (client.c, server.c). */
module ChatSpec {
  import opened Bytes
  import opened FileProtocol
  import opened FileCrypto
  import Reg = RegistrySpec

  const MAX_CHAT_SIZE: nat := MESSAGE_MAX_SIZE
  const CHAT_OVERHEAD: nat := 1 + NONCE_SIZE + PUBLIC_KEY_SIZE + MAC_SIZE

  /** Name length, name, nonce, key of the sender, ciphertext. */
  function ChatPayload(name: seq<Byte>, nonce: seq<Byte>, key: seq<Byte>, cipher: seq<Byte>): seq<Byte>
    requires |name| < USERNAME_SIZE
  {
    [|name|] + name + nonce + key + cipher
  }

  // ----- The sending client -----

  function BuildChat(box: Box, recipient: seq<Byte>, message: seq<Byte>, nonce: seq<Byte>, theirKey: seq<Byte>, mine: Secret)
    : Option<seq<Byte>>
  {
    if |recipient| == 0 || |recipient| >= USERNAME_SIZE || |message| > MAX_CHAT_SIZE then None
    else match box.seal(message, nonce, theirKey, mine)
      case None => None
      case Some(cipher) => Some(ChatPayload(recipient, nonce, box.publicKey(mine), cipher))
  }

  // ----- The server -----

  const INVALID_REGISTRATION: Byte := 15
  const INVALID_REQUEST: Byte := 16
  const INVALID_MESSAGE: Byte := 17
  const MESSAGE_TOO_LONG: Byte := 18
  const WRONG_KEY: Byte := 19
  const WRONG_SENDER: Byte := 20
  const NO_SUCH_USER: Byte := 21

  function Complain(r: Reg.Registry, id: nat, tag: Byte): Reg.Registry {
    Reg.Queue(r, id, Frame(TEXT, [tag])).0
  }

  function Register(r: Reg.Registry, id: nat, payload: seq<Byte>): Reg.Registry {
    if |payload| == PUBLIC_KEY_SIZE && Reg.RegisterKey(r, id, payload).1 then Reg.RegisterKey(r, id, payload).0
    else Complain(r, id, INVALID_REGISTRATION)
  }

  /** The reply names the peer, followed by its key if there is one. */
  ghost function ReplyPayload(r: Reg.Registry, name: seq<Byte>): seq<Byte>
    requires |name| < USERNAME_SIZE
  {
    [|name|] + name + match Reg.GetKey(r, Reg.Find(r, name)) case Some(key) => key case None => []
  }

  ghost function Request(r: Reg.Registry, id: nat, payload: seq<Byte>): Reg.Registry {
    if !ValidPeer(payload) then Complain(r, id, INVALID_REQUEST)
    else Reg.Queue(r, id, Frame(PEER_PK, ReplyPayload(r, payload))).0
  }

  /** Where the parts of an incoming message lie, or what is wrong with it. */
  datatype Parsed = Parsed(recipient: seq<Byte>, encrypted: seq<Byte>) | Wrong(tag: Byte)

  function ParseChat(payload: seq<Byte>): (p: Parsed)
    ensures p.Parsed? ==> NONCE_SIZE + PUBLIC_KEY_SIZE + MAC_SIZE <= |p.encrypted| <= NONCE_SIZE + PUBLIC_KEY_SIZE + MAC_SIZE + MAX_CHAT_SIZE
  {
    if |payload| < CHAT_OVERHEAD || |payload| < CHAT_OVERHEAD + payload[0] then Wrong(INVALID_MESSAGE) else
    var recipient := payload[1..1 + payload[0]];
    if !ValidPeer(recipient) then Wrong(INVALID_MESSAGE) else
    var encrypted := payload[1 + payload[0]..];
    if |encrypted| - NONCE_SIZE - PUBLIC_KEY_SIZE - MAC_SIZE > MAX_CHAT_SIZE then Wrong(MESSAGE_TOO_LONG)
    else Parsed(recipient, encrypted)
  }

  function ClaimedKey(encrypted: seq<Byte>): seq<Byte>
    requires NONCE_SIZE + PUBLIC_KEY_SIZE <= |encrypted|
  {
    encrypted[NONCE_SIZE..NONCE_SIZE + PUBLIC_KEY_SIZE]
  }

  ghost function Forward(r: Reg.Registry, id: nat, user: seq<Byte>, payload: seq<Byte>): Reg.Registry {
    match ParseChat(payload)
    case Wrong(tag) => Complain(r, id, tag)
    case Parsed(recipient, encrypted) =>
      if Reg.GetKey(r, id) != Some(ClaimedKey(encrypted)) then Complain(r, id, WRONG_KEY)
      else if |user| == 0 || |user| >= USERNAME_SIZE || 1 + |user| + |encrypted| > FRAME_MAX_SIZE - 1 then
        Complain(r, id, WRONG_SENDER)
      else
        var (r', queued) := Reg.Queue(r, Reg.Find(r, recipient), Frame(CIPHERTEXT, [|user|] + user + encrypted));
        if queued then r' else Complain(r', id, NO_SUCH_USER)
  }

  /** handle_encrypted_chat. */
  ghost function HandleChat(r: Reg.Registry, id: nat, user: seq<Byte>, f: Frame): Reg.Registry {
    if f.kind == REGISTER_PK then Register(r, id, f.payload)
    else if f.kind == REQUEST_PK then Request(r, id, f.payload)
    else Forward(r, id, user, f.payload)
  }

  // ----- The receiving client -----

  datatype Received = Received(sender: seq<Byte>, message: seq<Byte>)

  predicate NameBytes(name: seq<Byte>) {
    forall i :: 0 <= i < |name| ==> !IsSpace(name[i]) && !IsControl(name[i])
  }

  function ReceiveChat(box: Box, payload: seq<Byte>, mine: Secret): Option<Received> {
    if |payload| < CHAT_OVERHEAD then None else
    var n := payload[0];
    if n == 0 || n >= USERNAME_SIZE || |payload| < CHAT_OVERHEAD + n then None else
    var sender := payload[1..1 + n];
    if !NameBytes(sender) then None else
    var nonce := payload[1 + n..1 + n + NONCE_SIZE];
    var key := payload[1 + n + NONCE_SIZE..1 + n + NONCE_SIZE + PUBLIC_KEY_SIZE];
    var cipher := payload[1 + n + NONCE_SIZE + PUBLIC_KEY_SIZE..];
    if |cipher| > MAC_SIZE + MAX_CHAT_SIZE then None else
    match box.open(cipher, nonce, key, mine)
    case None => None
    case Some(message) => Some(Received(sender, message))
  }

  // ----- Key replies -----

  datatype KeyReply = KeyReply(name: seq<Byte>, key: Option<seq<Byte>>)

  /** What the client makes of a PEER_PK payload. */
  function ParseReply(payload: seq<Byte>): Option<KeyReply> {
    if |payload| < 1 then None else
    var n := payload[0];
    if n == 0 || n >= USERNAME_SIZE || (|payload| != 1 + n && |payload| != 1 + n + PUBLIC_KEY_SIZE)
       || 0 in payload[1..1 + n] then None
    else Some(KeyReply(payload[1..1 + n], if |payload| == 1 + n then None else Some(payload[1 + n..])))
  }

  /** A request for a name the server accepts is answered by a frame that fits and that the
      client reads back as that very name, with the key exactly when one is registered. */
  lemma ReplyNamesThePeer(r: Reg.Registry, name: seq<Byte>)
    requires Reg.Valid(r) && ValidPeer(name)
    ensures ParseReply(ReplyPayload(r, name)) == Some(KeyReply(name, Reg.GetKey(r, Reg.Find(r, name))))
    ensures Fits(Frame(PEER_PK, ReplyPayload(r, name)))
  {
    var key := Reg.GetKey(r, Reg.Find(r, name));
    assert forall i :: 0 <= i < |name| ==> PeerByte(name[i]);
    if key.Some? {
      assert ReplyPayload(r, name) == [|name|] + name + key.value;
    } else {
      assert ReplyPayload(r, name) == [|name|] + name;
    }
  }

  // ----- The parts of a payload -----

  lemma PayloadParts(name: seq<Byte>, nonce: seq<Byte>, key: seq<Byte>, cipher: seq<Byte>)
    requires |name| < USERNAME_SIZE && |nonce| == NONCE_SIZE && |key| == PUBLIC_KEY_SIZE
    ensures var p := ChatPayload(name, nonce, key, cipher);
            && |p| == 1 + |name| + NONCE_SIZE + PUBLIC_KEY_SIZE + |cipher|
            && p[0] == |name| && p[1..1 + |name|] == name
            && p[1 + |name|..] == nonce + key + cipher
            && p[1 + |name|..1 + |name| + NONCE_SIZE] == nonce
            && p[1 + |name| + NONCE_SIZE..1 + |name| + NONCE_SIZE + PUBLIC_KEY_SIZE] == key
            && p[1 + |name| + NONCE_SIZE + PUBLIC_KEY_SIZE..] == cipher
  {
  }

  lemma EncryptedParts(nonce: seq<Byte>, key: seq<Byte>, cipher: seq<Byte>)
    requires |nonce| == NONCE_SIZE && |key| == PUBLIC_KEY_SIZE
    ensures ClaimedKey(nonce + key + cipher) == key
  {
  }

  /** Every message the sending client accepts, to a name the server accepts, passes the
      server's size checks; the forwarded-length check cannot fire for a login name; and
      the frame fits in both directions. */
  lemma SizesAgree(box: Box, recipient: seq<Byte>, message: seq<Byte>, nonce: seq<Byte>, theirKey: seq<Byte>, mine: Secret, user: seq<Byte>)
    requires Lawful(box) && |nonce| == NONCE_SIZE && ValidPeer(user)
    ensures var p := BuildChat(box, recipient, message, nonce, theirKey, mine);
            p.Some? ==>
              && Fits(Frame(CIPHERTEXT, p.value))
              && (ParseChat(p.value).Parsed? <==> ValidPeer(recipient))
              && (ParseChat(p.value).Parsed? ==>
                    && ParseChat(p.value).recipient == recipient
                    && ParseChat(p.value).encrypted[..NONCE_SIZE] == nonce
                    && ClaimedKey(ParseChat(p.value).encrypted) == box.publicKey(mine)
                    && 1 + |user| + |ParseChat(p.value).encrypted| <= FRAME_MAX_SIZE - 1)
  {
    var p := BuildChat(box, recipient, message, nonce, theirKey, mine);
    if p.Some? {
      var cipher := box.seal(message, nonce, theirKey, mine).value;
      PayloadParts(recipient, nonce, box.publicKey(mine), cipher);
      EncryptedParts(nonce, box.publicKey(mine), cipher);
    }
  }

  /** For a login name the forwarded-length check is dead code, whatever the payload. */
  lemma ForwardedLengthNeverFires(payload: seq<Byte>, user: seq<Byte>)
    requires ValidPeer(user) && ParseChat(payload).Parsed?
    ensures 1 + |user| + |ParseChat(payload).encrypted| <= FRAME_MAX_SIZE - 1
  {
  }

  /** Any payload that parses is re-addressed without touching nonce, key or ciphertext:
      putting the recipient's name back gives the original. */
  lemma ReaddressingIsExact(payload: seq<Byte>)
    requires ParseChat(payload).Parsed?
    ensures payload == [|ParseChat(payload).recipient|] + ParseChat(payload).recipient + ParseChat(payload).encrypted
  {
  }

  /** What the recipient makes of a message forwarded under a login name. */
  lemma ForwardedOpens(box: Box, user: seq<Byte>, message: seq<Byte>, nonce: seq<Byte>, mine: Secret, theirs: Secret)
    requires Lawful(box) && |nonce| == NONCE_SIZE && ValidPeer(user) && |message| <= MAX_CHAT_SIZE
    requires box.seal(message, nonce, box.publicKey(theirs), mine).Some?
    ensures var cipher := box.seal(message, nonce, box.publicKey(theirs), mine).value;
            ReceiveChat(box, [|user|] + user + (nonce + box.publicKey(mine) + cipher), theirs) == Some(Received(user, message))
  {
    var cipher := box.seal(message, nonce, box.publicKey(theirs), mine).value;
    var key := box.publicKey(mine);
    PayloadParts(user, nonce, key, cipher);
    assert [|user|] + user + (nonce + key + cipher) == ChatPayload(user, nonce, key, cipher);
    assert SealsOpen(box, message, nonce, mine, theirs);
    assert forall i :: 0 <= i < |user| ==> PeerByte(user[i]);
  }

  /** From one client to the other: a message accepted by the sender, whose key the server
      knows, to a recipient with room, is queued to that recipient as a frame that opens to
      the sender's login name and the message. */
  lemma ChatArrives(r: Reg.Registry, id: nat, box: Box, recipient: seq<Byte>, message: seq<Byte>, nonce: seq<Byte>,
                    mine: Secret, theirs: Secret)
    requires Lawful(box) && |nonce| == NONCE_SIZE && Reg.Valid(r) && Reg.Accepting(r, id) && ValidPeer(recipient)
    requires Reg.GetKey(r, id) == Some(box.publicKey(mine))
    requires var to := Reg.Find(r, recipient);
             to != 0 && |r.clients[to].queue| < Reg.MAX_OUTGOING_FRAMES
    requires BuildChat(box, recipient, message, nonce, box.publicKey(theirs), mine).Some?
    ensures var payload := BuildChat(box, recipient, message, nonce, box.publicKey(theirs), mine).value;
            var r', to := HandleChat(r, id, r.clients[id].name, Frame(CIPHERTEXT, payload)), Reg.Find(r, recipient);
            && to in r'.clients && |r'.clients[to].queue| == |r.clients[to].queue| + 1
            && var last := r'.clients[to].queue[|r.clients[to].queue|];
            && last.kind == CIPHERTEXT
            && ReceiveChat(box, last.payload, theirs) == Some(Received(r.clients[id].name, message))
  {
    var payload := BuildChat(box, recipient, message, nonce, box.publicKey(theirs), mine).value;
    var user, to := r.clients[id].name, Reg.Find(r, recipient);
    var cipher := box.seal(message, nonce, box.publicKey(theirs), mine).value;
    SizesAgree(box, recipient, message, nonce, box.publicKey(theirs), mine, user);
    PayloadParts(recipient, nonce, box.publicKey(mine), cipher);
    var f := Frame(CIPHERTEXT, [|user|] + user + ParseChat(payload).encrypted);
    ForwardedOpens(box, user, message, nonce, mine, theirs);
    assert Reg.Queue(r, to, f).1;
  }
}
