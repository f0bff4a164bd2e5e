/** handle_encrypted_chat over the real client array, with its response and forwarding
    buffers filled piece by piece. */
module Chat {
  import opened Bytes
  import opened FileProtocol
  import opened FileBuffers
  import opened FileCrypto
  import opened ChatSpec
  import Reg = RegistrySpec
  import Clients = Registry

  /** The name in a buffer of USERNAME_SIZE bytes: everything before the first zero. */
  ghost predicate Holds(buffer: seq<Byte>, name: seq<Byte>) {
    |name| < |buffer| && buffer[..|name|] == name && buffer[|name|] == 0 && 0 !in name
  }

  /** Copy a length-delimited name and terminate it, unless it is not a name. */
  method CopyPeerName(name: array<Byte>, bytes: seq<Byte>) returns (ok: bool)
    requires name.Length == USERNAME_SIZE
    modifies name
    ensures ok == ValidPeer(bytes)
    ensures if ok then Holds(name[..], bytes) else name[..] == old(name[..])
  {
    if |bytes| == 0 || |bytes| >= USERNAME_SIZE {
      return false;
    }
    for i := 0 to |bytes|
      invariant forall j :: 0 <= j < i ==> PeerByte(bytes[j])
      invariant name[..] == old(name[..])
    {
      if IsSpace(bytes[i]) || IsControl(bytes[i]) {
        return false;
      }
    }
    var end := Put(name, 0, bytes);
    name[end] := 0;
    assert name[..][..|bytes|] == bytes;
    return true;
  }

  /** The name that a terminated buffer holds. */
  method ReadName(buffer: array<Byte>, ghost name: seq<Byte>) returns (read: seq<Byte>)
    requires Holds(buffer[..], name)
    ensures read == name
  {
    forall j | 0 <= j < |name| ensures buffer[j] == name[j] && buffer[j] != 0 {
      assert buffer[j] == buffer[..][..|name|][j];
    }
    assert buffer[|name|] == buffer[..][|name|];
    var n := 0;
    while buffer[n] != 0
      invariant n <= |name| < buffer.Length
      decreases |name| - n
    {
      n := n + 1;
    }
    return buffer[..n];
  }

  method ParseName(bytes: seq<Byte>) returns (name: Option<seq<Byte>>)
    ensures name == if ValidPeer(bytes) then Some(bytes) else None
  {
    var buffer := new Byte[USERNAME_SIZE](_ => 0);
    var ok := CopyPeerName(buffer, bytes);
    if !ok {
      return None;
    }
    var read := ReadName(buffer, bytes);
    return Some(read);
  }

  method SendInvalid(clients: Clients.Registry, id: nat, tag: Byte)
    requires clients.Valid()
    modifies clients, clients.slots
    ensures clients.Valid() && clients.View() == Complain(old(clients.View()), id, tag)
  {
    var _ := clients.QueueFrame(id, Frame(TEXT, [tag]));
  }

  method RegisterKey(clients: Clients.Registry, id: nat, payload: seq<Byte>)
    requires clients.Valid()
    modifies clients, clients.slots
    ensures clients.Valid() && clients.View() == Register(old(clients.View()), id, payload)
  {
    var ok := false;
    if |payload| == PUBLIC_KEY_SIZE {
      ok := clients.RegisterPublicKey(id, payload);
    }
    if !ok {
      SendInvalid(clients, id, INVALID_REGISTRATION);
    }
  }

  /** The reply buffer holds any name and key. */
  method BuildReply(name: seq<Byte>, key: Option<seq<Byte>>) returns (payload: seq<Byte>)
    requires |name| < USERNAME_SIZE && (key.Some? ==> |key.value| == PUBLIC_KEY_SIZE)
    ensures payload == [|name|] + name + if key.Some? then key.value else []
  {
    var response := new Byte[1 + USERNAME_SIZE - 1 + PUBLIC_KEY_SIZE](_ => 0);
    var length := Put(response, 0, [|name|]);
    length := Put(response, length, name);
    if key.Some? {
      length := Put(response, length, key.value);
    }
    return response[..length];
  }

  method LookUpKey(clients: Clients.Registry, name: seq<Byte>) returns (key: Option<seq<Byte>>)
    requires clients.Valid() && Reg.Valid(clients.View())
    ensures key == Reg.GetKey(clients.View(), Reg.Find(clients.View(), name))
    ensures key.Some? ==> |key.value| == PUBLIC_KEY_SIZE
  {
    var recipient := clients.FindClientId(name);
    key := clients.GetPublicKey(recipient);
  }

  method ReplyWithKey(clients: Clients.Registry, id: nat, payload: seq<Byte>)
    requires clients.Valid() && Reg.Valid(clients.View())
    modifies clients, clients.slots
    ensures clients.Valid() && clients.View() == Request(old(clients.View()), id, payload)
  {
    var recipient := ParseName(payload);
    if recipient.None? {
      SendInvalid(clients, id, INVALID_REQUEST);
      return;
    }
    var key := LookUpKey(clients, recipient.value);
    SendReply(clients, id, payload, key);
  }

  method SendReply(clients: Clients.Registry, id: nat, name: seq<Byte>, key: Option<seq<Byte>>)
    requires clients.Valid() && |name| < USERNAME_SIZE && (key.Some? ==> |key.value| == PUBLIC_KEY_SIZE)
    modifies clients, clients.slots
    ensures clients.Valid()
    ensures clients.View() == Reg.Queue(old(clients.View()), id,
              Frame(PEER_PK, [|name|] + name + if key.Some? then key.value else [])).0
  {
    var reply := BuildReply(name, key);
    var _ := clients.QueueFrame(id, Frame(PEER_PK, reply));
  }

  method BuildForward(user: seq<Byte>, encrypted: seq<Byte>) returns (payload: seq<Byte>)
    requires |user| < USERNAME_SIZE && 1 + |user| + |encrypted| <= FRAME_MAX_SIZE - 1
    ensures payload == [|user|] + user + encrypted
  {
    var forwarded := new Byte[FRAME_MAX_SIZE - 1](_ => 0);
    var length := Put(forwarded, 0, [|user|]);
    length := Put(forwarded, length, user);
    length := Put(forwarded, length, encrypted);
    return forwarded[..length];
  }

  method Parse(payload: seq<Byte>) returns (p: Parsed)
    ensures p == ParseChat(payload)
  {
    if |payload| < CHAT_OVERHEAD || |payload| < CHAT_OVERHEAD + payload[0] {
      return Wrong(INVALID_MESSAGE);
    }
    var offset: nat := 1 + payload[0] as int;
    var recipient := ParseName(payload[1..offset]);
    if recipient.None? {
      return Wrong(INVALID_MESSAGE);
    }
    var encrypted := payload[offset..];
    if |encrypted| - NONCE_SIZE - PUBLIC_KEY_SIZE - MAC_SIZE > MAX_CHAT_SIZE {
      return Wrong(MESSAGE_TOO_LONG);
    }
    return Parsed(recipient.value, encrypted);
  }

  method ForwardMessage(clients: Clients.Registry, id: nat, user: seq<Byte>, payload: seq<Byte>)
    requires clients.Valid() && Reg.UniqueNames(clients.clients)
    modifies clients, clients.slots
    ensures clients.Valid() && clients.View() == Forward(old(clients.View()), id, user, payload)
  {
    var p := Parse(payload);
    if p.Wrong? {
      SendInvalid(clients, id, p.tag);
      return;
    }
    var key := clients.GetPublicKey(id);
    if key.None? || key.value != ClaimedKey(p.encrypted) {
      SendInvalid(clients, id, WRONG_KEY);
    } else if |user| == 0 || |user| >= USERNAME_SIZE || 1 + |user| + |p.encrypted| > FRAME_MAX_SIZE - 1 {
      SendInvalid(clients, id, WRONG_SENDER);
    } else {
      Deliver(clients, id, user, p.recipient, p.encrypted);
    }
  }

  method Deliver(clients: Clients.Registry, id: nat, user: seq<Byte>, recipient: seq<Byte>, encrypted: seq<Byte>)
    requires clients.Valid() && Reg.UniqueNames(clients.clients)
    requires |user| < USERNAME_SIZE && 1 + |user| + |encrypted| <= FRAME_MAX_SIZE - 1
    modifies clients, clients.slots
    ensures clients.Valid()
    ensures var r := old(clients.View());
            var (r', queued) := Reg.Queue(r, Reg.Find(r, recipient), Frame(CIPHERTEXT, [|user|] + user + encrypted));
            clients.View() == if queued then r' else Complain(r', id, NO_SUCH_USER)
  {
    var forwarded := BuildForward(user, encrypted);
    var to := clients.FindClientId(recipient);
    var queued := clients.QueueFrame(to, Frame(CIPHERTEXT, forwarded));
    if !queued {
      SendInvalid(clients, id, NO_SUCH_USER);
    }
  }

  method HandleEncryptedChat(clients: Clients.Registry, id: nat, user: seq<Byte>, f: Frame)
    requires clients.Valid() && Reg.Valid(clients.View())
    modifies clients, clients.slots
    ensures clients.Valid() && clients.View() == HandleChat(old(clients.View()), id, user, f)
  {
    if f.kind == REGISTER_PK {
      RegisterKey(clients, id, f.payload);
    } else if f.kind == REQUEST_PK {
      ReplyWithKey(clients, id, f.payload);
    } else {
      ForwardMessage(clients, id, user, f.payload);
    }
  }
}
