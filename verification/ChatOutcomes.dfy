/** What each frame of a private conversation does to the keys and to the logs: every way in
    which handle_encrypted_chat can end, and what that guarantees over whole runs. */
module ChatOutcomes {
  import opened Bytes
  import opened FileProtocol
  import opened FileCrypto
  import opened ChatSpec
  import opened Mail
  import Reg = RegistrySpec
  import Runs = RegistryRuns

  function Complaint(id: nat, tag: Byte): Letter {
    Letter(id, Frame(TEXT, [tag]))
  }

  lemma ComplainDelivers(r: Reg.Registry, id: nat, tag: Byte)
    ensures Delivered(r, Complain(r, id, tag), [Complaint(id, tag)])
  {
    OneDelivers(r, id, Frame(TEXT, [tag]));
  }

  // ----- Messages -----

  /** The payload of a message to this recipient, with these parts in this order. */
  ghost predicate Message(payload: seq<Byte>, recipient: seq<Byte>, nonce: seq<Byte>, key: seq<Byte>, cipher: seq<Byte>) {
    && ValidPeer(recipient) && |nonce| == 24 && |key| == 32 && 16 <= |cipher| <= 16 + 65536
    && payload == [|recipient|] + recipient + nonce + key + cipher
  }

  /** A payload parses exactly when it consists of a valid name and an encrypted part of
      possible length. */
  lemma ParsesExactly(payload: seq<Byte>, recipient: seq<Byte>, encrypted: seq<Byte>)
    ensures ParseChat(payload) == Parsed(recipient, encrypted) <==>
            ValidPeer(recipient) && 72 <= |encrypted| <= 72 + 65536 && payload == [|recipient|] + recipient + encrypted
  {
    if ValidPeer(recipient) && payload == [|recipient|] + recipient + encrypted {
      assert payload[1..1 + |recipient|] == recipient && payload[1 + |recipient|..] == encrypted;
    }
  }

  lemma MessageParses(payload: seq<Byte>, recipient: seq<Byte>, nonce: seq<Byte>, key: seq<Byte>, cipher: seq<Byte>)
    requires Message(payload, recipient, nonce, key, cipher)
    ensures ParseChat(payload) == Parsed(recipient, nonce + key + cipher)
    ensures ClaimedKey(nonce + key + cipher) == key
  {
    ParsesExactly(payload, recipient, nonce + key + cipher);
    EncryptedParts(nonce, key, cipher);
    assert payload == [|recipient|] + recipient + (nonce + key + cipher);
  }

  /** Whatever parses is a message. */
  lemma ParsedIsMessage(payload: seq<Byte>) returns (nonce: seq<Byte>, key: seq<Byte>, cipher: seq<Byte>)
    requires ParseChat(payload).Parsed?
    ensures Message(payload, ParseChat(payload).recipient, nonce, key, cipher)
    ensures ParseChat(payload).encrypted == nonce + key + cipher && ClaimedKey(ParseChat(payload).encrypted) == key
  {
    var e := ParseChat(payload).encrypted;
    nonce, key, cipher := e[..24], e[24..56], e[56..];
    ParsesExactly(payload, ParseChat(payload).recipient, e);
    assert e == nonce + key + cipher;
  }

  /** A message is forwarded only under the key that its sender has registered: to the one
      activated client of that name, under the sender's login name, if that client has room.
      In every other case the sender gets one complaint and nobody else anything. */
  lemma MessageOutcome(r: Reg.Registry, id: nat, user: seq<Byte>, payload: seq<Byte>,
                       recipient: seq<Byte>, nonce: seq<Byte>, key: seq<Byte>, cipher: seq<Byte>)
    requires ValidPeer(user) && Message(payload, recipient, nonce, key, cipher)
    ensures var r', to := HandleChat(r, id, user, Frame(CIPHERTEXT, payload)), Reg.Find(r, recipient);
            if Reg.GetKey(r, id) != Some(key) then Delivered(r, r', [Complaint(id, WRONG_KEY)])
            else if !RoomFor(r, to, 1) then Delivered(r, r', [Complaint(id, NO_SUCH_USER)])
            else Delivered(r, r', [Letter(to, Frame(CIPHERTEXT, [|user|] + user + nonce + key + cipher))])
  {
    var to, f := Reg.Find(r, recipient), Frame(CIPHERTEXT, [|user|] + user + (nonce + key + cipher));
    MessageParses(payload, recipient, nonce, key, cipher);
    ComplainDelivers(r, id, WRONG_KEY);
    QueueOrShut(r, to, f);
    if RoomFor(r, to, 1) {
      OneDelivers(r, to, f);
      assert f.payload == [|user|] + user + nonce + key + cipher;
    } else {
      RefusedThenOne(r, to, f, id, Frame(TEXT, [NO_SUCH_USER]));
    }
  }

  /** A payload that is no message draws one complaint. */
  lemma NoMessageOutcome(r: Reg.Registry, id: nat, user: seq<Byte>, payload: seq<Byte>)
    requires forall recipient, nonce, key, cipher :: !Message(payload, recipient, nonce, key, cipher)
    ensures var r' := HandleChat(r, id, user, Frame(CIPHERTEXT, payload));
            Delivered(r, r', [Complaint(id, INVALID_MESSAGE)]) || Delivered(r, r', [Complaint(id, MESSAGE_TOO_LONG)])
  {
    ComplainDelivers(r, id, INVALID_MESSAGE);
    ComplainDelivers(r, id, MESSAGE_TOO_LONG);
    MustBeWrong(payload);
  }

  lemma MustBeWrong(payload: seq<Byte>)
    ensures ParseChat(payload).Parsed? ==>
            exists recipient, nonce, key, cipher :: Message(payload, recipient, nonce, key, cipher)
    ensures ParseChat(payload).Wrong? ==> ParseChat(payload).tag in {INVALID_MESSAGE, MESSAGE_TOO_LONG}
  {
    if ParseChat(payload).Parsed? {
      var _, _, _ := ParsedIsMessage(payload);
    }
  }

  /** The receiving client takes exactly the messages that open, and shows the name in them. */
  lemma ReceivesExactly(box: Box, payload: seq<Byte>, mine: Secret, sender: seq<Byte>, text: seq<Byte>)
    ensures ReceiveChat(box, payload, mine) == Some(Received(sender, text)) <==>
            exists nonce, key, cipher :: Message(payload, sender, nonce, key, cipher) && box.open(cipher, nonce, key, mine) == Some(text)
  {
    if ReceiveChat(box, payload, mine) == Some(Received(sender, text)) {
      ReceivedIsMessage(box, payload, mine);
    }
    if nonce, key, cipher :| Message(payload, sender, nonce, key, cipher) && box.open(cipher, nonce, key, mine) == Some(text) {
      MessageIsReceived(box, payload, mine, sender, nonce, key, cipher, text);
    }
  }

  lemma ReceivedIsMessage(box: Box, payload: seq<Byte>, mine: Secret)
    requires ReceiveChat(box, payload, mine).Some?
    ensures var n := payload[0] as int; var e := payload[1 + n..];
            && Message(payload, ReceiveChat(box, payload, mine).value.sender, e[..24], e[24..56], e[56..])
            && box.open(e[56..], e[..24], e[24..56], mine) == Some(ReceiveChat(box, payload, mine).value.message)
  {
    var n := payload[0] as int;
    var e, sender := payload[1 + n..], payload[1..1 + n];
    assert payload == [n] + sender + e[..24] + e[24..56] + e[56..];
    assert forall i :: 0 <= i < n ==> PeerByte(sender[i]);
    assert payload[1 + n..25 + n] == e[..24] && payload[25 + n..57 + n] == e[24..56] && payload[57 + n..] == e[56..];
  }

  lemma MessageIsReceived(box: Box, payload: seq<Byte>, mine: Secret, sender: seq<Byte>,
                          nonce: seq<Byte>, key: seq<Byte>, cipher: seq<Byte>, text: seq<Byte>)
    requires Message(payload, sender, nonce, key, cipher) && box.open(cipher, nonce, key, mine) == Some(text)
    ensures ReceiveChat(box, payload, mine) == Some(Received(sender, text))
  {
    PayloadParts(sender, nonce, key, cipher);
    assert payload == ChatPayload(sender, nonce, key, cipher);
    assert forall i :: 0 <= i < |sender| ==> PeerByte(sender[i]);
  }

  // ----- Keys -----

  /** A registration is taken if the key has the right size and the client has no other: the
      key is then what GetKey returns for this client. Otherwise it draws a complaint. No
      other client's key changes. */
  lemma RegistrationOutcome(r: Reg.Registry, id: nat, user: seq<Byte>, payload: seq<Byte>, c: nat)
    ensures var r' := HandleChat(r, id, user, Frame(REGISTER_PK, payload));
            && (c != id ==> Reg.GetKey(r', c) == Reg.GetKey(r, c))
            && if |payload| == 32 && Reg.Accepting(r, id) && (Reg.GetKey(r, id) == None || Reg.GetKey(r, id) == Some(payload))
               then Reg.GetKey(r', id) == Some(payload) && Delivered(r, r', [])
               else Delivered(r, r', [Complaint(id, INVALID_REGISTRATION)])
                    && (id in r.clients ==> id in r'.clients && r'.clients[id].key == r.clients[id].key)
  {
    ComplainDelivers(r, id, INVALID_REGISTRATION);
    var r' := HandleChat(r, id, user, Frame(REGISTER_PK, payload));
    if r'.log == r.log {
      SameLogDelivers(r, r');
    }
  }

  lemma SameLogDelivers(r: Reg.Registry, r': Reg.Registry)
    requires r'.log == r.log
    ensures Delivered(r, r', [])
  {
    forall c ensures Gains(r, r', c, Addressed([], c)) {
      assert Reg.Log(r', c) == Reg.Log(r, c) + [];
    }
  }

  /** A request is answered by one reply, which names the peer and carries its key exactly if
      the one activated client of that name has registered one. */
  lemma RequestOutcome(r: Reg.Registry, id: nat, user: seq<Byte>, name: seq<Byte>)
    requires Reg.Valid(r)
    ensures var r' := HandleChat(r, id, user, Frame(REQUEST_PK, name));
            if !ValidPeer(name) then Delivered(r, r', [Complaint(id, INVALID_REQUEST)])
            else Delivered(r, r', [Letter(id, Frame(PEER_PK, [|name|] + name + PublicKey(r, name)))])
  {
    if ValidPeer(name) {
      ReplyNamesThePeer(r, name);
      PublicKeyIs(r, name);
      OneDelivers(r, id, Frame(PEER_PK, ReplyPayload(r, name)));
    } else {
      ComplainDelivers(r, id, INVALID_REQUEST);
    }
  }

  /** The client takes exactly the replies that consist of a name and nothing or one key. */
  lemma ReadsRepliesExactly(payload: seq<Byte>, name: seq<Byte>, key: Option<seq<Byte>>)
    ensures ParseReply(payload) == Some(KeyReply(name, key)) <==>
            && 1 <= |name| <= 31 && 0 !in name && (key.Some? ==> |key.value| == 32)
            && payload == [|name|] + name + if key.Some? then key.value else []
  {
    if 1 <= |name| <= 31 && payload == [|name|] + name + (if key.Some? then key.value else []) {
      assert payload[1..1 + |name|] == name && payload[1 + |name|..] == if key.Some? then key.value else [];
    }
  }

  /** The key of the activated client with this name, or nothing. */
  ghost function PublicKey(r: Reg.Registry, name: seq<Byte>): seq<Byte> {
    if c: nat :| Reg.Accepting(r, c) && r.clients[c].name == name && r.clients[c].key.Some? then r.clients[c].key.value else []
  }

  lemma PublicKeyIs(r: Reg.Registry, name: seq<Byte>)
    requires Reg.Valid(r)
    ensures PublicKey(r, name) == match Reg.GetKey(r, Reg.Find(r, name)) case Some(key) => key case None => []
  {
    if c: nat :| Reg.Accepting(r, c) && r.clients[c].name == name {
      Reg.FindIsExact(r, name, c);
    }
  }

  // ----- What this guarantees -----

  /** If any client is queued a CIPHERTEXT frame, the frame came from a message whose key
      field is the key registered for its sender; that client is the one activated client
      with the name in the message; and it has gained this one frame, with nonce, key and
      ciphertext as they were, under the sender's login name. */
  lemma CiphertextIsAuthentic(r: Reg.Registry, id: nat, user: seq<Byte>, f: Frame, c: nat, i: nat)
    requires Reg.Valid(r) && ValidPeer(user)
    requires var log, log' := Reg.Log(r, c), Reg.Log(HandleChat(r, id, user, f), c);
             |log| <= i < |log'| && log'[i].kind == CIPHERTEXT
    ensures f.kind != REGISTER_PK && f.kind != REQUEST_PK
    ensures exists nonce, key, cipher :: Genuine(r, id, user, f.payload, c, Reg.Log(HandleChat(r, id, user, f), c), nonce, key, cipher)
  {
    if f.kind == REGISTER_PK || f.kind == REQUEST_PK {
      KeysAddNoCiphertext(r, id, user, f, c);
    } else {
      ForwardIsGenuine(r, id, user, f.payload, c, i);
    }
  }

  lemma KeysAddNoCiphertext(r: Reg.Registry, id: nat, user: seq<Byte>, f: Frame, c: nat)
    requires Reg.Valid(r) && (f.kind == REGISTER_PK || f.kind == REQUEST_PK)
    ensures var log, log' := Reg.Log(r, c), Reg.Log(HandleChat(r, id, user, f), c);
            forall i :: |log| <= i < |log'| ==> log'[i].kind != CIPHERTEXT
  {
    var r' := HandleChat(r, id, user, f);
    if f.kind == REGISTER_PK {
      RegistrationOutcome(r, id, user, f.payload, 0);
      OnlyAddressed(r, r', c, [Complaint(id, INVALID_REGISTRATION)]);
    } else {
      RequestOutcome(r, id, user, f.payload);
      OnlyAddressed(r, r', c, [Complaint(id, INVALID_REQUEST)]);
      if ValidPeer(f.payload) {
        OnlyAddressed(r, r', c, [Letter(id, Frame(PEER_PK, [|f.payload|] + f.payload + PublicKey(r, f.payload)))]);
      }
    }
  }

  ghost predicate Genuine(r: Reg.Registry, id: nat, user: seq<Byte>, payload: seq<Byte>, c: nat, log': seq<Frame>,
                          nonce: seq<Byte>, key: seq<Byte>, cipher: seq<Byte>) {
    && Reg.Accepting(r, c) && Message(payload, r.clients[c].name, nonce, key, cipher)
    && Reg.Accepting(r, id) && r.clients[id].key == Some(key)
    && |user| < 256 && log' == Reg.Log(r, c) + [Frame(CIPHERTEXT, [|user|] + user + nonce + key + cipher)]
  }

  /** What a single letter adds to a log. */
  lemma OnlyAddressed(r: Reg.Registry, r': Reg.Registry, c: nat, letters: seq<Letter>)
    requires |letters| == 1
    ensures Delivered(r, r', letters) ==>
              || Reg.Log(r', c) == Reg.Log(r, c)
              || (letters[0].to == c && Reg.Log(r', c) == Reg.Log(r, c) + [letters[0].frame])
    ensures Delivered(r, r', []) ==> Reg.Log(r', c) == Reg.Log(r, c)
  {
    assert Addressed(letters, c) == if letters[0].to == c then [letters[0].frame] else [];
    if Delivered(r, r', letters) {
      assert Gains(r, r', c, Addressed(letters, c));
    }
    if Delivered(r, r', []) {
      assert Gains(r, r', c, Addressed([], c));
    }
  }

  ghost predicate AddsText(r: Reg.Registry, r': Reg.Registry, c: nat) {
    Reg.Log(r', c) == Reg.Log(r, c) || exists tag: Byte :: Reg.Log(r', c) == Reg.Log(r, c) + [Frame(TEXT, [tag])]
  }

  lemma ComplaintAddsText(r: Reg.Registry, r': Reg.Registry, c: nat, id: nat, tag: Byte)
    ensures Delivered(r, r', [Complaint(id, tag)]) ==> AddsText(r, r', c)
  {
    OnlyAddressed(r, r', c, [Complaint(id, tag)]);
  }

  lemma MessageAdds(r: Reg.Registry, id: nat, user: seq<Byte>, payload: seq<Byte>,
                    recipient: seq<Byte>, nonce: seq<Byte>, key: seq<Byte>, cipher: seq<Byte>, c: nat)
    requires Reg.Valid(r) && ValidPeer(user) && Message(payload, recipient, nonce, key, cipher)
    ensures var r' := HandleChat(r, id, user, Frame(CIPHERTEXT, payload));
            AddsText(r, r', c) || Genuine(r, id, user, payload, c, Reg.Log(r', c), nonce, key, cipher)
  {
    var r' := HandleChat(r, id, user, Frame(CIPHERTEXT, payload));
    MessageOutcome(r, id, user, payload, recipient, nonce, key, cipher);
    ComplaintAddsText(r, r', c, id, WRONG_KEY);
    ComplaintAddsText(r, r', c, id, NO_SUCH_USER);
    OnlyAddressed(r, r', c, [Letter(Reg.Find(r, recipient), Frame(CIPHERTEXT, [|user|] + user + nonce + key + cipher))]);
  }

  lemma ForwardIsGenuine(r: Reg.Registry, id: nat, user: seq<Byte>, payload: seq<Byte>, c: nat, i: nat)
    requires Reg.Valid(r) && ValidPeer(user)
    requires var log, log' := Reg.Log(r, c), Reg.Log(Forward(r, id, user, payload), c);
             |log| <= i < |log'| && log'[i].kind == CIPHERTEXT
    ensures exists nonce, key, cipher :: Genuine(r, id, user, payload, c, Reg.Log(Forward(r, id, user, payload), c), nonce, key, cipher)
  {
    var r' := HandleChat(r, id, user, Frame(CIPHERTEXT, payload));
    if recipient, nonce, key, cipher :| Message(payload, recipient, nonce, key, cipher) {
      MessageAdds(r, id, user, payload, recipient, nonce, key, cipher, c);
    } else {
      NoMessageOutcome(r, id, user, payload);
      ComplaintAddsText(r, r', c, id, INVALID_MESSAGE);
      ComplaintAddsText(r, r', c, id, MESSAGE_TOO_LONG);
    }
  }

  /** A key, once registered, is what every later reply for that name carries, as long as the
      client is there; while it has overflowed and awaits removal, replies carry no key. */
  lemma KeyIsServed(s: Runs.State, id: nat, key: seq<Byte>, ops: seq<Runs.Op>)
    requires Runs.Inv(s) && id in s.registry.clients && |key| == PUBLIC_KEY_SIZE
    requires Reg.RegisterKey(s.registry, id, key).1 && Runs.Legal(Runs.Apply(s, Runs.DoRegisterKey(id, key)), ops)
    ensures var r, name := Runs.After(Runs.Apply(s, Runs.DoRegisterKey(id, key)), ops).registry, s.registry.clients[id].name;
            id in r.clients ==>
              && ValidPeer(name)
              && ParseReply(ReplyPayload(r, name)) == Some(KeyReply(name, if Reg.Accepting(r, id) then Some(key) else None))
  {
    var next := Runs.Apply(s, Runs.DoRegisterKey(id, key));
    var end, name := Runs.After(next, ops), s.registry.clients[id].name;
    Runs.ApplyInv(s, Runs.DoRegisterKey(id, key));
    Runs.KeyNeverChanges(next, ops, id);
    Runs.NameNeverChanges(next, ops, id);
    Runs.RunKeepsInv(next, ops);
    if id in end.registry.clients {
      KeyInReply(end.registry, id, name, key);
    }
  }

  lemma KeyInReply(r: Reg.Registry, id: nat, name: seq<Byte>, key: seq<Byte>)
    requires Reg.Valid(r) && id in r.clients && r.clients[id].name == name && r.clients[id].key == Some(key)
    ensures ValidPeer(name)
    ensures ParseReply(ReplyPayload(r, name)) == Some(KeyReply(name, if Reg.Accepting(r, id) then Some(key) else None))
  {
    assert Reg.ValidClient(r.clients[id]);
    FoundOrNobody(r, id, name);
    ReplyNamesThePeer(r, name);
  }

  lemma FoundOrNobody(r: Reg.Registry, id: nat, name: seq<Byte>)
    requires Reg.Valid(r) && id in r.clients && r.clients[id].name == name
    ensures Reg.Find(r, name) == if Reg.Accepting(r, id) then id else 0
  {
    Reg.FindIsExact(r, name, id);
  }
}
