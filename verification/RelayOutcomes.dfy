/** What one file frame does to the transfer it names and to the logs of the clients, case by
    case: every way in which a handler that is not interrupted can end. */
module RelayOutcomes {
  import opened Bytes
  import opened FileProtocol
  import opened RouteSpec
  import opened Sessions
  import opened RelaySpec
  import opened RelayTransfer
  import opened RelayCarries
  import opened Mail
  import Files = ServerFiles
  import Reg = RegistrySpec

  ghost function EntryAt(sh: Shared, k: Key): Option<Entry> {
    if k in sh.routes.table then Some(sh.routes.table[k]) else None
  }

  /** The frame left key k with this entry and every other key alone, and the clients were
      queued these frames and nothing else. */
  ghost predicate Outcome(sh: Shared, sh': Shared, k: Key, entry: Option<Entry>, letters: seq<Letter>) {
    && EntryAt(sh', k) == entry && OnlyKey(sh.routes.table, sh'.routes.table, k)
    && Delivered(sh.registry, sh'.registry, letters)
  }

  /** A tombstone, unless the key is new and the table is full. */
  ghost function Buried(sh: Shared, k: Key): Option<Entry> {
    if k in sh.routes.table || |sh.routes.table| < sh.routes.capacity then Some(Discard) else None
  }

  /** One error for the receiver of a live route, under the id it knows. */
  ghost function Warning(sh: Shared, k: Key): seq<Letter> {
    if Live(sh.routes.table, k)
    then [Letter(sh.routes.table[k].target, ErrorFrame(sh.routes.table[k].outbound))]
    else []
  }

  // ----- What the handler sends at the end -----

  lemma TellDelivers(sh: Shared, routes: Routes, sender: nat, user: seq<Byte>, tag: Byte)
    ensures var last := Run(sh.(routes := routes), sender, user, Emitting([Note(sender, tag)]));
            last.routes == routes && Delivered(sh.registry, last.registry, [Letter(sender, Notice(tag))])
  {
    Files.RunNote(sh.(routes := routes), sender, user, tag);
    OneDelivers(sh.registry, sender, Notice(tag));
  }

  lemma WarnDelivers(sh: Shared, routes: Routes, sender: nat, user: seq<Byte>, k: Key)
    requires RouteSpec.Valid(sh.routes)
    ensures var last := Run(sh.(routes := routes), sender, user, Continue(ErrorTo(Lookup(sh.routes, k))));
            last.routes == routes && Delivered(sh.registry, last.registry, Warning(sh, k))
  {
    var e := Lookup(sh.routes, k);
    Files.RunError(sh.(routes := routes), sender, user, e);
    assert Live(sh.routes.table, k) ==> ValidEntry(sh.routes.table[k]);
    if Live(sh.routes.table, k) {
      OneDelivers(sh.registry, e.target, ErrorFrame(e.outbound));
      assert ErrorTo(e)[1..] == [];
    } else {
      NothingDelivers(sh.registry);
    }
  }

  lemma WarnAndTellDeliver(sh: Shared, routes: Routes, sender: nat, user: seq<Byte>, k: Key, tag: Byte)
    requires RouteSpec.Valid(sh.routes)
    ensures var last := Run(sh.(routes := routes), sender, user, Emitting(ErrorTo(Lookup(sh.routes, k)) + [Note(sender, tag)]));
            last.routes == routes && Delivered(sh.registry, last.registry, Warning(sh, k) + [Letter(sender, Notice(tag))])
  {
    var e := Lookup(sh.routes, k);
    Files.RunErrorNote(sh.(routes := routes), sender, user, e, tag);
    assert Live(sh.routes.table, k) ==> ValidEntry(sh.routes.table[k]);
    if Live(sh.routes.table, k) {
      TwoDeliver(sh.registry, Letter(e.target, ErrorFrame(e.outbound)), Letter(sender, Notice(tag)));
      assert ErrorTo(e)[1..] == [];
      assert Warning(sh, k) + [Letter(sender, Notice(tag))] == [Letter(e.target, ErrorFrame(e.outbound)), Letter(sender, Notice(tag))];
    } else {
      OneDelivers(sh.registry, sender, Notice(tag));
      assert Warning(sh, k) + [Letter(sender, Notice(tag))] == [Letter(sender, Notice(tag))];
    }
  }

  // ----- Frames that name no transfer -----

  /** Too large, of another type, from a user without a valid name, or too short to name a
      transfer: one notice and nothing else. An empty frame gets no answer. */
  lemma UselessFrame(sh: Shared, sender: nat, user: seq<Byte>, raw: seq<Byte>)
    requires sender != INVALID_CLIENT
    ensures var sh' := HandleFrame(sh, sender, user, raw);
            && (raw == [] ==> sh' == sh)
            && (|raw| > 65792 ==> sh'.routes == sh.routes && Delivered(sh.registry, sh'.registry, [Letter(sender, Notice(TOO_LARGE))]))
            && (0 < |raw| <= 65792 && raw[0] > FILE_ERROR ==>
                  sh'.routes == sh.routes && Delivered(sh.registry, sh'.registry, [Letter(sender, Notice(BAD_TYPE))]))
            && (0 < |raw| <= 65792 && raw[0] == FILE_BEGIN && !ValidPeer(user) ==>
                  sh'.routes == sh.routes && Delivered(sh.registry, sh'.registry, [Letter(sender, Notice(BAD_SENDER))]))
            && (0 < |raw| < 5 && raw[0] <= FILE_ERROR && (raw[0] == FILE_BEGIN ==> ValidPeer(user)) ==>
                  sh'.routes == sh.routes && Delivered(sh.registry, sh'.registry, [Letter(sender, Notice(MALFORMED))]))
  {
    TellDelivers(sh, sh.routes, sender, user, TOO_LARGE);
    TellDelivers(sh, sh.routes, sender, user, BAD_TYPE);
    TellDelivers(sh, sh.routes, sender, user, BAD_SENDER);
    TellDelivers(sh, sh.routes, sender, user, MALFORMED);
  }

  // ----- Malformed frames -----

  /** A file frame that names a transfer and is the encoding of nothing. */
  ghost predicate Malformed(raw: seq<Byte>) {
    && 5 <= |raw| <= 65792 && raw[0] <= FILE_ERROR
    && (forall b :: ValidBegin(b) ==> raw != Raw(BeginFrame(b)))
    && (forall c :: ValidChunk(c) ==> raw != Raw(ChunkFrame(c)))
    && (forall id :: raw != Raw(EndFrame(id)))
    && (forall id :: raw != Raw(ErrorFrame(id)))
  }

  lemma DecodedIsEncoded(raw: seq<Byte>)
    ensures DecodeBegin(raw).Some? ==> ValidBegin(DecodeBegin(raw).value) && raw == Raw(BeginFrame(DecodeBegin(raw).value))
    ensures DecodeChunk(raw).Some? ==> ValidChunk(DecodeChunk(raw).value) && raw == Raw(ChunkFrame(DecodeChunk(raw).value))
    ensures DecodeControl(raw, FILE_END).Some? ==> raw == Raw(EndFrame(DecodeControl(raw, FILE_END).value))
    ensures DecodeControl(raw, FILE_ERROR).Some? ==> raw == Raw(ErrorFrame(DecodeControl(raw, FILE_ERROR).value))
  {
    if DecodeBegin(raw).Some? {
      BeginCodec(raw, DecodeBegin(raw).value);
    }
    if DecodeChunk(raw).Some? {
      ChunkCodec(raw, DecodeChunk(raw).value);
    }
    if DecodeControl(raw, FILE_END).Some? {
      ControlCodec(raw, FILE_END, DecodeControl(raw, FILE_END).value);
    }
    if DecodeControl(raw, FILE_ERROR).Some? {
      ControlCodec(raw, FILE_ERROR, DecodeControl(raw, FILE_ERROR).value);
    }
  }

  lemma MalformedDoesNotDecode(raw: seq<Byte>)
    requires Malformed(raw)
    ensures DecodeBegin(raw).None? && DecodeChunk(raw).None?
    ensures DecodeControl(raw, FILE_END).None? && DecodeControl(raw, FILE_ERROR).None?
  {
    DecodedIsEncoded(raw);
  }

  /** Every frame is one of those treated here. */
  lemma CasesAreComplete(raw: seq<Byte>)
    ensures raw == [] || |raw| > 65792 || raw[0] > FILE_ERROR || |raw| < 5 || Malformed(raw)
            || (exists b :: ValidBegin(b) && raw == Raw(BeginFrame(b)))
            || (exists c :: ValidChunk(c) && raw == Raw(ChunkFrame(c)))
            || (exists id :: raw == Raw(EndFrame(id)) || raw == Raw(ErrorFrame(id)))
  {
  }

  lemma RejectOutcome(sh: Shared, sender: nat, user: seq<Byte>, k: Key, keep: bool)
    requires RouteSpec.Valid(sh.routes)
    ensures var (sh', pc) := Reject(sh, sender, k, keep);
            Outcome(sh, Run(sh', sender, user, pc), k, if keep then Buried(sh, k) else None,
                    Warning(sh, k) + [Letter(sender, Notice(MALFORMED))])
  {
    QuarantineKey(sh.routes, k, keep);
    var routes := RouteSpec.Quarantine(sh.routes, k, keep).0;
    WarnAndTellDeliver(sh, routes, sender, user, k, MALFORMED);
    assert !IsLive(sh.routes, k) ==> ErrorTo(Lookup(sh.routes, k)) == [];
  }

  /** A malformed frame spoils the transfer it names: a malformed BEGIN or CHUNK buries the
      key, a malformed END or ERROR frees it, and in either case the receiver of a live
      route is queued one ERROR under the id it knows. */
  lemma MalformedFrame(sh: Shared, sender: nat, user: seq<Byte>, raw: seq<Byte>, k: Key)
    requires sender != INVALID_CLIENT && RouteSpec.Valid(sh.routes)
    requires Malformed(raw) && NamesKey(sender, raw, k) && (raw[0] == FILE_BEGIN ==> ValidPeer(user))
    ensures Outcome(sh, HandleFrame(sh, sender, user, raw), k,
                    if raw[0] == FILE_BEGIN || raw[0] == FILE_CHUNK then Buried(sh, k) else None,
                    Warning(sh, k) + [Letter(sender, Notice(MALFORMED))])
  {
    MalformedDoesNotDecode(raw);
    var keep := raw[0] == FILE_BEGIN || raw[0] == FILE_CHUNK;
    RejectOutcome(sh, sender, user, k, keep);
    assert Dispatch(sh, sender, user, raw) == Spoil(sh, sender, raw, keep);
  }

  // ----- BEGIN -----

  lemma BeginHandled(sh: Shared, sender: nat, user: seq<Byte>, b: Begin)
    requires sender != INVALID_CLIENT && ValidPeer(user) && ValidBegin(b)
    ensures var (sh', pc) := AddRoute(sh, sender, user, b, Reg.Find(sh.registry, b.peer));
            HandleFrame(sh, sender, user, Raw(BeginFrame(b))) == Run(sh', sender, user, pc)
  {
    OwnBeginDispatch(sh, sender, user, b);
    assert Advance(sh, sender, user, LookedUp(b, Reg.Find(sh.registry, b.peer)))
           == AddRoute(sh, sender, user, b, Reg.Find(sh.registry, b.peer));
  }

  /** A source id in use, live or discarded, is spoiled: the key is buried and the receiver of
      a live route is told. */
  lemma BeginTwice(sh: Shared, sender: nat, user: seq<Byte>, b: Begin)
    requires sender != INVALID_CLIENT && RouteSpec.Valid(sh.routes) && ValidPeer(user) && ValidBegin(b)
    requires Key(sender, b.id) in sh.routes.table
    ensures var k := Key(sender, b.id);
            Outcome(sh, HandleFrame(sh, sender, user, Raw(BeginFrame(b))), k, Some(Discard),
                    Warning(sh, k) + [Letter(sender, Notice(DUPLICATE))])
  {
    var k := Key(sender, b.id);
    BeginHandled(sh, sender, user, b);
    WarnAndTellDeliver(sh, PutDiscard(sh.routes, k), sender, user, k, DUPLICATE);
  }

  /** With every slot taken, one notice and nothing else. */
  lemma BeginWhenFull(sh: Shared, sender: nat, user: seq<Byte>, b: Begin)
    requires sender != INVALID_CLIENT && RouteSpec.Valid(sh.routes) && ValidPeer(user) && ValidBegin(b)
    requires Key(sender, b.id) !in sh.routes.table && |sh.routes.table| == sh.routes.capacity
    ensures Outcome(sh, HandleFrame(sh, sender, user, Raw(BeginFrame(b))), Key(sender, b.id), None,
                    [Letter(sender, Notice(LIMIT_REACHED))])
  {
    BeginHandled(sh, sender, user, b);
    TellDelivers(sh, sh.routes, sender, user, LIMIT_REACHED);
  }

  /** A transfer to nobody or to the sender itself is buried at once. */
  lemma BeginToNobody(sh: Shared, sender: nat, user: seq<Byte>, b: Begin)
    requires sender != INVALID_CLIENT && RouteSpec.Valid(sh.routes) && ValidPeer(user) && ValidBegin(b)
    requires Key(sender, b.id) !in sh.routes.table && |sh.routes.table| < sh.routes.capacity
    requires Reg.Find(sh.registry, b.peer) in {0, sender}
    ensures Outcome(sh, HandleFrame(sh, sender, user, Raw(BeginFrame(b))), Key(sender, b.id), Some(Discard),
                    [Letter(sender, Notice(if Reg.Find(sh.registry, b.peer) == sender then TO_YOURSELF else NOT_CONNECTED))])
  {
    BeginHandled(sh, sender, user, b);
    TellDelivers(sh, PutDiscard(sh.routes, Key(sender, b.id)), sender, user,
                 if Reg.Find(sh.registry, b.peer) == sender then TO_YOURSELF else NOT_CONNECTED);
  }

  /** To another client: with room there, the route forwards under an unused id and the
      client is queued the renamed BEGIN; without, the key is buried and the sender told. */
  lemma BeginToPeer(sh: Shared, sender: nat, user: seq<Byte>, b: Begin)
    requires sender != INVALID_CLIENT && RouteSpec.Valid(sh.routes) && ValidPeer(user) && ValidBegin(b)
    requires Key(sender, b.id) !in sh.routes.table && |sh.routes.table| < sh.routes.capacity
    requires Reg.Find(sh.registry, b.peer) !in {0, sender}
    ensures var k, t, o := Key(sender, b.id), Reg.Find(sh.registry, b.peer), NextOutbound(sh);
            var sh' := HandleFrame(sh, sender, user, Raw(BeginFrame(b)));
            && !InUse(sh.routes.table, o)
            && (if RoomFor(sh.registry, t, 1)
                then Outcome(sh, sh', k, Some(Forwarding(t, o, b.size, 0)), [Letter(t, BeginFrame(b.(id := o, peer := user)))])
                else Outcome(sh, sh', k, Some(Discard), [Letter(sender, Notice(UNREACHABLE))]))
  {
    var k, t, o := Key(sender, b.id), Reg.Find(sh.registry, b.peer), NextOutbound(sh);
    var f := BeginFrame(b.(id := o, peer := user));
    BeginHandled(sh, sender, user, b);
    OwnBeginAdds(sh, sender, user, b, t, o);
    AddKey(sh.routes, k, t, b.size, false);
    var added := AddRoute(sh, sender, user, b, t).0;
    assert BeginPc(user, b, k, Endpoint(t, o)) == Emitting([Emission(t, f, ThenQuarantine(k))]);
    Files.RunForward(added, sender, user, Emission(t, f, ThenQuarantine(k)));
    QueueOrShut(sh.registry, t, f);
    if RoomFor(sh.registry, t, 1) {
      OneDelivers(sh.registry, t, f);
    } else {
      BeginRefused(sh, added, sender, user, k, t, f);
    }
  }

  lemma BuriedOnly(table: map<Key, Entry>, table': map<Key, Entry>, k: Key)
    requires OnlyKey(table, table', k)
    ensures OnlyKey(table, table'[k := Discard], k)
  {
    var buried := table'[k := Discard];
    forall l | l != k ensures SameEntry(table, buried, l) {
      assert SameEntry(table, table', l);
    }
  }

  lemma BeginRefused(sh: Shared, added: Shared, sender: nat, user: seq<Byte>, k: Key, t: nat, f: Frame)
    requires added.registry == sh.registry && k in added.routes.table && OnlyKey(sh.routes.table, added.routes.table, k)
    requires Fits(f) && !RoomFor(sh.registry, t, 1)
    ensures Outcome(sh, Run(added.(registry := Reg.Queue(sh.registry, t, f).0), sender, user, Quarantining(k)), k, Some(Discard),
                    [Letter(sender, Notice(UNREACHABLE))])
  {
    var next := added.(registry := Reg.Queue(sh.registry, t, f).0);
    var buried := next.(routes := PutDiscard(added.routes, k));
    assert Advance(next, sender, user, Quarantining(k)) == (buried, Emitting([Note(sender, UNREACHABLE)]));
    Files.RunNote(buried, sender, user, UNREACHABLE);
    BuriedOnly(sh.routes.table, added.routes.table, k);
    RefusedThenOne(sh.registry, t, f, sender, Notice(UNREACHABLE));
  }

  // ----- CHUNK -----

  lemma ChunkHandled(sh: Shared, sender: nat, user: seq<Byte>, c: Chunk)
    requires sender != INVALID_CLIENT && ValidChunk(c)
    ensures var (sh', pc) := DispatchChunk(sh, sender, Raw(ChunkFrame(c)));
            HandleFrame(sh, sender, user, Raw(ChunkFrame(c))) == Run(sh', sender, user, pc)
    ensures DecodeChunk(Raw(ChunkFrame(c))) == Some(c)
  {
    ChunkCodec(Raw(ChunkFrame(c)), c);
  }

  /** A chunk of no transfer buries its key; a chunk of a discarded one changes nothing. */
  lemma ChunkOfNothing(sh: Shared, sender: nat, user: seq<Byte>, c: Chunk)
    requires sender != INVALID_CLIENT && RouteSpec.Valid(sh.routes) && ValidChunk(c)
    requires !Live(sh.routes.table, Key(sender, c.id))
    ensures var k, sh' := Key(sender, c.id), HandleFrame(sh, sender, user, Raw(ChunkFrame(c)));
            if k in sh.routes.table then sh' == sh
            else Outcome(sh, sh', k, Buried(sh, k), [Letter(sender, Notice(NO_BEGIN))])
  {
    var k := Key(sender, c.id);
    ChunkHandled(sh, sender, user, c);
    if k !in sh.routes.table {
      TellDelivers(sh, PutDiscard(sh.routes, k), sender, user, NO_BEGIN);
      PutDiscardKey(sh.routes, k);
    }
  }

  /** A chunk beyond the declared size buries the key and warns the receiver. */
  lemma ChunkTooMuch(sh: Shared, sender: nat, user: seq<Byte>, c: Chunk)
    requires sender != INVALID_CLIENT && RouteSpec.Valid(sh.routes) && ValidChunk(c) && Live(sh.routes.table, Key(sender, c.id))
    requires var e := sh.routes.table[Key(sender, c.id)]; e.forwarded + |c.data| > e.expected
    ensures var k := Key(sender, c.id);
            Outcome(sh, HandleFrame(sh, sender, user, Raw(ChunkFrame(c))), k, Some(Discard),
                    Warning(sh, k) + [Letter(sender, Notice(OVERRUN))])
  {
    var k := Key(sender, c.id);
    ChunkHandled(sh, sender, user, c);
    PutDiscardKey(sh.routes, k);
    WarnAndTellDeliver(sh, PutDiscard(sh.routes, k), sender, user, k, OVERRUN);
  }

  /** A chunk within the declared size: with room at the target it is counted and queued under
      the outbound id; without, the key is buried and the sender told. */
  lemma ChunkOfRoute(sh: Shared, sender: nat, user: seq<Byte>, c: Chunk, e: Entry)
    requires sender != INVALID_CLIENT && ValidChunk(c) && Held(sh, Key(sender, c.id), e) && e.forwarded + |c.data| <= e.expected
    ensures var k, sh' := Key(sender, c.id), HandleFrame(sh, sender, user, Raw(ChunkFrame(c)));
            if RoomFor(sh.registry, e.target, 1)
            then Outcome(sh, sh', k, Some(e.(forwarded := e.forwarded + |c.data|)),
                         [Letter(e.target, ChunkFrame(Chunk(e.outbound, c.data)))])
            else Outcome(sh, sh', k, Some(Discard), [Letter(sender, Notice(DISCONNECTED))])
  {
    var k, f := Key(sender, c.id), ChunkFrame(Chunk(e.outbound, c.data));
    ChunkHandled(sh, sender, user, c);
    OwnChunkDispatch(sh, sender, user, c, e);
    AcceptChunkKey(sh.routes, k, |c.data|);
    var accepted := DispatchChunk(sh, sender, Raw(ChunkFrame(c))).0;
    Files.RunForward(accepted, sender, user, Emission(e.target, f, ThenMark(k, e.outbound)));
    QueueOrShut(sh.registry, e.target, f);
    if RoomFor(sh.registry, e.target, 1) {
      OneDelivers(sh.registry, e.target, f);
    } else {
      ChunkRefused(sh, accepted, sender, user, k, e, f);
    }
  }

  lemma ChunkRefused(sh: Shared, accepted: Shared, sender: nat, user: seq<Byte>, k: Key, e: Entry, f: Frame)
    requires accepted.registry == sh.registry && Live(accepted.routes.table, k) && OnlyKey(sh.routes.table, accepted.routes.table, k)
    requires e.Forwarding? && accepted.routes.table[k].outbound == e.outbound && Fits(f) && !RoomFor(sh.registry, e.target, 1)
    ensures Outcome(sh, Run(accepted.(registry := Reg.Queue(sh.registry, e.target, f).0), sender, user, Marking(k, e.outbound)), k,
                    Some(Discard), [Letter(sender, Notice(DISCONNECTED))])
  {
    var next := accepted.(registry := Reg.Queue(sh.registry, e.target, f).0);
    var buried := next.(routes := PutDiscard(accepted.routes, k));
    assert Advance(next, sender, user, Marking(k, e.outbound)) == (buried, Emitting([Note(sender, DISCONNECTED)]));
    Files.RunNote(buried, sender, user, DISCONNECTED);
    BuriedOnly(sh.routes.table, accepted.routes.table, k);
    RefusedThenOne(sh.registry, e.target, f, sender, Notice(DISCONNECTED));
  }

  // ----- END and ERROR -----

  lemma EndHandled(sh: Shared, sender: nat, user: seq<Byte>, id: Word)
    requires sender != INVALID_CLIENT
    ensures var (sh', pc) := DispatchEnd(sh, sender, Raw(EndFrame(id)));
            HandleFrame(sh, sender, user, Raw(EndFrame(id))) == Run(sh', sender, user, pc)
    ensures DecodeControl(Raw(EndFrame(id)), FILE_END) == Some(id)
  {
    ControlCodec(Raw(EndFrame(id)), FILE_END, id);
  }

  /** END always frees the key. Without a transfer the sender is told; a discarded one ends
      silently; a short one warns the receiver; a complete one is ended at the target, or
      the sender is told that the target is gone. */
  lemma EndOfTransfer(sh: Shared, sender: nat, user: seq<Byte>, id: Word)
    requires sender != INVALID_CLIENT && RouteSpec.Valid(sh.routes)
    ensures var k, sh' := Key(sender, id), HandleFrame(sh, sender, user, Raw(EndFrame(id)));
            Outcome(sh, sh', k, None,
              match EntryAt(sh, k)
              case None => [Letter(sender, Notice(NO_BEGIN))]
              case Some(Discard) => []
              case Some(Forwarding(t, o, expected, forwarded)) =>
                if forwarded < expected then [Letter(t, ErrorFrame(o)), Letter(sender, Notice(INCOMPLETE))]
                else if RoomFor(sh.registry, t, 1) then [Letter(t, EndFrame(o))]
                else [Letter(sender, Notice(DISCONNECTED))])
  {
    var k := Key(sender, id);
    EndHandled(sh, sender, user, id);
    FinishKey(sh.routes, k, true);
    match EntryAt(sh, k)
    case None => TellDelivers(sh, sh.routes, sender, user, NO_BEGIN);
    case Some(Discard) => NothingDelivers(sh.registry);
    case Some(Forwarding(t, o, expected, forwarded)) =>
      assert ValidEntry(sh.routes.table[k]);
      if forwarded < expected {
        WarnAndTellDeliver(sh, RouteSpec.Remove(sh.routes, k), sender, user, k, INCOMPLETE);
        assert Warning(sh, k) + [Letter(sender, Notice(INCOMPLETE))] == [Letter(t, ErrorFrame(o)), Letter(sender, Notice(INCOMPLETE))];
      } else {
        EndForwarded(sh, sh.(routes := RouteSpec.Remove(sh.routes, k)), sender, user, t, EndFrame(o));
      }
  }

  lemma EndForwarded(sh: Shared, freed: Shared, sender: nat, user: seq<Byte>, t: nat, f: Frame)
    requires freed.registry == sh.registry && Fits(f)
    ensures var last := Run(freed, sender, user, Emitting([Emission(t, f, ThenNotify)]));
            && last.routes == freed.routes
            && Delivered(sh.registry, last.registry,
                 if RoomFor(sh.registry, t, 1) then [Letter(t, f)] else [Letter(sender, Notice(DISCONNECTED))])
  {
    Files.RunForward(freed, sender, user, Emission(t, f, ThenNotify));
    QueueOrShut(sh.registry, t, f);
    if RoomFor(sh.registry, t, 1) {
      OneDelivers(sh.registry, t, f);
    } else {
      Files.RunNote(freed.(registry := Reg.Queue(sh.registry, t, f).0), sender, user, DISCONNECTED);
      RefusedThenOne(sh.registry, t, f, sender, Notice(DISCONNECTED));
    }
  }

  /** ERROR always frees the key and is passed on to the receiver of a live route. */
  lemma ErrorOfTransfer(sh: Shared, sender: nat, user: seq<Byte>, id: Word)
    requires sender != INVALID_CLIENT && RouteSpec.Valid(sh.routes)
    ensures var k, sh' := Key(sender, id), HandleFrame(sh, sender, user, Raw(ErrorFrame(id)));
            Outcome(sh, sh', k, None, if k in sh.routes.table then Warning(sh, k) else [Letter(sender, Notice(NO_BEGIN))])
  {
    var k := Key(sender, id);
    ControlCodec(Raw(ErrorFrame(id)), FILE_ERROR, id);
    FinishKey(sh.routes, k, false);
    if k in sh.routes.table {
      WarnDelivers(sh, RouteSpec.Remove(sh.routes, k), sender, user, k);
      assert sh.routes.table[k].Discard? ==> ErrorTo(Lookup(sh.routes, k)) == [];
    } else {
      TellDelivers(sh, sh.routes, sender, user, NO_BEGIN);
    }
  }
}
