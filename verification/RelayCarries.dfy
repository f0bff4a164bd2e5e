/** The sender's own frames, one by one and then as a whole transfer. */
module RelayCarries {
  import opened Bytes
  import opened FileProtocol
  import opened RouteSpec
  import opened Sessions
  import opened RelaySpec
  import opened Relay
  import opened Sender
  import opened RelayTransfer
  import opened RelayRuns
  import Serial = SerialRelay
  import Files = ServerFiles
  import Reg = RegistrySpec

  /** The client takes one more frame without overflowing. */
  ghost predicate Room(r: Reg.Registry, t: nat) {
    t != INVALID_CLIENT && Reg.Accepting(r, t) && |r.clients[t].queue| < Reg.MAX_OUTGOING_FRAMES
  }

  /** The client took exactly one frame and still accepts frames. */
  ghost predicate OneMore(r: Reg.Registry, r': Reg.Registry, t: nat) {
    && Reg.Accepting(r, t) && Reg.Accepting(r', t) && r'.clients[t].failed == r.clients[t].failed
    && |r'.clients[t].queue| == |r.clients[t].queue| + 1
  }

  lemma Queued(r: Reg.Registry, t: nat, f: Frame, o: Word)
    requires Room(r, t) && Fits(f) && About(f, o)
    ensures OneMore(r, Reg.Queue(r, t, f).0, t)
    ensures Reg.Queue(r, t, f).1 && Grew(Reg.Log(r, t), Reg.Log(Reg.Queue(r, t, f).0, t), o, [f])
  {
    ProjectAppend(Reg.Log(r, t), f, o);
  }

  /** A frame for a client with room is queued and the handler is done. */
  lemma Forwarded(sh: Shared, sender: nat, user: seq<Byte>, t: nat, f: Frame, onFail: OnFail, o: Word)
    requires Room(sh.registry, t) && Fits(f) && About(f, o) && onFail != Ignore
    ensures var sh' := Run(sh, sender, user, Emitting([Emission(t, f, onFail)]));
            && sh'.routes == sh.routes && OneMore(sh.registry, sh'.registry, t)
            && Grew(Reg.Log(sh.registry, t), Reg.Log(sh'.registry, t), o, [f])
  {
    Queued(sh.registry, t, f, o);
    Files.RunForward(sh, sender, user, Emission(t, f, onFail));
  }

  // ----- BEGIN -----

  lemma OwnBeginDispatch(sh: Shared, sender: nat, user: seq<Byte>, b: Begin)
    requires sender != INVALID_CLIENT && ValidPeer(user) && ValidBegin(b)
    ensures Dispatch(sh, sender, user, Raw(BeginFrame(b))) == (sh, LookedUp(b, Reg.Find(sh.registry, b.peer)))
  {
    BeginCodec(Raw(BeginFrame(b)), b);
  }

  /** The outbound id that the server chooses for the next route. */
  ghost function NextOutbound(sh: Shared): Word {
    Allocate(sh.routes.table, sh.routes.next, 0, sh.routes.capacity + 1).0
  }

  /** A fresh source id and a free slot give a route under an unused outbound id. */
  lemma OwnBeginAdds(sh: Shared, sender: nat, user: seq<Byte>, b: Begin, t: nat, o: Word)
    requires RouteSpec.Valid(sh.routes) && t != INVALID_CLIENT && t != sender && o == NextOutbound(sh)
    requires Key(sender, b.id) !in sh.routes.table && |sh.routes.table| < sh.routes.capacity
    ensures var k := Key(sender, b.id); var (sh', pc) := AddRoute(sh, sender, user, b, t);
            && sh'.registry == sh.registry && Held(sh', k, Forwarding(t, o, b.size, 0)) && !InUse(sh.routes.table, o)
            && pc == BeginPc(user, b, k, Endpoint(t, o))
  {
    AllocationSucceeds(sh.routes);
    AddValid(sh.routes, Key(sender, b.id), t, b.size, false);
  }

  /** From the lookup on, up to the queued BEGIN. */
  lemma OwnBeginRuns(sh: Shared, sender: nat, user: seq<Byte>, b: Begin, t: nat, o: Word)
    requires ValidPeer(user) && ValidBegin(b) && Room(sh.registry, t)
    requires var (sh', pc) := AddRoute(sh, sender, user, b, t);
             sh'.registry == sh.registry && pc == BeginPc(user, b, Key(sender, b.id), Endpoint(t, o))
    ensures var final := Run(sh, sender, user, LookedUp(b, t));
            && final.routes == AddRoute(sh, sender, user, b, t).0.routes && OneMore(sh.registry, final.registry, t)
            && Grew(Reg.Log(sh.registry, t), Reg.Log(final.registry, t), o, [BeginFrame(b.(id := o, peer := user))])
  {
    var k, b' := Key(sender, b.id), b.(id := o, peer := user);
    var (sh', pc) := AddRoute(sh, sender, user, b, t);
    assert pc == Emitting([Emission(t, BeginFrame(b'), ThenQuarantine(k))]);
    BeginMeaning(b');
    Forwarded(sh', sender, user, t, BeginFrame(b'), ThenQuarantine(k), o);
    assert Advance(sh, sender, user, LookedUp(b, t)) == (sh', pc);
  }

  lemma OwnBegin(sh: Shared, sender: nat, user: seq<Byte>, b: Begin, t: nat, o: Word)
    requires sender != INVALID_CLIENT && ValidPeer(user) && ValidBegin(b) && RouteSpec.Valid(sh.routes)
    requires t == Reg.Find(sh.registry, b.peer) && t != sender && Room(sh.registry, t) && o == NextOutbound(sh)
    requires Key(sender, b.id) !in sh.routes.table && |sh.routes.table| < sh.routes.capacity
    ensures var sh' := HandleFrame(sh, sender, user, Raw(BeginFrame(b)));
            && Held(sh', Key(sender, b.id), Forwarding(t, o, b.size, 0)) && !InUse(sh.routes.table, o)
            && OneMore(sh.registry, sh'.registry, t)
            && Grew(Reg.Log(sh.registry, t), Reg.Log(sh'.registry, t), o, [BeginFrame(b.(id := o, peer := user))])
  {
    OwnBeginDispatch(sh, sender, user, b);
    OwnBeginAdds(sh, sender, user, b, t, o);
    OwnBeginRuns(sh, sender, user, b, t, o);
  }

  // ----- CHUNK -----

  lemma OwnChunkDispatch(sh: Shared, sender: nat, user: seq<Byte>, c: Chunk, e: Entry)
    requires sender != INVALID_CLIENT && ValidChunk(c) && Held(sh, Key(sender, c.id), e)
    requires e.forwarded + |c.data| <= e.expected
    ensures var k := Key(sender, c.id); var (sh', pc) := Dispatch(sh, sender, user, Raw(ChunkFrame(c)));
            && sh'.registry == sh.registry && Held(sh', k, e.(forwarded := e.forwarded + |c.data|))
            && pc == Emitting([Emission(e.target, ChunkFrame(Chunk(e.outbound, c.data)), ThenMark(k, e.outbound))])
  {
    ChunkCodec(Raw(ChunkFrame(c)), c);
    AcceptChunkValid(sh.routes, Key(sender, c.id), |c.data|);
  }

  lemma OwnChunk(sh: Shared, sender: nat, user: seq<Byte>, c: Chunk, e: Entry)
    requires sender != INVALID_CLIENT && ValidChunk(c) && Held(sh, Key(sender, c.id), e)
    requires e.forwarded + |c.data| <= e.expected && Room(sh.registry, e.target)
    ensures var sh' := HandleFrame(sh, sender, user, Raw(ChunkFrame(c)));
            && Held(sh', Key(sender, c.id), e.(forwarded := e.forwarded + |c.data|))
            && OneMore(sh.registry, sh'.registry, e.target)
            && Grew(Reg.Log(sh.registry, e.target), Reg.Log(sh'.registry, e.target), e.outbound,
                    [ChunkFrame(Chunk(e.outbound, c.data))])
  {
    OwnChunkDispatch(sh, sender, user, c, e);
    ChunkMeaning(Chunk(e.outbound, c.data));
    Forwarded(Dispatch(sh, sender, user, Raw(ChunkFrame(c))).0, sender, user, e.target,
              ChunkFrame(Chunk(e.outbound, c.data)), ThenMark(Key(sender, c.id), e.outbound), e.outbound);
  }

  // ----- END -----

  lemma OwnEnd(sh: Shared, sender: nat, user: seq<Byte>, id: Word, e: Entry)
    requires sender != INVALID_CLIENT && Held(sh, Key(sender, id), e)
    requires e.forwarded == e.expected && Room(sh.registry, e.target)
    ensures var sh' := HandleFrame(sh, sender, user, Raw(EndFrame(id)));
            && sh'.routes == RouteSpec.Remove(sh.routes, Key(sender, id))
            && Grew(Reg.Log(sh.registry, e.target), Reg.Log(sh'.registry, e.target), e.outbound, [EndFrame(e.outbound)])
  {
    var raw := Raw(EndFrame(id));
    ControlCodec(raw, FILE_END, id);
    var (sh', pc) := Dispatch(sh, sender, user, raw);
    var f := EndFrame(e.outbound);
    assert pc == Emitting([Emission(e.target, f, ThenNotify)]);
    ErrorIsAbout(e.outbound, e.outbound);
    Forwarded(sh', sender, user, e.target, f, ThenNotify, e.outbound);
  }

  // ----- Other events -----

  /** Anything but a frame of transfer k and the departure of one of its endpoints. */
  ghost predicate Unrelated(ev: Serial.Event, k: Key, t: nat) {
    match ev
    case FileFrame(id, raw) => !NamesKey(id, raw, k)
    case Disconnect(id, _) => id != k.sender && id != t
    case _ => true
  }

  /** Steps that leave the routes and this log as they are. */
  lemma SameLogSpares(sh: Shared, sh': Shared, k: Key, e: Entry)
    requires Held(sh, k, e) && sh'.routes == sh.routes && Reg.Log(sh'.registry, e.target) == Reg.Log(sh.registry, e.target)
    ensures Spared(sh, sh', k, e, e.target)
  {
  }

  lemma JoinSpares(sys: System, name: seq<Byte>, t: nat)
    requires Reg.Valid(sys.sh.registry)
    ensures var sys' := Serial.Happen(sys, Serial.Join(name));
            sys'.sh.routes == sys.sh.routes && Reg.Log(sys'.sh.registry, t) == Reg.Log(sys.sh.registry, t)
  {
  }

  lemma QuietSpares(sys: System, ev: Serial.Event, t: nat)
    requires Serial.Possible(sys, ev) && (ev.Dequeue? || ev.NewKey?)
    ensures var sys' := Serial.Happen(sys, ev);
            sys'.sh.routes == sys.sh.routes && Reg.Log(sys'.sh.registry, t) == Reg.Log(sys.sh.registry, t)
  {
  }

  lemma OtherSpares(sys: System, to: nat, frame: Frame, k: Key, e: Entry)
    requires frame.kind > FILE_ERROR && Held(sys.sh, k, e)
    ensures Spared(sys.sh, Serial.Happen(sys, Serial.OtherFrame(to, frame)).sh, k, e, e.target)
  {
    QueueGrows(sys.sh.registry, to, frame, e.target, e.outbound);
  }

  lemma EventSpares(sys: System, ev: Serial.Event, k: Key, e: Entry)
    requires Reg.Valid(sys.sh.registry) && Serial.Possible(sys, ev) && Held(sys.sh, k, e) && Unrelated(ev, k, e.target)
    ensures Spared(sys.sh, Serial.Happen(sys, ev).sh, k, e, e.target)
  {
    match ev
    case FileFrame(id, raw) => HandleSpares(sys.sh, id, NameOf(sys, id), raw, k, e, e.target);
    case Disconnect(id, order) => DepartSpares(sys.sh, id, order, k, e, e.target);
    case OtherFrame(to, frame) => OtherSpares(sys, to, frame, k, e);
    case Join(name) =>
      JoinSpares(sys, name, e.target);
      SameLogSpares(sys.sh, Serial.Happen(sys, ev).sh, k, e);
    case _ =>
      QuietSpares(sys, ev, e.target);
      SameLogSpares(sys.sh, Serial.Happen(sys, ev).sh, k, e);
  }

  // ----- A whole transfer -----

  /** The events contain the given frames of transfer k in order, each at a moment when the
      target has room, and otherwise nothing that concerns the transfer; the last frame is
      the last event. */
  ghost predicate Carries(sys: System, events: seq<Serial.Event>, frames: seq<Frame>, k: Key, t: nat)
    requires Serial.AllPossible(sys, events)
    decreases |events|
  {
    if frames == [] then events == []
    else
      && events != []
      && var next := Serial.Happen(sys, events[0]);
         if events[0] == Serial.FileFrame(k.sender, Raw(frames[0]))
         then Room(sys.sh.registry, t) && Carries(next, events[1..], frames[1..], k, t)
         else Unrelated(events[0], k, t) && Carries(next, events[1..], frames, k, t)
  }

  lemma SenderSeated(sys: System, id: nat)
    requires Inv(sys) && In(sys, id, Serving(Idle))
    ensures id != INVALID_CLIENT && ValidPeer(NameOf(sys, id)) && RouteSpec.Valid(sys.sh.routes)
  {
    assert Seated(sys, id);
  }

  /** What is still to be sent of a transfer that has forwarded e.forwarded bytes. */
  ghost predicate Remainder(chunks: seq<seq<Byte>>, e: Entry)
    requires e.Forwarding?
  {
    && e.forwarded + |Joined(chunks)| == e.expected
    && (forall i :: 0 <= i < |chunks| ==> 0 < |chunks[i]| <= FILE_CHUNK_SIZE)
  }

  lemma RestCons(x: Word, chunks: seq<seq<Byte>>)
    requires chunks != []
    ensures Rest(x, chunks) == [Frame(FILE_CHUNK, ChunkPayload(Chunk(x, chunks[0])))] + Rest(x, chunks[1..])
    ensures Rest(x, chunks)[1..] == Rest(x, chunks[1..])
  {
    HeadAndTail(Frame(FILE_CHUNK, ChunkPayload(Chunk(x, chunks[0]))), Rest(x, chunks[1..]));
    assert Rest(x, chunks) == [Frame(FILE_CHUNK, ChunkPayload(Chunk(x, chunks[0])))] + Rest(x, chunks[1..]);
  }

  ghost function LogOf(sys: System, t: nat): seq<Frame> {
    Reg.Log(sys.sh.registry, t)
  }

  lemma OtherStep(sys: System, ev: Serial.Event, k: Key, e: Entry, final: seq<Frame>, added: seq<Frame>)
    requires Reg.Valid(sys.sh.registry) && Serial.Possible(sys, ev) && Held(sys.sh, k, e) && Unrelated(ev, k, e.target)
    ensures Held(Serial.Happen(sys, ev).sh, k, e)
    ensures Grew(LogOf(Serial.Happen(sys, ev), e.target), final, e.outbound, added) ==>
            Grew(LogOf(sys, e.target), final, e.outbound, added)
  {
    EventSpares(sys, ev, k, e);
    var next := LogOf(Serial.Happen(sys, ev), e.target);
    if Grew(next, final, e.outbound, added) {
      GrewTwice(LogOf(sys, e.target), next, final, e.outbound, [], added);
      assert [] + added == added;
    }
  }

  lemma ChunkStep(sys: System, ev: Serial.Event, sender: nat, c: Chunk, e: Entry, final: seq<Frame>, added: seq<Frame>)
    requires sender != INVALID_CLIENT && Serial.Possible(sys, ev) && ValidChunk(c) && ev == Serial.FileFrame(sender, Raw(ChunkFrame(c)))
    requires Held(sys.sh, Key(sender, c.id), e) && e.forwarded + |c.data| <= e.expected && Room(sys.sh.registry, e.target)
    ensures Held(Serial.Happen(sys, ev).sh, Key(sender, c.id), e.(forwarded := e.forwarded + |c.data|))
    ensures Grew(LogOf(Serial.Happen(sys, ev), e.target), final, e.outbound, added) ==>
            Grew(LogOf(sys, e.target), final, e.outbound, [ChunkFrame(Chunk(e.outbound, c.data))] + added)
  {
    OwnChunk(sys.sh, sender, NameOf(sys, sender), c, e);
    var next := LogOf(Serial.Happen(sys, ev), e.target);
    if Grew(next, final, e.outbound, added) {
      GrewTwice(LogOf(sys, e.target), next, final, e.outbound, [ChunkFrame(Chunk(e.outbound, c.data))], added);
    }
  }

  /** The registry is well formed at every moment of the run. */
  ghost predicate Sound(sys: System, events: seq<Serial.Event>)
    requires Serial.AllPossible(sys, events)
    decreases |events|
  {
    Reg.Valid(sys.sh.registry) && (events != [] ==> Sound(Serial.Happen(sys, events[0]), events[1..]))
  }

  lemma {:induction false} EventsAreSound(sys: System, events: seq<Serial.Event>)
    requires Inv(sys) && Quiet(sys) && Serial.AllPossible(sys, events)
    ensures Sound(sys, events)
    decreases |events|
  {
    if events != [] {
      Serial.EventKeepsInvariant(sys, events[0]);
      Serial.EventStaysQuiet(sys, events[0]);
      EventsAreSound(Serial.Happen(sys, events[0]), events[1..]);
    }
  }

  lemma {:induction false} CarriesRest(sys: System, events: seq<Serial.Event>, chunks: seq<seq<Byte>>, sender: nat, x: Word, e: Entry)
    requires sender != INVALID_CLIENT && Serial.AllPossible(sys, events) && Sound(sys, events)
    requires Held(sys.sh, Key(sender, x), e) && Remainder(chunks, e)
    requires Carries(sys, events, Rest(x, chunks), Key(sender, x), e.target)
    ensures Grew(LogOf(sys, e.target), LogOf(Serial.Outcome(sys, events), e.target), e.outbound, Rest(e.outbound, chunks))
    decreases |events|
  {
    var k, next := Key(sender, x), Serial.Happen(sys, events[0]);
    var final := LogOf(Serial.Outcome(sys, events), e.target);
    if events[0] != Serial.FileFrame(sender, Raw(Rest(x, chunks)[0])) {
      OtherStep(sys, events[0], k, e, final, Rest(e.outbound, chunks));
      CarriesRest(next, events[1..], chunks, sender, x, e);
    } else if chunks == [] {
      CarriesEnd(sys, events, sender, x, e);
    } else {
      RestCons(x, chunks);
      CarriesChunk(sys, events[0], chunks, sender, x, e, final);
      CarriesRest(next, events[1..], chunks[1..], sender, x, e.(forwarded := e.forwarded + |chunks[0]|));
    }
  }

  /** The first of the remaining chunks. */
  lemma CarriesChunk(sys: System, ev: Serial.Event, chunks: seq<seq<Byte>>, sender: nat, x: Word, e: Entry, final: seq<Frame>)
    requires sender != INVALID_CLIENT && Serial.Possible(sys, ev) && Held(sys.sh, Key(sender, x), e)
    requires chunks != [] && Remainder(chunks, e) && Room(sys.sh.registry, e.target)
    requires ev == Serial.FileFrame(sender, Raw(Rest(x, chunks)[0]))
    ensures var e' := e.(forwarded := e.forwarded + |chunks[0]|);
            Held(Serial.Happen(sys, ev).sh, Key(sender, x), e') && Remainder(chunks[1..], e')
    ensures Grew(LogOf(Serial.Happen(sys, ev), e.target), final, e.outbound, Rest(e.outbound, chunks[1..])) ==>
            Grew(LogOf(sys, e.target), final, e.outbound, Rest(e.outbound, chunks))
  {
    RestCons(x, chunks);
    RestCons(e.outbound, chunks);
    ChunkStep(sys, ev, sender, Chunk(x, chunks[0]), e, final, Rest(e.outbound, chunks[1..]));
  }

  lemma CarriesEnd(sys: System, events: seq<Serial.Event>, sender: nat, x: Word, e: Entry)
    requires sender != INVALID_CLIENT && Serial.AllPossible(sys, events) && Held(sys.sh, Key(sender, x), e)
    requires e.forwarded == e.expected && Room(sys.sh.registry, e.target)
    requires events == [Serial.FileFrame(sender, Raw(EndFrame(x)))]
    ensures Grew(LogOf(sys, e.target), LogOf(Serial.Outcome(sys, events), e.target), e.outbound, Rest(e.outbound, []))
  {
    OwnEnd(sys.sh, sender, NameOf(sys, sender), x, e);
    assert events[1..] == [];
    assert Serial.Outcome(sys, events) == Serial.Happen(sys, events[0]);
    assert Rest(e.outbound, []) == [EndFrame(e.outbound)];
  }

  /** From a state with a fresh source id, a free slot and a reachable target: whatever
      else happens in between, the target is queued exactly the sender's frames, under one
      outbound id that no live route used, with the sender's login name as the peer. */
  lemma RelayCarriesTransfer(sys: System, events: seq<Serial.Event>, sender: nat, x: Word, recipient: seq<Byte>,
                             filename: seq<Byte>, envelope: seq<Byte>, t: nat, o: Word)
    requires Inv(sys) && Quiet(sys) && Serial.AllPossible(sys, events)
    requires ValidPeer(recipient) && ValidFilename(filename) && |envelope| < TWO64
    requires Key(sender, x) !in sys.sh.routes.table && |sys.sh.routes.table| < sys.sh.routes.capacity
    requires t == Reg.Find(sys.sh.registry, recipient) && t != sender && o == NextOutbound(sys.sh)
    requires Carries(sys, events, TransferFrames(x, recipient, filename, envelope), Key(sender, x), t)
    requires events[0] == Serial.FileFrame(sender, Raw(TransferFrames(x, recipient, filename, envelope)[0]))
    ensures ValidPeer(NameOf(sys, sender)) && !InUse(sys.sh.routes.table, o)
    ensures Grew(LogOf(sys, t), LogOf(Serial.Outcome(sys, events), t), o,
                 TransferFrames(o, NameOf(sys, sender), filename, envelope))
  {
    EventsAreSound(sys, events);
    SenderSeated(sys, sender);
    CarriesAll(sys, events, sender, x, recipient, filename, envelope, t, o);
  }

  /** The same from what the steps need of the invariant. */
  lemma CarriesAll(sys: System, events: seq<Serial.Event>, sender: nat, x: Word, recipient: seq<Byte>,
                   filename: seq<Byte>, envelope: seq<Byte>, t: nat, o: Word)
    requires sender != INVALID_CLIENT && ValidPeer(NameOf(sys, sender)) && RouteSpec.Valid(sys.sh.routes)
    requires Serial.AllPossible(sys, events) && Sound(sys, events)
    requires ValidPeer(recipient) && ValidFilename(filename) && |envelope| < TWO64
    requires Key(sender, x) !in sys.sh.routes.table && |sys.sh.routes.table| < sys.sh.routes.capacity
    requires t == Reg.Find(sys.sh.registry, recipient) && t != sender && o == NextOutbound(sys.sh)
    requires Carries(sys, events, TransferFrames(x, recipient, filename, envelope), Key(sender, x), t)
    requires events[0] == Serial.FileFrame(sender, Raw(TransferFrames(x, recipient, filename, envelope)[0]))
    ensures !InUse(sys.sh.routes.table, o)
    ensures Grew(LogOf(sys, t), LogOf(Serial.Outcome(sys, events), t), o,
                 TransferFrames(o, NameOf(sys, sender), filename, envelope))
  {
    var begin := Begin(x, |envelope|, recipient, filename);
    var name, rest := NameOf(sys, sender), Rest(o, Cut(envelope));
    TransferParts(x, recipient, filename, envelope);
    TransferParts(o, name, filename, envelope);
    BeginStep(sys, events[0], sender, begin, t, o, LogOf(Serial.Outcome(sys, events), t), rest);
    CutIsExact(envelope);
    CarriesRest(Serial.Happen(sys, events[0]), events[1..], Cut(envelope), sender, x, Forwarding(t, o, |envelope|, 0));
  }

  lemma TransferParts(x: Word, peer: seq<Byte>, filename: seq<Byte>, envelope: seq<Byte>)
    requires ValidPeer(peer) && ValidFilename(filename) && |envelope| < TWO64
    ensures var frames := TransferFrames(x, peer, filename, envelope);
            && frames[0] == BeginFrame(Begin(x, |envelope|, peer, filename))
            && frames[1..] == Rest(x, Cut(envelope))
  {
    HeadAndTail(BeginFrame(Begin(x, |envelope|, peer, filename)), Rest(x, Cut(envelope)));
  }

  lemma HeadAndTail<T>(head: T, tail: seq<T>)
    ensures ([head] + tail)[0] == head && ([head] + tail)[1..] == tail
  {
  }

  lemma BeginStep(sys: System, ev: Serial.Event, sender: nat, b: Begin, t: nat, o: Word, final: seq<Frame>, added: seq<Frame>)
    requires sender != INVALID_CLIENT && ValidPeer(NameOf(sys, sender)) && RouteSpec.Valid(sys.sh.routes)
    requires Serial.Possible(sys, ev) && ValidBegin(b) && ev == Serial.FileFrame(sender, Raw(BeginFrame(b)))
    requires t == Reg.Find(sys.sh.registry, b.peer) && t != sender && o == NextOutbound(sys.sh) && Room(sys.sh.registry, t)
    requires Key(sender, b.id) !in sys.sh.routes.table && |sys.sh.routes.table| < sys.sh.routes.capacity
    ensures !InUse(sys.sh.routes.table, o)
    ensures Held(Serial.Happen(sys, ev).sh, Key(sender, b.id), Forwarding(t, o, b.size, 0))
    ensures Grew(LogOf(Serial.Happen(sys, ev), t), final, o, added) ==>
            Grew(LogOf(sys, t), final, o, [BeginFrame(b.(id := o, peer := NameOf(sys, sender)))] + added)
  {
    OwnBegin(sys.sh, sender, NameOf(sys, sender), b, t, o);
    var next := LogOf(Serial.Happen(sys, ev), t);
    if Grew(next, final, o, added) {
      GrewTwice(LogOf(sys, t), next, final, o, [BeginFrame(b.(id := o, peer := NameOf(sys, sender)))], added);
    }
  }

  // ----- Such runs exist for every file -----

  /** The sender's frames, with the target's worker taking a frame after each but the last. */
  function Alternating(sender: nat, t: nat, frames: seq<Frame>): seq<Serial.Event> {
    if frames == [] then []
    else if |frames| == 1 then [Serial.FileFrame(sender, Raw(frames[0]))]
    else [Serial.FileFrame(sender, Raw(frames[0])), Serial.Dequeue(t)] + Alternating(sender, t, frames[1..])
  }

  lemma AlternatingHead(sender: nat, t: nat, frames: seq<Frame>)
    requires |frames| > 1
    ensures var events := Alternating(sender, t, frames);
            && |events| > 2 && events[0] == Serial.FileFrame(sender, Raw(frames[0])) && events[1] == Serial.Dequeue(t)
            && events[1..][1..] == Alternating(sender, t, frames[1..])
  {
    var first, rest := [Serial.FileFrame(sender, Raw(frames[0])), Serial.Dequeue(t)], Alternating(sender, t, frames[1..]);
    assert (first + rest)[1..][1..] == rest;
  }

  /** The target has room and has not overflowed. */
  ghost predicate Roomy(r: Reg.Registry, t: nat) {
    Room(r, t) && !r.clients[t].failed
  }

  lemma RoomAgain(r: Reg.Registry, r': Reg.Registry, t: nat)
    requires Roomy(r, t) && OneMore(r, r', t)
    ensures Roomy(Reg.Take(r', t).0, t)
  {
  }

  /** One frame of the transfer and the dequeue that follows it. */
  lemma AlternatingChunk(sys: System, sender: nat, c: Chunk, e: Entry)
    requires In(sys, sender, Serving(Idle)) && sender != INVALID_CLIENT && ValidChunk(c) && Held(sys.sh, Key(sender, c.id), e)
    requires e.forwarded + |c.data| <= e.expected && Roomy(sys.sh.registry, e.target)
    ensures var next := Serial.Happen(sys, Serial.FileFrame(sender, Raw(ChunkFrame(c))));
            var after := Serial.Happen(next, Serial.Dequeue(e.target));
            && after.phases == sys.phases && Roomy(after.sh.registry, e.target)
            && Held(after.sh, Key(sender, c.id), e.(forwarded := e.forwarded + |c.data|))
  {
    OwnChunk(sys.sh, sender, NameOf(sys, sender), c, e);
    var next := Serial.Happen(sys, Serial.FileFrame(sender, Raw(ChunkFrame(c))));
    RoomAgain(sys.sh.registry, next.sh.registry, e.target);
    Dequeues(next, e.target);
  }

  ghost predicate PossiblyCarries(sys: System, events: seq<Serial.Event>, frames: seq<Frame>, k: Key, t: nat) {
    Serial.AllPossible(sys, events) && Carries(sys, events, frames, k, t)
  }

  lemma AlternatingOne(sys: System, k: Key, t: nat, frames: seq<Frame>)
    requires |frames| > 1 && In(sys, k.sender, Serving(Idle)) && Room(sys.sh.registry, t)
    requires var next := Serial.Happen(sys, Serial.FileFrame(k.sender, Raw(frames[0])));
             PossiblyCarries(Serial.Happen(next, Serial.Dequeue(t)), Alternating(k.sender, t, frames[1..]), frames[1..], k, t)
    ensures PossiblyCarries(sys, Alternating(k.sender, t, frames), frames, k, t)
  {
    var events := Alternating(k.sender, t, frames);
    var next := Serial.Happen(sys, Serial.FileFrame(k.sender, Raw(frames[0])));
    AlternatingHead(k.sender, t, frames);
    assert events[1..][0] == Serial.Dequeue(t);
    assert Serial.AllPossible(next, events[1..]);
    assert Carries(next, events[1..], frames[1..], k, t);
  }

  lemma Dequeues(sys: System, t: nat)
    ensures Serial.Happen(sys, Serial.Dequeue(t)) == System(sys.sh.(registry := Reg.Take(sys.sh.registry, t).0), sys.phases)
  {
  }

  lemma {:induction false} AlternatingRest(sys: System, sender: nat, x: Word, chunks: seq<seq<Byte>>, e: Entry)
    requires In(sys, sender, Serving(Idle)) && sender != INVALID_CLIENT && Held(sys.sh, Key(sender, x), e)
    requires Remainder(chunks, e) && Roomy(sys.sh.registry, e.target)
    ensures PossiblyCarries(sys, Alternating(sender, e.target, Rest(x, chunks)), Rest(x, chunks), Key(sender, x), e.target)
    decreases |chunks|
  {
    var frames := Rest(x, chunks);
    if chunks == [] {
      assert frames[1..] == [] && Alternating(sender, e.target, frames)[1..] == [];
    } else {
      RestCons(x, chunks);
      AlternatingChunk(sys, sender, Chunk(x, chunks[0]), e);
      var next := Serial.Happen(sys, Serial.FileFrame(sender, Raw(frames[0])));
      AlternatingRest(Serial.Happen(next, Serial.Dequeue(e.target)), sender, x, chunks[1..],
                      e.(forwarded := e.forwarded + |chunks[0]|));
      AlternatingOne(sys, Key(sender, x), e.target, frames);
    }
  }

  lemma AlternatingBegin(sys: System, sender: nat, b: Begin, t: nat, o: Word)
    requires sender != INVALID_CLIENT && ValidPeer(NameOf(sys, sender)) && RouteSpec.Valid(sys.sh.routes)
    requires In(sys, sender, Serving(Idle)) && ValidBegin(b) && o == NextOutbound(sys.sh)
    requires t == Reg.Find(sys.sh.registry, b.peer) && t != sender && Roomy(sys.sh.registry, t)
    requires Key(sender, b.id) !in sys.sh.routes.table && |sys.sh.routes.table| < sys.sh.routes.capacity
    ensures var next := Serial.Happen(sys, Serial.FileFrame(sender, Raw(BeginFrame(b))));
            var after := Serial.Happen(next, Serial.Dequeue(t));
            && after.phases == sys.phases && Roomy(after.sh.registry, t)
            && Held(after.sh, Key(sender, b.id), Forwarding(t, o, b.size, 0))
  {
    OwnBegin(sys.sh, sender, NameOf(sys, sender), b, t, o);
    var next := Serial.Happen(sys, Serial.FileFrame(sender, Raw(BeginFrame(b))));
    RoomAgain(sys.sh.registry, next.sh.registry, t);
    Dequeues(next, t);
  }

  /** For every file: when the target has room for one frame and its worker takes one after
      each, the run carries the transfer, so what RelayCarriesTransfer assumes can be met
      at every size. */
  lemma AlternatingCarries(sys: System, sender: nat, x: Word, recipient: seq<Byte>, filename: seq<Byte>, envelope: seq<Byte>, t: nat)
    requires Inv(sys) && In(sys, sender, Serving(Idle))
    requires ValidPeer(recipient) && ValidFilename(filename) && |envelope| < TWO64
    requires Key(sender, x) !in sys.sh.routes.table && |sys.sh.routes.table| < sys.sh.routes.capacity
    requires t == Reg.Find(sys.sh.registry, recipient) && t != sender && Roomy(sys.sh.registry, t)
    ensures var frames := TransferFrames(x, recipient, filename, envelope);
            var events := Alternating(sender, t, frames);
            && Serial.AllPossible(sys, events) && Carries(sys, events, frames, Key(sender, x), t)
            && events != [] && events[0] == Serial.FileFrame(sender, Raw(frames[0]))
  {
    var frames := TransferFrames(x, recipient, filename, envelope);
    var begin, o := Begin(x, |envelope|, recipient, filename), NextOutbound(sys.sh);
    SenderSeated(sys, sender);
    TransferParts(x, recipient, filename, envelope);
    CutIsExact(envelope);
    AlternatingBegin(sys, sender, begin, t, o);
    var next := Serial.Happen(sys, Serial.FileFrame(sender, Raw(BeginFrame(begin))));
    AlternatingRest(Serial.Happen(next, Serial.Dequeue(t)), sender, x, Cut(envelope), Forwarding(t, o, |envelope|, 0));
    AlternatingOne(sys, Key(sender, x), t, frames);
    AlternatingHead(sender, t, frames);
  }

  // ----- Runs in which the sender sends nothing else -----

  /** The file frames of one client, in the order in which they are handled. */
  function OwnFrames(events: seq<Serial.Event>, sender: nat): seq<seq<Byte>> {
    if events == [] then []
    else (if events[0].FileFrame? && events[0].id == sender then [events[0].raw] else []) + OwnFrames(events[1..], sender)
  }

  function Raws(frames: seq<Frame>): seq<seq<Byte>> {
    if frames == [] then [] else [Raw(frames[0])] + Raws(frames[1..])
  }

  /** Both ends stay connected, and the target has room whenever the sender's frames are handled. */
  ghost predicate Favourable(sys: System, events: seq<Serial.Event>, sender: nat, t: nat)
    requires Serial.AllPossible(sys, events)
    decreases |events|
  {
    events != [] ==>
      && (events[0].FileFrame? && events[0].id == sender ==> Room(sys.sh.registry, t))
      && (events[0].Disconnect? ==> events[0].id != sender && events[0].id != t)
      && Favourable(Serial.Happen(sys, events[0]), events[1..], sender, t)
  }

  ghost predicate EndsWith(events: seq<Serial.Event>, sender: nat) {
    events != [] ==> events[|events| - 1].FileFrame? && events[|events| - 1].id == sender
  }

  lemma {:induction false} LastIsOwn(events: seq<Serial.Event>, sender: nat)
    requires events != [] && EndsWith(events, sender)
    ensures OwnFrames(events, sender) != []
  {
    if |events| > 1 {
      LastIsOwn(events[1..], sender);
    }
  }

  /** If the frames handled for the sender are those of the transfer, the run carries it. */
  lemma {:induction false} FavourableCarries(sys: System, events: seq<Serial.Event>, frames: seq<Frame>, k: Key, t: nat)
    requires Serial.AllPossible(sys, events) && Favourable(sys, events, k.sender, t) && EndsWith(events, k.sender)
    requires OwnFrames(events, k.sender) == Raws(frames)
    ensures Carries(sys, events, frames, k, t)
    decreases |events|
  {
    if events != [] {
      LastIsOwn(events, k.sender);
      var next := Serial.Happen(sys, events[0]);
      if events[0].FileFrame? && events[0].id == k.sender {
        assert OwnFrames(events, k.sender)[0] == Raw(frames[0]);
        assert OwnFrames(events, k.sender)[1..] == OwnFrames(events[1..], k.sender) && Raws(frames)[1..] == Raws(frames[1..]);
        FavourableCarries(next, events[1..], frames[1..], k, t);
      } else {
        FavourableCarries(next, events[1..], frames, k, t);
      }
    }
  }
}
