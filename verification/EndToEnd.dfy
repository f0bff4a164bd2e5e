/** From the sender's disk to the receiver's download directory. */
module EndToEnd {
  import opened Bytes
  import opened FileProtocol
  import opened FileCrypto
  import opened RouteSpec
  import opened Sessions
  import opened Relay
  import opened RelayRuns
  import opened Sender
  import opened RelayTransfer
  import opened RelayCarries
  import opened InboxTransfer
  import Serial = SerialRelay
  import Inbox = InboxSpec
  import Client = InboxRuns
  import Reg = RegistrySpec
  import Framing
  import Work = WorkerRuns
  import Wires = WorkerTheorems

  /** An outbound id that no live route uses is not under way at any receiver either. */
  lemma UnusedIsInactive(sys: System, t: nat, o: Word, capacity: nat, files: map<Inbox.Name, seq<Byte>>,
                         run: seq<Client.Delivery>, box: Box, secret: Secret)
    requires Inv(sys) && Quiet(sys) && Reg.Accepting(sys.sh.registry, t) && !InUse(sys.sh.routes.table, o)
    requires Lawful(box) && Inbox.Valid(Inbox.Start(capacity, files))
    requires Client.Legal(Inbox.Start(capacity, files), run, box, secret) && Client.Frames(run) == LogOf(sys, t)
    ensures o !in Client.After(Inbox.Start(capacity, files), run, box, secret).active
  {
    var b := Client.After(Inbox.Start(capacity, files), run, box, secret);
    assert [] + Client.Frames(run) == Client.Frames(run);
    assert NoStray(sys, t, o);
    Client.RunFollows(Inbox.Start(capacity, files), run, box, secret, o, []);
    if o in b.active {
      var i := b.active[o];
      QuietSessionsAreRoutes(sys, t, o, i.expected, i.received);
    }
  }

  lemma TailProjection(log: seq<Frame>, log': seq<Frame>, o: Word, added: seq<Frame>)
    requires Grew(log, log', o, added)
    ensures Project(log'[|log|..], o) == added
  {
    assert log' == log + log'[|log|..];
    ProjectConcat(log, log'[|log|..], o);
    assert (Project(log, o) + added)[|Project(log, o)|..] == added;
    assert (Project(log, o) + Project(log'[|log|..], o))[|Project(log, o)|..] == Project(log'[|log|..], o);
  }

  /** What the transfer needs of the server when it begins. */
  ghost predicate CanStart(sys: System, sender: nat, x: Word, recipient: seq<Byte>, t: nat) {
    && Key(sender, x) !in sys.sh.routes.table && |sys.sh.routes.table| < sys.sh.routes.capacity
    && t == Reg.Find(sys.sh.registry, recipient) && t != sender
  }

  /** The server has come to this state. */
  ghost predicate Reached(clients: nat, routes: Capacity, before: seq<Serial.Event>, sys: System) {
    Serial.AllPossible(Start(clients, routes), before) && sys == Serial.Outcome(Start(clients, routes), before)
  }

  /** The client handles `earlier`, which takes it to b, and then `later`, during which no
      system call fails the transfer with id o. */
  ghost predicate Receives(start: Inbox.Inbox, earlier: seq<Client.Delivery>, b: Inbox.Inbox, later: seq<Client.Delivery>,
                           box: Box, secret: Secret, o: Word, name: Inbox.Name) {
    && Lawful(box) && Inbox.Valid(start) && Client.Legal(start, earlier, box, secret)
    && b == Client.After(start, earlier, box, secret) && Client.Legal(b, later, box, secret)
    && SmoothRun(b, later, box, secret, o, name)
  }

  /** A sendable file, and the frames that carry it from one secret key to the other. */
  ghost predicate SentAs(box: Box, x: Word, recipient: seq<Byte>, path: seq<Byte>, data: seq<Byte>, nonce: seq<Byte>,
                         mine: Secret, theirs: Secret, sent: seq<Frame>) {
    && Lawful(box) && |nonce| == NONCE_SIZE && Sendable(box, recipient, path, data, nonce, box.publicKey(theirs), mine)
    && sent == Carriers(box, x, recipient, path, data, nonce, box.publicKey(theirs), mine)
  }

  lemma SentParts(box: Box, x: Word, recipient: seq<Byte>, path: seq<Byte>, data: seq<Byte>, nonce: seq<Byte>,
                  mine: Secret, theirs: Secret, sent: seq<Frame>) returns (e: seq<Byte>)
    requires SentAs(box, x, recipient, path, data, nonce, mine, theirs, sent)
    ensures ValidPeer(recipient) && ValidFilename(LastPart(path)) && |e| < TWO64
    ensures sent == TransferFrames(x, recipient, LastPart(path), e)
    ensures AcceptableSize(LastPart(path), |e|) && OpenEnvelope(box, LastPart(path), e, theirs) == Some(data)
    ensures Transfer(box, x, recipient, path, Regular(|data|, data, true), nonce, box.publicKey(theirs), mine) == Some(sent)
  {
    e := Envelope(box, LastPart(path), data, nonce, box.publicKey(theirs), mine).value;
    EnvelopeRoundTrip(box, LastPart(path), data, nonce, mine, theirs);
    SendsExactly(box, x, recipient, path, Regular(|data|, data, true), nonce, box.publicKey(theirs), mine);
  }

  /** For every history of the server and of the receiving client: a file of at most 16 MiB
      sent under a fresh source id, with a free slot and a target that always has room,
      mixed with any other events at the server and any other frames at the client, is
      saved by the client with exactly the sender's bytes. */
  lemma FileArrives(clients: nat, routes: Capacity, before: seq<Serial.Event>, events: seq<Serial.Event>,
                    sys: System, sender: nat, x: Word, recipient: seq<Byte>, path: seq<Byte>, data: seq<Byte>, t: nat,
                    box: Box, nonce: seq<Byte>, mine: Secret, theirs: Secret, sent: seq<Frame>,
                    b: Inbox.Inbox, capacity: nat, files: map<Inbox.Name, seq<Byte>>,
                    earlier: seq<Client.Delivery>, later: seq<Client.Delivery>)
    requires SentAs(box, x, recipient, path, data, nonce, mine, theirs, sent)
    requires Reached(clients, routes, before, sys)
    requires CanStart(sys, sender, x, recipient, t) && CarriesFrom(sys, events, sent, Key(sender, x), t)
    requires Client.Frames(earlier) == LogOf(sys, t)
    requires Client.Frames(earlier) + Client.Frames(later) == LogOf(Serial.Outcome(sys, events), t)
    requires Receives(Inbox.Start(capacity, files), earlier, b, later, box, theirs, NextOutbound(sys.sh), LastPart(path))
    ensures Transfer(box, x, recipient, path, Regular(|data|, data, true), nonce, box.publicKey(theirs), mine) == Some(sent)
    ensures var b' := Client.After(b, later, box, theirs); LastPart(path) in b'.files && b'.files[LastPart(path)] == data
  {
    var name, o := LastPart(path), NextOutbound(sys.sh);
    var e := SentParts(box, x, recipient, path, data, nonce, mine, theirs, sent);
    TransferReachesTheLog(clients, routes, before, events, sys, sender, x, recipient, name, e, t, Client.Frames(later));
    UnusedIsInactive(sys, t, o, capacity, files, earlier, box, theirs);
    TransferIsReceived(b, later, box, theirs, o, NameOf(sys, sender), name, e, data);
  }

  /** The events begin with the first frame of the transfer and carry it to the end. */
  ghost predicate CarriesFrom(sys: System, events: seq<Serial.Event>, frames: seq<Frame>, k: Key, t: nat) {
    && Serial.AllPossible(sys, events) && events != [] && frames != [] && Carries(sys, events, frames, k, t)
    && events[0] == Serial.FileFrame(k.sender, Raw(frames[0]))
  }

  /** What was queued to the target during the run contains exactly the transfer, renamed. */
  lemma TransferReachesTheLog(clients: nat, routes: Capacity, before: seq<Serial.Event>, events: seq<Serial.Event>, sys: System,
                              sender: nat, x: Word, recipient: seq<Byte>, name: seq<Byte>, e: seq<Byte>, t: nat, later: seq<Frame>)
    requires Reached(clients, routes, before, sys)
    requires ValidPeer(recipient) && ValidFilename(name) && |e| < TWO64 && CanStart(sys, sender, x, recipient, t)
    requires CarriesFrom(sys, events, TransferFrames(x, recipient, name, e), Key(sender, x), t)
    requires LogOf(sys, t) + later == LogOf(Serial.Outcome(sys, events), t)
    ensures Inv(sys) && Quiet(sys) && Reg.Accepting(sys.sh.registry, t) && !InUse(sys.sh.routes.table, NextOutbound(sys.sh))
    ensures ValidPeer(NameOf(sys, sender))
    ensures Project(later, NextOutbound(sys.sh)) == TransferFrames(NextOutbound(sys.sh), NameOf(sys, sender), name, e)
  {
    var o := NextOutbound(sys.sh);
    StartInvariant(clients, routes);
    Serial.EventsKeepInvariant(Start(clients, routes), before);
    RelayCarriesTransfer(sys, events, sender, x, recipient, name, e, t, o);
    TailProjection(LogOf(sys, t), LogOf(Serial.Outcome(sys, events), t), o, TransferFrames(o, NameOf(sys, sender), name, e));
    assert later == (LogOf(sys, t) + later)[|LogOf(sys, t)|..];
  }

  // ----- Over both wires -----

  /** The file frames among the frames of a connection. */
  function FileRaws(frames: seq<Frame>): seq<seq<Byte>> {
    if frames == [] then []
    else (if frames[0].kind <= FILE_ERROR then [Raw(frames[0])] else []) + FileRaws(frames[1..])
  }

  lemma {:induction false} FileRawsConcat(a: seq<Frame>, b: seq<Frame>)
    ensures FileRaws(a + b) == FileRaws(a) + FileRaws(b)
  {
    if a == [] {
      assert a + b == b;
    } else {
      var first := if a[0].kind <= FILE_ERROR then [Raw(a[0])] else [];
      FileRawsConcat(a[1..], b);
      assert (a + b)[1..] == a[1..] + b && (a + b)[0] == a[0];
      Framing.Regroup(first, FileRaws(a[1..]), FileRaws(b));
    }
  }

  lemma {:induction false} AllFileRaws(frames: seq<Frame>)
    requires forall i :: 0 <= i < |frames| ==> frames[i].kind <= FILE_ERROR
    ensures FileRaws(frames) == Raws(frames)
  {
    if frames != [] {
      AllFileRaws(frames[1..]);
    }
  }

  lemma {:induction false} ChunkFramesFit(x: Word, chunks: seq<seq<Byte>>)
    requires forall i :: 0 <= i < |chunks| ==> |chunks[i]| <= FILE_CHUNK_SIZE
    ensures forall i :: 0 <= i < |chunks| ==> ChunkFrames(x, chunks)[i].kind == FILE_CHUNK && Fits(ChunkFrames(x, chunks)[i])
  {
    if chunks != [] {
      ChunkFramesFit(x, chunks[1..]);
    }
  }

  /** The frames of a transfer are file frames that fit. */
  lemma TransferFits(x: Word, recipient: seq<Byte>, filename: seq<Byte>, envelope: seq<Byte>)
    requires ValidPeer(recipient) && ValidFilename(filename) && |envelope| < TWO64
    ensures var frames := TransferFrames(x, recipient, filename, envelope);
            Framing.AllFit(frames) && FileRaws(frames) == Raws(frames)
  {
    var frames := TransferFrames(x, recipient, filename, envelope);
    CutIsExact(envelope);
    ChunkFramesFit(x, Cut(envelope));
    forall i | 0 <= i < |frames| ensures Fits(frames[i]) && frames[i].kind <= FILE_ERROR {
      assert 0 < i < |frames| - 1 ==> frames[i] == ChunkFrames(x, Cut(envelope))[i - 1];
    }
    AllFileRaws(frames);
  }

  /** The sender's client wrote `pre` and then `sent`; the server's worker has read all of it
      and handled its file frames in `before` and `events`. */
  ghost predicate Uplink(up: Work.State, sender: nat, run: seq<Work.Step>, pre: seq<Frame>, sent: seq<Frame>,
                         before: seq<Serial.Event>, events: seq<Serial.Event>) {
    && Work.Initial(up, sender) && Work.Inv(up, sender) && Work.Legal(up, sender, run) && Framing.AllFit(pre)
    && Work.After(up, sender, run).consumed == Framing.WireAll(pre + sent)
    && OwnFrames(before, sender) + OwnFrames(events, sender) == FileRaws(Work.After(up, sender, run).frames)
    && |OwnFrames(before, sender)| == |FileRaws(pre)|
  }

  /** The target's worker has written all it was given, and the target's client has decoded it. */
  ghost predicate Downlink(down: Work.State, t: nat, run: seq<Work.Step>, log: seq<Frame>, earlier: seq<Frame>, later: seq<Frame>) {
    && Work.Initial(down, t) && Work.Inv(down, t) && Work.Legal(down, t, run)
    && Drained(Work.After(down, t, run), t, log)
    && earlier + later == Framing.DecodeAll(Work.After(down, t, run).written).frames
  }

  ghost predicate Drained(d: Work.State, t: nat, log: seq<Frame>) {
    && t in d.registry.clients && Reg.Log(d.registry, t) == log
    && d.io.outgoing == [] && d.registry.clients[t].queue == []
  }

  lemma SameTail<T>(a: seq<T>, b: seq<T>, c: seq<T>, d: seq<T>)
    requires a + b == c + d && |a| == |c|
    ensures a == c && b == d
  {
    assert a == (a + b)[..|a|] && b == (a + b)[|a|..] && c == (c + d)[..|c|] && d == (c + d)[|c|..];
  }

  /** What the server's worker has read of the sender's stream, it has dispatched. */
  lemma AllDispatched(s: Work.State, me: nat, run: seq<Work.Step>, sent: seq<Frame>)
    requires Work.Initial(s, me) && Framing.AllFit(sent) && Work.Inv(s, me) && Work.Legal(s, me, run)
    requires Work.After(s, me, run).consumed == Framing.WireAll(sent)
    ensures Work.After(s, me, run).frames == sent
  {
    assert Framing.WireAll(sent) == Work.After(s, me, run).consumed + [];
    Wires.ServerSeesTheSender(s, me, run, sent, []);
  }

  /** The frames handled in `events` are those the sender wrote after `pre`. */
  lemma WireBringsFrames(s: Work.State, me: nat, run: seq<Work.Step>, pre: seq<Frame>, sent: seq<Frame>,
                         before: seq<Serial.Event>, events: seq<Serial.Event>)
    requires Uplink(s, me, run, pre, sent, before, events) && Framing.AllFit(sent) && FileRaws(sent) == Raws(sent)
    ensures OwnFrames(events, me) == Raws(sent)
  {
    AllDispatched(s, me, run, pre + sent);
    FileRawsConcat(pre, sent);
    SameTail(OwnFrames(before, me), OwnFrames(events, me), FileRaws(pre), Raws(sent));
  }

  lemma AllWritten(s: Work.State, me: nat, run: seq<Work.Step>)
    requires Work.Initial(s, me) && Work.Inv(s, me) && Work.Legal(s, me, run)
    requires Drained(Work.After(s, me, run), me, Reg.Log(Work.After(s, me, run).registry, me))
    ensures Framing.DecodeAll(Work.After(s, me, run).written).frames == Reg.Log(Work.After(s, me, run).registry, me)
  {
    Wires.PeerSeesTheQueue(s, me, run);
  }

  /** What the target's worker has written, once it has nothing left to write, is the whole
      log; the part after the first |log| frames is what was queued since. */
  lemma WireBringsLog(s: Work.State, me: nat, run: seq<Work.Step>, log: seq<Frame>, log': seq<Frame>,
                      earlier: seq<Frame>, later: seq<Frame>)
    requires Downlink(s, me, run, log', earlier, later)
    requires |log| <= |log'| && log'[..|log|] == log && |earlier| == |log|
    ensures earlier == log && earlier + later == log'
  {
    AllWritten(s, me, run);
    assert log' == log + log'[|log|..];
    SameTail(earlier, later, log, log'[|log|..]);
  }

  /** The run of the server from the first to the last frame of the transfer. */
  ghost predicate Handles(sys: System, events: seq<Serial.Event>, sender: nat, x: Word, recipient: seq<Byte>, t: nat) {
    && Serial.AllPossible(sys, events) && CanStart(sys, sender, x, recipient, t)
    && Favourable(sys, events, sender, t) && EndsWith(events, sender)
    && events != [] && events[0].FileFrame? && events[0].id == sender
  }

  /** The server handles what came over the uplink, so its run carries the transfer. */
  lemma UplinkCarries(up: Work.State, run: seq<Work.Step>, pre: seq<Frame>, before: seq<Serial.Event>, events: seq<Serial.Event>,
                      sys: System, sender: nat, x: Word, recipient: seq<Byte>, name: seq<Byte>, e: seq<Byte>, t: nat)
    requires ValidPeer(recipient) && ValidFilename(name) && |e| < TWO64 && Handles(sys, events, sender, x, recipient, t)
    requires Uplink(up, sender, run, pre, TransferFrames(x, recipient, name, e), before, events)
    ensures CarriesFrom(sys, events, TransferFrames(x, recipient, name, e), Key(sender, x), t)
  {
    var frames := TransferFrames(x, recipient, name, e);
    TransferFits(x, recipient, name, e);
    WireBringsFrames(up, sender, run, pre, frames, before, events);
    FavourableCarries(sys, events, frames, Key(sender, x), t);
    assert OwnFrames(events, sender)[0] == events[0].raw && Raws(frames)[0] == Raw(frames[0]);
  }

  /** The same over the wires: both streams may have been cut and retried in any way. Once
      the server has read what the sender wrote, and the target has read what the server
      wrote, the file is there. */
  lemma FileArrivesByWire(clients: nat, routes: Capacity, before: seq<Serial.Event>, events: seq<Serial.Event>,
                          sys: System, sender: nat, x: Word, recipient: seq<Byte>, path: seq<Byte>, data: seq<Byte>, t: nat,
                          box: Box, nonce: seq<Byte>, mine: Secret, theirs: Secret, sent: seq<Frame>,
                          up: Work.State, upRun: seq<Work.Step>, pre: seq<Frame>, down: Work.State, downRun: seq<Work.Step>,
                          b: Inbox.Inbox, capacity: nat, files: map<Inbox.Name, seq<Byte>>,
                          earlier: seq<Client.Delivery>, later: seq<Client.Delivery>)
    requires SentAs(box, x, recipient, path, data, nonce, mine, theirs, sent)
    requires Reached(clients, routes, before, sys)
    requires Handles(sys, events, sender, x, recipient, t) && Uplink(up, sender, upRun, pre, sent, before, events)
    requires Downlink(down, t, downRun, LogOf(Serial.Outcome(sys, events), t), Client.Frames(earlier), Client.Frames(later))
    requires |earlier| == |LogOf(sys, t)|
    requires Receives(Inbox.Start(capacity, files), earlier, b, later, box, theirs, NextOutbound(sys.sh), LastPart(path))
    ensures Transfer(box, x, recipient, path, Regular(|data|, data, true), nonce, box.publicKey(theirs), mine) == Some(sent)
    ensures var b' := Client.After(b, later, box, theirs); LastPart(path) in b'.files && b'.files[LastPart(path)] == data
  {
    var name := LastPart(path);
    var e := SentParts(box, x, recipient, path, data, nonce, mine, theirs, sent);
    UplinkCarries(up, upRun, pre, before, events, sys, sender, x, recipient, name, e, t);
    DownlinkBrings(clients, routes, before, events, sys, sender, x, recipient, name, e, t, down, downRun,
                   Client.Frames(earlier), Client.Frames(later));
    FileArrives(clients, routes, before, events, sys, sender, x, recipient, path, data, t, box, nonce, mine, theirs, sent,
                b, capacity, files, earlier, later);
  }

  /** The target's client has decoded the log as it was before the transfer, and then the rest. */
  lemma DownlinkBrings(clients: nat, routes: Capacity, before: seq<Serial.Event>, events: seq<Serial.Event>, sys: System,
                       sender: nat, x: Word, recipient: seq<Byte>, name: seq<Byte>, e: seq<Byte>, t: nat,
                       down: Work.State, run: seq<Work.Step>, earlier: seq<Frame>, later: seq<Frame>)
    requires Reached(clients, routes, before, sys)
    requires ValidPeer(recipient) && ValidFilename(name) && |e| < TWO64 && CanStart(sys, sender, x, recipient, t)
    requires CarriesFrom(sys, events, TransferFrames(x, recipient, name, e), Key(sender, x), t)
    requires Downlink(down, t, run, LogOf(Serial.Outcome(sys, events), t), earlier, later) && |earlier| == |LogOf(sys, t)|
    ensures earlier == LogOf(sys, t) && earlier + later == LogOf(Serial.Outcome(sys, events), t)
  {
    CarriedLogGrows(clients, routes, before, events, sys, sender, x, recipient, name, e, t);
    WireBringsLog(down, t, run, LogOf(sys, t), LogOf(Serial.Outcome(sys, events), t), earlier, later);
  }

  lemma CarriedLogGrows(clients: nat, routes: Capacity, before: seq<Serial.Event>, events: seq<Serial.Event>, sys: System,
                        sender: nat, x: Word, recipient: seq<Byte>, name: seq<Byte>, e: seq<Byte>, t: nat)
    requires Reached(clients, routes, before, sys)
    requires ValidPeer(recipient) && ValidFilename(name) && |e| < TWO64 && CanStart(sys, sender, x, recipient, t)
    requires CarriesFrom(sys, events, TransferFrames(x, recipient, name, e), Key(sender, x), t)
    ensures var log, log' := LogOf(sys, t), LogOf(Serial.Outcome(sys, events), t);
            |log| <= |log'| && log'[..|log|] == log
  {
    StartInvariant(clients, routes);
    Serial.EventsKeepInvariant(Start(clients, routes), before);
    RelayCarriesTransfer(sys, events, sender, x, recipient, name, e, t, NextOutbound(sys.sh));
  }
}
