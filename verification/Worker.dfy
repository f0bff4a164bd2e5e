/** The buffers and offsets of run_client_worker. Each method is one segment of the loop
    body and has exactly the effect of the corresponding step of WorkerRuns. */
module Worker {
  import opened Bytes
  import opened FileBuffers
  import opened Framing
  import opened WorkerSpec
  import opened WorkerRuns
  import opened WorkerTheorems
  import Reg = RegistrySpec
  import Clients = Registry

  lemma LoadIs(s: State, me: nat)
    requires s.io.outgoing == []
    ensures var (r, result) := Reg.Take(s.registry, me);
            && AfterLoad(s, me).io == (if result.Taken? then Loaded(s.io, result.frame) else s.io)
            && AfterLoad(s, me).registry == r
            && AfterLoad(s, me).pc == if result.TakeError? then Stopped(OutputFailed) else AtWrite
  {
  }

  class Worker {
    const incoming: array<Byte>
    var received: nat
    var needed: nat
    var readWait: Wait
    const outgoing: array<Byte>
    var outgoingLength: nat
    var sent: nat
    var writeWait: Wait

    ghost predicate Valid()
      reads this, incoming, outgoing
    {
      && incoming.Length == outgoing.Length == BUFFER && incoming != outgoing
      && received < needed <= BUFFER && outgoingLength <= BUFFER
      && (outgoingLength != 0 ==> sent < outgoingLength)
      && ReaderValid(View())
    }

    /** `sent` is stale while no frame is loaded. */
    ghost function View(): Io
      reads this, incoming, outgoing
      requires received <= incoming.Length && outgoingLength <= outgoing.Length
    {
      Io(incoming[..received], needed, readWait,
         outgoing[..outgoingLength], if outgoingLength == 0 then 0 else sent, writeWait)
    }

    constructor ()
      ensures Valid() && View() == FRESH && fresh(incoming) && fresh(outgoing)
    {
      incoming := new Byte[BUFFER](_ => 0);
      outgoing := new Byte[BUFFER](_ => 0);
      received, needed, readWait := 0, HEADER, NoWait;
      outgoingLength, sent, writeWait := 0, 0, NoWait;
    }

    /** Copy a queued frame into the outgoing buffer; it always fits. */
    method LoadFrame(f: Frame)
      requires Valid() && outgoingLength == 0 && Fits(f)
      modifies this, outgoing
      ensures Valid() && View() == Loaded(old(View()), f)
    {
      var offset := Put(outgoing, 0, Be32((1 + |f.payload|) % TWO32));
      offset := Put(outgoing, offset, [f.kind]);
      offset := Put(outgoing, offset, f.payload);
      assert outgoing[..offset] == Wire(f);
      outgoingLength, sent := offset, 0;
    }

    /** Fetch the next frame to write, unless one is under way. */
    method Load(clients: Clients.Registry, me: nat, ghost s: State) returns (pc: Pc)
      requires Valid() && clients.Valid() && me in clients.clients && AllFit(clients.clients[me].queue)
      requires s.io == View() && s.registry == clients.View()
      modifies this, outgoing, clients.slots, clients`clients
      ensures Valid() && clients.Valid()
      ensures (View(), clients.View(), pc) == (AfterLoad(s, me).io, AfterLoad(s, me).registry, AfterLoad(s, me).pc)
    {
      if outgoingLength != 0 {
        return AtWrite;
      }
      LoadIs(s, me);
      var result := Fetch(clients, me);
      pc := Install(clients, result);
    }

    /** Dequeue, leaving the buffers alone. */
    method Fetch(clients: Clients.Registry, me: nat) returns (result: Reg.TakeResult)
      requires Valid() && clients.Valid() && me in clients.clients && AllFit(clients.clients[me].queue)
      modifies clients.slots, clients`clients
      ensures Valid() && View() == old(View()) && outgoingLength == old(outgoingLength) && clients.Valid()
      ensures (clients.View(), result) == Reg.Take(old(clients.View()), me)
      ensures result.Taken? ==> Fits(result.frame)
    {
      result := clients.TakeOutgoingFrame(me);
      assert incoming[..received] == old(incoming[..received]) && outgoing[..outgoingLength] == old(outgoing[..outgoingLength]);
    }

    /** Put what was fetched into the buffer. */
    method Install(ghost clients: Clients.Registry, result: Reg.TakeResult) returns (pc: Pc)
      requires Valid() && clients.Valid() && outgoingLength == 0 && (result.Taken? ==> Fits(result.frame))
      modifies this, outgoing
      ensures Valid() && View() == if result.Taken? then Loaded(old(View()), result.frame) else old(View())
      ensures clients.Valid() && clients.View() == old(clients.View())
      ensures pc == if result.TakeError? then Stopped(OutputFailed) else AtWrite
    {
      match result
      case TakeError => return Stopped(OutputFailed);
      case Nothing => return AtWrite;
      case Taken(f) =>
        LoadFrame(f);
        return AtWrite;
    }

    /** The bytes passed to SSL_write_ex. */
    method Pending() returns (bytes: seq<Byte>)
      requires Valid() && outgoingLength != 0
      ensures bytes == View().outgoing[View().sent..]
    {
      return outgoing[sent..outgoingLength];
    }

    method Write(w: WriteAnswer, ghost s: State) returns (pc: Pc)
      requires Valid() && outgoingLength != 0 && s.io == View()
      requires w.Wrote? ==> 0 < w.count <= outgoingLength - sent
      modifies this
      ensures Valid() && (View(), pc) == (WorkerRuns.AfterWrite(s, w).io, WorkerRuns.AfterWrite(s, w).pc)
    {
      match w
      case Wrote(count) =>
        sent := sent + count;
        writeWait := NoWait;
        if sent == outgoingLength {
          outgoingLength := 0;
        }
        return AtRead(true);
      case WriteAgain(wait) =>
        writeWait := wait;
        return AtRead(false);
      case WriteStop =>
        return Stopped(TlsFailed);
    }

    /** Take in what a read stored behind the bytes already there. When a frame is complete
        it is returned for dispatch, and the buffer is ready for the next one. */
    method TakeInput(data: seq<Byte>) returns (pc: Pc, raw: seq<Byte>)
      requires Valid() && 0 < |data| <= needed - received
      modifies this, incoming
      ensures match AfterGot(old(View()), data)
              case More(io) => pc == AtWake && Valid() && View() == io
              case Deliver(frame, io) => pc == Handling && raw == frame && Valid() && View() == io
              case Reject => pc == Stopped(BadInput)
    {
      ghost var before := View();
      received := Put(incoming, received, data);
      readWait := NoWait;
      pc, raw := Inspect(before, data);
    }

    /** The bytes of `data` are stored: is the header or the frame complete? */
    method Inspect(ghost before: Io, ghost data: seq<Byte>) returns (pc: Pc, raw: seq<Byte>)
      requires incoming.Length == outgoing.Length == BUFFER && incoming != outgoing
      requires received <= needed <= BUFFER && outgoingLength <= BUFFER && (outgoingLength != 0 ==> sent < outgoingLength)
      requires ReaderValid(before) && 0 < |data| && View() == before.(incoming := before.incoming + data, readWait := NoWait)
      modifies `received, `needed
      ensures match AfterGot(before, data)
              case More(io) => pc == AtWake && Valid() && View() == io
              case Deliver(frame, io) => pc == Handling && raw == frame && Valid() && View() == io
              case Reject => pc == Stopped(BadInput)
    {
      ghost var bytes := before.incoming + data;
      GotIsDecoding(before, data);
      assert incoming[..received] == bytes;
      if received < needed {
        return AtWake, [];
      }
      if needed == HEADER {
        var length := Read32(incoming[..received], 0);
        if length == 0 || length > FRAME_MAX_SIZE {
          return Stopped(BadInput), [];
        }
        needed := needed + length;
        return AtWake, [];
      }
      if !ValidFrameType(incoming[HEADER]) {
        return Stopped(BadInput), [];
      }
      raw := incoming[HEADER..needed];
      assert raw == bytes[HEADER..];
      received, needed := 0, HEADER;
      return Handling, raw;
    }

    method Read(r: ReadAnswer, progress: bool, ghost s: State) returns (pc: Pc, raw: seq<Byte>)
      requires Valid() && s.io == View() && s.pc == AtRead(progress)
      requires r.Got? ==> 0 < |r.bytes| <= needed - received
      modifies this, incoming
      ensures pc == AfterRead(s, r).pc
      ensures !pc.Stopped? ==> Valid() && View() == AfterRead(s, r).io
      ensures pc == Handling ==> 0 < |raw| && AfterRead(s, r).frames == s.frames + [Frame(raw[0], raw[1..])]
    {
      raw := [];
      match r
      case Got(bytes) =>
        GotIsDecoding(View(), bytes);
        pc, raw := TakeInput(bytes);
      case ReadAgain(wait) =>
        readWait := wait;
        return LoopOrPoll(progress), [];
      case ReadClosed =>
        return Stopped(if received == 0 then PeerClosed else Truncated), [];
      case ReadStop =>
        return Stopped(TlsFailed), [];
    }

    /** The events to poll the socket for. A worker that is about to block always waits for
        something: for the write to be retried if there is one, otherwise for the read. */
    method PollEvents(ghost s: State) returns (mask: Wait)
      requires Valid() && s.io == View() && s.pc == AtPoll && Waiting(s)
      ensures mask != NoWait
      ensures writeWait != NoWait ==> mask == writeWait
      ensures writeWait == NoWait ==> mask == readWait
      ensures Watched(s) && outgoingLength != 0 ==> mask == writeWait || mask == ForWrite
    {
      return if writeWait != NoWait then writeWait else readWait;
    }
  }
}
