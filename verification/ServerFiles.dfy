/** The frame handlers of server_files.c over the real slot table and client array: a
    handler that is not interrupted has exactly the effect of RelaySpec.HandleFrame. */
module ServerFiles {
  import opened Bytes
  import opened FileProtocol
  import opened FileBuffers
  import opened RouteSpec
  import opened Sessions
  import opened RelaySpec
  import Relay
  import SerialRelay
  import Reg = RegistrySpec
  import Clients = Registry
  import Slots = RouteTable

  // ----- What the remaining micro-steps of a handler amount to -----

  lemma {:induction false} RunIgnored(sh: Shared, sender: nat, user: seq<Byte>, todo: seq<Emission>)
    requires forall i :: 0 <= i < |todo| ==> todo[i].onFail == Ignore
    ensures Run(sh, sender, user, Continue(todo)) == sh.(registry := SendAll(sh.registry, todo))
    decreases |todo|
  {
    if todo != [] {
      var next := Emit(sh, sender, todo).0;
      assert Advance(sh, sender, user, Emitting(todo)) == (next, Continue(todo[1..]));
      RunIgnored(next, sender, user, todo[1..]);
    }
  }

  function Told(registry: Reg.Registry, to: nat, tag: Byte): Reg.Registry {
    Reg.Queue(registry, to, Notice(tag)).0
  }

  lemma RunNote(sh: Shared, sender: nat, user: seq<Byte>, tag: Byte)
    ensures Run(sh, sender, user, Emitting([Note(sender, tag)])) == sh.(registry := Told(sh.registry, sender, tag))
  {
    var todo := [Note(sender, tag)];
    RunIgnored(sh, sender, user, todo);
    assert todo[1..] == [];
  }

  lemma RunErrorNote(sh: Shared, sender: nat, user: seq<Byte>, e: Endpoint, tag: Byte)
    ensures Run(sh, sender, user, Emitting(ErrorTo(e) + [Note(sender, tag)])) ==
            sh.(registry := Told(SendAll(sh.registry, ErrorTo(e)), sender, tag))
  {
    var todo := ErrorTo(e) + [Note(sender, tag)];
    RunIgnored(sh, sender, user, todo);
    if ErrorTo(e) == [] {
      assert todo == [Note(sender, tag)] && todo[1..] == [];
    } else {
      var sent := Reg.Queue(sh.registry, e.target, ErrorFrame(e.outbound)).0;
      assert todo[1..] == [Note(sender, tag)] && todo[1..][1..] == [] && ErrorTo(e)[1..] == [];
      assert SendAll(sent, []) == sent;
      assert SendAll(sh.registry, todo) == SendAll(sent, [Note(sender, tag)]);
    }
  }

  lemma RunError(sh: Shared, sender: nat, user: seq<Byte>, e: Endpoint)
    ensures Run(sh, sender, user, Continue(ErrorTo(e))) == sh.(registry := SendAll(sh.registry, ErrorTo(e)))
  {
    RunIgnored(sh, sender, user, ErrorTo(e));
  }

  /** One frame whose failure needs a reaction. */
  lemma RunForward(sh: Shared, sender: nat, user: seq<Byte>, e: Emission)
    requires e.onFail != Ignore
    ensures var (registry, queued) := Reg.Queue(sh.registry, e.to, e.frame);
            Run(sh, sender, user, Emitting([e])) ==
            if queued then sh.(registry := registry)
            else Run(sh.(registry := registry), sender, user,
                     match e.onFail
                     case ThenNotify => Emitting([Note(sender, DISCONNECTED)])
                     case ThenQuarantine(k) => Quarantining(k)
                     case ThenMark(k, outbound) => Marking(k, outbound)
                     case Ignore => Idle)
  {
    assert [e][1..] == [];
    assert Advance(sh, sender, user, Emitting([e])) == Emit(sh, sender, [e]);
  }

  // ----- A departure -----

  /** At the capacity used no action is dropped. */
  lemma {:induction false} SweepFits(s: seq<Slots.Slot>, n: nat, client: nat)
    requires n <= |s|
    ensures |Slots.SweepActions(s, n, client)| <= n
  {
    if n > 0 {
      SweepFits(s, n - 1, client);
    }
  }

  /** The actions of the sweep are the notifications of RelaySpec, in slot order. */
  lemma SweepTells(s: seq<Slots.Slot>, table: map<Key, Entry>, at: map<Key, nat>, client: nat)
    requires Slots.Represents(s, table, at) && client != INVALID_CLIENT
    ensures AbortOrder(table, client, Slots.SweepKeys(s, |s|, client))
    ensures Relay.SweepTodo(table, client, Slots.SweepKeys(s, |s|, client)) ==
            EmissionsOf(Slots.SweepActions(s, |s|, client))
  {
    Slots.SweepIsOrder(s, table, at, |s|, client);
    Slots.SweepAbortOrder(s, table, at, client);
  }

  lemma {:induction false} SendAllStep(registry: Reg.Registry, todo: seq<Emission>, n: nat)
    requires n < |todo|
    ensures SendAll(registry, todo[..n + 1]) ==
            Reg.Queue(SendAll(registry, todo[..n]), todo[n].to, todo[n].frame).0
    decreases n
  {
    var next := Reg.Queue(registry, todo[0].to, todo[0].frame).0;
    assert todo[..n + 1][1..] == todo[1..][..n];
    if n > 0 {
      assert todo[..n][1..] == todo[1..][..n - 1] && todo[..n][0] == todo[0];
      SendAllStep(next, todo[1..], n - 1);
    }
  }

  // ----- Payload buffers of the size the handlers declare always suffice -----

  method EncodeBeginPayload(b: Begin) returns (payload: Option<seq<Byte>>)
    ensures payload == EncodeBegin(b)
  {
    var buffer := new Byte[BEGIN_MAX_SIZE](_ => 0);
    var length := WriteBegin(buffer, b);
    return if length.Some? then Some(buffer[..length.value]) else None;
  }

  method EncodeChunkPayload(c: Chunk) returns (payload: Option<seq<Byte>>)
    ensures payload == EncodeChunk(c)
  {
    var buffer := new Byte[CHUNK_MAX_SIZE](_ => 0);
    var length := WriteChunk(buffer, c);
    return if length.Some? then Some(buffer[..length.value]) else None;
  }

  method EncodeControlPayload(id: Word) returns (payload: seq<Byte>)
    ensures payload == Be32(id)
  {
    var buffer := new Byte[4](_ => 0);
    var length := WriteControl(buffer, id);
    return buffer[..length.value];
  }

  class Server {
    const registry: Clients.Registry
    const routes: Slots.RouteTable

    ghost predicate Valid()
      reads registry, registry.slots, routes, routes.slots
    {
      registry.Valid() && routes.Valid()
    }

    ghost function View(): Shared
      reads registry, routes
    {
      Shared(registry.View(), routes.View())
    }

    constructor (clients: nat, capacity: Capacity)
      ensures Valid() && View() == Relay.Start(clients, capacity).sh
    {
      registry := new Clients.Registry(clients);
      routes := new Slots.RouteTable(capacity);
    }

    method NotifySender(sender: nat, tag: Byte)
      requires Valid()
      modifies registry, registry.slots
      ensures Valid() && View() == old(View()).(registry := Told(old(View().registry), sender, tag))
    {
      if sender != INVALID_CLIENT {
        var _ := registry.QueueFrame(sender, Notice(tag));
      }
    }

    method SendReceiverError(e: Endpoint) returns (ok: bool)
      requires Valid()
      modifies registry, registry.slots
      ensures Valid() && View() == old(View()).(registry := SendAll(old(View().registry), ErrorTo(e)))
      ensures ok == (e.target != INVALID_CLIENT && Reg.Queue(old(View().registry), e.target, ErrorFrame(e.outbound)).1)
    {
      assert |ErrorTo(e)| == 1 ==> ErrorTo(e)[1..] == [];
      if e.target == INVALID_CLIENT {
        return false;
      }
      var payload := EncodeControlPayload(e.outbound);
      ok := registry.QueueFrame(e.target, Frame(FILE_ERROR, payload));
    }

    method RejectKnownTransfer(sender: nat, k: Key, keep: bool, ghost user: seq<Byte>)
      requires Valid()
      modifies registry, registry.slots, routes, routes.slots
      ensures Valid()
      ensures var (sh, pc) := Reject(old(View()), sender, k, keep); View() == Run(sh, sender, user, pc)
    {
      var wasForwarding, previous := routes.Quarantine(k, keep);
      RunErrorNote(View(), sender, user, if wasForwarding then previous else NO_ENDPOINT, MALFORMED);
      if wasForwarding {
        var _ := SendReceiverError(previous);
      }
      NotifySender(sender, MALFORMED);
    }

    /** A frame that does not decode. */
    method Undecodable(sender: nat, raw: seq<Byte>, keep: bool, ghost user: seq<Byte>)
      requires Valid()
      modifies registry, registry.slots, routes, routes.slots
      ensures Valid()
      ensures var (sh, pc) := Spoil(old(View()), sender, raw, keep); View() == Run(sh, sender, user, pc)
    {
      if ReadTransferId(raw).Some? {
        RejectKnownTransfer(sender, Key(sender, ReadTransferId(raw).value), keep, user);
      } else {
        RunNote(View(), sender, user, MALFORMED);
        NotifySender(sender, MALFORMED);
      }
    }

    method HandleBegin(sender: nat, user: seq<Byte>, raw: seq<Byte>)
      requires Valid() && Reg.UniqueNames(registry.clients)
      modifies registry, registry.slots, routes, routes.slots
      ensures Valid()
      ensures var (sh, pc) := DispatchBegin(old(View()), sender, user, raw); View() == Run(sh, sender, user, pc)
    {
      var nameOk := CheckPeerName(user);
      if !nameOk {
        RunNote(View(), sender, user, BAD_SENDER);
        NotifySender(sender, BAD_SENDER);
      } else if DecodeBegin(raw).None? {
        Undecodable(sender, raw, true, user);
      } else {
        var begin := DecodeBegin(raw).value;
        var target := registry.FindClientId(begin.peer);
        OpenRoute(sender, user, begin, target);
      }
    }

    method OpenRoute(sender: nat, user: seq<Byte>, begin: Begin, target: nat)
      requires Valid()
      modifies registry, registry.slots, routes, routes.slots
      ensures Valid() && View() == Run(old(View()), sender, user, LookedUp(begin, target))
    {
      var k := Key(sender, begin.id);
      var discard := target == INVALID_CLIENT || target == sender;
      var result, endpoint, replaced := routes.Add(k, target, begin.size, discard);
      match result
      case AddDuplicate =>
        RunErrorNote(View(), sender, user, replaced, DUPLICATE);
        if replaced.target != INVALID_CLIENT {
          var _ := SendReceiverError(replaced);
        }
        NotifySender(sender, DUPLICATE);
      case AddFull =>
        RunNote(View(), sender, user, LIMIT_REACHED);
        NotifySender(sender, LIMIT_REACHED);
      case AddIdUnavailable =>
        RunNote(View(), sender, user, NO_ID);
        NotifySender(sender, NO_ID);
      case AddDiscard =>
        var tag := if target == sender then TO_YOURSELF else NOT_CONNECTED;
        RunNote(View(), sender, user, tag);
        NotifySender(sender, tag);
      case AddReady =>
        ForwardBegin(sender, user, begin, k, endpoint);
    }

    method ForwardBegin(sender: nat, user: seq<Byte>, begin: Begin, k: Key, endpoint: Endpoint)
      requires Valid()
      modifies registry, registry.slots, routes, routes.slots
      ensures Valid()
      ensures View() == Run(old(View()), sender, user, BeginPc(user, begin, k, endpoint))
    {
      var payload := EncodeBeginPayload(Begin(endpoint.outbound, begin.size, user, begin.filename));
      if payload.None? {
        RejectKnownTransfer(sender, k, true, user);
        return;
      }
      QueueBegin(sender, Frame(FILE_BEGIN, payload.value), k, endpoint.target, user);
    }

    method QueueBegin(sender: nat, frame: Frame, k: Key, target: nat, ghost user: seq<Byte>)
      requires Valid()
      modifies registry, registry.slots, routes, routes.slots
      ensures Valid()
      ensures View() == Run(old(View()), sender, user, Emitting([Emission(target, frame, ThenQuarantine(k))]))
    {
      RunForward(View(), sender, user, Emission(target, frame, ThenQuarantine(k)));
      var queued := registry.QueueFrame(target, frame);
      if !queued {
        BeginFailed(sender, k, user);
      }
    }

    method BeginFailed(sender: nat, k: Key, ghost user: seq<Byte>)
      requires Valid()
      modifies registry, registry.slots, routes, routes.slots
      ensures Valid() && View() == Run(old(View()), sender, user, Quarantining(k))
    {
      var _, _ := routes.Quarantine(k, true);
      RunNote(View(), sender, user, UNREACHABLE);
      NotifySender(sender, UNREACHABLE);
    }

    method HandleChunk(sender: nat, raw: seq<Byte>, ghost user: seq<Byte>)
      requires Valid()
      modifies registry, registry.slots, routes, routes.slots
      ensures Valid()
      ensures var (sh, pc) := DispatchChunk(old(View()), sender, raw); View() == Run(sh, sender, user, pc)
    {
      if DecodeChunk(raw).None? {
        Undecodable(sender, raw, true, user);
        return;
      }
      var chunk := DecodeChunk(raw).value;
      var k := Key(sender, chunk.id);
      var result, endpoint := routes.AcceptChunk(k, |chunk.data|);
      match result
      case ChunkMissing =>
        RunNote(View(), sender, user, NO_BEGIN);
        NotifySender(sender, NO_BEGIN);
      case ChunkDiscard =>
      case ChunkOverrun =>
        RunErrorNote(View(), sender, user, endpoint, OVERRUN);
        var _ := SendReceiverError(endpoint);
        NotifySender(sender, OVERRUN);
      case ChunkReady =>
        ForwardChunk(sender, chunk, k, endpoint, user);
    }

    method ForwardChunk(sender: nat, chunk: Chunk, k: Key, endpoint: Endpoint, ghost user: seq<Byte>)
      requires Valid()
      modifies registry, registry.slots, routes, routes.slots
      ensures Valid()
      ensures View() == Run(old(View()), sender, user, ChunkPc(chunk, k, endpoint))
    {
      var payload := EncodeChunkPayload(Chunk(endpoint.outbound, chunk.data));
      if payload.None? {
        RejectKnownTransfer(sender, k, true, user);
        return;
      }
      QueueChunk(sender, Frame(FILE_CHUNK, payload.value), k, endpoint, user);
    }

    method QueueChunk(sender: nat, frame: Frame, k: Key, endpoint: Endpoint, ghost user: seq<Byte>)
      requires Valid()
      modifies registry, registry.slots, routes, routes.slots
      ensures Valid()
      ensures View() == Run(old(View()), sender, user, Emitting([Emission(endpoint.target, frame, ThenMark(k, endpoint.outbound))]))
    {
      RunForward(View(), sender, user, Emission(endpoint.target, frame, ThenMark(k, endpoint.outbound)));
      var queued := registry.QueueFrame(endpoint.target, frame);
      if !queued {
        ChunkFailed(sender, k, endpoint.outbound, user);
      }
    }

    method ChunkFailed(sender: nat, k: Key, outbound: Word, ghost user: seq<Byte>)
      requires Valid()
      modifies registry, registry.slots, routes, routes.slots
      ensures Valid() && View() == Run(old(View()), sender, user, Marking(k, outbound))
    {
      var converted := routes.MarkForwardFailed(k, outbound);
      if converted {
        RunNote(View(), sender, user, DISCONNECTED);
        NotifySender(sender, DISCONNECTED);
      }
    }

    method HandleEnd(sender: nat, raw: seq<Byte>, ghost user: seq<Byte>)
      requires Valid()
      modifies registry, registry.slots, routes, routes.slots
      ensures Valid()
      ensures var (sh, pc) := DispatchEnd(old(View()), sender, raw); View() == Run(sh, sender, user, pc)
    {
      if DecodeControl(raw, FILE_END).None? {
        Undecodable(sender, raw, false, user);
        return;
      }
      var result, endpoint := routes.Finish(Key(sender, DecodeControl(raw, FILE_END).value), true);
      match result
      case FinishMissing =>
        RunNote(View(), sender, user, NO_BEGIN);
        NotifySender(sender, NO_BEGIN);
      case FinishDiscard =>
      case FinishIncomplete =>
        RunErrorNote(View(), sender, user, endpoint, INCOMPLETE);
        var _ := SendReceiverError(endpoint);
        NotifySender(sender, INCOMPLETE);
      case FinishReady =>
        ForwardEnd(sender, endpoint, user);
    }

    method ForwardEnd(sender: nat, endpoint: Endpoint, ghost user: seq<Byte>)
      requires Valid()
      modifies registry, registry.slots
      ensures Valid()
      ensures View() == Run(old(View()), sender, user,
                            Emitting([Emission(endpoint.target, EndFrame(endpoint.outbound), ThenNotify)]))
    {
      RunForward(View(), sender, user, Emission(endpoint.target, EndFrame(endpoint.outbound), ThenNotify));
      var payload := EncodeControlPayload(endpoint.outbound);
      var queued := registry.QueueFrame(endpoint.target, Frame(FILE_END, payload));
      if !queued {
        RunNote(View(), sender, user, DISCONNECTED);
        NotifySender(sender, DISCONNECTED);
      }
    }

    method HandleError(sender: nat, raw: seq<Byte>, ghost user: seq<Byte>)
      requires Valid()
      modifies registry, registry.slots, routes, routes.slots
      ensures Valid()
      ensures var (sh, pc) := DispatchError(old(View()), sender, raw); View() == Run(sh, sender, user, pc)
    {
      if DecodeControl(raw, FILE_ERROR).None? {
        Undecodable(sender, raw, false, user);
        return;
      }
      var result, endpoint := routes.Finish(Key(sender, DecodeControl(raw, FILE_ERROR).value), false);
      if result == FinishMissing {
        RunNote(View(), sender, user, NO_BEGIN);
        NotifySender(sender, NO_BEGIN);
      } else if result != FinishDiscard {
        RunError(View(), sender, user, endpoint);
        var _ := SendReceiverError(endpoint);
      }
    }

    /** The whole handler, uninterrupted: exactly the specified effect on registry,
        queues and routes. */
    method RouteFileFrame(sender: nat, user: seq<Byte>, raw: seq<Byte>)
      requires Valid() && Reg.UniqueNames(registry.clients)
      modifies registry, registry.slots, routes, routes.slots
      ensures Valid() && View() == HandleFrame(old(View()), sender, user, raw)
    {
      if sender == INVALID_CLIENT || |raw| == 0 {
        return;
      }
      if |raw| > FRAME_MAX_SIZE {
        RunNote(View(), sender, user, TOO_LARGE);
        NotifySender(sender, TOO_LARGE);
      } else if raw[0] == FILE_BEGIN {
        HandleBegin(sender, user, raw);
      } else if raw[0] == FILE_CHUNK {
        HandleChunk(sender, raw, user);
      } else if raw[0] == FILE_END {
        HandleEnd(sender, raw, user);
      } else if raw[0] == FILE_ERROR {
        HandleError(sender, raw, user);
      } else {
        RunNote(View(), sender, user, BAD_TYPE);
        NotifySender(sender, BAD_TYPE);
      }
    }

    /** Tell the other endpoint of every route swept, in slot order. */
    method AbortFileRoutes(client: nat)
      requires Valid()
      modifies registry, registry.slots, routes, routes.slots
      ensures Valid()
      ensures client == INVALID_CLIENT ==> View() == old(View())
      ensures client != INVALID_CLIENT ==>
                && routes.View() == old(routes.View()).(table := AbortTable(old(routes.table), client))
                && registry.View() == SendAll(old(registry.View()),
                     EmissionsOf(old(Slots.SweepActions(routes.slots[..], routes.slots.Length, client))))
    {
      if client == INVALID_CLIENT {
        return;
      }
      SweepFits(routes.slots[..], routes.slots.Length, client);
      var actions := routes.AbortClient(client, routes.capacity);
      TellAll(actions);
    }

    method TellAll(actions: seq<AbortAction>)
      requires Valid()
      modifies registry, registry.slots
      ensures Valid() && routes.View() == old(routes.View())
      ensures registry.View() == SendAll(old(registry.View()), EmissionsOf(actions))
    {
      ghost var todo := EmissionsOf(actions);
      for i := 0 to |actions|
        invariant Valid() && registry.View() == SendAll(old(registry.View()), todo[..i])
      {
        Tell(actions[i]);
        SendAllStep(old(registry.View()), todo, i);
      }
      assert todo[..|todo|] == todo;
    }

    method Tell(action: AbortAction)
      requires Valid()
      modifies registry, registry.slots
      ensures Valid()
      ensures var e := EmissionOf(action); registry.View() == Reg.Queue(old(registry.View()), e.to, e.frame).0
    {
      match action
      case SendError(client, outbound) =>
        var _ := SendReceiverError(Endpoint(client, outbound));
        assert [EmissionOf(action)][1..] == [];
      case NotifySender(client) =>
        NotifySender(client, DISCONNECTED);
    }

    /** The end of a connection: first out of the registry, then out of the routes. */
    method Depart(id: nat)
      requires Valid() && id != INVALID_CLIENT
      modifies registry, registry.slots, routes, routes.slots
      ensures Valid()
      ensures var order := old(Slots.SweepKeys(routes.slots[..], routes.slots.Length, id));
              && AbortOrder(old(routes.table), id, order)
              && View() == SerialRelay.Depart(old(View()), id, order)
    {
      SweepTells(routes.slots[..], routes.table, routes.at, id);
      registry.RemoveClient(id);
      AbortFileRoutes(id);
    }
  }
}
