/** One transfer through the relay, interleaved with everything else the server does: the
    target is queued exactly the sender's frames, renamed to the outbound id. */
module RelayTransfer {
  import opened Bytes
  import opened FileProtocol
  import opened RouteSpec
  import opened Sessions
  import opened RelaySpec
  import opened Relay
  import opened Sender
  import Serial = SerialRelay
  import Files = ServerFiles
  import Reg = RegistrySpec

  predicate About(f: Frame, o: Word) {
    !Meaning(f).OtherEvent? && IdOf(Meaning(f)) == o
  }

  /** The frames of a log that concern one outbound id. */
  function Project(log: seq<Frame>, o: Word): seq<Frame> {
    if log == [] then []
    else Project(log[..|log| - 1], o) + if About(log[|log| - 1], o) then [log[|log| - 1]] else []
  }

  lemma ProjectAppend(log: seq<Frame>, f: Frame, o: Word)
    ensures Project(log + [f], o) == Project(log, o) + if About(f, o) then [f] else []
  {
    assert (log + [f])[..|log|] == log;
  }

  lemma {:induction false} ProjectConcat(a: seq<Frame>, b: seq<Frame>, o: Word)
    ensures Project(a + b, o) == Project(a, o) + Project(b, o)
  {
    if b == [] {
      assert a + b == a;
    } else {
      var front := b[..|b| - 1];
      ProjectConcat(a, front, o);
      assert (a + b)[..|a + b| - 1] == a + front;
    }
  }

  /** The log grew, by these frames about o and perhaps by others. */
  ghost predicate Grew(log: seq<Frame>, log': seq<Frame>, o: Word, added: seq<Frame>) {
    |log| <= |log'| && log'[..|log|] == log && Project(log', o) == Project(log, o) + added
  }

  lemma GrewTwice(a: seq<Frame>, b: seq<Frame>, c: seq<Frame>, o: Word, x: seq<Frame>, y: seq<Frame>)
    requires Grew(a, b, o, x) && Grew(b, c, o, y)
    ensures Grew(a, c, o, x + y)
  {
    assert c[..|a|] == c[..|b|][..|a|];
  }

  /** Queueing a frame anywhere grows the log of t at most by that frame. */
  lemma QueueGrows(r: Reg.Registry, to: nat, f: Frame, t: nat, o: Word)
    requires !About(f, o) || to != t
    ensures Grew(Reg.Log(r, t), Reg.Log(Reg.Queue(r, to, f).0, t), o, [])
  {
    ProjectAppend(Reg.Log(r, t), f, o);
  }

  // ----- Handlers of other keys -----

  ghost predicate Held(sh: Shared, k: Key, e: Entry) {
    RouteSpec.Valid(sh.routes) && k in sh.routes.table && sh.routes.table[k] == e && e.Forwarding?
  }

  ghost predicate OtherKey(onFail: OnFail, k: Key) {
    match onFail
    case ThenQuarantine(l) => l != k
    case ThenMark(l, _) => l != k
    case _ => true
  }

  /** What a thread is about to do concerns neither key k nor outbound id o. */
  ghost predicate Elsewhere(pc: Pc, sender: nat, k: Key, o: Word) {
    match pc
    case Idle => true
    case LookedUp(begin, _) => Key(sender, begin.id) != k
    case Emitting(todo) => forall i :: 0 <= i < |todo| ==> !About(todo[i].frame, o) && OtherKey(todo[i].onFail, k)
    case Quarantining(l) => l != k
    case Marking(l, _) => l != k
    case Rejecting(l) => l != k
  }

  lemma NoticeIsOther(tag: Byte, o: Word)
    ensures !About(Notice(tag), o)
  {
  }

  lemma ErrorIsAbout(outbound: Word, o: Word)
    ensures About(ErrorFrame(outbound), o) <==> outbound == o
    ensures About(EndFrame(outbound), o) <==> outbound == o
  {
    ControlMeaning(outbound);
  }

  /** Errors and notices of another route. */
  lemma ToldElsewhere(e: Endpoint, sender: nat, tag: Byte, k: Key, o: Word)
    requires e.target == INVALID_CLIENT || e.outbound != o
    ensures Elsewhere(Emitting(ErrorTo(e) + [Note(sender, tag)]), sender, k, o)
    ensures Elsewhere(Continue(ErrorTo(e)), sender, k, o)
    ensures Elsewhere(Emitting([Note(sender, tag)]), sender, k, o)
  {
    NoticeIsOther(tag, o);
    ErrorIsAbout(e.outbound, o);
  }

  lemma RejectElsewhere(sh: Shared, sender: nat, l: Key, keep: bool, k: Key, e: Entry)
    requires Held(sh, k, e) && l != k
    ensures Held(Reject(sh, sender, l, keep).0, k, e)
    ensures Elsewhere(Reject(sh, sender, l, keep).1, sender, k, e.outbound)
  {
    QuarantineValid(sh.routes, l, keep);
    assert Live(sh.routes.table, k);
    var (_, wasForwarding, previous) := RouteSpec.Quarantine(sh.routes, l, keep);
    if wasForwarding {
      assert Live(sh.routes.table, l);
      ToldElsewhere(previous, sender, MALFORMED, k, e.outbound);
    } else {
      ToldElsewhere(NO_ENDPOINT, sender, MALFORMED, k, e.outbound);
    }
  }

  lemma BeginElsewhere(user: seq<Byte>, begin: Begin, l: Key, to: Endpoint, sender: nat, k: Key, o: Word)
    requires l != k && to.outbound != o
    ensures Elsewhere(BeginPc(user, begin, l, to), sender, k, o)
  {
    var b := Begin(to.outbound, begin.size, user, begin.filename);
    if EncodeBegin(b).Some? {
      BeginMeaning(b);
    }
  }

  lemma ChunkElsewhere(chunk: Chunk, l: Key, to: Endpoint, sender: nat, k: Key, o: Word)
    requires l != k && to.outbound != o
    ensures Elsewhere(ChunkPc(chunk, l, to), sender, k, o)
  {
    var c := Chunk(to.outbound, chunk.data);
    if EncodeChunk(c).Some? {
      ChunkMeaning(c);
    }
  }

  lemma AddElsewhere(sh: Shared, sender: nat, user: seq<Byte>, begin: Begin, target: nat, k: Key, e: Entry)
    requires Held(sh, k, e) && Key(sender, begin.id) != k
    ensures Held(AddRoute(sh, sender, user, begin, target).0, k, e)
    ensures Elsewhere(AddRoute(sh, sender, user, begin, target).1, sender, k, e.outbound)
  {
    var l := Key(sender, begin.id);
    var discard := target == INVALID_CLIENT || target == sender;
    AddValid(sh.routes, l, target, begin.size, discard);
    var (_, result, to, replaced) := Add(sh.routes, l, target, begin.size, discard);
    assert Live(sh.routes.table, k);
    match result
    case AddReady =>
      BeginElsewhere(user, begin, l, to, sender, k, e.outbound);
    case AddDuplicate =>
      assert replaced.target != INVALID_CLIENT ==> Live(sh.routes.table, l);
      ToldElsewhere(replaced, sender, DUPLICATE, k, e.outbound);
    case AddFull => ToldElsewhere(NO_ENDPOINT, sender, LIMIT_REACHED, k, e.outbound);
    case AddIdUnavailable => assert false;
    case AddDiscard =>
      ToldElsewhere(NO_ENDPOINT, sender, if target == sender then TO_YOURSELF else NOT_CONNECTED, k, e.outbound);
  }

  /** One micro-step of another key's handler spares the route of k and its session. */
  ghost predicate Spared(sh: Shared, sh': Shared, k: Key, e: Entry, t: nat)
    requires e.Forwarding?
  {
    Held(sh', k, e) && Grew(Reg.Log(sh.registry, t), Reg.Log(sh'.registry, t), e.outbound, [])
  }

  lemma SparedTwice(a: Shared, b: Shared, c: Shared, k: Key, e: Entry, t: nat)
    requires e.Forwarding? && Spared(a, b, k, e, t) && Spared(b, c, k, e, t)
    ensures Spared(a, c, k, e, t)
  {
    GrewTwice(Reg.Log(a.registry, t), Reg.Log(b.registry, t), Reg.Log(c.registry, t), e.outbound, [], []);
  }

  lemma AdvanceSpares(sh: Shared, sender: nat, user: seq<Byte>, pc: Pc, k: Key, e: Entry, t: nat)
    requires Held(sh, k, e) && !pc.Idle? && Elsewhere(pc, sender, k, e.outbound)
    ensures var (sh', pc') := Advance(sh, sender, user, pc);
            Spared(sh, sh', k, e, t) && Elsewhere(pc', sender, k, e.outbound)
  {
    ToldElsewhere(NO_ENDPOINT, sender, UNREACHABLE, k, e.outbound);
    ToldElsewhere(NO_ENDPOINT, sender, DISCONNECTED, k, e.outbound);
    match pc
    case LookedUp(begin, target) => AddElsewhere(sh, sender, user, begin, target, k, e);
    case Emitting(todo) =>
      if todo != [] {
        QueueGrows(sh.registry, todo[0].to, todo[0].frame, t, e.outbound);
      }
    case Quarantining(l) => QuarantineValid(sh.routes, l, true);
    case Marking(l, outbound) => PutDiscardValid(sh.routes, l);
    case Rejecting(l) => RejectElsewhere(sh, sender, l, true, k, e);
  }

  lemma {:induction false} RunSpares(sh: Shared, sender: nat, user: seq<Byte>, pc: Pc, k: Key, e: Entry, t: nat)
    requires Held(sh, k, e) && Elsewhere(pc, sender, k, e.outbound)
    ensures Spared(sh, Run(sh, sender, user, pc), k, e, t)
    decreases Remaining(pc)
  {
    if !pc.Idle? {
      AdvanceDecreases(sh, sender, user, pc);
      AdvanceSpares(sh, sender, user, pc, k, e, t);
      var (sh', pc') := Advance(sh, sender, user, pc);
      RunSpares(sh', sender, user, pc', k, e, t);
      SparedTwice(sh, sh', Run(sh', sender, user, pc'), k, e, t);
    }
  }

  // ----- Whole events of other keys -----

  /** The frame is about transfer k of its sender. */
  predicate NamesKey(sender: nat, raw: seq<Byte>, k: Key) {
    sender == k.sender && ReadTransferId(raw) == Some(k.source)
  }

  lemma SpoilElsewhere(sh: Shared, sender: nat, raw: seq<Byte>, keep: bool, k: Key, e: Entry)
    requires Held(sh, k, e) && !NamesKey(sender, raw, k)
    ensures Held(Spoil(sh, sender, raw, keep).0, k, e)
    ensures Elsewhere(Spoil(sh, sender, raw, keep).1, sender, k, e.outbound)
  {
    if ReadTransferId(raw).Some? {
      RejectElsewhere(sh, sender, Key(sender, ReadTransferId(raw).value), keep, k, e);
    } else {
      ToldElsewhere(NO_ENDPOINT, sender, MALFORMED, k, e.outbound);
    }
  }

  lemma DispatchChunkElsewhere(sh: Shared, sender: nat, raw: seq<Byte>, k: Key, e: Entry)
    requires Held(sh, k, e) && !NamesKey(sender, raw, k)
    ensures Held(DispatchChunk(sh, sender, raw).0, k, e)
    ensures Elsewhere(DispatchChunk(sh, sender, raw).1, sender, k, e.outbound)
  {
    if DecodeChunk(raw).None? {
      SpoilElsewhere(sh, sender, raw, true, k, e);
    } else {
      var chunk := DecodeChunk(raw).value;
      var l := Key(sender, chunk.id);
      var (_, result, to) := AcceptChunk(sh.routes, l, |chunk.data|);
      AcceptChunkValid(sh.routes, l, |chunk.data|);
      assert Live(sh.routes.table, k);
      assert l in sh.routes.table && sh.routes.table[l].Forwarding? ==> Live(sh.routes.table, l);
      ToldElsewhere(NO_ENDPOINT, sender, NO_BEGIN, k, e.outbound);
      ToldElsewhere(if result == ChunkOverrun then to else NO_ENDPOINT, sender, OVERRUN, k, e.outbound);
      if result == ChunkReady {
        ChunkElsewhere(chunk, l, to, sender, k, e.outbound);
      }
    }
  }

  lemma FinishElsewhere(sh: Shared, l: Key, validate: bool, k: Key, e: Entry)
    requires Held(sh, k, e) && l != k
    ensures Held(sh.(routes := Finish(sh.routes, l, validate).0), k, e)
    ensures var to := Finish(sh.routes, l, validate).2; to.target == INVALID_CLIENT || to.outbound != e.outbound
  {
    RouteSpec.RemoveValid(sh.routes, l);
    assert Live(sh.routes.table, k);
    assert l in sh.routes.table && sh.routes.table[l].Forwarding? ==> Live(sh.routes.table, l);
  }

  lemma DispatchEndElsewhere(sh: Shared, sender: nat, raw: seq<Byte>, k: Key, e: Entry)
    requires Held(sh, k, e) && !NamesKey(sender, raw, k)
    ensures Held(DispatchEnd(sh, sender, raw).0, k, e)
    ensures Elsewhere(DispatchEnd(sh, sender, raw).1, sender, k, e.outbound)
  {
    if DecodeControl(raw, FILE_END).None? {
      SpoilElsewhere(sh, sender, raw, false, k, e);
    } else {
      var l := Key(sender, DecodeControl(raw, FILE_END).value);
      FinishElsewhere(sh, l, true, k, e);
      var (_, result, to) := Finish(sh.routes, l, true);
      ToldElsewhere(NO_ENDPOINT, sender, NO_BEGIN, k, e.outbound);
      ToldElsewhere(to, sender, INCOMPLETE, k, e.outbound);
      if result == FinishReady {
        assert l in sh.routes.table && ValidEntry(sh.routes.table[l]);
        ErrorIsAbout(to.outbound, e.outbound);
      }
    }
  }

  lemma DispatchErrorElsewhere(sh: Shared, sender: nat, raw: seq<Byte>, k: Key, e: Entry)
    requires Held(sh, k, e) && !NamesKey(sender, raw, k)
    ensures Held(DispatchError(sh, sender, raw).0, k, e)
    ensures Elsewhere(DispatchError(sh, sender, raw).1, sender, k, e.outbound)
  {
    if DecodeControl(raw, FILE_ERROR).None? {
      SpoilElsewhere(sh, sender, raw, false, k, e);
    } else {
      var l := Key(sender, DecodeControl(raw, FILE_ERROR).value);
      FinishElsewhere(sh, l, false, k, e);
      ToldElsewhere(Finish(sh.routes, l, false).2, sender, NO_BEGIN, k, e.outbound);
    }
  }

  lemma DispatchElsewhere(sh: Shared, sender: nat, user: seq<Byte>, raw: seq<Byte>, k: Key, e: Entry)
    requires Held(sh, k, e) && !NamesKey(sender, raw, k)
    ensures Held(Dispatch(sh, sender, user, raw).0, k, e)
    ensures Elsewhere(Dispatch(sh, sender, user, raw).1, sender, k, e.outbound)
    ensures Dispatch(sh, sender, user, raw).0.registry == sh.registry
  {
    ToldElsewhere(NO_ENDPOINT, sender, TOO_LARGE, k, e.outbound);
    ToldElsewhere(NO_ENDPOINT, sender, BAD_TYPE, k, e.outbound);
    ToldElsewhere(NO_ENDPOINT, sender, BAD_SENDER, k, e.outbound);
    if raw != [] && raw[0] == FILE_BEGIN {
      SpoilElsewhere(sh, sender, raw, true, k, e);
    } else if raw != [] && raw[0] == FILE_CHUNK {
      DispatchChunkElsewhere(sh, sender, raw, k, e);
    } else if raw != [] && raw[0] == FILE_END {
      DispatchEndElsewhere(sh, sender, raw, k, e);
    } else if raw != [] && raw[0] == FILE_ERROR {
      DispatchErrorElsewhere(sh, sender, raw, k, e);
    }
  }

  lemma HandleSpares(sh: Shared, sender: nat, user: seq<Byte>, raw: seq<Byte>, k: Key, e: Entry, t: nat)
    requires Held(sh, k, e) && !NamesKey(sender, raw, k)
    ensures Spared(sh, HandleFrame(sh, sender, user, raw), k, e, t)
  {
    DispatchElsewhere(sh, sender, user, raw, k, e);
    var (sh', pc) := Dispatch(sh, sender, user, raw);
    RunSpares(sh', sender, user, pc, k, e, t);
  }

  // ----- Departures of others -----

  lemma {:induction false} SendAllGrows(r: Reg.Registry, todo: seq<Emission>, t: nat, o: Word)
    requires forall i :: 0 <= i < |todo| ==> !About(todo[i].frame, o)
    ensures Grew(Reg.Log(r, t), Reg.Log(SendAll(r, todo), t), o, [])
    decreases |todo|
  {
    if todo != [] {
      var r' := Reg.Queue(r, todo[0].to, todo[0].frame).0;
      QueueGrows(r, todo[0].to, todo[0].frame, t, o);
      SendAllGrows(r', todo[1..], t, o);
      GrewTwice(Reg.Log(r, t), Reg.Log(r', t), Reg.Log(SendAll(r, todo), t), o, [], []);
    }
  }

  lemma DepartSpares(sh: Shared, id: nat, order: seq<Key>, k: Key, e: Entry, t: nat)
    requires Held(sh, k, e) && AbortOrder(sh.routes.table, id, order) && id != k.sender && id != e.target
    ensures Spared(sh, Serial.Depart(sh, id, order), k, e, t)
  {
    AbortValid(sh.routes, id);
    var todo := SweepTodo(sh.routes.table, id, order);
    forall i | 0 <= i < |todo| ensures !About(todo[i].frame, e.outbound) {
      assert NeedsAction(sh.routes.table, order[i], id) && Live(sh.routes.table, k) && order[i] != k;
      NoticeIsOther(DISCONNECTED, e.outbound);
      ErrorIsAbout(sh.routes.table[order[i]].outbound, e.outbound);
    }
    SendAllGrows(Reg.Remove(sh.registry, id), todo, t, e.outbound);
  }
}
