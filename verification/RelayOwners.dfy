/** No route outlives its endpoints, under every interleaving and however the id counter
    wraps: an invariant of its own, independent of the grammar of the logs. */
module RelayOwners {
  import opened Bytes
  import opened FileProtocol
  import opened RouteSpec
  import opened Sessions
  import opened RelaySpec
  import opened Relay
  import opened RelayEnds
  import opened RelayProof
  import opened RelayTheorems
  import opened RelayRuns
  import Reg = RegistrySpec

  // ----- What threads are about to do -----

  ghost predicate MeantEmission(sys: System, id: nat, e: Emission, only: bool) {
    match e.onFail
    case ThenQuarantine(k) =>
      && only && k.sender == id && Known(sys, e.to)
      && (Live(sys.sh.routes.table, k) ==> sys.sh.routes.table[k].target == e.to)
    case ThenMark(k, _) => k.sender == id
    case _ => true
  }

  ghost predicate MeantPc(sys: System, id: nat, pc: Pc) {
    match pc
    case Idle => true
    case LookedUp(begin, target) => ValidBegin(begin) && (target == INVALID_CLIENT || Known(sys, target))
    case Emitting(todo) => forall i :: 0 <= i < |todo| ==> MeantEmission(sys, id, todo[i], |todo| == 1)
    case Quarantining(k) => k.sender == id
    case Marking(k, _) => k.sender == id
    case Rejecting(k) => k.sender == id
  }

  ghost predicate Meant(sys: System, id: nat)
    requires id in sys.phases
  {
    match sys.phases[id]
    case Serving(pc) => MeantPc(sys, id, pc)
    case Closing(todo) => forall i :: 0 <= i < |todo| ==> todo[i].onFail == Ignore
    case _ => true
  }

  ghost predicate Intentions(sys: System) {
    forall id :: id in sys.phases ==> Meant(sys, id)
  }

  ghost predicate Orderly(sys: System) {
    && Reg.Valid(sys.sh.registry) && RouteSpec.Valid(sys.sh.routes)
    && Seating(sys) && Ownership(sys) && Intentions(sys)
  }

  // ----- Steps that leave the routes alone -----

  /** Thread id moves from one phase to another; nobody loses a route by it. */
  ghost predicate Shifts(sys: System, sys': System, id: nat) {
    && sys'.sh.routes == sys.sh.routes
    && id in sys'.phases && (forall j :: j != id ==> (j in sys.phases <==> j in sys'.phases))
    && (forall j :: j != id && j in sys.phases ==> sys'.phases[j] == sys.phases[j])
    && (id in sys.phases ==>
          && !sys'.phases[id].Joining?
          && (Alive(sys.phases[id]) ==> Alive(sys'.phases[id]))
          && (forall k :: Starting(sys.phases[id], k) ==> Starting(sys'.phases[id], k)))
  }

  lemma MoveKeeps(sys: System, sys': System, id: nat, k: Key)
    requires Shifts(sys, sys', id) && k in sys.sh.routes.table && Owned(sys, k)
    ensures Owned(sys', k)
  {
  }

  lemma MoveMeant(sys: System, sys': System, id: nat, j: nat)
    requires Shifts(sys, sys', id) && j in sys.phases && j != id && Meant(sys, j)
    ensures Meant(sys', j)
  {
    assert forall t :: Known(sys, t) ==> Known(sys', t);
  }

  lemma MoveOrderly(sys: System, sys': System, id: nat)
    requires Ownership(sys) && Intentions(sys) && Shifts(sys, sys', id) && Meant(sys', id)
    ensures Ownership(sys') && Intentions(sys')
  {
    forall k | k in sys'.sh.routes.table ensures Owned(sys', k) {
      MoveKeeps(sys, sys', id, k);
    }
    forall j | j in sys'.phases ensures Meant(sys', j) {
      if j != id {
        MoveMeant(sys, sys', id, j);
      }
    }
  }

  /** Registry operations on registered clients keep everyone's seat. */
  ghost predicate SameSeats(r: Reg.Registry, r': Reg.Registry) {
    && (forall j :: j in r'.clients <==> j in r.clients)
    && (forall j :: j in r'.log <==> j in r.log)
    && (forall j :: j in r.clients && !r.clients[j].ready && !r.clients[j].failed ==>
          !r'.clients[j].ready && !r'.clients[j].failed && Reg.Log(r', j) == Reg.Log(r, j))
  }

  lemma SeatKept(sys: System, sys': System, j: nat)
    requires Seated(sys, j) && SameSeats(sys.sh.registry, sys'.sh.registry)
    requires j in sys'.phases <==> j in sys.phases
    requires j in sys.phases ==> (Registered(sys'.phases[j]) <==> Registered(sys.phases[j]))
    requires In(sys', j, Joining) ==> In(sys, j, Joining)
    ensures Seated(sys', j)
  {
  }

  lemma QueueSeats(r: Reg.Registry, to: nat, f: Frame)
    requires Reg.Valid(r)
    ensures SameSeats(r, Reg.Queue(r, to, f).0)
  {
  }

  lemma TakeSeats(r: Reg.Registry, id: nat)
    requires Reg.Valid(r)
    ensures SameSeats(r, Reg.Take(r, id).0)
  {
  }

  lemma KeySeats(r: Reg.Registry, id: nat, key: seq<Byte>)
    ensures SameSeats(r, Reg.RegisterKey(r, id, key).0)
  {
  }

  // ----- Thread steps -----

  /** A handler step touches only routes of its own sender, and leaves the live ones among
      them with an endpoint that will still be swept, or under observation. */
  ghost predicate Sound(sys: System, id: nat, sh': Shared, pc': Pc) {
    && (forall k: Key :: k.sender != id ==> SameEntry(sys.sh.routes.table, sh'.routes.table, k))
    && (forall k: Key :: k.sender == id && Live(sh'.routes.table, k) ==>
          var t := sh'.routes.table[k].target;
          Known(sys, t) && t != id && (Alive(sys.phases[t]) || Starting(Serving(pc'), k)))
  }

  ghost function Stepped(sys: System, id: nat, sh': Shared, pc': Pc): System {
    System(sh', sys.phases[id := Serving(pc')])
  }

  lemma SoundOwned(sys: System, id: nat, sh': Shared, pc': Pc, k: Key)
    requires Ownership(sys) && id in sys.phases && sys.phases[id].Serving? && Sound(sys, id, sh', pc')
    requires k in sh'.routes.table
    ensures Owned(Stepped(sys, id, sh', pc'), k)
  {
    if k.sender != id {
      assert SameEntry(sys.sh.routes.table, sh'.routes.table, k) && Owned(sys, k);
      assert Live(sh'.routes.table, k) ==> Live(sys.sh.routes.table, k);
    }
  }

  lemma SoundMeant(sys: System, id: nat, sh': Shared, pc': Pc, j: nat)
    requires Intentions(sys) && id in sys.phases && sys.phases[id].Serving? && Sound(sys, id, sh', pc')
    requires j in sys.phases && j != id
    ensures Meant(Stepped(sys, id, sh', pc'), j)
  {
    var sys' := Stepped(sys, id, sh', pc');
    assert Meant(sys, j);
    assert forall t :: Known(sys, t) ==> Known(sys', t);
    forall k: Key | k.sender == j ensures SameEntry(sys.sh.routes.table, sh'.routes.table, k) {
    }
  }

  lemma SoundOrderly(sys: System, id: nat, sh': Shared, pc': Pc)
    requires Orderly(sys) && id in sys.phases && sys.phases[id].Serving? && Sound(sys, id, sh', pc')
    requires Reg.Valid(sh'.registry) && RouteSpec.Valid(sh'.routes) && SameSeats(sys.sh.registry, sh'.registry)
    requires MeantPc(Stepped(sys, id, sh', pc'), id, pc')
    ensures Orderly(Stepped(sys, id, sh', pc'))
  {
    var sys' := Stepped(sys, id, sh', pc');
    forall k | k in sys'.sh.routes.table ensures Owned(sys', k) {
      SoundOwned(sys, id, sh', pc', k);
    }
    forall j | j in sys'.phases ensures Meant(sys', j) {
      if j != id {
        SoundMeant(sys, id, sh', pc', j);
      }
    }
    StepSeats(sys, id, sh', pc');
  }

  lemma StepSeats(sys: System, id: nat, sh': Shared, pc': Pc)
    requires Seating(sys) && id in sys.phases && sys.phases[id].Serving? && SameSeats(sys.sh.registry, sh'.registry)
    ensures Seating(Stepped(sys, id, sh', pc'))
  {
    var sys' := Stepped(sys, id, sh', pc');
    forall j ensures Seated(sys', j) {
      assert Seated(sys, j);
      SeatKept(sys, sys', j);
    }
  }

  /** Live routes only disappear, and none of this sender's was still starting. */
  ghost predicate OnlyShrinks(table: map<Key, Entry>, table': map<Key, Entry>, id: nat) {
    && (forall k: Key :: k.sender == id && Live(table', k) ==> Live(table, k) && table'[k].target == table[k].target)
    && (forall k: Key :: k.sender != id ==> SameEntry(table, table', k))
  }

  lemma ShrinkIsSound(sys: System, id: nat, sh': Shared, pc': Pc)
    requires Ownership(sys) && id in sys.phases && OnlyShrinks(sys.sh.routes.table, sh'.routes.table, id)
    requires forall k: Key :: k.sender == id && Live(sh'.routes.table, k) ==> !Starting(sys.phases[id], k)
    ensures Sound(sys, id, sh', pc')
  {
    forall k: Key | k.sender == id && Live(sh'.routes.table, k)
      ensures var t := sh'.routes.table[k].target; Known(sys, t) && t != id && Alive(sys.phases[t])
    {
      assert Owned(sys, k) && Live(sys.sh.routes.table, k);
    }
  }

  // ----- Receiving a frame -----

  ghost predicate Mild(sys: System, id: nat, sh': Shared, pc': Pc) {
    && sh'.registry == sys.sh.registry && RouteSpec.Valid(sh'.routes)
    && OnlyShrinks(sys.sh.routes.table, sh'.routes.table, id)
    && MeantPc(Stepped(sys, id, sh', pc'), id, pc')
  }

  /** A plan that starts no route. */
  ghost predicate Talks(pc: Pc, id: nat) {
    pc.Idle? || (pc.Emitting? && forall i :: 0 <= i < |pc.todo| ==> HarmlessIfFailed(pc.todo[i].onFail, id))
  }

  ghost predicate HarmlessIfFailed(onFail: OnFail, id: nat) {
    match onFail
    case ThenQuarantine(_) => false
    case ThenMark(k, _) => k.sender == id
    case _ => true
  }

  /** A change to one key of the sender that makes nothing live. */
  lemma KeyIsMild(sys: System, id: nat, k: Key, routes': Routes, pc': Pc)
    requires RouteSpec.Valid(routes') && k.sender == id && OnlyKey(sys.sh.routes.table, routes'.table, k) && Talks(pc', id)
    requires Live(routes'.table, k) ==>
               Live(sys.sh.routes.table, k) && routes'.table[k].target == sys.sh.routes.table[k].target
    ensures Mild(sys, id, sys.sh.(routes := routes'), pc')
  {
    var table, table' := sys.sh.routes.table, routes'.table;
    forall l: Key | l.sender == id && Live(table', l) ensures Live(table, l) && table'[l].target == table[l].target {
      assert l != k ==> SameEntry(table, table', l);
    }
  }

  lemma RejectIsMild(sys: System, id: nat, k: Key, keep: bool)
    requires RouteSpec.Valid(sys.sh.routes) && k.sender == id
    ensures var (sh', pc') := Reject(sys.sh, id, k, keep); Mild(sys, id, sh', pc')
  {
    var (sh', pc') := Reject(sys.sh, id, k, keep);
    QuarantineValid(sys.sh.routes, k, keep);
    QuarantineKey(sys.sh.routes, k, keep);
    KeyIsMild(sys, id, k, sh'.routes, pc');
  }

  lemma SpoilIsMild(sys: System, id: nat, raw: seq<Byte>, keep: bool)
    requires RouteSpec.Valid(sys.sh.routes)
    ensures var (sh', pc') := Spoil(sys.sh, id, raw, keep); Mild(sys, id, sh', pc')
  {
    if ReadTransferId(raw).Some? {
      RejectIsMild(sys, id, Key(id, ReadTransferId(raw).value), keep);
    } else {
      NothingIsMild(sys, id, MALFORMED);
    }
  }

  lemma ChunkIsMild(sys: System, id: nat, raw: seq<Byte>)
    requires RouteSpec.Valid(sys.sh.routes)
    ensures var (sh', pc') := DispatchChunk(sys.sh, id, raw); Mild(sys, id, sh', pc')
  {
    match DecodeChunk(raw)
    case None => SpoilIsMild(sys, id, raw, true);
    case Some(c) =>
      var (sh', pc') := DispatchChunk(sys.sh, id, raw);
      ChunkCodec(raw, c);
      AcceptChunkValid(sys.sh.routes, Key(id, c.id), |c.data|);
      AcceptChunkKey(sys.sh.routes, Key(id, c.id), |c.data|);
      KeyIsMild(sys, id, Key(id, c.id), sh'.routes, pc');
  }

  lemma FinishIsMild(sys: System, id: nat, k: Key, validate: bool, pc': Pc)
    requires RouteSpec.Valid(sys.sh.routes) && k.sender == id && Talks(pc', id)
    ensures Mild(sys, id, sys.sh.(routes := Finish(sys.sh.routes, k, validate).0), pc')
  {
    var routes' := Finish(sys.sh.routes, k, validate).0;
    RouteSpec.RemoveValid(sys.sh.routes, k);
    FinishKey(sys.sh.routes, k, validate);
    KeyIsMild(sys, id, k, routes', pc');
  }

  lemma EndIsMild(sys: System, id: nat, raw: seq<Byte>)
    requires RouteSpec.Valid(sys.sh.routes)
    ensures var (sh', pc') := DispatchEnd(sys.sh, id, raw); Mild(sys, id, sh', pc')
  {
    match DecodeControl(raw, FILE_END)
    case None => SpoilIsMild(sys, id, raw, false);
    case Some(source) => FinishIsMild(sys, id, Key(id, source), true, DispatchEnd(sys.sh, id, raw).1);
  }

  lemma ErrorIsMild(sys: System, id: nat, raw: seq<Byte>)
    requires RouteSpec.Valid(sys.sh.routes)
    ensures var (sh', pc') := DispatchError(sys.sh, id, raw); Mild(sys, id, sh', pc')
  {
    match DecodeControl(raw, FILE_ERROR)
    case None => SpoilIsMild(sys, id, raw, false);
    case Some(source) => FinishIsMild(sys, id, Key(id, source), false, DispatchError(sys.sh, id, raw).1);
  }

  lemma BeginIsMild(sys: System, id: nat, user: seq<Byte>, raw: seq<Byte>)
    requires RouteSpec.Valid(sys.sh.routes) && Seating(sys) && In(sys, id, Serving(Idle))
    requires forall c :: c in sys.sh.registry.clients && sys.sh.registry.clients[c].ready ==> Known(sys, c)
    ensures var (sh', pc') := DispatchBegin(sys.sh, id, user, raw); Mild(sys, id, sh', pc')
  {
    if DecodeBegin(raw).None? {
      SpoilIsMild(sys, id, raw, true);
    }
  }

  lemma ReadyIsKnown(sys: System, c: nat)
    requires Seating(sys) && c in sys.sh.registry.clients && sys.sh.registry.clients[c].ready
    ensures Known(sys, c) && Alive(sys.phases[c])
  {
    assert Seated(sys, c);
  }

  lemma NothingIsMild(sys: System, id: nat, tag: Byte)
    requires RouteSpec.Valid(sys.sh.routes)
    ensures Mild(sys, id, sys.sh, Idle) && Mild(sys, id, sys.sh, Emitting([Note(id, tag)]))
  {
  }

  lemma DispatchIsMild(sys: System, id: nat, user: seq<Byte>, raw: seq<Byte>)
    requires RouteSpec.Valid(sys.sh.routes) && Seating(sys) && In(sys, id, Serving(Idle))
    ensures var (sh', pc') := Dispatch(sys.sh, id, user, raw); Mild(sys, id, sh', pc')
  {
    NothingIsMild(sys, id, TOO_LARGE);
    NothingIsMild(sys, id, BAD_TYPE);
    if raw == [] {
    } else if raw[0] == FILE_BEGIN {
      forall c | c in sys.sh.registry.clients && sys.sh.registry.clients[c].ready ensures Known(sys, c) {
        ReadyIsKnown(sys, c);
      }
      BeginIsMild(sys, id, user, raw);
    } else if raw[0] == FILE_CHUNK {
      ChunkIsMild(sys, id, raw);
    } else if raw[0] == FILE_END {
      EndIsMild(sys, id, raw);
    } else if raw[0] == FILE_ERROR {
      ErrorIsMild(sys, id, raw);
    }
  }

  lemma SameSeatsAgain(r: Reg.Registry)
    ensures SameSeats(r, r)
  {
  }

  /** A mild step of a thread that is not starting a route. */
  lemma MildOrderly(sys: System, id: nat, sh': Shared, pc': Pc)
    requires Orderly(sys) && id in sys.phases && sys.phases[id].Serving? && Mild(sys, id, sh', pc')
    requires forall k: Key :: k.sender == id && Live(sh'.routes.table, k) ==> !Starting(sys.phases[id], k)
    ensures Orderly(Stepped(sys, id, sh', pc'))
  {
    ShrinkIsSound(sys, id, sh', pc');
    SameSeatsAgain(sys.sh.registry);
    SoundOrderly(sys, id, sh', pc');
  }

  lemma ReceiveOrderly(sys: System, id: nat, raw: seq<Byte>)
    requires Orderly(sys) && In(sys, id, Serving(Idle))
    ensures Orderly(Apply(sys, Receive(id, raw)))
  {
    var (sh', pc') := Dispatch(sys.sh, id, NameOf(sys, id), raw);
    DispatchIsMild(sys, id, NameOf(sys, id), raw);
    MildOrderly(sys, id, sh', pc');
    ReceiveIs(sys, id, raw);
  }

  lemma ReceiveIs(sys: System, id: nat, raw: seq<Byte>)
    requires In(sys, id, Serving(Idle))
    ensures var (sh', pc') := Dispatch(sys.sh, id, NameOf(sys, id), raw);
            Apply(sys, Receive(id, raw)) == Stepped(sys, id, sh', pc')
  {
  }

  // ----- Going on with one -----

  lemma AddIsSound(sys: System, id: nat, user: seq<Byte>, begin: Begin, target: nat)
    requires RouteSpec.Valid(sys.sh.routes) && Ownership(sys) && In(sys, id, Serving(LookedUp(begin, target)))
    requires ValidPeer(user) && MeantPc(sys, id, LookedUp(begin, target))
    ensures var (sh', pc') := AddRoute(sys.sh, id, user, begin, target);
            && Sound(sys, id, sh', pc') && RouteSpec.Valid(sh'.routes) && MeantPc(Stepped(sys, id, sh', pc'), id, pc')
  {
    var k := Key(id, begin.id);
    var discard := target == INVALID_CLIENT || target == id;
    AddValid(sys.sh.routes, k, target, begin.size, discard);
    var (sh', pc') := AddRoute(sys.sh, id, user, begin, target);
    var (_, result, to, _) := Add(sys.sh.routes, k, target, begin.size, discard);
    if result == AddReady {
      NewRouteIsSound(sys, id, user, begin, target, to, sh');
    } else {
      RefusedIsMild(sys, id, user, begin, target);
      ShrinkIsSound(sys, id, sh', pc');
    }
  }

  lemma RefusedIsMild(sys: System, id: nat, user: seq<Byte>, begin: Begin, target: nat)
    requires RouteSpec.Valid(sys.sh.routes)
    requires Add(sys.sh.routes, Key(id, begin.id), target, begin.size, target == INVALID_CLIENT || target == id).1 != AddReady
    ensures var (sh', pc') := AddRoute(sys.sh, id, user, begin, target); Mild(sys, id, sh', pc')
  {
    var k := Key(id, begin.id);
    var (sh', pc') := AddRoute(sys.sh, id, user, begin, target);
    AddValid(sys.sh.routes, k, target, begin.size, target == INVALID_CLIENT || target == id);
    AddKey(sys.sh.routes, k, target, begin.size, target == INVALID_CLIENT || target == id);
    KeyIsMild(sys, id, k, sh'.routes, pc');
  }

  lemma NewRouteIsSound(sys: System, id: nat, user: seq<Byte>, begin: Begin, target: nat, to: Endpoint, sh': Shared)
    requires Ownership(sys) && In(sys, id, Serving(LookedUp(begin, target))) && ValidPeer(user) && ValidBegin(begin)
    requires Known(sys, target) && target != id && to.target == target
    requires sh'.routes.table == sys.sh.routes.table[Key(id, begin.id) := Forwarding(target, to.outbound, begin.size, 0)]
    ensures var pc' := BeginPc(user, begin, Key(id, begin.id), to);
            Sound(sys, id, sh', pc') && MeantPc(Stepped(sys, id, sh', pc'), id, pc')
  {
    var k, pc' := Key(id, begin.id), BeginPc(user, begin, Key(id, begin.id), to);
    assert Starting(Serving(pc'), k);
    forall l: Key | l.sender == id && Live(sh'.routes.table, l) && l != k
      ensures var t := sh'.routes.table[l].target; Known(sys, t) && t != id && Alive(sys.phases[t])
    {
      assert Live(sys.sh.routes.table, l) && Owned(sys, l);
    }
  }

  lemma EmitIsSound(sys: System, id: nat, todo: seq<Emission>)
    requires Seating(sys) && Ownership(sys) && In(sys, id, Serving(Emitting(todo))) && todo != []
    requires MeantPc(sys, id, Emitting(todo))
    ensures var (sh', pc') := Emit(sys.sh, id, todo);
            Sound(sys, id, sh', pc') && MeantPc(Stepped(sys, id, sh', pc'), id, pc')
  {
    var (sh', pc') := Emit(sys.sh, id, todo);
    assert MeantEmission(sys, id, todo[0], |todo| == 1);
    forall k: Key | k.sender == id && Live(sh'.routes.table, k)
      ensures var t := sh'.routes.table[k].target;
              Known(sys, t) && t != id && (Alive(sys.phases[t]) || Starting(Serving(pc'), k))
    {
      assert Owned(sys, k);
      if Starting(sys.phases[id], k) && Reg.Queue(sys.sh.registry, todo[0].to, todo[0].frame).1 {
        ReadyIsKnown(sys, todo[0].to);
      }
    }
  }

  /** Steps that make nothing live. */
  lemma AdvanceIsMild(sys: System, id: nat, pc: Pc)
    requires RouteSpec.Valid(sys.sh.routes) && In(sys, id, Serving(pc)) && MeantPc(sys, id, pc)
    requires pc == Emitting([]) || pc.Quarantining? || pc.Marking? || pc.Rejecting?
    ensures var (sh', pc') := RelaySpec.Advance(sys.sh, id, NameOf(sys, id), pc);
            && Mild(sys, id, sh', pc')
            && forall k: Key :: k.sender == id && Live(sh'.routes.table, k) ==> !Starting(sys.phases[id], k)
  {
    match pc
    case Emitting(_) => NothingIsMild(sys, id, 0);
    case Quarantining(k) => QuarantineIsMild(sys, id, k);
    case Marking(k, outbound) => MarkIsMild(sys, id, k, outbound);
    case Rejecting(k) => RejectIsMild(sys, id, k, true);
  }

  lemma AdvanceOrderly(sys: System, id: nat)
    requires Orderly(sys) && Enabled(sys, Proceed(id))
    ensures var (sh', pc') := RelaySpec.Advance(sys.sh, id, NameOf(sys, id), sys.phases[id].pc);
            Orderly(Stepped(sys, id, sh', pc'))
  {
    var user, pc := NameOf(sys, id), sys.phases[id].pc;
    var (sh', pc') := RelaySpec.Advance(sys.sh, id, user, pc);
    assert Seated(sys, id) && Meant(sys, id);
    if pc.LookedUp? {
      AddIsSound(sys, id, user, pc.begin, pc.target);
      SameSeatsAgain(sys.sh.registry);
      SoundOrderly(sys, id, sh', pc');
    } else if pc.Emitting? && pc.todo != [] {
      EmitFacts(sys, id, pc.todo, sh', pc');
      SoundOrderly(sys, id, sh', pc');
    } else {
      AdvanceIsMild(sys, id, pc);
      MildOrderly(sys, id, sh', pc');
    }
  }

  lemma QuarantineIsMild(sys: System, id: nat, k: Key)
    requires RouteSpec.Valid(sys.sh.routes) && k.sender == id
    ensures var (sh', pc') := RelaySpec.Advance(sys.sh, id, [], Quarantining(k));
            Mild(sys, id, sh', pc') && !Live(sh'.routes.table, k)
  {
    DiscardIsMild(sys, id, k, Emitting([Note(id, UNREACHABLE)]));
  }

  lemma DiscardIsMild(sys: System, id: nat, k: Key, pc': Pc)
    requires RouteSpec.Valid(sys.sh.routes) && k.sender == id && Talks(pc', id)
    ensures Mild(sys, id, sys.sh.(routes := PutDiscard(sys.sh.routes, k)), pc')
    ensures !Live(PutDiscard(sys.sh.routes, k).table, k)
  {
    var routes' := PutDiscard(sys.sh.routes, k);
    PutDiscardValid(sys.sh.routes, k);
    PutDiscardKey(sys.sh.routes, k);
    KeyIsMild(sys, id, k, routes', pc');
  }

  lemma MarkIsMild(sys: System, id: nat, k: Key, outbound: Word)
    requires RouteSpec.Valid(sys.sh.routes) && k.sender == id
    ensures var (sh', pc') := RelaySpec.Advance(sys.sh, id, [], Marking(k, outbound)); Mild(sys, id, sh', pc')
  {
    DiscardIsMild(sys, id, k, Emitting([Note(id, DISCONNECTED)]));
    NothingIsMild(sys, id, DISCONNECTED);
  }

  /** What SoundOrderly needs of an emission. */
  lemma EmitFacts(sys: System, id: nat, todo: seq<Emission>, sh': Shared, pc': Pc)
    requires Reg.Valid(sys.sh.registry) && Seating(sys) && Ownership(sys) && In(sys, id, Serving(Emitting(todo)))
    requires MeantPc(sys, id, Emitting(todo)) && todo != [] && (sh', pc') == Emit(sys.sh, id, todo)
    ensures Sound(sys, id, sh', pc') && MeantPc(Stepped(sys, id, sh', pc'), id, pc')
    ensures sh'.routes == sys.sh.routes && Reg.Valid(sh'.registry) && SameSeats(sys.sh.registry, sh'.registry)
  {
    EmitIsSound(sys, id, todo);
    EmitSeats(sys.sh, id, todo);
  }

  lemma EmitSeats(sh: Shared, id: nat, todo: seq<Emission>)
    requires Reg.Valid(sh.registry) && todo != []
    ensures var sh' := Emit(sh, id, todo).0;
            sh'.routes == sh.routes && Reg.Valid(sh'.registry) && SameSeats(sh.registry, sh'.registry)
  {
    QueueSeats(sh.registry, todo[0].to, todo[0].frame);
    Reg.QueueValid(sh.registry, todo[0].to, todo[0].frame);
  }

  // ----- The other steps -----

  lemma LoginOrderly(sys: System, name: seq<Byte>)
    requires Orderly(sys)
    ensures Orderly(Apply(sys, Login(name)))
  {
    var result := Reg.Login(sys.sh.registry, name).1;
    if result.LoggedIn? {
      LoginSeats(sys, name);
      MoveOrderly(sys, Apply(sys, Login(name)), result.id);
    }
  }

  lemma LoginSeats(sys: System, name: seq<Byte>)
    requires Reg.Valid(sys.sh.registry) && Seating(sys) && Reg.Login(sys.sh.registry, name).1.LoggedIn?
    ensures var sys', id := Apply(sys, Login(name)), Reg.Login(sys.sh.registry, name).1.id;
            Reg.Valid(sys'.sh.registry) && Seating(sys') && Shifts(sys, sys', id) && Meant(sys', id)
  {
    Reg.LoginValid(sys.sh.registry, name);
    LoginMoves(sys, name);
    assert Seated(sys, sys.sh.registry.next);
    LoginShifts(sys, name);
  }

  lemma LoginShifts(sys: System, name: seq<Byte>)
    requires Reg.Login(sys.sh.registry, name).1.LoggedIn? && sys.sh.registry.next !in sys.phases
    ensures var (r, result) := Reg.Login(sys.sh.registry, name); var sys' := Apply(sys, Login(name));
            && sys' == AfterSend(sys, result.id, r, Joining) && Shifts(sys, sys', result.id) && Meant(sys', result.id)
  {
  }

  /** The thread was starting no route, and its new phase needs no watching. */
  lemma CalmShift(sys: System, id: nat, r: Reg.Registry, p': Phase)
    requires id in sys.phases && (sys.phases[id] in {Joining, Serving(Idle)} || (sys.phases[id].Closing? && Meant(sys, id)))
    requires !p'.Joining? && (Alive(sys.phases[id]) ==> Alive(p'))
    requires p' in {Serving(Idle), Removed, Gone} || (p'.Closing? && forall i :: 0 <= i < |p'.todo| ==> p'.todo[i].onFail == Ignore)
    ensures var sys' := SetPhase(SetRegistry(sys, r), id, p'); Shifts(sys, sys', id) && Meant(sys', id)
  {
    assert forall k :: !Starting(sys.phases[id], k);
  }

  lemma ActivateOrderly(sys: System, id: nat)
    requires Orderly(sys) && In(sys, id, Joining)
    ensures Orderly(Apply(sys, Activate(id)))
  {
    var sys' := Apply(sys, Activate(id));
    CalmShift(sys, id, Reg.Activate(sys.sh.registry, id), Serving(Idle));
    MoveOrderly(sys, sys', id);
    ActivateSeats(sys, id);
  }

  lemma ActivateSeats(sys: System, id: nat)
    requires Reg.Valid(sys.sh.registry) && Seating(sys) && Ownership(sys) && In(sys, id, Joining)
    ensures var sys' := Apply(sys, Activate(id)); Reg.Valid(sys'.sh.registry) && Seating(sys')
  {
    assert Seated(sys, id);
    Reg.ActivateValid(sys.sh.registry, id);
    ActivateStanding(sys, id);
    assert Activated(sys, id) == Apply(sys, Activate(id));
  }

  lemma LeaveOrderly(sys: System, id: nat, p': Phase)
    requires Orderly(sys)
    requires (In(sys, id, Joining) && p' == Gone) || (In(sys, id, Serving(Idle)) && p' == Removed)
    ensures Orderly(SetPhase(SetRegistry(sys, Reg.Remove(sys.sh.registry, id)), id, p'))
  {
    var sys' := SetPhase(SetRegistry(sys, Reg.Remove(sys.sh.registry, id)), id, p');
    CalmShift(sys, id, Reg.Remove(sys.sh.registry, id), p');
    MoveOrderly(sys, sys', id);
    LeaveSeats(sys, id, p');
  }

  lemma LeaveSeats(sys: System, id: nat, p': Phase)
    requires Reg.Valid(sys.sh.registry) && Seating(sys)
    requires (In(sys, id, Joining) && p' == Gone) || (In(sys, id, Serving(Idle)) && p' == Removed)
    ensures var sys' := SetPhase(SetRegistry(sys, Reg.Remove(sys.sh.registry, id)), id, p');
            Reg.Valid(sys'.sh.registry) && Seating(sys')
  {
    Reg.RemoveValid(sys.sh.registry, id);
    RemoveMoves(sys, id, p');
    assert AfterSend(sys, id, Reg.Remove(sys.sh.registry, id), p')
           == SetPhase(SetRegistry(sys, Reg.Remove(sys.sh.registry, id)), id, p');
  }

  /** Traffic that changes no phase. */
  lemma TrafficOrderly(sys: System, r: Reg.Registry)
    requires Orderly(sys) && Reg.Valid(r) && SameSeats(sys.sh.registry, r)
    ensures Orderly(SetRegistry(sys, r))
  {
    var sys' := SetRegistry(sys, r);
    forall j ensures Seated(sys', j) {
      assert Seated(sys, j);
      SeatKept(sys, sys', j);
    }
    forall k | k in sys'.sh.routes.table ensures Owned(sys', k) {
      assert Owned(sys, k);
    }
    forall j | j in sys'.phases ensures Meant(sys', j) {
      assert Meant(sys, j);
      assert forall t :: Known(sys, t) ==> Known(sys', t);
    }
  }

  lemma CloseOrderly(sys: System, id: nat)
    requires Orderly(sys) && Enabled(sys, Close(id))
    ensures Orderly(Apply(sys, Close(id)))
  {
    var todo := sys.phases[id].todo;
    assert Meant(sys, id);
    if todo == [] {
      SameSeatsAgain(sys.sh.registry);
      assert SetRegistry(sys, sys.sh.registry) == sys;
      ClosingOrderly(sys, id, sys.sh.registry, Gone);
    } else {
      Reg.QueueValid(sys.sh.registry, todo[0].to, todo[0].frame);
      QueueSeats(sys.sh.registry, todo[0].to, todo[0].frame);
      ClosingOrderly(sys, id, Reg.Queue(sys.sh.registry, todo[0].to, todo[0].frame).0, Closing(todo[1..]));
    }
  }

  lemma ClosingOrderly(sys: System, id: nat, r: Reg.Registry, p': Phase)
    requires Orderly(sys) && id in sys.phases && sys.phases[id].Closing? && Reg.Valid(r) && SameSeats(sys.sh.registry, r)
    requires p'.Gone? || (p'.Closing? && forall i :: 0 <= i < |p'.todo| ==> p'.todo[i].onFail == Ignore)
    ensures Orderly(SetPhase(SetRegistry(sys, r), id, p'))
  {
    var sys' := SetPhase(SetRegistry(sys, r), id, p');
    assert Meant(sys, id);
    CalmShift(sys, id, r, p');
    MoveOrderly(sys, sys', id);
    ClosingSeats(sys, id, r, p');
  }

  lemma ClosingSeats(sys: System, id: nat, r: Reg.Registry, p': Phase)
    requires Seating(sys) && id in sys.phases && sys.phases[id].Closing? && SameSeats(sys.sh.registry, r)
    requires p'.Gone? || p'.Closing?
    ensures Seating(SetPhase(SetRegistry(sys, r), id, p'))
  {
    var sys' := SetPhase(SetRegistry(sys, r), id, p');
    forall j ensures Seated(sys', j) {
      assert Seated(sys, j);
      SeatKept(sys, sys', j);
    }
  }

  lemma SweepOwned(sys: System, id: nat, order: seq<Key>, k: Key)
    requires Orderly(sys) && Enabled(sys, Sweep(id, order)) && id != INVALID_CLIENT
    requires k in AbortTable(sys.sh.routes.table, id)
    ensures Owned(Apply(sys, Sweep(id, order)), k)
  {
    assert Owned(sys, k);
    AbortLeavesNoTrace(sys.sh.routes.table, id, k);
  }

  lemma SweepMeant(sys: System, id: nat, order: seq<Key>, j: nat)
    requires Intentions(sys) && Enabled(sys, Sweep(id, order)) && j in sys.phases
    ensures Meant(Apply(sys, Sweep(id, order)), j)
  {
    var sys' := Apply(sys, Sweep(id, order));
    assert Meant(sys, j);
    assert forall t :: Known(sys, t) ==> Known(sys', t);
    assert forall k :: Live(sys'.sh.routes.table, k) ==> Live(sys.sh.routes.table, k) && sys'.sh.routes.table[k] == sys.sh.routes.table[k];
  }

  lemma SweepOrderly(sys: System, id: nat, order: seq<Key>)
    requires Orderly(sys) && Enabled(sys, Sweep(id, order))
    ensures Orderly(Apply(sys, Sweep(id, order)))
  {
    var sys' := Apply(sys, Sweep(id, order));
    AbortValid(sys.sh.routes, id);
    assert Seated(sys, id);
    forall k | k in sys'.sh.routes.table ensures Owned(sys', k) {
      SweepOwned(sys, id, order, k);
    }
    forall j | j in sys'.phases ensures Meant(sys', j) {
      SweepMeant(sys, id, order, j);
    }
    SweepSeats(sys, id, order);
  }

  lemma SweepSeats(sys: System, id: nat, order: seq<Key>)
    requires Seating(sys) && Enabled(sys, Sweep(id, order))
    ensures Seating(Apply(sys, Sweep(id, order)))
  {
    var sys' := Apply(sys, Sweep(id, order));
    SameSeatsAgain(sys.sh.registry);
    forall j ensures Seated(sys', j) {
      assert Seated(sys, j);
      SeatKept(sys, sys', j);
    }
  }

  // ----- Every step, every run -----

  lemma StepOrderly(sys: System, step: Step)
    requires Orderly(sys) && Enabled(sys, step)
    ensures Orderly(Apply(sys, step))
  {
    match step
    case Login(name) => LoginOrderly(sys, name);
    case Activate(id) => ActivateOrderly(sys, id);
    case GiveUp(id) => LeaveOrderly(sys, id, Gone);
    case Receive(id, raw) => ReceiveOrderly(sys, id, raw);
    case Proceed(id) => AdvanceOrderly(sys, id);
    case Leave(id) => LeaveOrderly(sys, id, Removed);
    case Sweep(id, order) => SweepOrderly(sys, id, order);
    case Close(id) => CloseOrderly(sys, id);
    case _ => OtherTrafficOrderly(sys, step);
  }

  lemma OtherTrafficOrderly(sys: System, step: Step)
    requires Orderly(sys) && Enabled(sys, step) && (step.TakeFrame? || step.Chatter? || step.PublishKey?)
    ensures Orderly(Apply(sys, step))
  {
    var r := sys.sh.registry;
    match step
    case TakeFrame(id) =>
      Reg.TakeValid(r, id);
      TakeSeats(r, id);
      TrafficOrderly(sys, Reg.Take(r, id).0);
    case Chatter(to, frame) =>
      Reg.QueueValid(r, to, frame);
      QueueSeats(r, to, frame);
      TrafficOrderly(sys, Reg.Queue(r, to, frame).0);
    case PublishKey(id, key) =>
      Reg.RegisterKeyValid(r, id, key);
      KeySeats(r, id, key);
      TrafficOrderly(sys, Reg.RegisterKey(r, id, key).0);
  }

  lemma {:induction false} RunOrderly(sys: System, run: seq<Step>)
    requires Orderly(sys) && Legal(sys, run)
    ensures Orderly(RelayRuns.After(sys, run))
    decreases |run|
  {
    if run != [] {
      StepOrderly(sys, run[0]);
      RunOrderly(Apply(sys, run[0]), run[1..]);
    }
  }

  /** Under every interleaving, with no assumption on ids: once in-flight handlers and
      sweeps are done, every route's sender and every live route's target is registered. */
  lemma NoStaleRoutes(clients: nat, routes: Capacity, run: seq<Step>, k: Key)
    requires Legal(Start(clients, routes), run) && Quiet(RelayRuns.After(Start(clients, routes), run))
    requires k in RelayRuns.After(Start(clients, routes), run).sh.routes.table
    ensures var sh := RelayRuns.After(Start(clients, routes), run).sh;
            && k.sender in sh.registry.clients
            && (Live(sh.routes.table, k) ==> sh.routes.table[k].target in sh.registry.clients)
  {
    StartOrderly(clients, routes);
    RunOrderly(Start(clients, routes), run);
    OwnersRegistered(RelayRuns.After(Start(clients, routes), run), k);
  }

  lemma StartOrderly(clients: nat, routes: Capacity)
    ensures Orderly(Start(clients, routes))
  {
  }

  lemma OwnersRegistered(sys: System, k: Key)
    requires Seating(sys) && Ownership(sys) && Quiet(sys) && k in sys.sh.routes.table
    ensures k.sender in sys.sh.registry.clients
    ensures Live(sys.sh.routes.table, k) ==> sys.sh.routes.table[k].target in sys.sh.registry.clients
  {
    assert Owned(sys, k) && Seated(sys, k.sender);
    if Live(sys.sh.routes.table, k) {
      assert Seated(sys, sys.sh.routes.table[k].target);
    }
  }

  /** In particular a server that everybody has left routes nothing. */
  lemma EmptyServerHasNoRoutes(clients: nat, routes: Capacity, run: seq<Step>)
    requires Legal(Start(clients, routes), run) && Quiet(RelayRuns.After(Start(clients, routes), run))
    requires RelayRuns.After(Start(clients, routes), run).sh.registry.clients == map[]
    ensures RelayRuns.After(Start(clients, routes), run).sh.routes.table == map[]
  {
    var table := RelayRuns.After(Start(clients, routes), run).sh.routes.table;
    forall k ensures k !in table {
      if k in table {
        NoStaleRoutes(clients, routes, run, k);
      }
    }
  }
}
