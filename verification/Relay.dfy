/** All worker threads of the server running together, interleaved at lock granularity:
    logins, file frames, chat traffic, slow clients and disconnects in any order. */
module Relay {
  import opened Bytes
  import opened FileProtocol
  import opened RouteSpec
  import opened Sessions
  import opened RelaySpec
  import Reg = RegistrySpec

  /** The life of one connection's thread (handle_client in server.c). */
  datatype Phase =
    | Joining                       // registered, login reply not yet sent
    | Serving(pc: Pc)               // in the worker loop or inside a file frame handler
    | Removed                       // out of the registry, routes not yet aborted
    | Closing(todo: seq<Emission>)  // routes aborted, telling the other endpoints
    | Gone

  datatype System = System(sh: Shared, phases: map<nat, Phase>)

  datatype Step =
    | Login(name: seq<Byte>)
    | Activate(id: nat)
    | GiveUp(id: nat)                    // the login reply could not be sent
    | Receive(id: nat, raw: seq<Byte>)   // a file frame is dispatched
    | Proceed(id: nat)                   // the handler takes its next lock
    | Leave(id: nat)                     // remove_client
    | Sweep(id: nat, order: seq<Key>)    // file_routes_abort_client
    | Close(id: nat)                     // one notification after the sweep
    | TakeFrame(id: nat)                 // the worker dequeues a frame to write
    | Chatter(to: nat, frame: Frame)     // any other traffic queued to a client
    | PublishKey(id: nat, key: seq<Byte>)

  predicate Registered(p: Phase) {
    p.Joining? || p.Serving?
  }

  /** The thread may still own routes: it has not swept them. */
  predicate Alive(p: Phase) {
    p.Serving? || p.Removed?
  }

  function Todo(p: Phase): seq<Emission> {
    if p.Closing? then p.todo else if p.Serving? && p.pc.Emitting? then p.pc.todo else []
  }

  ghost predicate In(sys: System, id: nat, p: Phase) {
    id in sys.phases && sys.phases[id] == p
  }

  ghost predicate Enabled(sys: System, step: Step) {
    match step
    case Login(_) => true
    case Activate(id) => In(sys, id, Joining)
    case GiveUp(id) => In(sys, id, Joining)
    case Receive(id, _) => In(sys, id, Serving(Idle))
    case Proceed(id) => id in sys.phases && sys.phases[id].Serving? && !sys.phases[id].pc.Idle?
    case Leave(id) => In(sys, id, Serving(Idle))
    case Sweep(id, order) => In(sys, id, Removed) && AbortOrder(sys.sh.routes.table, id, order)
    case Close(id) => id in sys.phases && sys.phases[id].Closing?
    case TakeFrame(_) => true
    case Chatter(_, frame) => frame.kind > FILE_ERROR
    case PublishKey(_, key) => |key| == PUBLIC_KEY_SIZE
  }

  ghost function NameOf(sys: System, id: nat): seq<Byte> {
    if id in sys.sh.registry.clients then sys.sh.registry.clients[id].name else []
  }

  ghost function SweepTodo(table: map<Key, Entry>, id: nat, order: seq<Key>): (todo: seq<Emission>)
    requires forall k :: k in order ==> Live(table, k)
    ensures |todo| == |order|
    ensures forall i :: 0 <= i < |order| ==> todo[i] == EmissionOf(ActionFor(table, order[i], id))
  {
    seq(|order|, i requires 0 <= i < |order| =>
      EmissionOf(ActionFor(table, order[i], id)))
  }

  ghost function SetRegistry(sys: System, r: Reg.Registry): System {
    sys.(sh := sys.sh.(registry := r))
  }

  ghost function SetPhase(sys: System, id: nat, p: Phase): System {
    sys.(phases := sys.phases[id := p])
  }

  ghost function Apply(sys: System, step: Step): System
    requires Enabled(sys, step)
  {
    var registry := sys.sh.registry;
    match step
    case Login(name) =>
      var (r, result) := Reg.Login(registry, name);
      if result.LoggedIn? then SetPhase(SetRegistry(sys, r), result.id, Joining) else sys
    case Activate(id) => SetPhase(SetRegistry(sys, Reg.Activate(registry, id)), id, Serving(Idle))
    case GiveUp(id) => SetPhase(SetRegistry(sys, Reg.Remove(registry, id)), id, Gone)
    case Receive(id, raw) =>
      var (sh, pc) := Dispatch(sys.sh, id, NameOf(sys, id), raw);
      System(sh, sys.phases[id := Serving(pc)])
    case Proceed(id) =>
      var (sh, pc) := RelaySpec.Advance(sys.sh, id, NameOf(sys, id), sys.phases[id].pc);
      System(sh, sys.phases[id := Serving(pc)])
    case Leave(id) => SetPhase(SetRegistry(sys, Reg.Remove(registry, id)), id, Removed)
    case Sweep(id, order) =>
      var table := sys.sh.routes.table;
      System(sys.sh.(routes := sys.sh.routes.(table := AbortTable(table, id))),
             sys.phases[id := Closing(SweepTodo(table, id, order))])
    case Close(id) =>
      var todo := sys.phases[id].todo;
      if todo == [] then SetPhase(sys, id, Gone)
      else SetPhase(SetRegistry(sys, Reg.Queue(registry, todo[0].to, todo[0].frame).0), id, Closing(todo[1..]))
    case TakeFrame(id) => SetRegistry(sys, Reg.Take(registry, id).0)
    case Chatter(to, frame) => SetRegistry(sys, Reg.Queue(registry, to, frame).0)
    case PublishKey(id, key) => SetRegistry(sys, Reg.RegisterKey(registry, id, key).0)
  }

  ghost function Start(clients: nat, routes: Capacity): System {
    System(Shared(Reg.Init(clients), Routes(routes, 1, map[])), map[])
  }

  // ----- Invariant: phases and registry agree -----

  ghost predicate Seated(sys: System, id: nat) {
    && (id in sys.phases <==> id in sys.sh.registry.log)
    && (id in sys.sh.registry.clients <==> id in sys.phases && Registered(sys.phases[id]))
    && (In(sys, id, Joining) ==>
          var c := sys.sh.registry.clients[id];
          !c.ready && !c.failed && Reg.Log(sys.sh.registry, id) == [])
  }

  ghost predicate Seating(sys: System) {
    forall id :: Seated(sys, id)
  }

  /** The client was activated once and will never accept another frame. */
  ghost predicate Dead(sys: System, id: nat) {
    id in sys.phases && !sys.phases[id].Joining? && !Reg.Accepting(sys.sh.registry, id)
  }

  ghost predicate Known(sys: System, id: nat) {
    id in sys.phases && !sys.phases[id].Joining?
  }

  // ----- Invariant: no route outlives its endpoints -----

  /** The sender of k is between adding the route and learning whether BEGIN was queued. */
  ghost predicate Starting(p: Phase, k: Key) {
    p == Serving(Quarantining(k)) || Unsent(p, k)
  }

  ghost predicate Owned(sys: System, k: Key) {
    && k.sender in sys.phases && Alive(sys.phases[k.sender])
    && (Live(sys.sh.routes.table, k) ==>
          var target := sys.sh.routes.table[k].target;
          && Known(sys, target) && target != k.sender
          && (Alive(sys.phases[target]) || Starting(sys.phases[k.sender], k)))
  }

  ghost predicate Ownership(sys: System) {
    forall k :: k in sys.sh.routes.table ==> Owned(sys, k)
  }

  // ----- Invariant: what threads are about to do fits the table -----

  ghost predicate FreshBegin(sys: System, e: Emission, k: Key, b: Begin) {
    k in sys.sh.routes.table && sys.sh.routes.table[k] == Forwarding(e.to, b.id, b.size, 0)
  }

  ghost predicate FreshChunk(sys: System, e: Emission, k: Key, c: Chunk) {
    && Live(sys.sh.routes.table, k)
    && sys.sh.routes.table[k].target == e.to && sys.sh.routes.table[k].outbound == c.id
    && |c.data| <= sys.sh.routes.table[k].forwarded
  }

  ghost predicate Planned(sys: System, id: nat, e: Emission, only: bool) {
    && Fits(e.frame)
    && match Meaning(e.frame)
       case OtherEvent => e.onFail == Ignore
       case EndEvent(_) => Known(sys, e.to) && e.onFail == ThenNotify && only
       case ErrorEvent(_) => Known(sys, e.to) && e.onFail == Ignore
       case BeginEvent(b) =>
         && only && Known(sys, e.to) && e.onFail.ThenQuarantine? && e.onFail.key.sender == id
         && if Live(sys.sh.routes.table, e.onFail.key) then FreshBegin(sys, e, e.onFail.key, b) else Dead(sys, e.to)
       case ChunkEvent(c) =>
         && only && Known(sys, e.to) && e.onFail.ThenMark? && e.onFail.key.sender == id && e.onFail.outbound == c.id
         && if Live(sys.sh.routes.table, e.onFail.key) then FreshChunk(sys, e, e.onFail.key, c) else Dead(sys, e.to)
  }

  ghost predicate DeadEnd(sys: System, id: nat, k: Key) {
    k.sender == id && (Live(sys.sh.routes.table, k) ==> Dead(sys, sys.sh.routes.table[k].target))
  }

  ghost predicate PcPlanned(sys: System, id: nat, pc: Pc) {
    match pc
    case Idle => true
    case LookedUp(begin, target) => ValidBegin(begin) && (target == INVALID_CLIENT || Known(sys, target))
    case Emitting(todo) => todo != []
    case Quarantining(k) => DeadEnd(sys, id, k)
    case Marking(k, _) => DeadEnd(sys, id, k)
    case Rejecting(_) => false
  }

  ghost predicate PlannedAll(sys: System, id: nat)
    requires id in sys.phases
  {
    && (sys.phases[id].Serving? ==> PcPlanned(sys, id, sys.phases[id].pc))
    && forall i :: 0 <= i < |Todo(sys.phases[id])| ==>
         Planned(sys, id, Todo(sys.phases[id])[i], sys.phases[id].Serving? && |Todo(sys.phases[id])| == 1)
  }

  ghost predicate Plans(sys: System) {
    forall id :: id in sys.phases ==> PlannedAll(sys, id)
  }

  // ----- Invariant: logs keep to the grammar and agree with the routes -----

  ghost function SessionAt(r: Reg.Registry, target: nat, outbound: nat): Session {
    SessionOf(Reg.Log(r, target), outbound)
  }

  /** Emission e is a terminal frame of session `outbound` of `target`. */
  ghost predicate Closes(e: Emission, target: nat, outbound: nat) {
    e.to == target && Terminates(Meaning(e.frame), outbound)
  }

  /** The i-th frame that thread id still has to send ends session `outbound` of `target`. */
  ghost predicate Ends(phases: map<nat, Phase>, id: nat, i: nat, target: nat, outbound: nat) {
    id in phases && i < |Todo(phases[id])| && Closes(Todo(phases[id])[i], target, outbound)
  }

  /** Some thread still has to end the session. */
  ghost predicate HeldByEnd(phases: map<nat, Phase>, target: nat, outbound: nat) {
    exists id, i :: Ends(phases, id, i, target, outbound)
  }

  ghost predicate HeldByRoute(table: map<Key, Entry>, target: nat, outbound: nat) {
    exists k :: Live(table, k) && table[k].target == target && table[k].outbound == outbound
  }

  /** The thread has added route k and not yet tried to send its BEGIN. */
  ghost predicate Unsent(p: Phase, k: Key) {
    Todo(p) != [] && Todo(p)[0].onFail == ThenQuarantine(k)
  }

  /** What the target's log says about live route k, given what its sender still has to send. */
  ghost function Sent(p: Phase, k: Key, e: Entry): Session
    requires e.Forwarding?
  {
    if Unsent(p, k) then Closed
    else if Todo(p) != [] && Todo(p)[0].onFail.ThenMark? && Todo(p)[0].onFail.key == k
            && Meaning(Todo(p)[0].frame).ChunkEvent?
            && |Meaning(Todo(p)[0].frame).chunk.data| <= e.forwarded then
      Open(e.expected, e.forwarded - |Meaning(Todo(p)[0].frame).chunk.data|)
    else Open(e.expected, e.forwarded)
  }

  /** While its BEGIN is unsent, the id of a route may still have an older session to be ended. */
  ghost predicate RouteAgrees(sys: System, k: Key) {
    Live(sys.sh.routes.table, k) && k.sender in sys.phases && sys.phases[k.sender] != Serving(Quarantining(k)) &&
    Reg.Accepting(sys.sh.registry, sys.sh.routes.table[k].target) ==>
      var e := sys.sh.routes.table[k];
      || SessionAt(sys.sh.registry, e.target, e.outbound) == Sent(sys.phases[k.sender], k, e)
      || (Unsent(sys.phases[k.sender], k) && HeldByEnd(sys.phases, e.target, e.outbound))
  }

  /** The session that emission e ends is open, and complete if e is an END. */
  ghost predicate ReadyFor(s: Session, e: Emission) {
    s.Open? && (Meaning(e.frame).EndEvent? ==> s.received == s.declared)
  }

  ghost predicate EndAgrees(sys: System, id: nat, i: nat, target: nat, outbound: nat) {
    Ends(sys.phases, id, i, target, outbound) && Reg.Accepting(sys.sh.registry, target) ==>
      ReadyFor(SessionAt(sys.sh.registry, target, outbound), Todo(sys.phases[id])[i])
  }

  ghost predicate NoStray(sys: System, target: nat, outbound: nat) {
    && SessionAt(sys.sh.registry, target, outbound) != Broken
    && (Reg.Accepting(sys.sh.registry, target) && SessionAt(sys.sh.registry, target, outbound) != Closed ==>
          HeldByRoute(sys.sh.routes.table, target, outbound) || HeldByEnd(sys.phases, target, outbound))
  }

  /** A session has one thread to end it. */
  ghost predicate OneEnd(phases: map<nat, Phase>) {
    forall id, i, id', i', t, o :: Ends(phases, id, i, t, o) && Ends(phases, id', i', t, o) ==> id == id' && i == i'
  }

  /** A route whose id has an older session to be ended is still starting. */
  ghost predicate Waits(sys: System, k: Key) {
    Live(sys.sh.routes.table, k) && k.sender in sys.phases
    && HeldByEnd(sys.phases, sys.sh.routes.table[k].target, sys.sh.routes.table[k].outbound) ==>
      Starting(sys.phases[k.sender], k)
  }

  ghost predicate RoutesAgree(sys: System) {
    forall k :: RouteAgrees(sys, k)
  }

  ghost predicate EndsAgree(sys: System) {
    forall id, i, t, o :: EndAgrees(sys, id, i, t, o)
  }

  ghost predicate NoStrays(sys: System) {
    forall t, o :: NoStray(sys, t, o)
  }

  ghost predicate AllWait(sys: System) {
    forall k :: Waits(sys, k)
  }

  ghost predicate Grammar(sys: System) {
    RoutesAgree(sys) && EndsAgree(sys) && NoStrays(sys) && OneEnd(sys.phases) && AllWait(sys)
  }

  ghost predicate Inv(sys: System) {
    && Reg.Valid(sys.sh.registry) && RouteSpec.Valid(sys.sh.routes)
    && Seating(sys) && Ownership(sys) && Plans(sys) && Grammar(sys)
  }
}
