/** What one worker thread does with a file frame (server_files.c), cut at its lock
    acquisitions: between two micro-steps any other thread may run. */
module RelaySpec {
  import opened Bytes
  import opened FileProtocol
  import opened RouteSpec
  import opened Sessions
  import Reg = RegistrySpec

  /** The two locked structures of the server. */
  datatype Shared = Shared(registry: Reg.Registry, routes: Routes)

  /** What the thread does when a frame cannot be queued. */
  datatype OnFail =
    | Ignore
    | ThenNotify
    | ThenQuarantine(key: Key)
    | ThenMark(key: Key, outbound: Word)

  datatype Emission = Emission(to: nat, frame: Frame, onFail: OnFail)

  /** Where a thread stands inside a frame handler. */
  datatype Pc =
    | Idle
    | LookedUp(begin: Begin, target: nat)
    | Emitting(todo: seq<Emission>)
    | Quarantining(key: Key)
    | Marking(key: Key, outbound: Word)
    | Rejecting(key: Key)

  // ----- Notices to the sender, one tag per wording -----

  const TOO_LARGE: Byte := 1
  const BAD_TYPE: Byte := 2
  const BAD_SENDER: Byte := 3
  const MALFORMED: Byte := 4
  const DUPLICATE: Byte := 5
  const LIMIT_REACHED: Byte := 6
  const NO_ID: Byte := 7
  const TO_YOURSELF: Byte := 8
  const NOT_CONNECTED: Byte := 9
  const UNREACHABLE: Byte := 10
  const NO_BEGIN: Byte := 11
  const OVERRUN: Byte := 12
  const DISCONNECTED: Byte := 13
  const INCOMPLETE: Byte := 14

  function Notice(tag: Byte): Frame {
    Frame(TEXT, [tag])
  }

  function Note(to: nat, tag: Byte): Emission {
    Emission(to, Notice(tag), Ignore)
  }

  /** The error frame for a live endpoint; nothing for the invalid one. */
  function ErrorTo(e: Endpoint): seq<Emission> {
    if e.target == INVALID_CLIENT then [] else [Emission(e.target, ErrorFrame(e.outbound), Ignore)]
  }

  function Continue(todo: seq<Emission>): Pc {
    if todo == [] then Idle else Emitting(todo)
  }

  // ----- The first step: decode the frame and take the first lock -----

  ghost function Dispatch(sh: Shared, sender: nat, user: seq<Byte>, raw: seq<Byte>): (Shared, Pc) {
    if sender == INVALID_CLIENT || raw == [] then (sh, Idle)
    else if |raw| > FRAME_MAX_SIZE then (sh, Emitting([Note(sender, TOO_LARGE)]))
    else if raw[0] == FILE_BEGIN then DispatchBegin(sh, sender, user, raw)
    else if raw[0] == FILE_CHUNK then DispatchChunk(sh, sender, raw)
    else if raw[0] == FILE_END then DispatchEnd(sh, sender, raw)
    else if raw[0] == FILE_ERROR then DispatchError(sh, sender, raw)
    else (sh, Emitting([Note(sender, BAD_TYPE)]))
  }

  /** An undecodable frame spoils the transfer it names, if it names one. */
  function Spoil(sh: Shared, sender: nat, raw: seq<Byte>, keep: bool): (Shared, Pc) {
    match ReadTransferId(raw)
    case None => (sh, Emitting([Note(sender, MALFORMED)]))
    case Some(id) => Reject(sh, sender, Key(sender, id), keep)
  }

  function Reject(sh: Shared, sender: nat, k: Key, keep: bool): (Shared, Pc) {
    var (routes, wasForwarding, previous) := Quarantine(sh.routes, k, keep);
    (sh.(routes := routes),
     Emitting((if wasForwarding then ErrorTo(previous) else []) + [Note(sender, MALFORMED)]))
  }

  ghost function DispatchBegin(sh: Shared, sender: nat, user: seq<Byte>, raw: seq<Byte>): (Shared, Pc) {
    if !ValidPeer(user) then (sh, Emitting([Note(sender, BAD_SENDER)]))
    else match DecodeBegin(raw)
      case None => Spoil(sh, sender, raw, true)
      case Some(begin) => (sh, LookedUp(begin, Reg.Find(sh.registry, begin.peer)))
  }

  function DispatchChunk(sh: Shared, sender: nat, raw: seq<Byte>): (Shared, Pc) {
    match DecodeChunk(raw)
    case None => Spoil(sh, sender, raw, true)
    case Some(chunk) =>
      var k := Key(sender, chunk.id);
      var (routes, result, e) := AcceptChunk(sh.routes, k, |chunk.data|);
      (sh.(routes := routes),
       match result
       case ChunkMissing => Emitting([Note(sender, NO_BEGIN)])
       case ChunkDiscard => Idle
       case ChunkOverrun => Emitting(ErrorTo(e) + [Note(sender, OVERRUN)])
       case ChunkReady => ChunkPc(chunk, k, e))
  }

  /** Re-encode a chunk under its outbound id. */
  function ChunkPc(chunk: Chunk, k: Key, e: Endpoint): Pc {
    match EncodeChunk(Chunk(e.outbound, chunk.data))
    case None => Rejecting(k)
    case Some(payload) => Emitting([Emission(e.target, Frame(FILE_CHUNK, payload), ThenMark(k, e.outbound))])
  }

  function DispatchEnd(sh: Shared, sender: nat, raw: seq<Byte>): (Shared, Pc) {
    match DecodeControl(raw, FILE_END)
    case None => Spoil(sh, sender, raw, false)
    case Some(id) =>
      var (routes, result, e) := Finish(sh.routes, Key(sender, id), true);
      (sh.(routes := routes),
       match result
       case FinishMissing => Emitting([Note(sender, NO_BEGIN)])
       case FinishDiscard => Idle
       case FinishIncomplete => Emitting(ErrorTo(e) + [Note(sender, INCOMPLETE)])
       case FinishReady => Emitting([Emission(e.target, EndFrame(e.outbound), ThenNotify)]))
  }

  function DispatchError(sh: Shared, sender: nat, raw: seq<Byte>): (Shared, Pc) {
    match DecodeControl(raw, FILE_ERROR)
    case None => Spoil(sh, sender, raw, false)
    case Some(id) =>
      var (routes, result, e) := Finish(sh.routes, Key(sender, id), false);
      (sh.(routes := routes),
       match result
       case FinishMissing => Emitting([Note(sender, NO_BEGIN)])
       case FinishDiscard => Idle
       case _ => Continue(ErrorTo(e)))
  }

  // ----- The following steps -----

  ghost function Advance(sh: Shared, sender: nat, user: seq<Byte>, pc: Pc): (Shared, Pc)
    requires !pc.Idle?
  {
    match pc
    case LookedUp(begin, target) => AddRoute(sh, sender, user, begin, target)
    case Emitting(todo) => if todo == [] then (sh, Idle) else Emit(sh, sender, todo)
    case Quarantining(k) =>
      (sh.(routes := Quarantine(sh.routes, k, true).0), Emitting([Note(sender, UNREACHABLE)]))
    case Marking(k, outbound) =>
      var (routes, converted) := MarkForwardFailed(sh.routes, k, outbound);
      (sh.(routes := routes), if converted then Emitting([Note(sender, DISCONNECTED)]) else Idle)
    case Rejecting(k) => Reject(sh, sender, k, true)
  }

  ghost function AddRoute(sh: Shared, sender: nat, user: seq<Byte>, begin: Begin, target: nat): (Shared, Pc) {
    var k := Key(sender, begin.id);
    var discard := target == INVALID_CLIENT || target == sender;
    var (routes, result, e, replaced) := Add(sh.routes, k, target, begin.size, discard);
    (sh.(routes := routes),
     match result
     case AddDuplicate => Emitting(ErrorTo(replaced) + [Note(sender, DUPLICATE)])
     case AddFull => Emitting([Note(sender, LIMIT_REACHED)])
     case AddIdUnavailable => Emitting([Note(sender, NO_ID)])
     case AddDiscard => Emitting([Note(sender, if target == sender then TO_YOURSELF else NOT_CONNECTED)])
     case AddReady => BeginPc(user, begin, k, e))
  }

  /** Re-encode a begin record under its outbound id, with the sender as the peer. */
  function BeginPc(user: seq<Byte>, begin: Begin, k: Key, e: Endpoint): Pc {
    match EncodeBegin(Begin(e.outbound, begin.size, user, begin.filename))
    case None => Rejecting(k)
    case Some(payload) => Emitting([Emission(e.target, Frame(FILE_BEGIN, payload), ThenQuarantine(k))])
  }

  function Emit(sh: Shared, sender: nat, todo: seq<Emission>): (Shared, Pc)
    requires todo != []
  {
    var (registry, queued) := Reg.Queue(sh.registry, todo[0].to, todo[0].frame);
    (sh.(registry := registry),
     if queued then Continue(todo[1..])
     else match todo[0].onFail
       case Ignore => Continue(todo[1..])
       case ThenNotify => Emitting([Note(sender, DISCONNECTED)])
       case ThenQuarantine(k) => Quarantining(k)
       case ThenMark(k, outbound) => Marking(k, outbound))
  }

  // ----- A handler that is not interrupted -----

  function Weight(e: Emission): nat {
    match e.onFail
    case Ignore => 1
    case _ => 4
  }

  function Work(todo: seq<Emission>): nat {
    if todo == [] then 0 else Weight(todo[0]) + Work(todo[1..])
  }

  function Remaining(pc: Pc): nat {
    match pc
    case Idle => 0
    case LookedUp(_, _) => 11
    case Emitting(todo) => 1 + Work(todo)
    case Quarantining(_) => 4
    case Marking(_, _) => 4
    case Rejecting(_) => 10
  }

  lemma AdvanceDecreases(sh: Shared, sender: nat, user: seq<Byte>, pc: Pc)
    requires !pc.Idle?
    ensures Remaining(Advance(sh, sender, user, pc).1) < Remaining(pc)
  {
    var next := Advance(sh, sender, user, pc).1;
    if pc.Emitting? && pc.todo != [] {
      assert Work(pc.todo) == Weight(pc.todo[0]) + Work(pc.todo[1..]);
    }
    if next.Emitting? && |next.todo| <= 2 {
      ShortWork(next.todo);
    }
  }

  lemma ShortWork(todo: seq<Emission>)
    requires |todo| <= 2
    ensures Work(todo) <= 8
    ensures (forall i :: 0 <= i < |todo| ==> todo[i].onFail == Ignore) ==> Work(todo) == |todo|
  {
    if todo != [] {
      assert Work(todo) == Weight(todo[0]) + Work(todo[1..]);
      if |todo| == 2 {
        assert Work(todo[1..]) == Weight(todo[1]) + Work(todo[1..][1..]);
      }
    }
  }

  /** The thread runs on alone until it is idle again. */
  ghost function Run(sh: Shared, sender: nat, user: seq<Byte>, pc: Pc): Shared
    decreases Remaining(pc)
  {
    if pc.Idle? then sh else
    AdvanceDecreases(sh, sender, user, pc);
    var (sh', pc') := Advance(sh, sender, user, pc);
    Run(sh', sender, user, pc')
  }

  /** A whole frame handler: decode, route and forward. */
  ghost function HandleFrame(sh: Shared, sender: nat, user: seq<Byte>, raw: seq<Byte>): Shared {
    var (sh', pc) := Dispatch(sh, sender, user, raw);
    Run(sh', sender, user, pc)
  }

  /** Queue a list of frames whose failures are ignored, in order. */
  function SendAll(registry: Reg.Registry, todo: seq<Emission>): Reg.Registry
    decreases |todo|
  {
    if todo == [] then registry else SendAll(Reg.Queue(registry, todo[0].to, todo[0].frame).0, todo[1..])
  }

  function EmissionOf(a: AbortAction): Emission {
    match a
    case SendError(client, outbound) => Emission(client, ErrorFrame(outbound), Ignore)
    case NotifySender(client) => Note(client, DISCONNECTED)
  }

  function EmissionsOf(actions: seq<AbortAction>): (todo: seq<Emission>)
    ensures |todo| == |actions|
    ensures forall i :: 0 <= i < |todo| ==> todo[i] == EmissionOf(actions[i])
  {
    seq(|actions|, i requires 0 <= i < |actions| => EmissionOf(actions[i]))
  }
}
