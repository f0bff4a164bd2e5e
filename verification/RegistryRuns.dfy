/** What the registry guarantees over every sequence of its operations, each of which runs
    under one lock. */
module RegistryRuns {
  import opened Bytes
  import opened FileProtocol
  import opened RegistrySpec

  datatype Op =
    | DoLogin(name: seq<Byte>)
    | DoActivate(id: nat)
    | DoRemove(id: nat)
    | DoRegisterKey(id: nat, key: seq<Byte>)
    | DoQueue(id: nat, frame: Frame)
    | DoTake(id: nat)

  /** `joining` holds the ids logged in whose thread has not activated them yet; `taken` is
      history: what each client's worker has dequeued. */
  datatype State = State(registry: Registry, joining: set<nat>, taken: map<nat, seq<Frame>>)

  function TakenBy(s: State, id: nat): seq<Frame> {
    if id in s.taken then s.taken[id] else []
  }

  /** A thread activates its client once, after the login that created it. */
  ghost predicate Enabled(s: State, op: Op) {
    match op
    case DoActivate(id) => id in s.joining
    case DoRegisterKey(_, key) => |key| == PUBLIC_KEY_SIZE
    case _ => true
  }

  ghost function Apply(s: State, op: Op): State {
    match op
    case DoLogin(name) =>
      var (r, result) := Login(s.registry, name);
      if result.LoggedIn? then s.(registry := r, joining := s.joining + {result.id}) else s
    case DoActivate(id) => s.(registry := Activate(s.registry, id), joining := s.joining - {id})
    case DoRemove(id) => s.(registry := Remove(s.registry, id))
    case DoRegisterKey(id, key) => s.(registry := RegisterKey(s.registry, id, key).0)
    case DoQueue(id, frame) => s.(registry := Queue(s.registry, id, frame).0)
    case DoTake(id) =>
      var (r, result) := Take(s.registry, id);
      if result.Taken? then s.(registry := r, taken := s.taken[id := TakenBy(s, id) + [result.frame]]) else s
  }

  /** Everything queued to a client has been taken by it or is still in its queue. */
  ghost predicate Delivered(s: State, id: nat) {
    id in s.registry.clients ==> Log(s.registry, id) == TakenBy(s, id) + s.registry.clients[id].queue
  }

  ghost predicate Waiting(s: State, id: nat) {
    id in s.joining && id in s.registry.clients ==> !s.registry.clients[id].ready && !s.registry.clients[id].failed
  }

  ghost predicate Inv(s: State) {
    && Valid(s.registry) && Bounded(s)
    && (forall id :: Delivered(s, id))
    && (forall id :: Waiting(s, id))
  }

  lemma ApplyValid(s: State, op: Op)
    requires Inv(s) && Enabled(s, op)
    ensures Valid(Apply(s, op).registry)
  {
    match op
    case DoLogin(name) => LoginValid(s.registry, name);
    case DoActivate(id) =>
      assert Waiting(s, id);
      ActivateValid(s.registry, id);
    case DoRemove(id) => RemoveValid(s.registry, id);
    case DoRegisterKey(id, key) => RegisterKeyValid(s.registry, id, key);
    case DoQueue(id, frame) => QueueValid(s.registry, id, frame);
    case DoTake(id) => TakeValid(s.registry, id);
  }

  lemma LoginDelivered(s: State, name: seq<Byte>, id: nat)
    requires Delivered(s, id) && Waiting(s, id) && s.registry.next !in s.taken
    ensures Delivered(Apply(s, DoLogin(name)), id) && Waiting(Apply(s, DoLogin(name)), id)
  {
  }

  lemma QueueDelivered(s: State, to: nat, f: Frame, id: nat)
    requires Delivered(s, id) && Waiting(s, id)
    ensures Delivered(Apply(s, DoQueue(to, f)), id) && Waiting(Apply(s, DoQueue(to, f)), id)
  {
    if to == id && id in s.registry.clients {
      var queue := s.registry.clients[id].queue;
      assert TakenBy(s, id) + (queue + [f]) == TakenBy(s, id) + queue + [f];
    }
  }

  lemma TakeDelivered(s: State, from: nat, id: nat)
    requires Delivered(s, id) && Waiting(s, id)
    ensures Delivered(Apply(s, DoTake(from)), id) && Waiting(Apply(s, DoTake(from)), id)
  {
    if from == id && id in s.registry.clients && s.registry.clients[id].queue != [] {
      var queue := s.registry.clients[id].queue;
      assert TakenBy(s, id) + queue == TakenBy(s, id) + [queue[0]] + queue[1..];
    }
  }

  lemma QuietDelivered(s: State, op: Op, id: nat)
    requires Delivered(s, id) && Waiting(s, id) && (op.DoActivate? || op.DoRemove? || op.DoRegisterKey?)
    ensures Delivered(Apply(s, op), id) && Waiting(Apply(s, op), id)
  {
  }

  lemma ApplyDelivered(s: State, op: Op, id: nat)
    requires Delivered(s, id) && Waiting(s, id) && s.registry.next !in s.taken
    ensures Delivered(Apply(s, op), id) && Waiting(Apply(s, op), id)
  {
    match op
    case DoLogin(name) => LoginDelivered(s, name, id);
    case DoQueue(to, frame) => QueueDelivered(s, to, frame, id);
    case DoTake(from) => TakeDelivered(s, from, id);
    case _ => QuietDelivered(s, op, id);
  }

  ghost predicate Bounded(s: State) {
    && (forall id :: id in s.taken ==> id < s.registry.next)
    && (forall id :: id in s.joining ==> id < s.registry.next)
  }

  lemma ApplyBounded(s: State, op: Op)
    requires Bounded(s) && (op.DoTake? && op.id in s.registry.clients ==> op.id < s.registry.next)
    ensures Bounded(Apply(s, op))
  {
  }

  lemma ApplyInv(s: State, op: Op)
    requires Inv(s) && Enabled(s, op)
    ensures Inv(Apply(s, op))
  {
    ApplyValid(s, op);
    forall id ensures Delivered(Apply(s, op), id) && Waiting(Apply(s, op), id) {
      assert Delivered(s, id) && Waiting(s, id);
      ApplyDelivered(s, op, id);
    }
    ApplyBounded(s, op);
  }

  // ----- Runs -----

  ghost predicate Legal(s: State, ops: seq<Op>)
    decreases |ops|
  {
    ops != [] ==> Enabled(s, ops[0]) && Legal(Apply(s, ops[0]), ops[1..])
  }

  ghost function After(s: State, ops: seq<Op>): State
    decreases |ops|
  {
    if ops == [] then s else After(Apply(s, ops[0]), ops[1..])
  }

  function Start(capacity: nat): State {
    State(Init(capacity), {}, map[])
  }

  lemma {:induction false} RunKeepsInv(s: State, ops: seq<Op>)
    requires Inv(s) && Legal(s, ops)
    ensures Inv(After(s, ops))
    decreases |ops|
  {
    if ops != [] {
      ApplyInv(s, ops[0]);
      RunKeepsInv(Apply(s, ops[0]), ops[1..]);
    }
  }

  /** A client that shares a slot with a predecessor gets nothing of it: what a client has
      taken is exactly the beginning of what was queued to its own id, the rest is in its
      queue, and the queue is bounded. Names and ids of active clients are unique. */
  lemma OwnFramesOnly(capacity: nat, ops: seq<Op>, id: nat)
    requires Legal(Start(capacity), ops)
    ensures var s := After(Start(capacity), ops);
            && Valid(s.registry)
            && (id in s.registry.clients ==>
                  && 0 < id && Log(s.registry, id) == TakenBy(s, id) + s.registry.clients[id].queue
                  && |s.registry.clients[id].queue| <= MAX_OUTGOING_FRAMES
                  && forall j :: j in s.registry.clients && j != id ==> s.registry.clients[j].name != s.registry.clients[id].name)
  {
    RunKeepsInv(Start(capacity), ops);
    assert Delivered(After(Start(capacity), ops), id);
  }

  /** An id that has been used and is no longer registered never comes back. */
  lemma GoneStep(s: State, op: Op, id: nat)
    requires id < s.registry.next && id in s.registry.log && id !in s.registry.clients
    ensures id in Apply(s, op).registry.log && id !in Apply(s, op).registry.clients
  {
  }

  lemma {:induction false} GoneStaysGone(s: State, ops: seq<Op>, id: nat)
    requires Inv(s) && Legal(s, ops) && id in s.registry.log && id !in s.registry.clients
    ensures id !in After(s, ops).registry.clients
    decreases |ops|
  {
    if ops != [] {
      GoneStep(s, ops[0], id);
      ApplyInv(s, ops[0]);
      GoneStaysGone(Apply(s, ops[0]), ops[1..], id);
    }
  }

  lemma KeyStep(s: State, op: Op, id: nat)
    requires id < s.registry.next && id in s.registry.log && id in s.registry.clients && s.registry.clients[id].key.Some?
    ensures id in Apply(s, op).registry.log && SameKey(s, Apply(s, op), id)
  {
  }

  ghost predicate SameKey(s: State, t: State, id: nat)
    requires id in s.registry.clients
  {
    id in t.registry.clients ==> t.registry.clients[id].key == s.registry.clients[id].key
  }

  /** A registered key never changes while the client is there. */
  lemma {:induction false} KeyNeverChanges(s: State, ops: seq<Op>, id: nat)
    requires Inv(s) && Legal(s, ops) && id in s.registry.clients && s.registry.clients[id].key.Some?
    ensures SameKey(s, After(s, ops), id)
    decreases |ops|
  {
    if ops != [] {
      var next := Apply(s, ops[0]);
      ApplyInv(s, ops[0]);
      KeyStep(s, ops[0], id);
      if id in next.registry.clients {
        KeyNeverChanges(next, ops[1..], id);
      } else {
        GoneStaysGone(next, ops[1..], id);
      }
    }
  }

  lemma NameStep(s: State, op: Op, id: nat)
    requires id < s.registry.next && id in s.registry.log && id in s.registry.clients
    ensures id in Apply(s, op).registry.log
    ensures id in Apply(s, op).registry.clients ==> Apply(s, op).registry.clients[id].name == s.registry.clients[id].name
  {
  }

  /** Neither does the name under which it logged in. */
  lemma {:induction false} NameNeverChanges(s: State, ops: seq<Op>, id: nat)
    requires Inv(s) && Legal(s, ops) && id in s.registry.clients
    ensures id in After(s, ops).registry.clients ==>
            After(s, ops).registry.clients[id].name == s.registry.clients[id].name
    decreases |ops|
  {
    if ops != [] {
      var next := Apply(s, ops[0]);
      ApplyInv(s, ops[0]);
      NameStep(s, ops[0], id);
      if id in next.registry.clients {
        NameNeverChanges(next, ops[1..], id);
      } else {
        GoneStaysGone(next, ops[1..], id);
      }
    }
  }

  /** A client whose queue overflowed is shut out for good: as long as it is registered it is
      queued nothing more and nothing can be taken from its queue. */
  ghost predicate ShutOut(s: State, id: nat, log: seq<Frame>) {
    && id in s.registry.log && id < s.registry.next && Log(s.registry, id) == log
    && (id in s.registry.clients ==> s.registry.clients[id].failed && !s.registry.clients[id].ready && id !in s.joining)
  }

  lemma ShutOutStep(s: State, op: Op, id: nat, log: seq<Frame>)
    requires ShutOut(s, id, log) && Enabled(s, op)
    ensures ShutOut(Apply(s, op), id, log)
  {
  }

  lemma {:induction false} StaysShutOut(s: State, ops: seq<Op>, id: nat, log: seq<Frame>)
    requires Legal(s, ops) && ShutOut(s, id, log)
    ensures ShutOut(After(s, ops), id, log)
    decreases |ops|
  {
    if ops != [] {
      ShutOutStep(s, ops[0], id, log);
      StaysShutOut(Apply(s, ops[0]), ops[1..], id, log);
    }
  }

  /** A frame for a client with 128 frames waiting is refused, and from then on, whatever
      happens, the client's log stays as it is and its worker gets no frame. */
  lemma OverflowIsFinal(s: State, id: nat, f: Frame, ops: seq<Op>)
    requires Inv(s) && id != 0 && Accepting(s.registry, id) && |s.registry.clients[id].queue| == 128 && Fits(f)
    requires Legal(Apply(s, DoQueue(id, f)), ops)
    ensures !Queue(s.registry, id, f).1
    ensures var end := After(Apply(s, DoQueue(id, f)), ops);
            && Log(end.registry, id) == Log(s.registry, id) && !Accepting(end.registry, id)
            && Take(end.registry, id) == (end.registry, TakeError)
  {
    assert Waiting(s, id);
    StaysShutOut(Apply(s, DoQueue(id, f)), ops, id, Log(s.registry, id));
  }
}
