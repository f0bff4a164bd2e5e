/** The connected clients as a map from client id to client: the specification that the
    slot array of client_manager.c refines. `log` is history: every frame ever queued to
    an id, kept after the client has gone. */
module RegistrySpec {
  import opened Bytes
  import opened FileProtocol

  const MAX_CLIENTS: nat := 100
  const MAX_OUTGOING_FRAMES: nat := 128

  datatype Client = Client(
    name: seq<Byte>, ready: bool, failed: bool, key: Option<seq<Byte>>, queue: seq<Frame>)

  datatype Registry = Registry(
    capacity: nat, next: nat, clients: map<nat, Client>, log: map<nat, seq<Frame>>)

  function Log(r: Registry, id: nat): seq<Frame> {
    if id in r.log then r.log[id] else []
  }

  /** The client takes queued frames: registered, activated and not overflowed. */
  predicate Accepting(r: Registry, id: nat) {
    id in r.clients && r.clients[id].ready
  }

  ghost predicate NameTaken(r: Registry, name: seq<Byte>) {
    exists id :: id in r.clients && r.clients[id].name == name
  }

  ghost predicate IsSuffix<T>(s: seq<T>, whole: seq<T>) {
    |s| <= |whole| && whole[|whole| - |s|..] == s
  }

  ghost predicate ValidClient(c: Client) {
    && ValidPeer(c.name)
    && (c.ready ==> !c.failed)
    && |c.queue| <= MAX_OUTGOING_FRAMES
    && (c.key.Some? ==> |c.key.value| == PUBLIC_KEY_SIZE)
  }

  ghost predicate UniqueNames(clients: map<nat, Client>) {
    forall i, j :: i in clients && j in clients && i != j ==> clients[i].name != clients[j].name
  }

  ghost predicate Valid(r: Registry) {
    && 0 < r.next
    && |r.clients| <= r.capacity
    && (forall id :: id in r.clients ==> id in r.log && ValidClient(r.clients[id]))
    && (forall id :: id in r.log ==> 0 < id < r.next)
    && (forall id :: id in r.clients ==> IsSuffix(r.clients[id].queue, r.log[id]))
    && UniqueNames(r.clients)
  }

  function Init(capacity: nat): Registry {
    Registry(capacity, 1, map[], map[])
  }

  // ----- Logging in and out -----

  datatype LoginResult = LoggedIn(id: nat) | InvalidName | NameInUse | ServerFull

  ghost function Login(r: Registry, name: seq<Byte>): (Registry, LoginResult) {
    if !ValidPeer(name) then (r, InvalidName)
    else if NameTaken(r, name) then (r, NameInUse)
    else if |r.clients| >= r.capacity then (r, ServerFull)
    else (Registry(r.capacity, r.next + 1,
                   r.clients[r.next := Client(name, false, false, None, [])],
                   r.log[r.next := []]),
          LoggedIn(r.next))
  }

  function Activate(r: Registry, id: nat): Registry {
    if id in r.clients then r.(clients := r.clients[id := r.clients[id].(ready := true)]) else r
  }

  function Remove(r: Registry, id: nat): Registry {
    r.(clients := r.clients - {id})
  }

  // ----- Lookups and keys -----

  /** The id of the activated client with this name, or 0. */
  ghost function Find(r: Registry, name: seq<Byte>): (id: nat)
    ensures id != 0 ==> Accepting(r, id) && r.clients[id].name == name
  {
    if i: nat :| Accepting(r, i) && r.clients[i].name == name then i else 0
  }

  /** Find returns the one activated client of that name. */
  lemma FindIsExact(r: Registry, name: seq<Byte>, id: nat)
    requires UniqueNames(r.clients) && 0 !in r.clients && id != 0
    ensures Find(r, name) == id <==> Accepting(r, id) && r.clients[id].name == name
  {
  }

  function RegisterKey(r: Registry, id: nat, key: seq<Byte>): (Registry, bool) {
    if !Accepting(r, id) || (r.clients[id].key.Some? && r.clients[id].key.value != key) then (r, false)
    else (r.(clients := r.clients[id := r.clients[id].(key := Some(key))]), true)
  }

  function GetKey(r: Registry, id: nat): Option<seq<Byte>> {
    if Accepting(r, id) then r.clients[id].key else None
  }

  // ----- The bounded outgoing queues -----

  /** A full queue fails the client for good: it is no longer ready, so nothing else is
      queued until its owner removes it. */
  function Queue(r: Registry, id: nat, f: Frame): (Registry, bool) {
    if id == 0 || !Fits(f) || !Accepting(r, id) then (r, false)
    else if |r.clients[id].queue| >= MAX_OUTGOING_FRAMES then (Overflowed(r, id), false)
    else (Appended(r, id, f), true)
  }

  function Overflowed(r: Registry, id: nat): Registry
    requires id in r.clients
  {
    r.(clients := r.clients[id := r.clients[id].(failed := true, ready := false)])
  }

  function Appended(r: Registry, id: nat, f: Frame): Registry
    requires id in r.clients
  {
    var c := r.clients[id];
    r.(clients := r.clients[id := c.(queue := c.queue + [f])], log := r.log[id := Log(r, id) + [f]])
  }

  datatype TakeResult = Taken(frame: Frame) | Nothing | TakeError

  function Take(r: Registry, id: nat): (Registry, TakeResult) {
    if id == 0 || id !in r.clients || r.clients[id].failed then (r, TakeError)
    else
      var c := r.clients[id];
      if c.queue == [] then (r, Nothing)
      else (r.(clients := r.clients[id := c.(queue := c.queue[1..])]), Taken(c.queue[0]))
  }

  // ----- What every operation keeps -----

  lemma LoginValid(r: Registry, name: seq<Byte>)
    requires Valid(r)
    ensures Valid(Login(r, name).0)
  {
    if Login(r, name).1.LoggedIn? {
      assert r.next !in r.log && r.next !in r.clients;
      LoginNames(r.clients, r.next, Client(name, false, false, None, []));
      LoginQueues(r, Client(name, false, false, None, []));
    }
  }

  /** A login succeeds exactly for a valid name that no registered client has, while a place is
      free. The new client has a fresh id and no key, takes no frames yet, and starts with an
      empty queue and an empty log; everybody else is as before. */
  lemma LoginOutcome(r: Registry, name: seq<Byte>)
    requires Valid(r)
    ensures var (r', result) := Login(r, name);
            && (result.LoggedIn? <==> ValidPeer(name) && !NameTaken(r, name) && |r.clients| < r.capacity)
            && (result == InvalidName <==> !ValidPeer(name))
            && (result == NameInUse <==> ValidPeer(name) && NameTaken(r, name))
            && (!result.LoggedIn? ==> r' == r)
            && (result.LoggedIn? ==>
                  && result.id !in r.log && result.id != 0 && r'.clients - {result.id} == r.clients
                  && result.id in r'.clients && r'.clients[result.id] == Client(name, false, false, None, [])
                  && forall id :: Log(r', id) == Log(r, id))
  {
    var (r', result) := Login(r, name);
    if result.LoggedIn? {
      assert r.next !in r.log && r.next !in r.clients;
      assert r'.clients - {r.next} == r.clients;
    }
  }

  lemma LoginNames(clients: map<nat, Client>, id: nat, c: Client)
    requires UniqueNames(clients) && id !in clients && forall i :: i in clients ==> clients[i].name != c.name
    ensures UniqueNames(clients[id := c]) && |clients[id := c]| == |clients| + 1
  {
    assert clients[id := c].Keys == clients.Keys + {id};
  }

  lemma LoginQueues(r: Registry, c: Client)
    requires r.next !in r.clients && ValidClient(c) && c.queue == []
    requires forall id :: id in r.clients ==> id in r.log && IsSuffix(r.clients[id].queue, r.log[id])
    ensures var clients, log := r.clients[r.next := c], r.log[r.next := []];
            forall id :: id in clients ==> id in log && IsSuffix(clients[id].queue, log[id])
  {
  }

  lemma UpdateValid(r: Registry, id: nat, c: Client, log: seq<Frame>)
    requires Valid(r) && id in r.clients && c.name == r.clients[id].name
    requires ValidClient(c) && IsSuffix(c.queue, log)
    ensures Valid(r.(clients := r.clients[id := c], log := r.log[id := log]))
  {
  }

  lemma ActivateValid(r: Registry, id: nat)
    requires Valid(r)
    requires id in r.clients ==> !r.clients[id].failed
    ensures Valid(Activate(r, id))
  {
    if id in r.clients {
      assert r.log[id := r.log[id]] == r.log;
      UpdateValid(r, id, r.clients[id].(ready := true), r.log[id]);
    }
  }

  lemma RemoveValid(r: Registry, id: nat)
    requires Valid(r)
    ensures Valid(Remove(r, id))
  {
    assert r.clients.Keys - {id} == (r.clients - {id}).Keys;
  }

  lemma RegisterKeyValid(r: Registry, id: nat, key: seq<Byte>)
    requires Valid(r) && |key| == PUBLIC_KEY_SIZE
    ensures Valid(RegisterKey(r, id, key).0)
  {
    if RegisterKey(r, id, key).1 {
      assert r.log[id := r.log[id]] == r.log;
      UpdateValid(r, id, r.clients[id].(key := Some(key)), r.log[id]);
    }
  }

  lemma QueueValid(r: Registry, id: nat, f: Frame)
    requires Valid(r)
    ensures Valid(Queue(r, id, f).0)
  {
    if Accepting(r, id) {
      var c := r.clients[id];
      if |c.queue| >= MAX_OUTGOING_FRAMES {
        assert r.log[id := r.log[id]] == r.log;
        UpdateValid(r, id, c.(failed := true, ready := false), r.log[id]);
      } else {
        UpdateValid(r, id, c.(queue := c.queue + [f]), r.log[id] + [f]);
      }
    }
  }

  lemma TakeValid(r: Registry, id: nat)
    requires Valid(r)
    ensures Valid(Take(r, id).0)
  {
    if id in r.clients && r.clients[id].queue != [] {
      var c := r.clients[id];
      assert r.log[id := r.log[id]] == r.log;
      UpdateValid(r, id, c.(queue := c.queue[1..]), r.log[id]);
    }
  }
}
