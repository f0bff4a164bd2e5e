/** A run of the server that breaks the grammar. One sender is interrupted between freeing
    its outbound id and queueing END; a second sender begins and cancels transfers until the
    counter has wrapped and the id is handed out again; its BEGIN overtakes the END. */
module RelayOvertaking {
  import opened Bytes
  import opened FileProtocol
  import opened RouteSpec
  import opened Sessions
  import opened RelaySpec
  import opened Relay
  import opened RelayRoutes
  import opened RelayTheorems
  import opened RelayRuns
  import opened RelayShortRuns
  import opened RelayCarries
  import Reg = RegistrySpec

  // ----- Reachable states, with the number of ids handed out on the way -----

  ghost predicate Reaches(start: System, sys: System, n: nat) {
    exists run :: Legal(start, run) && RelayRuns.After(start, run) == sys && CountAllocations(start, run) == n
  }

  lemma {:induction false} Extend(start: System, run: seq<Step>, step: Step)
    requires Legal(start, run) && Enabled(RelayRuns.After(start, run), step)
    ensures Legal(start, run + [step])
    ensures RelayRuns.After(start, run + [step]) == Apply(RelayRuns.After(start, run), step)
    ensures CountAllocations(start, run + [step]) ==
            CountAllocations(start, run) + if Allocates(RelayRuns.After(start, run), step) then 1 else 0
    decreases |run|
  {
    if run == [] {
      assert run + [step] == [step] && [step][1..] == [];
    } else {
      Extend(Apply(start, run[0]), run[1..], step);
      assert (run + [step])[1..] == run[1..] + [step] && (run + [step])[0] == run[0];
    }
  }

  lemma ReachStep(start: System, sys: System, n: nat, step: Step)
    requires Reaches(start, sys, n) && Enabled(sys, step)
    ensures Reaches(start, Apply(sys, step), n + if Allocates(sys, step) then 1 else 0)
  {
    var run :| Legal(start, run) && RelayRuns.After(start, run) == sys && CountAllocations(start, run) == n;
    Extend(start, run, step);
  }

  // ----- The three clients -----

  const FIRST: nat := 1
  const SECOND: nat := 2
  const TARGET: nat := 3
  const TARGET_NAME: seq<Byte> := [116]
  const FILENAME: seq<Byte> := [102]
  const SOURCE: Word := 1

  /** An empty file for the target. */
  const REQUEST := Begin(SOURCE, 0, TARGET_NAME, FILENAME)

  /** The target accepts frames, has read them all, and nobody else has its name. */
  ghost predicate Listening(r: Reg.Registry) {
    && Reg.Accepting(r, TARGET) && r.clients[TARGET].name == TARGET_NAME && r.clients[TARGET].queue == []
    && !r.clients[TARGET].failed
    && Reg.UniqueNames(r.clients)
  }

  /** Client c may begin a transfer, and no route is in use. */
  ghost predicate Ready(sys: System, c: nat, next: Word) {
    && c in {FIRST, SECOND} && In(sys, c, Serving(Idle)) && c in sys.sh.registry.clients && ValidPeer(NameOf(sys, c))
    && Listening(sys.sh.registry)
    && sys.sh.routes.table == map[] && sys.sh.routes.next == next && sys.sh.routes.capacity > 0
  }

  lemma TargetIsFound(r: Reg.Registry)
    requires Listening(r)
    ensures Reg.Find(r, TARGET_NAME) == TARGET
  {
  }

  /** What client c has to send for its new route. */
  ghost function Opening(sys: System, c: nat, o: Word): Emission
    requires ValidPeer(NameOf(sys, c))
  {
    Emission(TARGET, BeginFrame(Begin(o, 0, NameOf(sys, c), FILENAME)), ThenQuarantine(Key(c, SOURCE)))
  }

  /** The state once client c has added its route and is about to send BEGIN. */
  ghost function Opened(sys: System, c: nat): System
    requires ValidPeer(NameOf(sys, c))
  {
    var o := Candidate(sys.sh.routes.next, 0);
    System(Shared(sys.sh.registry,
                  Routes(sys.sh.routes.capacity, RouteSpec.After(o), map[Key(c, SOURCE) := Forwarding(TARGET, o, 0, 0)])),
           sys.phases[c := Serving(Emitting([Opening(sys, c, o)]))])
  }

  lemma FirstCandidate(next: Word, capacity: Capacity)
    ensures Allocate(map[], next, 0, capacity + 1) == (Candidate(next, 0), RouteSpec.After(Candidate(next, 0)))
  {
    assert !InUse(map[], Candidate(next, 0));
  }

  lemma LooksUp(sys: System, c: nat, next: Word)
    requires Ready(sys, c, next)
    ensures Apply(sys, Receive(c, Raw(BeginFrame(REQUEST)))) == SetPhase(sys, c, Serving(LookedUp(REQUEST, TARGET)))
  {
    TargetIsFound(sys.sh.registry);
    OwnBeginDispatch(sys.sh, c, NameOf(sys, c), REQUEST);
  }

  lemma Adds(sys: System, c: nat, next: Word)
    requires Ready(sys, c, next)
    ensures var looked := SetPhase(sys, c, Serving(LookedUp(REQUEST, TARGET)));
            && Enabled(looked, Proceed(c)) && Allocates(looked, Proceed(c))
            && Apply(looked, Proceed(c)) == Opened(sys, c)
  {
    var looked := SetPhase(sys, c, Serving(LookedUp(REQUEST, TARGET)));
    var o := Candidate(next, 0);
    FirstCandidate(next, sys.sh.routes.capacity);
    assert Added(looked, c, REQUEST, TARGET).1 == AddReady;
    assert looked.phases[c := Serving(Emitting([Opening(sys, c, o)]))] == Opened(sys, c).phases;
  }

  lemma SendBegin(start: System, sys: System, n: nat, c: nat, next: Word)
    requires Reaches(start, sys, n) && Ready(sys, c, next)
    ensures Reaches(start, Opened(sys, c), n + 1)
  {
    LooksUp(sys, c, next);
    ReachStep(start, sys, n, Receive(c, Raw(BeginFrame(REQUEST))));
    Adds(sys, c, next);
    ReachStep(start, SetPhase(sys, c, Serving(LookedUp(REQUEST, TARGET))), n, Proceed(c));
  }

  // ----- A frame for the target, which reads it at once -----

  /** The registry once the target has been queued f and has taken it. */
  ghost predicate TookOne(r: Reg.Registry, r': Reg.Registry, f: Frame) {
    && Listening(r') && Reg.Log(r', TARGET) == Reg.Log(r, TARGET) + [f]
    && r'.clients.Keys == r.clients.Keys && forall j :: j in r.clients ==> r'.clients[j].name == r.clients[j].name
  }

  lemma QueueThenTake(r: Reg.Registry, f: Frame)
    requires Listening(r) && Fits(f)
    ensures Reg.Queue(r, TARGET, f).1 && TookOne(r, Reg.Take(Reg.Queue(r, TARGET, f).0, TARGET).0, f)
  {
    var q := Reg.Queue(r, TARGET, f).0;
    assert q.clients[TARGET].queue == [f];
  }

  /** The state once client c has sent its one frame and the target has read it. */
  ghost function Read(sys: System, c: nat, f: Frame): System {
    System(Shared(Reg.Take(Reg.Queue(sys.sh.registry, TARGET, f).0, TARGET).0, sys.sh.routes), sys.phases[c := Serving(Idle)])
  }

  lemma SendFrame(start: System, sys: System, n: nat, c: nat, e: Emission)
    requires Reaches(start, sys, n) && In(sys, c, Serving(Emitting([e]))) && e.to == TARGET && Fits(e.frame)
    requires Listening(sys.sh.registry)
    ensures Reaches(start, Read(sys, c, e.frame), n) && TookOne(sys.sh.registry, Read(sys, c, e.frame).sh.registry, e.frame)
  {
    QueueThenTake(sys.sh.registry, e.frame);
    ReachStep(start, sys, n, Proceed(c));
    var sent := Apply(sys, Proceed(c));
    assert [e][1..] == [];
    ReachStep(start, sent, n, TakeFrame(TARGET));
  }

  // ----- The sender ends or cancels its transfer -----

  /** Client c has a live route with nothing forwarded, as it declared. */
  ghost predicate Routed(sys: System, c: nat, o: Word) {
    && c in {FIRST, SECOND} && In(sys, c, Serving(Idle)) && sys.sh.routes.table == map[Key(c, SOURCE) := Forwarding(TARGET, o, 0, 0)]
  }

  ghost function Closing(o: Word, end: bool): Emission {
    if end then Emission(TARGET, EndFrame(o), ThenNotify) else Emission(TARGET, ErrorFrame(o), Ignore)
  }

  ghost function Closed(sys: System, c: nat, o: Word, end: bool): System {
    System(sys.sh.(routes := sys.sh.routes.(table := map[])), sys.phases[c := Serving(Emitting([Closing(o, end)]))])
  }

  lemma Finishes(sys: System, c: nat, o: Word, end: bool)
    requires Routed(sys, c, o)
    ensures Apply(sys, Receive(c, if end then Raw(EndFrame(SOURCE)) else Raw(ErrorFrame(SOURCE)))) == Closed(sys, c, o, end)
  {
    var kind := if end then FILE_END else FILE_ERROR;
    ControlCodec([kind] + Be32(SOURCE), kind, SOURCE);
    assert sys.sh.routes.table - {Key(c, SOURCE)} == map[];
  }

  lemma SendClosing(start: System, sys: System, n: nat, c: nat, o: Word, end: bool)
    requires Reaches(start, sys, n) && Routed(sys, c, o)
    ensures Reaches(start, Closed(sys, c, o, end), n)
  {
    Finishes(sys, c, o, end);
    ReachStep(start, sys, n, Receive(c, if end then Raw(EndFrame(SOURCE)) else Raw(ErrorFrame(SOURCE))));
  }

  // ----- One transfer of the second client while the first is interrupted -----

  /** The first client has freed id 1 and not yet queued its END. */
  ghost predicate Stalled(sys: System) {
    In(sys, FIRST, Serving(Emitting([Closing(1, true)]))) && SessionAt(sys.sh.registry, TARGET, 1) == Open(0, 0)
  }

  /** A frame about another id leaves the first client's session open. */
  lemma StallPersists(r: Reg.Registry, r': Reg.Registry, f: Frame)
    requires TookOne(r, r', f) && SessionAt(r, TARGET, 1) == Open(0, 0)
    requires !Meaning(f).OtherEvent? && IdOf(Meaning(f)) != 1
    ensures SessionAt(r', TARGET, 1) == Open(0, 0)
  {
    SessionAppend(Reg.Log(r, TARGET), f, 1);
  }

  /** Begin and read BEGIN: the route is there, everything else is as before. */
  lemma BeginRead(start: System, sys: System, n: nat, c: nat, next: Word) returns (u: System)
    requires Reaches(start, sys, n) && Ready(sys, c, next)
    ensures var o := Candidate(next, 0);
            && Reaches(start, u, n + 1) && Routed(u, c, o)
            && TookOne(sys.sh.registry, u.sh.registry, Opening(sys, c, o).frame)
            && u.phases == sys.phases && u.sh.routes.next == RouteSpec.After(o) && u.sh.routes.capacity == sys.sh.routes.capacity
  {
    var o := Candidate(next, 0);
    SendBegin(start, sys, n, c, next);
    SendFrame(start, Opened(sys, c), n + 1, c, Opening(sys, c, o));
    u := Read(Opened(sys, c), c, Opening(sys, c, o).frame);
    assert u.phases == sys.phases;
  }

  /** Cancel and read ERROR: no route is left. */
  lemma CancelRead(start: System, sys: System, n: nat, c: nat, o: Word) returns (u: System)
    requires Reaches(start, sys, n) && Routed(sys, c, o) && Listening(sys.sh.registry)
    ensures && Reaches(start, u, n) && TookOne(sys.sh.registry, u.sh.registry, ErrorFrame(o))
            && u.phases == sys.phases && u.sh.routes == sys.sh.routes.(table := map[])
  {
    SendClosing(start, sys, n, c, o, false);
    var closed := Closed(sys, c, o, false);
    SendFrame(start, closed, n, c, Closing(o, false));
    u := Read(closed, c, ErrorFrame(o));
    assert u.phases == sys.phases;
  }

  /** The second client can begin again, and the first is still interrupted. */
  ghost predicate Station(sys: System, next: Word) {
    Ready(sys, SECOND, next) && Stalled(sys)
  }

  lemma BackAtStation(sys: System, b: System, u: System, next: Word, o: Word)
    requires Station(sys, next) && o != 1
    requires TookOne(sys.sh.registry, b.sh.registry, Opening(sys, SECOND, o).frame)
    requires TookOne(b.sh.registry, u.sh.registry, ErrorFrame(o)) && u.phases == sys.phases
    requires u.sh.routes == Routes(sys.sh.routes.capacity, RouteSpec.After(o), map[])
    ensures Station(u, RouteSpec.After(o))
  {
    BeginMeaning(Begin(o, 0, NameOf(sys, SECOND), FILENAME));
    StallPersists(sys.sh.registry, b.sh.registry, Opening(sys, SECOND, o).frame);
    ControlMeaning(o);
    StallPersists(b.sh.registry, u.sh.registry, ErrorFrame(o));
  }

  lemma Cycle(start: System, sys: System, n: nat, next: Word) returns (u: System)
    requires Reaches(start, sys, n) && Station(sys, next) && Candidate(next, 0) != 1
    ensures Reaches(start, u, n + 1) && Station(u, RouteSpec.After(Candidate(next, 0)))
  {
    var o := Candidate(next, 0);
    var b := BeginRead(start, sys, n, SECOND, next);
    u := CancelRead(start, b, n + 1, SECOND, o);
    BackAtStation(sys, b, u, next, o);
  }

  lemma NextCounter(next: Word)
    requires next > 1
    ensures Candidate(next, 0) != 1 && RouteSpec.After(Candidate(next, 0)) == if next + 1 == TWO32 then 0 else next + 1
  {
  }

  /** The counter goes all the way round. */
  lemma {:induction false} ManyCycles(start: System, sys: System, n: nat, next: Word) returns (u: System)
    requires Reaches(start, sys, n) && Station(sys, next) && next > 1
    ensures Reaches(start, u, n + (TWO32 - next)) && Station(u, 0)
    decreases TWO32 - next
  {
    NextCounter(next);
    u := Cycle(start, sys, n, next);
    if next + 1 != TWO32 {
      u := ManyCycles(start, u, n + 1, next + 1);
    }
  }

  // ----- From the start -----

  lemma Join(start: System, sys: System, n: nat, name: seq<Byte>) returns (u: System)
    requires Reaches(start, sys, n) && Reg.Login(sys.sh.registry, name).1.LoggedIn?
    ensures var id := sys.sh.registry.next;
            && Reaches(start, u, n)
            && u == System(sys.sh.(registry := Reg.Activate(Reg.Login(sys.sh.registry, name).0, id)), sys.phases[id := Serving(Idle)])
  {
    ReachStep(start, sys, n, Login(name));
    var joined := Apply(sys, Login(name));
    ReachStep(start, joined, n, Activate(sys.sh.registry.next));
    u := Apply(joined, Activate(sys.sh.registry.next));
    assert u.phases == sys.phases[sys.sh.registry.next := Serving(Idle)];
  }

  function Newcomer(name: seq<Byte>): Reg.Client {
    Reg.Client(name, true, false, None, [])
  }

  lemma JoinsAs(r: Reg.Registry, name: seq<Byte>)
    requires ValidPeer(name) && |r.clients| < r.capacity && forall j :: j in r.clients ==> r.clients[j].name != name
    ensures Reg.Login(r, name).1 == Reg.LoggedIn(r.next)
    ensures Reg.Activate(Reg.Login(r, name).0, r.next) ==
            Reg.Registry(r.capacity, r.next + 1, r.clients[r.next := Newcomer(name)], r.log[r.next := []])
  {
  }

  lemma ThreeJoin(clients: nat, routes: Capacity) returns (u: System)
    requires clients >= 3 && routes >= 1
    ensures Reaches(Start(clients, routes), u, 0)
    ensures u.sh.registry == Reg.Registry(clients, 4, map[FIRST := Newcomer([97]), SECOND := Newcomer([98]), TARGET := Newcomer(TARGET_NAME)],
                                          map[FIRST := [], SECOND := [], TARGET := []])
    ensures u.sh.routes == Routes(routes, 1, map[])
    ensures u.phases == map[FIRST := Serving(Idle), SECOND := Serving(Idle), TARGET := Serving(Idle)]
  {
    var start := Start(clients, routes);
    assert Legal(start, []) && RelayRuns.After(start, []) == start && CountAllocations(start, []) == 0;
    JoinsAs(start.sh.registry, [97]);
    var a := Join(start, start, 0, [97]);
    JoinsAs(a.sh.registry, [98]);
    var b := Join(start, a, 0, [98]);
    JoinsAs(b.sh.registry, TARGET_NAME);
    u := Join(start, b, 0, TARGET_NAME);
  }

  lemma FirstStalls(start: System, sys: System) returns (u: System)
    requires Reaches(start, sys, 0) && Ready(sys, FIRST, 1) && Ready(sys, SECOND, 1)
    requires SessionAt(sys.sh.registry, TARGET, 1) == Session.Closed
    ensures Reaches(start, u, 1) && Station(u, 2)
  {
    var b := BeginRead(start, sys, 0, FIRST, 1);
    SendClosing(start, b, 1, FIRST, 1, true);
    u := Closed(b, FIRST, 1, true);
    AtStation(sys, b);
  }

  lemma AtStation(sys: System, b: System)
    requires Ready(sys, FIRST, 1) && Ready(sys, SECOND, 1) && SessionAt(sys.sh.registry, TARGET, 1) == Session.Closed
    requires TookOne(sys.sh.registry, b.sh.registry, Opening(sys, FIRST, 1).frame) && b.phases == sys.phases
    requires b.sh.routes.next == 2 && b.sh.routes.capacity == sys.sh.routes.capacity
    ensures Station(Closed(b, FIRST, 1, true), 2)
  {
    BeginMeaning(Begin(1, 0, NameOf(sys, FIRST), FILENAME));
    SessionAppend(Reg.Log(sys.sh.registry, TARGET), Opening(sys, FIRST, 1).frame, 1);
  }

  /** The second client is given id 1 and its BEGIN reaches the target before the END. */
  lemma Overtake(start: System, sys: System, n: nat) returns (u: System)
    requires Reaches(start, sys, n) && Station(sys, 0)
    ensures Reaches(start, u, n + 1) && SessionAt(u.sh.registry, TARGET, 1) == Broken
  {
    u := BeginRead(start, sys, n, SECOND, 0);
    BeginMeaning(Begin(1, 0, NameOf(sys, SECOND), FILENAME));
    SessionAppend(Reg.Log(sys.sh.registry, TARGET), Opening(sys, SECOND, 1).frame, 1);
  }

  /** With room for three clients and one route, however large both limits are: there is a
      run with exactly 2^32 accepted begin frames after which the target's log is broken. */
  lemma GrammarCanBreak(clients: nat, routes: Capacity)
    requires clients >= 3 && routes >= 1
    ensures exists run :: && Legal(Start(clients, routes), run) && CountAllocations(Start(clients, routes), run) == TWO32
                          && SessionAt(RelayRuns.After(Start(clients, routes), run).sh.registry, TARGET, 1) == Broken
  {
    var start := Start(clients, routes);
    var a := ThreeJoin(clients, routes);
    var b := FirstStalls(start, a);
    var c := ManyCycles(start, b, 1, 2);
    var u := Overtake(start, c, TWO32 - 1);
    var run :| Legal(start, run) && RelayRuns.After(start, run) == u && CountAllocations(start, run) == TWO32;
  }
}
