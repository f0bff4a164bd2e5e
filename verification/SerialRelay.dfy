/** The server when every frame handler and every departure runs without interruption.
    Here the grammar needs no assumption on ids: the counter may wrap as often as it likes. */
module SerialRelay {
  import opened Bytes
  import opened FileProtocol
  import opened RouteSpec
  import opened Sessions
  import opened RelaySpec
  import opened Relay
  import opened RelayEnds
  import opened RelayProof
  import opened RelayRoutes
  import opened RelayTheorems
  import opened RelayRuns
  import Reg = RegistrySpec

  ghost predicate QuietBut(sys: System, id: nat) {
    forall s :: s in sys.phases && s != id ==> sys.phases[s] in {Joining, Serving(Idle), Gone}
  }

  /** A thread that runs alone cannot overtake: nobody else has a terminal frame to send. */
  lemma AloneCannotOvertake(sys: System, id: nat)
    requires QuietBut(sys, id) && Plans(sys)
    ensures !Overtakes(sys, Proceed(id))
  {
    if Overtakes(sys, Proceed(id)) {
      assert PlannedAll(sys, id);
      AloneHoldsNothing(sys, id);
    }
  }

  lemma AloneHoldsNothing(sys: System, id: nat)
    requires QuietBut(sys, id) && id in sys.phases && PlannedAll(sys, id) && sys.phases[id].Serving?
    requires Todo(sys.phases[id]) != [] && Meaning(Todo(sys.phases[id])[0].frame).BeginEvent?
    ensures !Early(sys.phases, Todo(sys.phases[id])[0])
  {
    var p := sys.phases[id];
    assert Planned(sys, id, Todo(p)[0], p.Serving? && |Todo(p)| == 1);
  }

  lemma AdvanceKeepsName(sys: System, id: nat)
    requires Enabled(sys, Proceed(id))
    ensures NameOf(Apply(sys, Proceed(id)), id) == NameOf(sys, id)
  {
  }

  /** The server once thread id has run on alone until it is idle. */
  ghost function Settled(sys: System, id: nat): System
    requires id in sys.phases && sys.phases[id].Serving?
  {
    System(Run(sys.sh, id, NameOf(sys, id), sys.phases[id].pc), sys.phases[id := Serving(Idle)])
  }

  lemma SettleStep(sys: System, id: nat)
    requires id in sys.phases && sys.phases[id].Serving?
    ensures if sys.phases[id].pc.Idle? then Settled(sys, id) == sys
            else && Enabled(sys, Proceed(id))
                 && var sys' := Apply(sys, Proceed(id));
                 && id in sys'.phases && sys'.phases[id].Serving?
                 && Remaining(sys'.phases[id].pc) < Remaining(sys.phases[id].pc)
                 && Settled(sys', id) == Settled(sys, id)
  {
    if sys.phases[id].pc.Idle? {
      assert sys.phases[id := Serving(Idle)] == sys.phases;
    } else {
      AdvanceDecreases(sys.sh, id, NameOf(sys, id), sys.phases[id].pc);
      AdvanceKeepsName(sys, id);
      assert Apply(sys, Proceed(id)).phases[id := Serving(Idle)] == sys.phases[id := Serving(Idle)];
    }
  }

  lemma {:induction false} RunToIdle(sys: System, id: nat)
    requires Inv(sys) && QuietBut(sys, id) && id in sys.phases && sys.phases[id].Serving?
    ensures Inv(Settled(sys, id))
    decreases Remaining(sys.phases[id].pc)
  {
    SettleStep(sys, id);
    if !sys.phases[id].pc.Idle? {
      StepAlone(sys, id);
      RunToIdle(Apply(sys, Proceed(id)), id);
    }
  }

  lemma StepAlone(sys: System, id: nat)
    requires Inv(sys) && QuietBut(sys, id) && Enabled(sys, Proceed(id))
    ensures Inv(Apply(sys, Proceed(id))) && QuietBut(Apply(sys, Proceed(id)), id)
  {
    AloneCannotOvertake(sys, id);
    ProceedStep(sys, id);
  }

  /** A whole frame handler keeps the invariant and leaves the server quiet. */
  lemma HandleFrameKeepsInvariant(sys: System, id: nat, raw: seq<Byte>)
    requires Inv(sys) && Quiet(sys) && In(sys, id, Serving(Idle))
    ensures Inv(System(HandleFrame(sys.sh, id, NameOf(sys, id), raw), sys.phases))
  {
    ReceiveStep(sys, id, raw);
    HandleFrameSettles(sys, id, raw);
    RunToIdle(Received(sys, id, raw), id);
  }

  ghost function Received(sys: System, id: nat, raw: seq<Byte>): System {
    var (sh', pc') := Dispatch(sys.sh, id, NameOf(sys, id), raw);
    System(sh', sys.phases[id := Serving(pc')])
  }

  lemma HandleFrameSettles(sys: System, id: nat, raw: seq<Byte>)
    requires In(sys, id, Serving(Idle))
    ensures Settled(Received(sys, id, raw), id) == System(HandleFrame(sys.sh, id, NameOf(sys, id), raw), sys.phases)
  {
    assert Received(sys, id, raw).sh.registry == sys.sh.registry;
    assert Received(sys, id, raw).phases[id := Serving(Idle)] == sys.phases;
  }

  // ----- Departures -----

  /** The server once thread id has sent all its notifications. */
  ghost function Ended(sys: System, id: nat): System
    requires id in sys.phases && sys.phases[id].Closing?
  {
    System(sys.sh.(registry := SendAll(sys.sh.registry, sys.phases[id].todo)), sys.phases[id := Gone])
  }

  lemma EndedStep(sys: System, id: nat)
    requires id in sys.phases && sys.phases[id].Closing?
    ensures if sys.phases[id].todo == [] then Ended(sys, id) == SetPhase(sys, id, Gone)
            else && Enabled(sys, Close(id))
                 && var sys' := Apply(sys, Close(id));
                 && sys'.phases == sys.phases[id := Closing(sys.phases[id].todo[1..])]
                 && Ended(sys', id) == Ended(sys, id)
  {
    if sys.phases[id].todo != [] {
      assert Apply(sys, Close(id)).phases[id := Gone] == sys.phases[id := Gone];
    }
  }

  lemma {:induction false} CloseAll(sys: System, id: nat)
    requires Inv(sys) && id in sys.phases && sys.phases[id].Closing?
    ensures Inv(Ended(sys, id))
    decreases |sys.phases[id].todo|
  {
    EndedStep(sys, id);
    if sys.phases[id].todo == [] {
      EndStep(sys, id);
    } else {
      CloseStep(sys, id);
      CloseAll(Apply(sys, Close(id)), id);
    }
  }

  /** remove_client, then abort_file_routes_for_client. */
  ghost function Depart(sh: Shared, id: nat, order: seq<Key>): Shared
    requires forall k :: k in order ==> Live(sh.routes.table, k)
  {
    Shared(SendAll(Reg.Remove(sh.registry, id), SweepTodo(sh.routes.table, id, order)),
           sh.routes.(table := AbortTable(sh.routes.table, id)))
  }

  lemma DepartKeepsInvariant(sys: System, id: nat, order: seq<Key>)
    requires Inv(sys) && In(sys, id, Serving(Idle)) && AbortOrder(sys.sh.routes.table, id, order)
    ensures Inv(System(Depart(sys.sh, id, order), sys.phases[id := Gone]))
  {
    RemoveStep(sys, id, Removed);
    DepartSettles(sys, id, order);
    DepartSweep(Left(sys, id), id, order);
    CloseAll(Apply(Left(sys, id), Sweep(id, order)), id);
  }

  ghost function Left(sys: System, id: nat): System {
    AfterSend(sys, id, Reg.Remove(sys.sh.registry, id), Removed)
  }

  lemma DepartSettles(sys: System, id: nat, order: seq<Key>)
    requires In(sys, id, Serving(Idle)) && AbortOrder(sys.sh.routes.table, id, order)
    ensures Enabled(Left(sys, id), Sweep(id, order))
    ensures var swept := Apply(Left(sys, id), Sweep(id, order));
            && id in swept.phases && swept.phases[id].Closing?
            && Ended(swept, id) == System(Depart(sys.sh, id, order), sys.phases[id := Gone])
  {
    var swept := Apply(Left(sys, id), Sweep(id, order));
    assert swept.phases[id := Gone] == sys.phases[id := Gone];
  }

  // ----- Serial runs -----

  datatype Event =
    | Join(name: seq<Byte>)
    | FileFrame(id: nat, raw: seq<Byte>)
    | Disconnect(id: nat, order: seq<Key>)
    | Dequeue(id: nat)
    | OtherFrame(to: nat, frame: Frame)
    | NewKey(id: nat, key: seq<Byte>)

  ghost predicate Possible(sys: System, e: Event) {
    match e
    case Join(_) => true
    case FileFrame(id, _) => In(sys, id, Serving(Idle))
    case Disconnect(id, order) => In(sys, id, Serving(Idle)) && AbortOrder(sys.sh.routes.table, id, order)
    case Dequeue(_) => true
    case OtherFrame(_, frame) => frame.kind > FILE_ERROR
    case NewKey(_, key) => |key| == PUBLIC_KEY_SIZE
  }

  ghost function Happen(sys: System, e: Event): System
    requires Possible(sys, e)
  {
    match e
    case Join(name) =>
      var joined := Apply(sys, Login(name));
      if Reg.Login(sys.sh.registry, name).1.LoggedIn?
      then Apply(joined, Activate(Reg.Login(sys.sh.registry, name).1.id)) else joined
    case FileFrame(id, raw) => System(HandleFrame(sys.sh, id, NameOf(sys, id), raw), sys.phases)
    case Disconnect(id, order) => System(Depart(sys.sh, id, order), sys.phases[id := Gone])
    case Dequeue(id) => Apply(sys, TakeFrame(id))
    case OtherFrame(to, frame) => Apply(sys, Chatter(to, frame))
    case NewKey(id, key) => Apply(sys, PublishKey(id, key))
  }

  lemma EventStaysQuiet(sys: System, e: Event)
    requires Quiet(sys) && Possible(sys, e)
    ensures Quiet(Happen(sys, e))
  {
  }

  lemma JoinIs(sys: System, name: seq<Byte>)
    ensures var (r, result) := Reg.Login(sys.sh.registry, name);
            if result.LoggedIn?
            then && In(Apply(sys, Login(name)), result.id, Joining)
                 && Happen(sys, Join(name)) == Activated(Apply(sys, Login(name)), result.id)
            else Happen(sys, Join(name)) == sys
  {
  }

  lemma JoinKeepsInvariant(sys: System, name: seq<Byte>)
    requires Inv(sys)
    ensures Inv(Happen(sys, Join(name)))
  {
    JoinIs(sys, name);
    if Reg.Login(sys.sh.registry, name).1.LoggedIn? {
      LoginStep(sys, name);
      ActivateStep(Apply(sys, Login(name)), Reg.Login(sys.sh.registry, name).1.id);
    }
  }

  /** Traffic that takes one lock only changes the registry. */
  lemma TrafficIs(sys: System, e: Event)
    requires Possible(sys, e)
    ensures match e
            case Dequeue(id) => Happen(sys, e) == SetRegistry(sys, Reg.Take(sys.sh.registry, id).0)
            case OtherFrame(to, frame) => Happen(sys, e) == SetRegistry(sys, Reg.Queue(sys.sh.registry, to, frame).0)
            case NewKey(id, key) => Happen(sys, e) == SetRegistry(sys, Reg.RegisterKey(sys.sh.registry, id, key).0)
            case FileFrame(id, raw) => Happen(sys, e) == System(HandleFrame(sys.sh, id, NameOf(sys, id), raw), sys.phases)
            case Disconnect(id, order) => Happen(sys, e) == System(Depart(sys.sh, id, order), sys.phases[id := Gone])
            case Join(_) => true
  {
  }

  lemma TrafficKeepsInvariant(sys: System, e: Event)
    requires Inv(sys) && Possible(sys, e) && (e.Dequeue? || e.OtherFrame? || e.NewKey?)
    ensures Inv(Happen(sys, e))
  {
    TrafficIs(sys, e);
    match e
    case Dequeue(id) => TakeFrameStep(sys, id);
    case OtherFrame(to, frame) => ChatterStep(sys, to, frame);
    case NewKey(id, key) => PublishKeyStep(sys, id, key);
  }

  lemma EventKeepsInvariant(sys: System, e: Event)
    requires Inv(sys) && Quiet(sys) && Possible(sys, e)
    ensures Inv(Happen(sys, e))
  {
    TrafficIs(sys, e);
    match e
    case Join(name) => JoinKeepsInvariant(sys, name);
    case FileFrame(id, raw) => HandleFrameKeepsInvariant(sys, id, raw);
    case Disconnect(id, order) => DepartKeepsInvariant(sys, id, order);
    case _ => TrafficKeepsInvariant(sys, e);
  }

  ghost predicate AllPossible(sys: System, events: seq<Event>)
    decreases |events|
  {
    events != [] ==> Possible(sys, events[0]) && AllPossible(Happen(sys, events[0]), events[1..])
  }

  ghost function Outcome(sys: System, events: seq<Event>): System
    requires AllPossible(sys, events)
    decreases |events|
  {
    if events == [] then sys else Outcome(Happen(sys, events[0]), events[1..])
  }

  lemma {:induction false} EventsKeepInvariant(sys: System, events: seq<Event>)
    requires Inv(sys) && Quiet(sys) && AllPossible(sys, events)
    ensures Inv(Outcome(sys, events)) && Quiet(Outcome(sys, events))
    decreases |events|
  {
    if events != [] {
      EventKeepsInvariant(sys, events[0]);
      EventStaysQuiet(sys, events[0]);
      EventsKeepInvariant(Happen(sys, events[0]), events[1..]);
    }
  }

  /** For every run of logins, frames, disconnects and other traffic, however often the
      id counter wraps: the frames queued to any client under any outbound id keep to the
      grammar, and at a client that still accepts frames a session is open exactly when a
      live route feeds it. */
  lemma SerialRunsKeepGrammar(clients: nat, routes: Capacity, events: seq<Event>, target: nat, outbound: Word)
    requires AllPossible(Start(clients, routes), events)
    ensures var sys := Outcome(Start(clients, routes), events);
            var log := Reg.Log(sys.sh.registry, target);
            && SessionOf(log, outbound) != Broken
            && CountBegins(log, outbound) ==
               CountTerminals(log, outbound) + (if SessionOf(log, outbound).Open? then 1 else 0)
            && (Reg.Accepting(sys.sh.registry, target) ==> FedByRoutes(sys, target, outbound))
  {
    var sys := Outcome(Start(clients, routes), events);
    StartInvariant(clients, routes);
    EventsKeepInvariant(Start(clients, routes), events);
    assert NoStray(sys, target, outbound);
    OneTerminalPerSession(Reg.Log(sys.sh.registry, target), outbound);
    if Reg.Accepting(sys.sh.registry, target) {
      forall d: nat, r: nat
        ensures SessionAt(sys.sh.registry, target, outbound) == Open(d, r) <==> Feeding(sys, target, outbound, d, r)
      {
        QuietSessionsAreRoutes(sys, target, outbound, d, r);
      }
    }
  }
}
