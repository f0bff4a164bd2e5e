/** Whole runs of the interleaved server: what every reachable state satisfies. */
module RelayTheorems {
  import opened Bytes
  import opened FileProtocol
  import opened RouteSpec
  import opened Sessions
  import opened RelaySpec
  import opened Relay
  import opened RelayEnds
  import opened RelayProof
  import opened RelayRoutes
  import Reg = RegistrySpec

  // ----- Logins and departures -----

  /** A thread without plans moves to another phase without plans, along with its registration. */
  ghost predicate Moves(sys: System, id: nat, r': Reg.Registry, p': Phase) {
    && Todo(p') == [] && (id in sys.phases ==> Todo(sys.phases[id]) == []) && !p'.Serving?
    && (forall t :: t != id ==> (Reg.Accepting(r', t) <==> Reg.Accepting(sys.sh.registry, t)))
    && !Reg.Accepting(r', id)
    && (forall t, o :: SessionAt(r', t, o) == SessionAt(sys.sh.registry, t, o))
    && (id in sys.phases ==> (Alive(sys.phases[id]) ==> Alive(p')) && (p'.Joining? ==> sys.phases[id].Joining?))
    && (id in sys.phases && sys.phases[id].Serving? ==> sys.phases[id].pc.Idle?)
  }

  lemma MovePlans(sys: System, id: nat, r': Reg.Registry, p': Phase)
    requires Moves(sys, id, r', p') && Plans(sys)
    ensures Plans(AfterSend(sys, id, r', p'))
  {
    var sys' := AfterSend(sys, id, r', p');
    forall s | s in sys'.phases ensures PlannedAll(sys', s) {
      if s != id {
        assert PlannedAll(sys, s);
        forall t | Dead(sys, t) ensures Dead(sys', t) {}
        forall t | Known(sys, t) ensures Known(sys', t) {}
      }
    }
  }

  lemma MoveOwnership(sys: System, id: nat, r': Reg.Registry, p': Phase)
    requires Moves(sys, id, r', p') && Ownership(sys)
    ensures Ownership(AfterSend(sys, id, r', p'))
  {
    forall k | k in sys.sh.routes.table ensures Owned(AfterSend(sys, id, r', p'), k) {
      assert Owned(sys, k);
    }
  }

  lemma MoveRoute(sys: System, id: nat, r': Reg.Registry, p': Phase, k: Key)
    requires Moves(sys, id, r', p') && RouteAgrees(sys, k) && Waits(sys, k)
    requires k in sys.sh.routes.table ==> k.sender in sys.phases
    ensures RouteAgrees(AfterSend(sys, id, r', p'), k) && Waits(AfterSend(sys, id, r', p'), k)
  {
    if Live(sys.sh.routes.table, k) {
      var x := sys.sh.routes.table[k];
      PlanSame(sys.phases, id, p', x.target, x.outbound);
    }
  }

  lemma MoveGrammar(sys: System, id: nat, r': Reg.Registry, p': Phase)
    requires Moves(sys, id, r', p') && Grammar(sys) && Ownership(sys)
    ensures Grammar(AfterSend(sys, id, r', p'))
  {
    var sys' := AfterSend(sys, id, r', p');
    forall k ensures RouteAgrees(sys', k) && Waits(sys', k) {
      assert RouteAgrees(sys, k) && Waits(sys, k);
      assert k in sys.sh.routes.table ==> Owned(sys, k);
      MoveRoute(sys, id, r', p', k);
    }
    forall s, i: nat, t, o ensures EndAgrees(sys', s, i, t, o) {
      assert EndAgrees(sys, s, i, t, o);
      if Ends(sys'.phases, s, i, t, o) {
        PlanEnds(sys.phases, id, p', s, i, t, o);
      }
    }
    forall t: nat, o: nat ensures NoStray(sys', t, o) {
      assert NoStray(sys, t, o);
      PlanSame(sys.phases, id, p', t, o);
    }
    PlanOneEnd(sys.phases, id, p');
  }

  lemma Move(sys: System, id: nat, r': Reg.Registry, p': Phase)
    requires Inv(sys) && Moves(sys, id, r', p') && Reg.Valid(r') && Seating(AfterSend(sys, id, r', p'))
    ensures Inv(AfterSend(sys, id, r', p'))
  {
    MoveOwnership(sys, id, r', p');
    MovePlans(sys, id, r', p');
    MoveGrammar(sys, id, r', p');
  }

  lemma LoginStep(sys: System, name: seq<Byte>)
    requires Inv(sys)
    ensures Inv(Apply(sys, Login(name)))
  {
    var (r', result) := Reg.Login(sys.sh.registry, name);
    if result.LoggedIn? {
      Reg.LoginValid(sys.sh.registry, name);
      LoginMoves(sys, name);
      Move(sys, result.id, r', Joining);
    }
  }

  lemma LoginSeated(sys: System, name: seq<Byte>, s: nat)
    requires Reg.Valid(sys.sh.registry) && Seated(sys, s) && Seated(sys, sys.sh.registry.next)
    requires Reg.Login(sys.sh.registry, name).1.LoggedIn?
    ensures var (r', result) := Reg.Login(sys.sh.registry, name); Seated(AfterSend(sys, result.id, r', Joining), s)
  {
  }

  lemma LoginMoves(sys: System, name: seq<Byte>)
    requires Reg.Valid(sys.sh.registry) && Seating(sys) && Reg.Login(sys.sh.registry, name).1.LoggedIn?
    ensures var (r', result) := Reg.Login(sys.sh.registry, name);
            Moves(sys, result.id, r', Joining) && Seating(AfterSend(sys, result.id, r', Joining))
  {
    var (r', result) := Reg.Login(sys.sh.registry, name);
    var sys' := AfterSend(sys, result.id, r', Joining);
    assert Seated(sys, result.id);
    forall s ensures Seated(sys', s) {
      assert Seated(sys, s);
      LoginSeated(sys, name, s);
    }
    LoginIsQuiet(sys, name);
  }

  lemma LoginIsQuiet(sys: System, name: seq<Byte>)
    requires Reg.Valid(sys.sh.registry) && Reg.Login(sys.sh.registry, name).1.LoggedIn?
    requires Seated(sys, sys.sh.registry.next)
    ensures var (r', result) := Reg.Login(sys.sh.registry, name); Moves(sys, result.id, r', Joining)
  {
    var r' := Reg.Login(sys.sh.registry, name).0;
    forall t, o ensures SessionAt(r', t, o) == SessionAt(sys.sh.registry, t, o) {}
  }

  lemma RemoveSeated(sys: System, id: nat, p': Phase, s: nat)
    requires Seated(sys, s) && In(sys, id, if p' == Gone then Joining else Serving(Idle)) && p' in {Gone, Removed}
    ensures Seated(AfterSend(sys, id, Reg.Remove(sys.sh.registry, id), p'), s)
  {
  }

  lemma RemoveMoves(sys: System, id: nat, p': Phase)
    requires Seating(sys)
    requires (In(sys, id, Joining) && p' == Gone) || (In(sys, id, Serving(Idle)) && p' == Removed)
    ensures Moves(sys, id, Reg.Remove(sys.sh.registry, id), p')
    ensures Seating(AfterSend(sys, id, Reg.Remove(sys.sh.registry, id), p'))
  {
    var sys' := AfterSend(sys, id, Reg.Remove(sys.sh.registry, id), p');
    forall s ensures Seated(sys', s) {
      assert Seated(sys, s);
      RemoveSeated(sys, id, p', s);
    }
  }

  lemma RemoveStep(sys: System, id: nat, p': Phase)
    requires Inv(sys)
    requires (In(sys, id, Joining) && p' == Gone) || (In(sys, id, Serving(Idle)) && p' == Removed)
    ensures Inv(AfterSend(sys, id, Reg.Remove(sys.sh.registry, id), p'))
  {
    Reg.RemoveValid(sys.sh.registry, id);
    RemoveMoves(sys, id, p');
    Move(sys, id, Reg.Remove(sys.sh.registry, id), p');
  }

  /** A thread whose notifications are done ends. */
  lemma EndStep(sys: System, id: nat)
    requires Inv(sys) && In(sys, id, Closing([]))
    ensures Inv(SetPhase(sys, id, Gone))
  {
    EndMoves(sys, id);
    Move(sys, id, sys.sh.registry, Gone);
    assert AfterSend(sys, id, sys.sh.registry, Gone) == SetPhase(sys, id, Gone);
  }

  lemma EndMoves(sys: System, id: nat)
    requires Seating(sys) && In(sys, id, Closing([]))
    ensures Moves(sys, id, sys.sh.registry, Gone) && Seating(AfterSend(sys, id, sys.sh.registry, Gone))
  {
    var sys' := AfterSend(sys, id, sys.sh.registry, Gone);
    assert Seated(sys, id);
    forall s ensures Seated(sys', s) {
      assert Seated(sys, s);
    }
  }

  // Activation: the one step that makes a client accept frames.

  ghost function Activated(sys: System, id: nat): System {
    AfterSend(sys, id, Reg.Activate(sys.sh.registry, id), Serving(Idle))
  }

  lemma ActivateStanding(sys: System, id: nat)
    requires In(sys, id, Joining) && Seating(sys) && Ownership(sys)
    ensures Seating(Activated(sys, id)) && Ownership(Activated(sys, id))
  {
    forall s ensures Seated(Activated(sys, id), s) {
      assert Seated(sys, s);
    }
    forall k | k in sys.sh.routes.table ensures Owned(Activated(sys, id), k) {
      assert Owned(sys, k);
    }
  }

  lemma ActivatePlans(sys: System, id: nat)
    requires In(sys, id, Joining) && Plans(sys)
    ensures Plans(Activated(sys, id))
  {
    var sys' := Activated(sys, id);
    forall s | s in sys'.phases ensures PlannedAll(sys', s) {
      if s != id {
        assert PlannedAll(sys, s);
        forall t | Dead(sys, t) ensures Dead(sys', t) {}
      }
    }
  }

  lemma ActivateRoute(sys: System, id: nat, k: Key)
    requires In(sys, id, Joining) && RouteAgrees(sys, k) && Waits(sys, k)
    requires k in sys.sh.routes.table ==> Owned(sys, k)
    ensures RouteAgrees(Activated(sys, id), k) && Waits(Activated(sys, id), k)
  {
    if Live(sys.sh.routes.table, k) {
      var x := sys.sh.routes.table[k];
      PlanSame(sys.phases, id, Serving(Idle), x.target, x.outbound);
    }
  }

  /** Nobody plans to end a session of a client that has not been activated. */
  lemma ActivateEnd(sys: System, id: nat, s: nat, i: nat, t: nat, o: nat)
    requires In(sys, id, Joining) && EndAgrees(sys, s, i, t, o) && (s in sys.phases ==> PlannedAll(sys, s))
    ensures EndAgrees(Activated(sys, id), s, i, t, o)
  {
    if Ends(Activated(sys, id).phases, s, i, t, o) {
      PlanEnds(sys.phases, id, Serving(Idle), s, i, t, o);
      assert Planned(sys, s, Todo(sys.phases[s])[i], sys.phases[s].Serving? && |Todo(sys.phases[s])| == 1);
    }
  }

  lemma ActivateGrammar(sys: System, id: nat)
    requires In(sys, id, Joining) && Grammar(sys) && Seating(sys) && Ownership(sys) && Plans(sys)
    ensures Grammar(Activated(sys, id))
  {
    var sys' := Activated(sys, id);
    forall k ensures RouteAgrees(sys', k) && Waits(sys', k) {
      assert RouteAgrees(sys, k) && Waits(sys, k);
      assert k in sys.sh.routes.table ==> Owned(sys, k);
      ActivateRoute(sys, id, k);
    }
    forall s, i: nat, t, o ensures EndAgrees(sys', s, i, t, o) {
      assert EndAgrees(sys, s, i, t, o);
      assert s in sys.phases ==> PlannedAll(sys, s);
      ActivateEnd(sys, id, s, i, t, o);
    }
    assert Seated(sys, id);
    forall t: nat, o: nat ensures NoStray(sys', t, o) {
      assert NoStray(sys, t, o);
      PlanSame(sys.phases, id, Serving(Idle), t, o);
    }
    PlanOneEnd(sys.phases, id, Serving(Idle));
  }

  lemma ActivateStep(sys: System, id: nat)
    requires Inv(sys) && In(sys, id, Joining)
    ensures Inv(Activated(sys, id))
  {
    assert Seated(sys, id);
    Reg.ActivateValid(sys.sh.registry, id);
    ActivateStanding(sys, id);
    ActivatePlans(sys, id);
    ActivateGrammar(sys, id);
  }

  // ----- Every step -----

  /** The step queues a BEGIN while some thread has yet to end the session of that id. */
  ghost predicate Overtakes(sys: System, step: Step) {
    && step.Proceed? && step.id in sys.phases && sys.phases[step.id].Serving? && sys.phases[step.id].pc.Emitting?
    && var todo := sys.phases[step.id].pc.todo;
    && todo != [] && Reg.Queue(sys.sh.registry, todo[0].to, todo[0].frame).1 && Early(sys.phases, todo[0])
  }

  lemma LookupStep(sys: System, id: nat, raw: seq<Byte>, begin: Begin)
    requires Inv(sys) && In(sys, id, Serving(Idle)) && DecodeBegin(raw) == Some(begin)
    ensures Inv(SetPhase(sys, id, Serving(LookedUp(begin, Reg.Find(sys.sh.registry, begin.peer)))))
  {
    var target := Reg.Find(sys.sh.registry, begin.peer);
    var p' := Serving(LookedUp(begin, target));
    BeginCodec(raw, begin);
    LookupPlanned(sys, id, begin, target);
    LookupCalm(sys, id, p');
    PhaseSeating(sys, id, p');
    PhaseOwnership(sys, id, p');
    PhasePlans(sys, id, p');
    OpenNoticeGrammar(sys, id, p');
  }

  lemma LookupCalm(sys: System, id: nat, p': Phase)
    requires In(sys, id, Serving(Idle)) && p'.Serving? && p'.pc.LookedUp?
    ensures SameStanding(sys.phases[id], p') && NoRoute(sys.phases[id]) && NoRoute(p') && Notes(Todo(p'), 0)
    ensures forall k :: !Starting(sys.phases[id], k)
  {
  }

  lemma LookupPlanned(sys: System, id: nat, begin: Begin, target: nat)
    requires Seating(sys) && In(sys, id, Serving(Idle)) && ValidBegin(begin)
    requires target != 0 ==> Reg.Accepting(sys.sh.registry, target)
    ensures PlannedAll(SetPhase(sys, id, Serving(LookedUp(begin, target))), id)
  {
    assert Seated(sys, target);
  }

  lemma ReceiveStep(sys: System, id: nat, raw: seq<Byte>)
    requires Inv(sys) && In(sys, id, Serving(Idle))
    ensures var (sh', pc') := Dispatch(sys.sh, id, NameOf(sys, id), raw);
            Inv(System(sh', sys.phases[id := Serving(pc')]))
  {
    if id == INVALID_CLIENT || raw == [] {
      assert sys.phases[id := Serving(Idle)] == sys.phases;
    } else if |raw| > FRAME_MAX_SIZE {
      NoticeStep(sys, id, TOO_LARGE);
    } else {
      KindStep(sys, id, raw);
    }
  }

  ghost predicate InvAfter(sys: System, id: nat, next: (Shared, Pc)) {
    Inv(System(next.0, sys.phases[id := Serving(next.1)]))
  }

  lemma KindStep(sys: System, id: nat, raw: seq<Byte>)
    requires Inv(sys) && In(sys, id, Serving(Idle)) && id != INVALID_CLIENT && 0 < |raw| <= FRAME_MAX_SIZE
    ensures InvAfter(sys, id, Dispatch(sys.sh, id, NameOf(sys, id), raw))
  {
    if raw[0] == FILE_BEGIN {
      BeginStep(sys, id, raw);
    } else if raw[0] == FILE_CHUNK {
      ChunkStep(sys, id, raw);
    } else if raw[0] == FILE_END {
      FinishStep(sys, id, raw, true);
    } else if raw[0] == FILE_ERROR {
      FinishStep(sys, id, raw, false);
    } else {
      NoticeStep(sys, id, BAD_TYPE);
    }
  }

  lemma BeginStep(sys: System, id: nat, raw: seq<Byte>)
    requires Inv(sys) && In(sys, id, Serving(Idle))
    ensures var (sh', pc') := DispatchBegin(sys.sh, id, NameOf(sys, id), raw);
            Inv(System(sh', sys.phases[id := Serving(pc')]))
  {
    if !ValidPeer(NameOf(sys, id)) {
      NoticeStep(sys, id, BAD_SENDER);
    } else {
      match DecodeBegin(raw)
      case None => SpoilStep(sys, id, raw, true);
      case Some(begin) => LookupStep(sys, id, raw, begin);
    }
  }

  lemma ProceedStep(sys: System, id: nat)
    requires Inv(sys) && Enabled(sys, Proceed(id)) && !Overtakes(sys, Proceed(id))
    ensures var (sh', pc') := RelaySpec.Advance(sys.sh, id, NameOf(sys, id), sys.phases[id].pc);
            Inv(System(sh', sys.phases[id := Serving(pc')]))
  {
    assert PlannedAll(sys, id);
    match sys.phases[id].pc
    case LookedUp(begin, target) => AddStep(sys, id, begin, target);
    case Emitting(todo) => EmitStep(sys, id, todo);
    case Quarantining(k) => QuarantineStep(sys, id, k);
    case Marking(k, outbound) => MarkStep(sys, id, k, outbound);
    case Rejecting(_) => assert false;
  }

  /** Every step but one that overtakes keeps the invariant. */
  lemma StepKeepsInvariant(sys: System, step: Step)
    requires Inv(sys) && Enabled(sys, step) && !Overtakes(sys, step)
    ensures Inv(Apply(sys, step))
  {
    match step
    case Login(name) => LoginStep(sys, name);
    case Activate(id) => ActivateStep(sys, id);
    case GiveUp(id) => RemoveStep(sys, id, Gone);
    case Receive(id, raw) => ReceiveStep(sys, id, raw);
    case Proceed(id) => ProceedStep(sys, id);
    case Leave(id) => RemoveStep(sys, id, Removed);
    case Sweep(id, order) => DepartSweep(sys, id, order);
    case Close(id) => if sys.phases[id].todo == [] { EndStep(sys, id); } else { CloseStep(sys, id); }
    case TakeFrame(id) => TakeFrameStep(sys, id);
    case Chatter(to, frame) => ChatterStep(sys, to, frame);
    case PublishKey(id, key) => PublishKeyStep(sys, id, key);
  }

  lemma DepartSweep(sys: System, id: nat, order: seq<Key>)
    requires Inv(sys) && In(sys, id, Removed) && AbortOrder(sys.sh.routes.table, id, order)
    ensures id != INVALID_CLIENT && Inv(Swept(sys, id, order))
  {
    assert Seated(sys, id);
    SweepStep(sys, id, order);
  }

  /** A step that overtakes breaks the grammar at once. */
  lemma OvertakingBreaks(sys: System, step: Step)
    requires Inv(sys) && Enabled(sys, step) && Overtakes(sys, step)
    ensures var e := sys.phases[step.id].pc.todo[0];
            SessionAt(Apply(sys, step).sh.registry, e.to, Meaning(e.frame).begin.id) == Broken
  {
    var e := sys.phases[step.id].pc.todo[0];
    EarlyBreaks(sys, e, Meaning(e.frame).begin.id);
  }

  lemma EarlyBreaks(sys: System, e: Emission, o: nat)
    requires EndsAgree(sys) && Early(sys.phases, e) && o == Meaning(e.frame).begin.id
    requires Reg.Queue(sys.sh.registry, e.to, e.frame).1
    ensures SessionAt(Reg.Queue(sys.sh.registry, e.to, e.frame).0, e.to, o) == Broken
  {
    var s: nat, i: nat :| Ends(sys.phases, s, i, e.to, o);
    assert EndAgrees(sys, s, i, e.to, o);
    SessionAppend(Reg.Log(sys.sh.registry, e.to), e.frame, o);
  }
}
