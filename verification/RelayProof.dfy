/** Every step of the interleaved server keeps the invariant of Relay. */
module RelayProof {
  import opened Bytes
  import opened FileProtocol
  import opened RouteSpec
  import opened Sessions
  import opened RelaySpec
  import opened Relay
  import opened RelayEnds
  import Reg = RegistrySpec

  // ----- Steps that only touch the registry -----

  /** The same clients, of which nobody started to accept frames. */
  ghost predicate Muted(r: Reg.Registry, r': Reg.Registry) {
    && r'.log.Keys == r.log.Keys && r'.clients.Keys == r.clients.Keys
    && (forall id :: Reg.Accepting(r', id) ==> Reg.Accepting(r, id))
    && (forall id :: id in r.clients && !r.clients[id].ready ==> r'.clients[id].failed == r.clients[id].failed)
    && (forall id :: !Reg.Accepting(r, id) ==> Reg.Log(r', id) == Reg.Log(r, id))
  }

  /** Besides, no session changed. */
  ghost predicate Quieter(r: Reg.Registry, r': Reg.Registry) {
    Muted(r, r') && forall id, o :: SessionOf(Reg.Log(r', id), o) == SessionOf(Reg.Log(r, id), o)
  }

  lemma MutedPlans(sys: System, r': Reg.Registry)
    requires Plans(sys) && Muted(sys.sh.registry, r')
    ensures Plans(SetRegistry(sys, r'))
  {
    var sys' := SetRegistry(sys, r');
    forall id | id in sys'.phases ensures PlannedAll(sys', id) {
      assert PlannedAll(sys, id);
      forall t | Dead(sys, t) ensures Dead(sys', t) {}
    }
  }

  lemma QuieterGrammar(sys: System, r': Reg.Registry)
    requires Grammar(sys) && Quieter(sys.sh.registry, r')
    ensures Grammar(SetRegistry(sys, r'))
  {
    var sys' := SetRegistry(sys, r');
    forall k ensures RouteAgrees(sys', k) && Waits(sys', k) {
      assert RouteAgrees(sys, k) && Waits(sys, k);
    }
    forall id, i: nat, t, o ensures EndAgrees(sys', id, i, t, o) {
      assert EndAgrees(sys, id, i, t, o);
    }
    forall t: nat, o: nat ensures NoStray(sys', t, o) {
      assert NoStray(sys, t, o);
    }
  }

  lemma MutedSeating(sys: System, r': Reg.Registry)
    requires Seating(sys) && Muted(sys.sh.registry, r')
    ensures Seating(SetRegistry(sys, r'))
  {
    var sys' := SetRegistry(sys, r');
    forall id ensures Seated(sys', id) {
      assert Seated(sys, id);
      assert Reg.Accepting(r', id) ==> Reg.Accepting(sys.sh.registry, id);
    }
  }

  lemma MutedOwnership(sys: System, r': Reg.Registry)
    requires Ownership(sys)
    ensures Ownership(SetRegistry(sys, r'))
  {
    forall k | k in sys.sh.routes.table ensures Owned(SetRegistry(sys, r'), k) {
      assert Owned(sys, k);
    }
  }

  lemma RegistryOnly(sys: System, r': Reg.Registry)
    requires Inv(sys) && Reg.Valid(r') && Quieter(sys.sh.registry, r')
    ensures Inv(SetRegistry(sys, r'))
  {
    MutedSeating(sys, r');
    MutedOwnership(sys, r');
    MutedPlans(sys, r');
    QuieterGrammar(sys, r');
  }

  lemma QueueMuted(r: Reg.Registry, to: nat, f: Frame)
    requires to in r.clients ==> to in r.log
    ensures Muted(r, Reg.Queue(r, to, f).0)
    ensures forall id :: Reg.Log(Reg.Queue(r, to, f).0, id) ==
              if Reg.Queue(r, to, f).1 && id == to then Reg.Log(r, id) + [f] else Reg.Log(r, id)
  {
  }

  /** Queueing a frame that is not a file frame, or failing to queue any frame. */
  lemma QueueQuieter(r: Reg.Registry, to: nat, f: Frame)
    requires to in r.clients ==> to in r.log
    requires Meaning(f) == OtherEvent || !Reg.Queue(r, to, f).1
    ensures Quieter(r, Reg.Queue(r, to, f).0)
  {
    var r' := Reg.Queue(r, to, f).0;
    QueueMuted(r, to, f);
    forall id, o ensures SessionOf(Reg.Log(r', id), o) == SessionOf(Reg.Log(r, id), o) {
      if Reg.Queue(r, to, f).1 {
        SessionAppend(Reg.Log(r, to), f, o);
      }
    }
  }

  lemma TakeQuieter(r: Reg.Registry, id: nat)
    ensures Quieter(r, Reg.Take(r, id).0)
  {
  }

  lemma KeyQuieter(r: Reg.Registry, id: nat, key: seq<Byte>)
    ensures Quieter(r, Reg.RegisterKey(r, id, key).0)
  {
  }

  lemma TakeFrameStep(sys: System, id: nat)
    requires Inv(sys)
    ensures Inv(SetRegistry(sys, Reg.Take(sys.sh.registry, id).0))
  {
    Reg.TakeValid(sys.sh.registry, id);
    TakeQuieter(sys.sh.registry, id);
    RegistryOnly(sys, Reg.Take(sys.sh.registry, id).0);
  }

  lemma ChatterStep(sys: System, to: nat, f: Frame)
    requires Inv(sys) && f.kind > FILE_ERROR
    ensures Inv(SetRegistry(sys, Reg.Queue(sys.sh.registry, to, f).0))
  {
    Reg.QueueValid(sys.sh.registry, to, f);
    QueueQuieter(sys.sh.registry, to, f);
    RegistryOnly(sys, Reg.Queue(sys.sh.registry, to, f).0);
  }

  lemma PublishKeyStep(sys: System, id: nat, key: seq<Byte>)
    requires Inv(sys) && |key| == PUBLIC_KEY_SIZE
    ensures Inv(SetRegistry(sys, Reg.RegisterKey(sys.sh.registry, id, key).0))
  {
    Reg.RegisterKeyValid(sys.sh.registry, id, key);
    KeyQuieter(sys.sh.registry, id, key);
    RegistryOnly(sys, Reg.RegisterKey(sys.sh.registry, id, key).0);
  }

  // ----- Steps that only change what one thread is about to do -----

  ghost predicate HeadIdle(sys: System, p: Phase)
    requires Todo(p) != []
  {
    Ender(Todo(p)[0]) ==> !Reg.Accepting(sys.sh.registry, Todo(p)[0].to)
  }

  /** What p' says about route k is what the present phase of thread id says. */
  ghost predicate SameSent(sys: System, id: nat, p': Phase, k: Key)
    requires id in sys.phases
  {
    Live(sys.sh.routes.table, k) && k.sender == id ==>
      && (Starting(sys.phases[id], k) ==> Starting(p', k))
      && (Reg.Accepting(sys.sh.registry, sys.sh.routes.table[k].target) && p' != Serving(Quarantining(k)) ==>
            && sys.phases[id] != Serving(Quarantining(k)) && Unsent(p', k) == Unsent(sys.phases[id], k)
            && Sent(p', k, sys.sh.routes.table[k]) == Sent(sys.phases[id], k, sys.sh.routes.table[k]))
  }

  lemma DropRouteAgrees(sys: System, id: nat, p': Phase, k: Key)
    requires id in sys.phases && Drops(sys.phases[id], p') && HeadIdle(sys, sys.phases[id])
    requires RouteAgrees(sys, k) && Waits(sys, k) && SameSent(sys, id, p', k)
    ensures RouteAgrees(SetPhase(sys, id, p'), k) && Waits(SetPhase(sys, id, p'), k)
  {
    if Live(sys.sh.routes.table, k) {
      var x := sys.sh.routes.table[k];
      if HeldByEnd(sys.phases, x.target, x.outbound) && Reg.Accepting(sys.sh.registry, x.target) {
        DropHeld(sys.phases, id, p', x.target, x.outbound);
      }
      if HeldByEnd(sys.phases[id := p'], x.target, x.outbound) {
        DropHeldBack(sys.phases, id, p', x.target, x.outbound);
      }
    }
  }

  lemma DropEndAgrees(sys: System, id: nat, p': Phase, s: nat, i: nat, t: nat, o: nat)
    requires id in sys.phases && Drops(sys.phases[id], p')
    requires EndAgrees(sys, s, if s == id then i + 1 else i, t, o)
    ensures EndAgrees(SetPhase(sys, id, p'), s, i, t, o)
  {
    if Ends(sys.phases[id := p'], s, i, t, o) {
      DropEnds(sys.phases, id, p', s, i, t, o);
    }
  }

  lemma DropNoStray(sys: System, id: nat, p': Phase, t: nat, o: nat)
    requires NoStray(sys, t, o) && id in sys.phases && Drops(sys.phases[id], p') && HeadIdle(sys, sys.phases[id])
    ensures NoStray(SetPhase(sys, id, p'), t, o)
  {
    if HeldByEnd(sys.phases, t, o) && Reg.Accepting(sys.sh.registry, t) {
      DropHeld(sys.phases, id, p', t, o);
    }
  }

  lemma DropGrammar(sys: System, id: nat, p': Phase)
    requires Grammar(sys) && id in sys.phases && Drops(sys.phases[id], p') && HeadIdle(sys, sys.phases[id])
    requires forall k :: SameSent(sys, id, p', k)
    ensures Grammar(SetPhase(sys, id, p'))
  {
    var sys' := SetPhase(sys, id, p');
    forall k ensures RouteAgrees(sys', k) && Waits(sys', k) {
      assert RouteAgrees(sys, k) && Waits(sys, k) && SameSent(sys, id, p', k);
      DropRouteAgrees(sys, id, p', k);
    }
    forall s, i: nat, t, o ensures EndAgrees(sys', s, i, t, o) {
      assert EndAgrees(sys, s, if s == id then i + 1 else i, t, o);
      DropEndAgrees(sys, id, p', s, i, t, o);
    }
    forall t: nat, o: nat ensures NoStray(sys', t, o) {
      assert NoStray(sys, t, o);
      DropNoStray(sys, id, p', t, o);
    }
    DropOneEnd(sys.phases, id, p');
  }

  // ----- A phase change that is not visible to others -----

  ghost predicate SameStanding(p: Phase, p': Phase) {
    Registered(p) == Registered(p') && Alive(p) == Alive(p') && p.Joining? == p'.Joining?
  }

  lemma PhaseSeating(sys: System, id: nat, p': Phase)
    requires Seating(sys) && id in sys.phases && SameStanding(sys.phases[id], p')
    ensures Seating(SetPhase(sys, id, p'))
  {
    var sys' := SetPhase(sys, id, p');
    forall s ensures Seated(sys', s) {
      assert Seated(sys, s);
      assert In(sys', s, Joining) ==> In(sys, s, Joining);
    }
  }

  lemma PhaseOwnership(sys: System, id: nat, p': Phase)
    requires Ownership(sys) && id in sys.phases && SameStanding(sys.phases[id], p')
    requires forall k :: Live(sys.sh.routes.table, k) && k.sender == id && Starting(sys.phases[id], k) ==>
               Starting(p', k) || Alive(sys.phases[sys.sh.routes.table[k].target])
    ensures Ownership(SetPhase(sys, id, p'))
  {
    var sys' := SetPhase(sys, id, p');
    forall k | k in sys'.sh.routes.table ensures Owned(sys', k) {
      assert Owned(sys, k);
    }
  }

  lemma PhasePlans(sys: System, id: nat, p': Phase)
    requires Plans(sys) && id in sys.phases && p'.Joining? == sys.phases[id].Joining?
    requires PlannedAll(SetPhase(sys, id, p'), id)
    ensures Plans(SetPhase(sys, id, p'))
  {
    var sys' := SetPhase(sys, id, p');
    forall s | s in sys'.phases ensures PlannedAll(sys', s) {
      if s != id {
        assert PlannedAll(sys, s);
        forall t ensures Dead(sys, t) <==> Dead(sys', t) {}
        forall t ensures Known(sys, t) <==> Known(sys', t) {}
      }
    }
  }

  lemma PhaseOnly(sys: System, id: nat, p': Phase)
    requires Inv(sys) && id in sys.phases && SameStanding(sys.phases[id], p')
    requires Drops(sys.phases[id], p') && HeadIdle(sys, sys.phases[id])
    requires forall k :: SameSent(sys, id, p', k)
    requires PlannedAll(SetPhase(sys, id, p'), id)
    ensures Inv(SetPhase(sys, id, p'))
  {
    PhaseSeating(sys, id, p');
    assert forall k :: Live(sys.sh.routes.table, k) && k.sender == id && Starting(sys.phases[id], k) ==> Starting(p', k) by {
      forall k | Live(sys.sh.routes.table, k) && k.sender == id && Starting(sys.phases[id], k) ensures Starting(p', k) {
        assert SameSent(sys, id, p', k);
      }
    }
    PhaseOwnership(sys, id, p');
    PhasePlans(sys, id, p');
    DropGrammar(sys, id, p');
  }

  // ----- Emissions that are notices, or that reach nobody -----

  /** The first emission of a thread was a notice, or an error frame for a dead client. */
  lemma SkipEmission(sys: System, id: nat, p': Phase)
    requires Inv(sys) && id in sys.phases && Todo(sys.phases[id]) != []
    requires var e := Todo(sys.phases[id])[0];
             Meaning(e.frame).OtherEvent? || (Meaning(e.frame).ErrorEvent? && !Reg.Accepting(sys.sh.registry, e.to))
    requires SameStanding(sys.phases[id], p') && Todo(p') == Todo(sys.phases[id])[1..]
    requires p'.Serving? ==> p'.pc == Continue(Todo(p'))
    ensures Inv(SetPhase(sys, id, p'))
  {
    assert PlannedAll(sys, id);
    NoOnlyAfter(sys, id, p');
    SkipFacts(sys, id, p');
    PhaseOnly(sys, id, p');
  }

  lemma SkipFacts(sys: System, id: nat, p': Phase)
    requires id in sys.phases && PlannedAll(sys, id) && Todo(sys.phases[id]) != []
    requires var e := Todo(sys.phases[id])[0];
             Meaning(e.frame).OtherEvent? || (Meaning(e.frame).ErrorEvent? && !Reg.Accepting(sys.sh.registry, e.to))
    requires Todo(p') == Todo(sys.phases[id])[1..] && (p'.Serving? ==> p'.pc == Continue(Todo(p')))
    requires forall i :: 0 <= i < |Todo(p')| ==> Todo(p')[i].onFail == Ignore
    ensures Drops(sys.phases[id], p') && HeadIdle(sys, sys.phases[id]) && forall k :: SameSent(sys, id, p', k)
  {
    var p := sys.phases[id];
    assert Planned(sys, id, Todo(p)[0], p.Serving? && |Todo(p)| == 1);
    SkipSent(sys, id, p');
  }

  /** A thread whose first emission is ignored when it fails speaks of no route. */
  lemma SkipSent(sys: System, id: nat, p': Phase)
    requires id in sys.phases && Todo(sys.phases[id]) != [] && Todo(sys.phases[id])[0].onFail == Ignore
    requires Todo(p') != [] ==> Todo(p')[0].onFail == Ignore
    requires p'.Serving? ==> !p'.pc.Quarantining?
    ensures forall k :: SameSent(sys, id, p', k)
  {
  }

  lemma NoOnlyAfter(sys: System, id: nat, p': Phase)
    requires id in sys.phases && PlannedAll(sys, id) && Todo(sys.phases[id]) != []
    requires SameStanding(sys.phases[id], p') && Todo(p') == Todo(sys.phases[id])[1..]
    requires p'.Serving? ==> p'.pc == Continue(Todo(p'))
    ensures PlannedAll(SetPhase(sys, id, p'), id)
    ensures forall i :: 0 <= i < |Todo(p')| ==> Todo(p')[i].onFail == Ignore
    ensures forall k :: !Starting(p', k)
  {
    var sys' := SetPhase(sys, id, p');
    var p := sys.phases[id];
    forall i | 0 <= i < |Todo(p')|
      ensures Planned(sys', id, Todo(p')[i], p'.Serving? && |Todo(p')| == 1)
      ensures Todo(p')[i].onFail == Ignore
    {
      assert Todo(p')[i] == Todo(p)[i + 1];
      assert Planned(sys, id, Todo(p)[i + 1], p.Serving? && |Todo(p)| == 1);
    }
  }

  ghost predicate Sending(sys: System, id: nat, e: Emission) {
    In(sys, id, Serving(Emitting([e])))
  }

  /** Where a handler goes when its only frame could not be queued. */
  ghost function Fallback(e: Emission, id: nat): Phase {
    Serving(match e.onFail
            case Ignore => Idle
            case ThenNotify => Emitting([Note(id, DISCONNECTED)])
            case ThenQuarantine(k) => Quarantining(k)
            case ThenMark(k, outbound) => Marking(k, outbound))
  }

  ghost predicate IsMain(e: Emission) {
    Meaning(e.frame).BeginEvent? || Meaning(e.frame).ChunkEvent? || Meaning(e.frame).EndEvent?
  }

  /** The plans of a thread whose main frame could not be queued speak of the same routes. */
  lemma UnsentFacts(sys: System, id: nat, e: Emission)
    requires Sending(sys, id, e) && Planned(sys, id, e, true) && !Reg.Accepting(sys.sh.registry, e.to) && IsMain(e)
    ensures forall k :: SameSent(sys, id, Fallback(e, id), k)
    ensures Drops(sys.phases[id], Fallback(e, id)) && HeadIdle(sys, sys.phases[id])
    ensures SameStanding(sys.phases[id], Fallback(e, id))
  {
  }

  lemma UnsentPlanned(sys: System, id: nat, e: Emission)
    requires Sending(sys, id, e) && Planned(sys, id, e, true) && !Reg.Accepting(sys.sh.registry, e.to) && IsMain(e)
    ensures PlannedAll(SetPhase(sys, id, Fallback(e, id)), id)
  {
  }

  /** A begin, chunk or end frame that could not be queued. */
  lemma UnsentStep(sys: System, id: nat, e: Emission)
    requires Inv(sys) && Sending(sys, id, e) && Planned(sys, id, e, true) && !Reg.Accepting(sys.sh.registry, e.to) && IsMain(e)
    ensures Inv(SetPhase(sys, id, Fallback(e, id)))
  {
    UnsentFacts(sys, id, e);
    UnsentPlanned(sys, id, e);
    PhaseOnly(sys, id, Fallback(e, id));
  }

  // ----- Emissions that are queued -----

  ghost predicate Delivered(r: Reg.Registry, r': Reg.Registry, to: nat, f: Frame) {
    && Muted(r, r')
    && Reg.Accepting(r, to)
    && (forall id :: Reg.Log(r', id) == if id == to then Reg.Log(r, id) + [f] else Reg.Log(r, id))
  }

  lemma QueueDelivers(r: Reg.Registry, to: nat, f: Frame)
    requires Reg.Valid(r) && Reg.Queue(r, to, f).1
    ensures Delivered(r, Reg.Queue(r, to, f).0, to, f)
  {
    QueueMuted(r, to, f);
  }

  /** A file frame for client t leaves every session but its own alone. */
  lemma OtherSessions(r: Reg.Registry, r': Reg.Registry, t: nat, f: Frame, id: nat, o: nat)
    requires Delivered(r, r', t, f) && !Meaning(f).OtherEvent?
    requires id != t || o != IdOf(Meaning(f))
    ensures SessionOf(Reg.Log(r', id), o) == SessionOf(Reg.Log(r, id), o)
  {
    SessionAppend(Reg.Log(r, t), f, o);
  }

  // The frame ends a session.

  ghost function AfterSend(sys: System, id: nat, r': Reg.Registry, p': Phase): System {
    SetPhase(SetRegistry(sys, r'), id, p')
  }

  /** The phase speaks of no route: its first emission is neither a BEGIN nor a CHUNK. */
  ghost predicate NoRoute(p: Phase) {
    && (Todo(p) != [] ==> !Todo(p)[0].onFail.ThenQuarantine? && !Todo(p)[0].onFail.ThenMark?)
    && (p.Serving? ==> !p.pc.Quarantining?)
  }

  lemma NoRouteSent(p: Phase, k: Key, x: Entry)
    requires NoRoute(p) && x.Forwarding?
    ensures !Starting(p, k) && !Unsent(p, k) && Sent(p, k, x) == Open(x.expected, x.forwarded)
  {
  }

  ghost predicate SendsEnd(sys: System, id: nat, r': Reg.Registry, p': Phase) {
    && id in sys.phases && Todo(sys.phases[id]) != [] && Ender(Todo(sys.phases[id])[0])
    && Delivered(sys.sh.registry, r', Todo(sys.phases[id])[0].to, Todo(sys.phases[id])[0].frame)
    && Todo(p') == Todo(sys.phases[id])[1..]
    && NoRoute(sys.phases[id]) && NoRoute(p')
  }

  /** The session of the first emission goes from open to closed. */
  lemma EndCloses(sys: System, id: nat, r': Reg.Registry, p': Phase)
    requires SendsEnd(sys, id, r', p') && EndsAgree(sys)
    ensures var e := Todo(sys.phases[id])[0]; var o := IdOf(Meaning(e.frame));
            Ends(sys.phases, id, 0, e.to, o) && SessionAt(r', e.to, o) == Closed
  {
    var e := Todo(sys.phases[id])[0];
    var o := IdOf(Meaning(e.frame));
    assert Ends(sys.phases, id, 0, e.to, o) && EndAgrees(sys, id, 0, e.to, o);
    SessionAppend(Reg.Log(sys.sh.registry, e.to), e.frame, o);
  }

  /** A route on the very id that was ended is one whose BEGIN is still to come. */
  lemma EndOwnRoute(sys: System, id: nat, r': Reg.Registry, p': Phase, k: Key)
    requires SendsEnd(sys, id, r', p') && EndsAgree(sys) && OneEnd(sys.phases) && Waits(sys, k)
    requires Live(sys.sh.routes.table, k)
    requires var x := sys.sh.routes.table[k]; Closes(Todo(sys.phases[id])[0], x.target, x.outbound)
    ensures RouteAgrees(AfterSend(sys, id, r', p'), k) && Waits(AfterSend(sys, id, r', p'), k)
  {
    var x := sys.sh.routes.table[k];
    EndCloses(sys, id, r', p');
    DropLast(sys.phases, id, p', x.target, x.outbound);
    assert HeldByEnd(sys.phases, x.target, x.outbound);
    NoRouteSent(sys.phases[id], k, x);
    NoRouteSent(p', k, x);
  }

  lemma EndOtherRoute(sys: System, id: nat, r': Reg.Registry, p': Phase, k: Key)
    requires SendsEnd(sys, id, r', p') && RouteAgrees(sys, k) && Waits(sys, k) && Live(sys.sh.routes.table, k)
    requires var x := sys.sh.routes.table[k]; !Closes(Todo(sys.phases[id])[0], x.target, x.outbound)
    ensures RouteAgrees(AfterSend(sys, id, r', p'), k) && Waits(AfterSend(sys, id, r', p'), k)
  {
    var e, x := Todo(sys.phases[id])[0], sys.sh.routes.table[k];
    OtherSessions(sys.sh.registry, r', e.to, e.frame, x.target, x.outbound);
    NoRouteSent(sys.phases[id], k, x);
    NoRouteSent(p', k, x);
    if HeldByEnd(sys.phases, x.target, x.outbound) {
      DropHeld(sys.phases, id, p', x.target, x.outbound);
    }
    if HeldByEnd(sys.phases[id := p'], x.target, x.outbound) {
      DropHeldBack(sys.phases, id, p', x.target, x.outbound);
    }
  }

  lemma EndEndAgrees(sys: System, id: nat, r': Reg.Registry, p': Phase, s: nat, i: nat, t: nat, o: nat)
    requires SendsEnd(sys, id, r', p') && EndsAgree(sys) && OneEnd(sys.phases)
    ensures EndAgrees(AfterSend(sys, id, r', p'), s, i, t, o)
  {
    var e := Todo(sys.phases[id])[0];
    if Ends(sys.phases[id := p'], s, i, t, o) {
      DropEnds(sys.phases, id, p', s, i, t, o);
      assert EndAgrees(sys, s, if s == id then i + 1 else i, t, o) && HeldByEnd(sys.phases[id := p'], t, o);
      if Closes(e, t, o) {
        DropLast(sys.phases, id, p', t, o);
        assert false;
      }
      OtherSessions(sys.sh.registry, r', e.to, e.frame, t, o);
    }
  }

  lemma EndNoStray(sys: System, id: nat, r': Reg.Registry, p': Phase, t: nat, o: nat)
    requires SendsEnd(sys, id, r', p') && EndsAgree(sys) && NoStray(sys, t, o)
    ensures NoStray(AfterSend(sys, id, r', p'), t, o)
  {
    var e := Todo(sys.phases[id])[0];
    if Closes(e, t, o) {
      EndCloses(sys, id, r', p');
    } else {
      OtherSessions(sys.sh.registry, r', e.to, e.frame, t, o);
      if HeldByEnd(sys.phases, t, o) {
        DropHeld(sys.phases, id, p', t, o);
      }
    }
  }

  lemma EndGrammar(sys: System, id: nat, r': Reg.Registry, p': Phase)
    requires SendsEnd(sys, id, r', p') && Grammar(sys)
    ensures Grammar(AfterSend(sys, id, r', p'))
  {
    var sys' := AfterSend(sys, id, r', p');
    forall k ensures RouteAgrees(sys', k) && Waits(sys', k) {
      assert RouteAgrees(sys, k) && Waits(sys, k);
      if Live(sys.sh.routes.table, k) {
        if Closes(Todo(sys.phases[id])[0], sys.sh.routes.table[k].target, sys.sh.routes.table[k].outbound) {
          EndOwnRoute(sys, id, r', p', k);
        } else {
          EndOtherRoute(sys, id, r', p', k);
        }
      }
    }
    forall s, i: nat, t, o ensures EndAgrees(sys', s, i, t, o) {
      EndEndAgrees(sys, id, r', p', s, i, t, o);
    }
    forall t: nat, o: nat ensures NoStray(sys', t, o) {
      assert NoStray(sys, t, o);
      EndNoStray(sys, id, r', p', t, o);
    }
    DropOneEnd(sys.phases, id, p');
  }

  lemma SendStanding(sys: System, id: nat, r': Reg.Registry, p': Phase)
    requires Seating(sys) && Ownership(sys) && Muted(sys.sh.registry, r')
    requires id in sys.phases && SameStanding(sys.phases[id], p')
    requires forall k :: Live(sys.sh.routes.table, k) && k.sender == id && Starting(sys.phases[id], k) ==>
               Starting(p', k) || Alive(sys.phases[sys.sh.routes.table[k].target])
    ensures Seating(AfterSend(sys, id, r', p')) && Ownership(AfterSend(sys, id, r', p'))
  {
    MutedSeating(sys, r');
    PhaseSeating(SetRegistry(sys, r'), id, p');
    MutedOwnership(sys, r');
    PhaseOwnership(SetRegistry(sys, r'), id, p');
  }

  lemma SendPlans(sys: System, id: nat, r': Reg.Registry, p': Phase)
    requires Plans(sys) && Muted(sys.sh.registry, r') && id in sys.phases && Todo(sys.phases[id]) != []
    requires SameStanding(sys.phases[id], p') && Todo(p') == Todo(sys.phases[id])[1..]
    requires p'.Serving? ==> p'.pc == Continue(Todo(p'))
    ensures Plans(AfterSend(sys, id, r', p'))
  {
    MutedPlans(sys, r');
    assert PlannedAll(SetRegistry(sys, r'), id);
    NoOnlyAfter(SetRegistry(sys, r'), id, p');
    PhasePlans(SetRegistry(sys, r'), id, p');
  }

  lemma PlansNoRoute(sys: System, id: nat, p': Phase)
    requires Plans(sys) && id in sys.phases && Todo(sys.phases[id]) != [] && Ender(Todo(sys.phases[id])[0])
    requires SameStanding(sys.phases[id], p') && Todo(p') == Todo(sys.phases[id])[1..]
    requires p'.Serving? ==> p'.pc == Continue(Todo(p'))
    ensures NoRoute(sys.phases[id]) && NoRoute(p')
  {
    assert PlannedAll(sys, id);
    assert Planned(sys, id, Todo(sys.phases[id])[0], sys.phases[id].Serving? && |Todo(sys.phases[id])| == 1);
    NoOnlyAfter(sys, id, p');
  }

  lemma EndDelivered(sys: System, id: nat, r': Reg.Registry, p': Phase)
    requires Inv(sys) && Reg.Valid(r') && id in sys.phases && Todo(sys.phases[id]) != [] && Ender(Todo(sys.phases[id])[0])
    requires Delivered(sys.sh.registry, r', Todo(sys.phases[id])[0].to, Todo(sys.phases[id])[0].frame)
    requires SameStanding(sys.phases[id], p') && Todo(p') == Todo(sys.phases[id])[1..]
    requires p'.Serving? ==> p'.pc == Continue(Todo(p'))
    ensures Inv(AfterSend(sys, id, r', p'))
  {
    PlansNoRoute(sys, id, p');
    assert forall k :: !Starting(sys.phases[id], k);
    SendStanding(sys, id, r', p');
    SendPlans(sys, id, r', p');
    EndGrammar(sys, id, r', p');
  }

  // The frame begins or continues the session of a live route.

  ghost predicate Feeds(sys: System, id: nat, e: Emission, k: Key, r': Reg.Registry) {
    && Sending(sys, id, e) && k.sender == id && Live(sys.sh.routes.table, k)
    && (Meaning(e.frame).BeginEvent? || Meaning(e.frame).ChunkEvent?)
    && var x := sys.sh.routes.table[k]; var o := IdOf(Meaning(e.frame));
    && x.target == e.to && x.outbound == o
    && Follow(SessionAt(sys.sh.registry, e.to, o), Meaning(e.frame), o) == Open(x.expected, x.forwarded)
    && !HeldByEnd(sys.phases, e.to, o)
    && (e.onFail == ThenQuarantine(k) || (e.onFail.ThenMark? && e.onFail.key == k))
    && Delivered(sys.sh.registry, r', e.to, e.frame)
  }

  /** A begin or chunk frame ends nothing. */
  lemma FeedDrops(sys: System, id: nat, e: Emission)
    requires Sending(sys, id, e) && (Meaning(e.frame).BeginEvent? || Meaning(e.frame).ChunkEvent?)
    ensures Todo(sys.phases[id]) == [e] && Drops(sys.phases[id], Serving(Idle)) && NoRoute(Serving(Idle))
    ensures forall t, o :: !Closes(e, t, o)
  {
  }

  lemma FeedOwnRoute(sys: System, id: nat, e: Emission, k: Key, r': Reg.Registry)
    requires Feeds(sys, id, e, k, r')
    ensures RouteAgrees(AfterSend(sys, id, r', Serving(Idle)), k) && Waits(AfterSend(sys, id, r', Serving(Idle)), k)
  {
    var x := sys.sh.routes.table[k];
    FeedDrops(sys, id, e);
    SessionAppend(Reg.Log(sys.sh.registry, e.to), e.frame, IdOf(Meaning(e.frame)));
    NoRouteSent(Serving(Idle), k, x);
    if HeldByEnd(sys.phases[id := Serving(Idle)], x.target, x.outbound) {
      DropHeldBack(sys.phases, id, Serving(Idle), x.target, x.outbound);
    }
  }

  lemma FeedOtherRoute(sys: System, id: nat, e: Emission, k: Key, r': Reg.Registry, l: Key)
    requires Feeds(sys, id, e, k, r') && l != k && Live(sys.sh.routes.table, l)
    requires RouteAgrees(sys, l) && Waits(sys, l) && DistinctOutbound(sys.sh.routes.table)
    ensures RouteAgrees(AfterSend(sys, id, r', Serving(Idle)), l) && Waits(AfterSend(sys, id, r', Serving(Idle)), l)
  {
    var x := sys.sh.routes.table[l];
    FeedDrops(sys, id, e);
    OtherSessions(sys.sh.registry, r', e.to, e.frame, x.target, x.outbound);
    NoRouteSent(Serving(Idle), l, x);
    if HeldByEnd(sys.phases, x.target, x.outbound) {
      DropHeld(sys.phases, id, Serving(Idle), x.target, x.outbound);
    }
    if HeldByEnd(sys.phases[id := Serving(Idle)], x.target, x.outbound) {
      DropHeldBack(sys.phases, id, Serving(Idle), x.target, x.outbound);
    }
  }

  lemma FeedEndAgrees(sys: System, id: nat, e: Emission, k: Key, r': Reg.Registry, s: nat, i: nat, t: nat, o: nat)
    requires Feeds(sys, id, e, k, r') && EndsAgree(sys)
    ensures EndAgrees(AfterSend(sys, id, r', Serving(Idle)), s, i, t, o)
  {
    FeedDrops(sys, id, e);
    if Ends(sys.phases[id := Serving(Idle)], s, i, t, o) {
      DropEnds(sys.phases, id, Serving(Idle), s, i, t, o);
      var j := if s == id then i + 1 else i;
      assert EndAgrees(sys, s, j, t, o) && HeldByEnd(sys.phases, t, o);
      OtherSessions(sys.sh.registry, r', e.to, e.frame, t, o);
    }
  }

  lemma FeedNoStray(sys: System, id: nat, e: Emission, k: Key, r': Reg.Registry, t: nat, o: nat)
    requires Feeds(sys, id, e, k, r') && NoStray(sys, t, o)
    ensures NoStray(AfterSend(sys, id, r', Serving(Idle)), t, o)
  {
    FeedDrops(sys, id, e);
    if t == e.to && o == IdOf(Meaning(e.frame)) {
      SessionAppend(Reg.Log(sys.sh.registry, t), e.frame, o);
      assert HeldByRoute(sys.sh.routes.table, t, o);
    } else {
      OtherSessions(sys.sh.registry, r', e.to, e.frame, t, o);
      if HeldByEnd(sys.phases, t, o) {
        DropHeld(sys.phases, id, Serving(Idle), t, o);
      }
    }
  }

  lemma FeedStanding(sys: System, id: nat, e: Emission, k: Key, r': Reg.Registry)
    requires Feeds(sys, id, e, k, r') && Seating(sys) && Ownership(sys)
    ensures Seating(AfterSend(sys, id, r', Serving(Idle))) && Ownership(AfterSend(sys, id, r', Serving(Idle)))
  {
    assert Seated(sys, e.to);
    forall l | Starting(sys.phases[id], l) ensures l == k {
    }
    SendStanding(sys, id, r', Serving(Idle));
  }

  lemma FeedGrammar(sys: System, id: nat, e: Emission, k: Key, r': Reg.Registry)
    requires Feeds(sys, id, e, k, r') && Grammar(sys) && DistinctOutbound(sys.sh.routes.table)
    ensures Grammar(AfterSend(sys, id, r', Serving(Idle)))
  {
    var sys' := AfterSend(sys, id, r', Serving(Idle));
    FeedDrops(sys, id, e);
    forall l ensures RouteAgrees(sys', l) && Waits(sys', l) {
      assert RouteAgrees(sys, l) && Waits(sys, l);
      if l == k {
        FeedOwnRoute(sys, id, e, k, r');
      } else if Live(sys.sh.routes.table, l) {
        FeedOtherRoute(sys, id, e, k, r', l);
      }
    }
    forall s, i: nat, t, o ensures EndAgrees(sys', s, i, t, o) {
      FeedEndAgrees(sys, id, e, k, r', s, i, t, o);
    }
    forall t: nat, o: nat ensures NoStray(sys', t, o) {
      assert NoStray(sys, t, o);
      FeedNoStray(sys, id, e, k, r', t, o);
    }
    DropOneEnd(sys.phases, id, Serving(Idle));
  }

  lemma FeedPlans(sys: System, id: nat, e: Emission, k: Key, r': Reg.Registry)
    requires Feeds(sys, id, e, k, r') && Plans(sys)
    ensures Plans(AfterSend(sys, id, r', Serving(Idle)))
  {
    SendPlans(sys, id, r', Serving(Idle));
  }

  lemma Fed(sys: System, id: nat, e: Emission, k: Key, r': Reg.Registry)
    requires Inv(sys) && Feeds(sys, id, e, k, r') && Reg.Valid(r')
    ensures Inv(AfterSend(sys, id, r', Serving(Idle)))
  {
    FeedStanding(sys, id, e, k, r');
    FeedPlans(sys, id, e, k, r');
    FeedGrammar(sys, id, e, k, r');
  }

  /** Emission e is a BEGIN for a session that another thread has yet to end. */
  ghost predicate Early(phases: map<nat, Phase>, e: Emission) {
    Meaning(e.frame).BeginEvent? && HeldByEnd(phases, e.to, Meaning(e.frame).begin.id)
  }

  /** Any other BEGIN, and every CHUNK, finds the session of its route where it should be. */
  lemma BeginFeeds(sys: System, id: nat, e: Emission, r': Reg.Registry)
    requires RoutesAgree(sys) && Sending(sys, id, e) && Planned(sys, id, e, true) && Meaning(e.frame).BeginEvent?
    requires Delivered(sys.sh.registry, r', e.to, e.frame) && !Early(sys.phases, e)
    ensures e.onFail.ThenQuarantine? && Feeds(sys, id, e, e.onFail.key, r')
  {
    assert RouteAgrees(sys, e.onFail.key);
  }

  lemma ChunkFeeds(sys: System, id: nat, e: Emission, r': Reg.Registry)
    requires RoutesAgree(sys) && AllWait(sys) && Sending(sys, id, e) && Planned(sys, id, e, true) && Meaning(e.frame).ChunkEvent?
    requires forall l :: l in sys.sh.routes.table ==> ValidEntry(sys.sh.routes.table[l])
    requires Delivered(sys.sh.registry, r', e.to, e.frame)
    ensures e.onFail.ThenMark? && Feeds(sys, id, e, e.onFail.key, r')
  {
    assert RouteAgrees(sys, e.onFail.key) && Waits(sys, e.onFail.key);
  }

  // ----- One emission of a handler, or of a closing thread -----

  lemma QueueFails(r: Reg.Registry, to: nat, f: Frame)
    requires Fits(f) && to != 0 && !Reg.Queue(r, to, f).1
    ensures !Reg.Accepting(Reg.Queue(r, to, f).0, to)
  {
  }

  lemma HeadPlanned(sys: System, id: nat)
    requires Inv(sys) && id in sys.phases && Todo(sys.phases[id]) != []
    ensures var p := sys.phases[id];
            Planned(sys, id, Todo(p)[0], p.Serving? && |Todo(p)| == 1)
    ensures !Meaning(Todo(sys.phases[id])[0].frame).OtherEvent? ==> Todo(sys.phases[id])[0].to != 0
  {
    assert PlannedAll(sys, id);
    var e := Todo(sys.phases[id])[0];
    assert Seated(sys, e.to);
  }

  /** A notice, or an error frame that could not be queued: only the registry moves. */
  lemma QuietEmission(sys: System, id: nat)
    requires Inv(sys) && id in sys.phases && Todo(sys.phases[id]) != []
    requires var e := Todo(sys.phases[id])[0];
             Meaning(e.frame).OtherEvent? || !Reg.Queue(sys.sh.registry, e.to, e.frame).1
    ensures var e := Todo(sys.phases[id])[0];
            var r' := Reg.Queue(sys.sh.registry, e.to, e.frame).0;
            && Inv(SetRegistry(sys, r'))
            && (!Meaning(e.frame).OtherEvent? ==> !Reg.Accepting(r', e.to))
  {
    var e := Todo(sys.phases[id])[0];
    HeadPlanned(sys, id);
    Reg.QueueValid(sys.sh.registry, e.to, e.frame);
    QueueQuieter(sys.sh.registry, e.to, e.frame);
    RegistryOnly(sys, Reg.Queue(sys.sh.registry, e.to, e.frame).0);
    if !Meaning(e.frame).OtherEvent? {
      QueueFails(sys.sh.registry, e.to, e.frame);
    }
  }

  /** An error frame or a notice of a thread that then goes on with p'. */
  lemma IgnoredEmission(sys: System, id: nat, p': Phase)
    requires Inv(sys) && id in sys.phases && Todo(sys.phases[id]) != []
    requires var e := Todo(sys.phases[id])[0]; Meaning(e.frame).OtherEvent? || Meaning(e.frame).ErrorEvent?
    requires SameStanding(sys.phases[id], p') && Todo(p') == Todo(sys.phases[id])[1..]
    requires p'.Serving? ==> p'.pc == Continue(Todo(p'))
    ensures var e := Todo(sys.phases[id])[0];
            Inv(AfterSend(sys, id, Reg.Queue(sys.sh.registry, e.to, e.frame).0, p'))
  {
    var e := Todo(sys.phases[id])[0];
    var r' := Reg.Queue(sys.sh.registry, e.to, e.frame).0;
    if Meaning(e.frame).OtherEvent? || !Reg.Queue(sys.sh.registry, e.to, e.frame).1 {
      QuietEmission(sys, id);
      SkipEmission(SetRegistry(sys, r'), id, p');
    } else {
      Reg.QueueValid(sys.sh.registry, e.to, e.frame);
      QueueDelivers(sys.sh.registry, e.to, e.frame);
      EndDelivered(sys, id, r', p');
    }
  }

  /** The state after thread id has tried to send the first of its emissions. */
  ghost function Emitted(sys: System, id: nat, todo: seq<Emission>): System
    requires todo != []
  {
    var (sh', pc') := Emit(sys.sh, id, todo);
    System(sh', sys.phases[id := Serving(pc')])
  }

  lemma EmittedIs(sys: System, id: nat, todo: seq<Emission>)
    requires todo != []
    ensures var (r', queued) := Reg.Queue(sys.sh.registry, todo[0].to, todo[0].frame);
            && (queued || todo[0].onFail == Ignore ==>
                  Emitted(sys, id, todo) == AfterSend(sys, id, r', Serving(Continue(todo[1..]))))
            && (!queued && |todo| == 1 ==> Emitted(sys, id, todo) == AfterSend(sys, id, r', Fallback(todo[0], id)))
  {
  }

  /** A begin, chunk or end frame: the only emission of its handler. */
  lemma MainEmission(sys: System, id: nat, e: Emission)
    requires Inv(sys) && Sending(sys, id, e) && Planned(sys, id, e, true) && e.to != 0
    requires IsMain(e)
    requires Reg.Queue(sys.sh.registry, e.to, e.frame).1 ==> !Early(sys.phases, e)
    ensures var (r', queued) := Reg.Queue(sys.sh.registry, e.to, e.frame);
            Inv(AfterSend(sys, id, r', if queued then Serving(Idle) else Fallback(e, id)))
  {
    var (r', queued) := Reg.Queue(sys.sh.registry, e.to, e.frame);
    if queued {
      Reg.QueueValid(sys.sh.registry, e.to, e.frame);
      QueueDelivers(sys.sh.registry, e.to, e.frame);
      MainDelivered(sys, id, e, r');
    } else {
      MainRefused(sys, id, e, r');
    }
  }

  lemma MainRefused(sys: System, id: nat, e: Emission, r': Reg.Registry)
    requires Inv(sys) && Sending(sys, id, e) && Planned(sys, id, e, true) && e.to != 0
    requires IsMain(e)
    requires Reg.Queue(sys.sh.registry, e.to, e.frame) == (r', false)
    ensures Inv(AfterSend(sys, id, r', Fallback(e, id)))
  {
    QuietEmission(sys, id);
    QueueMuted(sys.sh.registry, e.to, e.frame);
    MutedPlanned(sys, r', id, e);
    UnsentStep(SetRegistry(sys, r'), id, e);
  }

  lemma MutedPlanned(sys: System, r': Reg.Registry, id: nat, e: Emission)
    requires Planned(sys, id, e, true) && forall t :: Reg.Accepting(r', t) ==> Reg.Accepting(sys.sh.registry, t)
    ensures Planned(SetRegistry(sys, r'), id, e, true)
  {
    forall t | Dead(sys, t) ensures Dead(SetRegistry(sys, r'), t) {}
  }

  lemma MainDelivered(sys: System, id: nat, e: Emission, r': Reg.Registry)
    requires Inv(sys) && Sending(sys, id, e) && Planned(sys, id, e, true) && !Early(sys.phases, e)
    requires Reg.Valid(r') && Delivered(sys.sh.registry, r', e.to, e.frame)
    requires IsMain(e)
    ensures Inv(AfterSend(sys, id, r', Serving(Idle)))
  {
    if Meaning(e.frame).EndEvent? {
      OnlyEmission(sys, id, e);
      EndDelivered(sys, id, r', Serving(Idle));
    } else {
      FeedDelivered(sys, id, e, r');
    }
  }

  lemma OnlyEmission(sys: System, id: nat, e: Emission)
    requires Sending(sys, id, e)
    ensures Todo(sys.phases[id]) == [e] && Todo(Serving(Idle)) == Todo(sys.phases[id])[1..]
    ensures SameStanding(sys.phases[id], Serving(Idle))
  {
  }

  lemma FeedDelivered(sys: System, id: nat, e: Emission, r': Reg.Registry)
    requires Inv(sys) && Sending(sys, id, e) && Planned(sys, id, e, true) && !Early(sys.phases, e)
    requires Reg.Valid(r') && Delivered(sys.sh.registry, r', e.to, e.frame)
    requires Meaning(e.frame).BeginEvent? || Meaning(e.frame).ChunkEvent?
    ensures Inv(AfterSend(sys, id, r', Serving(Idle)))
  {
    FeedsLive(sys, id, e, r');
    Fed(sys, id, e, e.onFail.key, r');
  }

  lemma FeedsLive(sys: System, id: nat, e: Emission, r': Reg.Registry)
    requires RoutesAgree(sys) && AllWait(sys) && Sending(sys, id, e) && Planned(sys, id, e, true) && !Early(sys.phases, e)
    requires forall l :: l in sys.sh.routes.table ==> ValidEntry(sys.sh.routes.table[l])
    requires Delivered(sys.sh.registry, r', e.to, e.frame) && (Meaning(e.frame).BeginEvent? || Meaning(e.frame).ChunkEvent?)
    ensures (e.onFail.ThenQuarantine? || e.onFail.ThenMark?) && Feeds(sys, id, e, e.onFail.key, r')
  {
    if Meaning(e.frame).BeginEvent? {
      BeginFeeds(sys, id, e, r');
    } else {
      ChunkFeeds(sys, id, e, r');
    }
  }

  lemma CloseStep(sys: System, id: nat)
    requires Inv(sys) && id in sys.phases && sys.phases[id].Closing? && sys.phases[id].todo != []
    ensures var todo := sys.phases[id].todo;
            Inv(AfterSend(sys, id, Reg.Queue(sys.sh.registry, todo[0].to, todo[0].frame).0, Closing(todo[1..])))
  {
    HeadPlanned(sys, id);
    IgnoredEmission(sys, id, Closing(sys.phases[id].todo[1..]));
  }

  lemma EmitStep(sys: System, id: nat, todo: seq<Emission>)
    requires Inv(sys) && In(sys, id, Serving(Emitting(todo))) && todo != []
    requires Reg.Queue(sys.sh.registry, todo[0].to, todo[0].frame).1 ==> !Early(sys.phases, todo[0])
    ensures Inv(Emitted(sys, id, todo))
  {
    HeadPlanned(sys, id);
    EmittedIs(sys, id, todo);
    if Meaning(todo[0].frame).OtherEvent? || Meaning(todo[0].frame).ErrorEvent? {
      IgnoredEmission(sys, id, Serving(Continue(todo[1..])));
    } else {
      assert todo == [todo[0]] && todo[1..] == [];
      MainEmission(sys, id, todo[0]);
    }
  }
}
