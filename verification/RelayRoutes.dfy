/** The steps that change the route table keep the invariant of Relay. */
module RelayRoutes {
  import opened Bytes
  import opened FileProtocol
  import opened RouteSpec
  import opened Sessions
  import opened RelaySpec
  import opened Relay
  import opened RelayEnds
  import opened RelayProof
  import Reg = RegistrySpec

  ghost function AfterRoute(sys: System, id: nat, routes': Routes, p': Phase): System {
    System(sys.sh.(routes := routes'), sys.phases[id := p'])
  }

  ghost predicate Notes(todo: seq<Emission>, from: nat) {
    forall i :: from <= i < |todo| ==> Meaning(todo[i].frame).OtherEvent? && todo[i].onFail == Ignore && Fits(todo[i].frame)
  }

  /** Emission e ends the session of route x. */
  ghost predicate EndsRoute(e: Emission, x: Entry, only: bool) {
    && x.Forwarding? && Fits(e.frame) && e.to == x.target && Ender(e) && IdOf(Meaning(e.frame)) == x.outbound
    && (Meaning(e.frame).ErrorEvent? ==> e.onFail == Ignore)
    && (Meaning(e.frame).EndEvent? ==> e.onFail == ThenNotify && only && x.forwarded == x.expected)
  }

  /** The thread gives up key k: if k was live, the receiver is told, unless it is dead. */
  ghost predicate GivesUp(sys: System, k: Key, todo: seq<Emission>) {
    var table := sys.sh.routes.table;
    || (Notes(todo, 0) && (Live(table, k) ==> Dead(sys, table[k].target)))
    || (todo != [] && Notes(todo, 1) && Live(table, k) && EndsRoute(todo[0], table[k], |todo| == 1))
  }

  ghost predicate Cuts(sys: System, id: nat, k: Key, routes': Routes, p': Phase) {
    && k.sender == id && id in sys.phases && sys.phases[id].Serving? && Todo(sys.phases[id]) == []
    && (sys.phases[id].pc.Quarantining? ==> sys.phases[id].pc.key == k && Notes(Todo(p'), 0))
    && p'.Serving? && p'.pc == Continue(Todo(p'))
    && OnlyKey(sys.sh.routes.table, routes'.table, k) && !Live(routes'.table, k)
    && GivesUp(sys, k, Todo(p'))
  }

  lemma CutStanding(sys: System, id: nat, k: Key, routes': Routes, p': Phase)
    requires Cuts(sys, id, k, routes', p') && Seating(sys) && Ownership(sys)
    ensures Seating(AfterRoute(sys, id, routes', p')) && Ownership(AfterRoute(sys, id, routes', p'))
  {
    var sys' := AfterRoute(sys, id, routes', p');
    forall s ensures Seated(sys', s) {
      assert Seated(sys, s);
    }
    forall l | l in routes'.table ensures Owned(sys', l) {
      if l != k {
        assert SameEntry(sys.sh.routes.table, routes'.table, l) && Owned(sys, l);
      }
    }
  }

  /** Plans of other threads do not look at the keys of this one. */
  lemma RoutePlans(sys: System, id: nat, routes': Routes, p': Phase)
    requires Plans(sys) && id in sys.phases && !sys.phases[id].Joining? && !p'.Joining?
    requires forall l: Key :: l.sender != id ==> SameEntry(sys.sh.routes.table, routes'.table, l)
    requires PlannedAll(AfterRoute(sys, id, routes', p'), id)
    ensures Plans(AfterRoute(sys, id, routes', p'))
  {
    var sys' := AfterRoute(sys, id, routes', p');
    forall s | s in sys'.phases ensures PlannedAll(sys', s) {
      if s != id {
        assert PlannedAll(sys, s);
        forall t ensures Dead(sys, t) <==> Dead(sys', t) {}
        forall t ensures Known(sys, t) <==> Known(sys', t) {}
      }
    }
  }

  lemma CutPlans(sys: System, id: nat, k: Key, routes': Routes, p': Phase)
    requires Cuts(sys, id, k, routes', p') && Plans(sys) && Ownership(sys)
    ensures Plans(AfterRoute(sys, id, routes', p'))
  {
    if Live(sys.sh.routes.table, k) {
      assert Owned(sys, k);
    }
    RoutePlans(sys, id, routes', p');
  }

  /** After the change neither phase of the thread speaks of a route other than k. */
  lemma CutNoRoute(sys: System, id: nat, k: Key, routes': Routes, p': Phase)
    requires Cuts(sys, id, k, routes', p')
    ensures NoRoute(p') && Unoccupied(sys.phases, id)
    ensures forall l :: l != k ==> !Starting(sys.phases[id], l) && sys.phases[id] != Serving(Quarantining(l))
  {
  }

  lemma CutRouteAgrees(sys: System, id: nat, k: Key, routes': Routes, p': Phase, l: Key)
    requires Cuts(sys, id, k, routes', p') && RouteAgrees(sys, l)
    ensures RouteAgrees(AfterRoute(sys, id, routes', p'), l)
  {
    CutNoRoute(sys, id, k, routes', p');
    if l != k && Live(routes'.table, l) {
      var x := routes'.table[l];
      assert SameEntry(sys.sh.routes.table, routes'.table, l);
      NoRouteSent(p', l, x);
      if HeldByEnd(sys.phases, x.target, x.outbound) {
        PlanHeld(sys.phases, id, p', x.target, x.outbound);
      }
    }
  }

  /** The only new terminal frame is the one of k, which nobody else was to end. */
  lemma CutEnds(sys: System, id: nat, k: Key, routes': Routes, p': Phase, s: nat, i: nat, t: nat, o: nat)
    requires Cuts(sys, id, k, routes', p') && Ends(sys.phases[id := p'], s, i, t, o)
    ensures if s == id
            then i == 0 && Live(sys.sh.routes.table, k) && EndsRoute(Todo(p')[0], sys.sh.routes.table[k], |Todo(p')| == 1)
                 && t == sys.sh.routes.table[k].target && o == sys.sh.routes.table[k].outbound
                 && !Starting(sys.phases[id], k)
            else Ends(sys.phases, s, i, t, o) && Todo(sys.phases[id := p'][s]) == Todo(sys.phases[s])
  {
  }

  lemma CutEndAgrees(sys: System, id: nat, k: Key, routes': Routes, p': Phase, s: nat, i: nat, t: nat, o: nat)
    requires Cuts(sys, id, k, routes', p') && RouteAgrees(sys, k) && EndAgrees(sys, s, i, t, o)
    ensures EndAgrees(AfterRoute(sys, id, routes', p'), s, i, t, o)
  {
    if Ends(sys.phases[id := p'], s, i, t, o) {
      CutEnds(sys, id, k, routes', p', s, i, t, o);
    }
  }

  lemma CutNoStray(sys: System, id: nat, k: Key, routes': Routes, p': Phase, t: nat, o: nat)
    requires Cuts(sys, id, k, routes', p') && NoStray(sys, t, o)
    ensures NoStray(AfterRoute(sys, id, routes', p'), t, o)
  {
    if HeldByRoute(sys.sh.routes.table, t, o) {
      var l :| Live(sys.sh.routes.table, l) && sys.sh.routes.table[l].target == t && sys.sh.routes.table[l].outbound == o;
      if l != k {
        assert SameEntry(sys.sh.routes.table, routes'.table, l);
        assert Live(routes'.table, l) && HeldByRoute(routes'.table, t, o);
      } else if Reg.Accepting(sys.sh.registry, t) {
        assert Ends(sys.phases[id := p'], id, 0, t, o);
      }
    } else if HeldByEnd(sys.phases, t, o) {
      PlanHeld(sys.phases, id, p', t, o);
    }
  }

  lemma CutWaits(sys: System, id: nat, k: Key, routes': Routes, p': Phase, l: Key)
    requires Cuts(sys, id, k, routes', p') && Waits(sys, l) && DistinctOutbound(sys.sh.routes.table)
    ensures Waits(AfterRoute(sys, id, routes', p'), l)
  {
    CutNoRoute(sys, id, k, routes', p');
    if l != k && Live(routes'.table, l) && HeldByEnd(sys.phases[id := p'], routes'.table[l].target, routes'.table[l].outbound) {
      var x := routes'.table[l];
      assert SameEntry(sys.sh.routes.table, routes'.table, l);
      var s: nat, i: nat :| Ends(sys.phases[id := p'], s, i, x.target, x.outbound);
      CutEnds(sys, id, k, routes', p', s, i, x.target, x.outbound);
    }
  }

  lemma CutOneEnd(sys: System, id: nat, k: Key, routes': Routes, p': Phase)
    requires Cuts(sys, id, k, routes', p') && OneEnd(sys.phases) && Waits(sys, k)
    ensures OneEnd(sys.phases[id := p'])
  {
    var phases' := sys.phases[id := p'];
    forall s, i: nat, s', i': nat, t, o | Ends(phases', s, i, t, o) && Ends(phases', s', i', t, o)
      ensures s == s' && i == i'
    {
      CutEnds(sys, id, k, routes', p', s, i, t, o);
      CutEnds(sys, id, k, routes', p', s', i', t, o);
    }
  }

  lemma CutGrammar(sys: System, id: nat, k: Key, routes': Routes, p': Phase)
    requires Cuts(sys, id, k, routes', p') && Grammar(sys) && DistinctOutbound(sys.sh.routes.table)
    ensures Grammar(AfterRoute(sys, id, routes', p'))
  {
    var sys' := AfterRoute(sys, id, routes', p');
    assert RouteAgrees(sys, k) && Waits(sys, k);
    forall l ensures RouteAgrees(sys', l) && Waits(sys', l) {
      assert RouteAgrees(sys, l) && Waits(sys, l);
      CutRouteAgrees(sys, id, k, routes', p', l);
      CutWaits(sys, id, k, routes', p', l);
    }
    forall s, i: nat, t, o ensures EndAgrees(sys', s, i, t, o) {
      assert EndAgrees(sys, s, i, t, o);
      CutEndAgrees(sys, id, k, routes', p', s, i, t, o);
    }
    forall t: nat, o: nat ensures NoStray(sys', t, o) {
      assert NoStray(sys, t, o);
      CutNoStray(sys, id, k, routes', p', t, o);
    }
    CutOneEnd(sys, id, k, routes', p');
  }

  lemma Cut(sys: System, id: nat, k: Key, routes': Routes, p': Phase)
    requires Inv(sys) && Cuts(sys, id, k, routes', p') && RouteSpec.Valid(routes')
    ensures Inv(AfterRoute(sys, id, routes', p'))
  {
    CutStanding(sys, id, k, routes', p');
    CutPlans(sys, id, k, routes', p');
    CutGrammar(sys, id, k, routes', p');
  }

  // ----- Handlers that give a key up -----

  lemma ErrorToEnds(x: Entry)
    requires x.Forwarding? && x.target != INVALID_CLIENT
    ensures |ErrorTo(EndpointOf(x))| == 1 && EndsRoute(ErrorTo(EndpointOf(x))[0], x, false)
  {
    ControlMeaning(x.outbound);
  }

  /** The error for the receiver if k was live, then one notice for the sender. */
  ghost function LastWords(r: Routes, k: Key, tag: Byte): seq<Emission> {
    (if IsLive(r, k) then ErrorTo(Lookup(r, k)) else []) + [Note(k.sender, tag)]
  }

  lemma ErrorThenNote(sys: System, k: Key, tag: Byte)
    requires forall l :: l in sys.sh.routes.table ==> ValidEntry(sys.sh.routes.table[l])
    ensures GivesUp(sys, k, LastWords(sys.sh.routes, k, tag))
  {
    if IsLive(sys.sh.routes, k) {
      ErrorToEnds(sys.sh.routes.table[k]);
      assert Notes(LastWords(sys.sh.routes, k, tag), 1);
    } else {
      assert Notes(LastWords(sys.sh.routes, k, tag), 0);
    }
  }

  lemma RejectStep(sys: System, id: nat, k: Key, keep: bool)
    requires Inv(sys) && In(sys, id, Serving(Idle)) && k.sender == id
    ensures var (sh', pc') := Reject(sys.sh, id, k, keep);
            Inv(System(sh', sys.phases[id := Serving(pc')]))
  {
    var (sh', pc') := Reject(sys.sh, id, k, keep);
    QuarantineValid(sys.sh.routes, k, keep);
    ErrorThenNote(sys, k, MALFORMED);
    RejectCuts(sys, id, k, keep);
    Cut(sys, id, k, sh'.routes, Serving(pc'));
  }

  lemma RejectCuts(sys: System, id: nat, k: Key, keep: bool)
    requires In(sys, id, Serving(Idle)) && k.sender == id
    requires GivesUp(sys, k, LastWords(sys.sh.routes, k, MALFORMED))
    requires |sys.sh.routes.table| <= sys.sh.routes.capacity
    ensures Cuts(sys, id, k, Reject(sys.sh, id, k, keep).0.routes, Serving(Reject(sys.sh, id, k, keep).1))
  {
    QuarantineKey(sys.sh.routes, k, keep);
  }

  /** A notice to the sender and nothing else. */
  lemma NoticeStep(sys: System, id: nat, tag: Byte)
    requires Inv(sys) && In(sys, id, Serving(Idle))
    ensures Inv(SetPhase(sys, id, Serving(Emitting([Note(id, tag)]))))
  {
    OpenNotice(sys, id, Serving(Emitting([Note(id, tag)])));
  }

  lemma OpenNotice(sys: System, id: nat, p': Phase)
    requires Inv(sys) && id in sys.phases && sys.phases[id].Serving? && Todo(sys.phases[id]) == []
    requires !sys.phases[id].pc.Quarantining?
    requires p'.Serving? && p'.pc == Continue(Todo(p')) && Notes(Todo(p'), 0)
    ensures Inv(SetPhase(sys, id, p'))
  {
    OpenNoticePlanned(sys, id, p');
    PhaseSeating(sys, id, p');
    PhaseOwnership(sys, id, p');
    PhasePlans(sys, id, p');
    OpenNoticeGrammar(sys, id, p');
  }

  lemma OpenNoticePlanned(sys: System, id: nat, p': Phase)
    requires id in sys.phases && sys.phases[id].Serving? && Todo(sys.phases[id]) == [] && !sys.phases[id].pc.Quarantining?
    requires p'.Serving? && p'.pc == Continue(Todo(p')) && Notes(Todo(p'), 0)
    ensures PlannedAll(SetPhase(sys, id, p'), id) && SameStanding(sys.phases[id], p')
    ensures NoRoute(sys.phases[id]) && NoRoute(p') && forall k :: !Starting(sys.phases[id], k)
  {
  }

  lemma OpenNoticeGrammar(sys: System, id: nat, p': Phase)
    requires Grammar(sys) && id in sys.phases && Todo(sys.phases[id]) == [] && NoRoute(sys.phases[id])
    requires Notes(Todo(p'), 0) && NoRoute(p')
    ensures Grammar(SetPhase(sys, id, p'))
  {
    var sys' := SetPhase(sys, id, p');
    forall k ensures RouteAgrees(sys', k) && Waits(sys', k) {
      assert RouteAgrees(sys, k) && Waits(sys, k);
      OpenNoticeRoute(sys, id, p', k);
    }
    forall s, i: nat, t, o ensures EndAgrees(sys', s, i, t, o) {
      assert EndAgrees(sys, s, i, t, o);
      if Ends(sys'.phases, s, i, t, o) {
        PlanEnds(sys.phases, id, p', s, i, t, o);
      }
    }
    forall t: nat, o: nat ensures NoStray(sys', t, o) {
      assert NoStray(sys, t, o);
      PlanSame(sys.phases, id, p', t, o);
    }
    PlanOneEnd(sys.phases, id, p');
  }

  lemma OpenNoticeRoute(sys: System, id: nat, p': Phase, k: Key)
    requires id in sys.phases && Todo(sys.phases[id]) == [] && NoRoute(sys.phases[id])
    requires EndsNothing(Todo(p')) && NoRoute(p') && RouteAgrees(sys, k) && Waits(sys, k)
    ensures RouteAgrees(SetPhase(sys, id, p'), k) && Waits(SetPhase(sys, id, p'), k)
  {
    if Live(sys.sh.routes.table, k) {
      var x := sys.sh.routes.table[k];
      PlanSame(sys.phases, id, p', x.target, x.outbound);
      NoRouteSent(sys.phases[id], k, x);
      NoRouteSent(p', k, x);
    }
  }

  lemma SpoilStep(sys: System, id: nat, raw: seq<Byte>, keep: bool)
    requires Inv(sys) && In(sys, id, Serving(Idle))
    ensures var (sh', pc') := Spoil(sys.sh, id, raw, keep);
            Inv(System(sh', sys.phases[id := Serving(pc')]))
  {
    match ReadTransferId(raw)
    case None => NoticeStep(sys, id, MALFORMED);
    case Some(source) => RejectStep(sys, id, Key(id, source), keep);
  }

  /** The outcome of file_routes_finish for a handler. */
  ghost function Finished(r: Routes, k: Key, end: bool): Pc {
    var (routes, result, e) := Finish(r, k, end);
    match result
    case FinishMissing => Emitting([Note(k.sender, NO_BEGIN)])
    case FinishDiscard => Idle
    case FinishIncomplete => if end then Emitting(ErrorTo(e) + [Note(k.sender, INCOMPLETE)]) else Continue(ErrorTo(e))
    case FinishReady =>
      if end then Emitting([Emission(e.target, EndFrame(e.outbound), ThenNotify)]) else Continue(ErrorTo(e))
  }

  /** The state once thread id has decoded a control frame and taken the route lock. */
  ghost function AfterControl(sys: System, id: nat, raw: seq<Byte>, end: bool): System {
    var (sh', pc') := if end then DispatchEnd(sys.sh, id, raw) else DispatchError(sys.sh, id, raw);
    System(sh', sys.phases[id := Serving(pc')])
  }

  lemma ControlIs(sys: System, id: nat, raw: seq<Byte>, end: bool, source: Word)
    requires DecodeControl(raw, if end then FILE_END else FILE_ERROR) == Some(source)
    ensures var k := Key(id, source);
            AfterControl(sys, id, raw, end) ==
            AfterRoute(sys, id, Finish(sys.sh.routes, k, end).0, Serving(Finished(sys.sh.routes, k, end)))
  {
  }

  lemma FinishStep(sys: System, id: nat, raw: seq<Byte>, end: bool)
    requires Inv(sys) && In(sys, id, Serving(Idle))
    ensures Inv(AfterControl(sys, id, raw, end))
  {
    match DecodeControl(raw, if end then FILE_END else FILE_ERROR)
    case None => SpoilStep(sys, id, raw, false);
    case Some(source) =>
      ControlIs(sys, id, raw, end, source);
      FinishedStep(sys, id, Key(id, source), end);
  }

  lemma FinishedStep(sys: System, id: nat, k: Key, end: bool)
    requires Inv(sys) && In(sys, id, Serving(Idle)) && k.sender == id
    ensures Inv(AfterRoute(sys, id, Finish(sys.sh.routes, k, end).0, Serving(Finished(sys.sh.routes, k, end))))
  {
    FinishGivesUp(sys, k, end);
    RemoveValid(sys.sh.routes, k);
    FinishCuts(sys, id, k, end);
    Cut(sys, id, k, Finish(sys.sh.routes, k, end).0, Serving(Finished(sys.sh.routes, k, end)));
  }

  ghost predicate GivesUpPc(sys: System, k: Key, pc: Pc) {
    GivesUp(sys, k, Todo(Serving(pc))) && pc == Continue(Todo(Serving(pc)))
  }

  lemma FinishGivesUp(sys: System, k: Key, end: bool)
    requires forall l :: l in sys.sh.routes.table ==> ValidEntry(sys.sh.routes.table[l])
    ensures GivesUpPc(sys, k, Finished(sys.sh.routes, k, end))
  {
    if IsLive(sys.sh.routes, k) {
      var x := sys.sh.routes.table[k];
      ErrorToEnds(x);
      ControlMeaning(x.outbound);
    }
  }

  lemma FinishCuts(sys: System, id: nat, k: Key, end: bool)
    requires In(sys, id, Serving(Idle)) && k.sender == id && GivesUpPc(sys, k, Finished(sys.sh.routes, k, end))
    ensures Cuts(sys, id, k, Finish(sys.sh.routes, k, end).0, Serving(Finished(sys.sh.routes, k, end)))
  {
    FinishKey(sys.sh.routes, k, end);
  }

  // ----- A route is turned into a tombstone -----

  /** PutDiscard cuts a key off, whatever the thread then says about it. */
  lemma TombstoneStep(sys: System, id: nat, k: Key, pc': Pc)
    requires Inv(sys) && id in sys.phases && sys.phases[id].Serving? && Todo(sys.phases[id]) == [] && k.sender == id
    requires sys.phases[id].pc.Quarantining? ==> sys.phases[id].pc.key == k && Notes(Todo(Serving(pc')), 0)
    requires GivesUpPc(sys, k, pc')
    ensures Inv(AfterRoute(sys, id, PutDiscard(sys.sh.routes, k), Serving(pc')))
  {
    PutDiscardValid(sys.sh.routes, k);
    PutDiscardKey(sys.sh.routes, k);
    Cut(sys, id, k, PutDiscard(sys.sh.routes, k), Serving(pc'));
  }

  lemma NoteGivesUp(sys: System, k: Key, to: nat, tag: Byte)
    requires Live(sys.sh.routes.table, k) ==> Dead(sys, sys.sh.routes.table[k].target)
    ensures GivesUpPc(sys, k, Emitting([Note(to, tag)])) && GivesUpPc(sys, k, Idle)
  {
  }

  lemma LastWordsGiveUp(sys: System, k: Key, tag: Byte)
    requires forall l :: l in sys.sh.routes.table ==> ValidEntry(sys.sh.routes.table[l])
    ensures GivesUpPc(sys, k, Emitting(LastWords(sys.sh.routes, k, tag)))
  {
    ErrorThenNote(sys, k, tag);
  }

  lemma QuarantineStep(sys: System, id: nat, k: Key)
    requires Inv(sys) && In(sys, id, Serving(Quarantining(k)))
    ensures Inv(AfterRoute(sys, id, PutDiscard(sys.sh.routes, k), Serving(Emitting([Note(id, UNREACHABLE)]))))
  {
    assert PlannedAll(sys, id);
    NoteGivesUp(sys, k, id, UNREACHABLE);
    TombstoneStep(sys, id, k, Emitting([Note(id, UNREACHABLE)]));
  }

  lemma MarkStep(sys: System, id: nat, k: Key, outbound: Word)
    requires Inv(sys) && In(sys, id, Serving(Marking(k, outbound)))
    ensures var (routes', converted) := MarkForwardFailed(sys.sh.routes, k, outbound);
            Inv(AfterRoute(sys, id, routes', Serving(if converted then Emitting([Note(id, DISCONNECTED)]) else Idle)))
  {
    assert PlannedAll(sys, id);
    NoteGivesUp(sys, k, id, DISCONNECTED);
    if MarkForwardFailed(sys.sh.routes, k, outbound).1 {
      TombstoneStep(sys, id, k, Emitting([Note(id, DISCONNECTED)]));
    } else {
      OpenNotice(sys, id, Serving(Idle));
    }
  }

  // ----- A route is added, or a chunk is counted -----

  /** Key k is now live and the thread is about to send the frame that its route counts. */
  ghost predicate Gains(sys: System, id: nat, k: Key, routes': Routes, e: Emission) {
    && k.sender == id && id in sys.phases && sys.phases[id].Serving? && Todo(sys.phases[id]) == []
    && !sys.phases[id].pc.Quarantining?
    && OnlyKey(sys.sh.routes.table, routes'.table, k) && Live(routes'.table, k)
    && (Meaning(e.frame).BeginEvent? || Meaning(e.frame).ChunkEvent?)
    && (e.onFail == ThenQuarantine(k) || (e.onFail.ThenMark? && e.onFail.key == k))
    && var x := routes'.table[k];
    && (e.onFail != ThenQuarantine(k) ==> !HeldByEnd(sys.phases, x.target, x.outbound))
    && (Live(sys.sh.routes.table, k) ==>
          sys.sh.routes.table[k].target == x.target && sys.sh.routes.table[k].outbound == x.outbound)
    && (Reg.Accepting(sys.sh.registry, x.target) ==>
          || SessionAt(sys.sh.registry, x.target, x.outbound) == Sent(Serving(Emitting([e])), k, x)
          || (e.onFail == ThenQuarantine(k) && HeldByEnd(sys.phases, x.target, x.outbound)))
    && Known(sys, x.target) && x.target != id
    && (Alive(sys.phases[x.target]) || e.onFail == ThenQuarantine(k))
  }

  lemma GainStanding(sys: System, id: nat, k: Key, routes': Routes, e: Emission)
    requires Gains(sys, id, k, routes', e) && Seating(sys) && Ownership(sys)
    ensures Seating(AfterRoute(sys, id, routes', Serving(Emitting([e]))))
    ensures Ownership(AfterRoute(sys, id, routes', Serving(Emitting([e]))))
  {
    var sys' := AfterRoute(sys, id, routes', Serving(Emitting([e])));
    forall s ensures Seated(sys', s) {
      assert Seated(sys, s);
    }
    forall l | l in routes'.table ensures Owned(sys', l) {
      if l != k {
        assert SameEntry(sys.sh.routes.table, routes'.table, l) && Owned(sys, l);
      }
    }
  }

  lemma GainOwnRoute(sys: System, id: nat, k: Key, routes': Routes, e: Emission)
    requires Gains(sys, id, k, routes', e)
    ensures var sys' := AfterRoute(sys, id, routes', Serving(Emitting([e]))); RouteAgrees(sys', k) && Waits(sys', k)
  {
    var p', x := Serving(Emitting([e])), routes'.table[k];
    PlanSame(sys.phases, id, p', x.target, x.outbound);
  }

  lemma GainOtherRoute(sys: System, id: nat, k: Key, routes': Routes, e: Emission, l: Key)
    requires Gains(sys, id, k, routes', e) && l != k && RouteAgrees(sys, l) && Waits(sys, l)
    ensures var sys' := AfterRoute(sys, id, routes', Serving(Emitting([e]))); RouteAgrees(sys', l) && Waits(sys', l)
  {
    if Live(routes'.table, l) {
      var p', x := Serving(Emitting([e])), routes'.table[l];
      assert SameEntry(sys.sh.routes.table, routes'.table, l);
      PlanSame(sys.phases, id, p', x.target, x.outbound);
    }
  }

  lemma GainNoStray(sys: System, id: nat, k: Key, routes': Routes, e: Emission, t: nat, o: nat)
    requires Gains(sys, id, k, routes', e) && NoStray(sys, t, o)
    ensures NoStray(AfterRoute(sys, id, routes', Serving(Emitting([e]))), t, o)
  {
    PlanSame(sys.phases, id, Serving(Emitting([e])), t, o);
    if HeldByRoute(sys.sh.routes.table, t, o) {
      var l :| Live(sys.sh.routes.table, l) && sys.sh.routes.table[l].target == t && sys.sh.routes.table[l].outbound == o;
      assert l != k ==> SameEntry(sys.sh.routes.table, routes'.table, l);
      assert Live(routes'.table, l) && routes'.table[l].target == t && routes'.table[l].outbound == o;
    }
  }

  lemma GainGrammar(sys: System, id: nat, k: Key, routes': Routes, e: Emission)
    requires Gains(sys, id, k, routes', e) && Grammar(sys)
    ensures Grammar(AfterRoute(sys, id, routes', Serving(Emitting([e]))))
  {
    var p' := Serving(Emitting([e]));
    var sys' := AfterRoute(sys, id, routes', p');
    forall l ensures RouteAgrees(sys', l) && Waits(sys', l) {
      assert RouteAgrees(sys, l) && Waits(sys, l);
      if l == k {
        GainOwnRoute(sys, id, k, routes', e);
      } else {
        GainOtherRoute(sys, id, k, routes', e, l);
      }
    }
    forall s, i: nat, t, o ensures EndAgrees(sys', s, i, t, o) {
      assert EndAgrees(sys, s, i, t, o);
      if Ends(sys'.phases, s, i, t, o) {
        PlanEnds(sys.phases, id, p', s, i, t, o);
      }
    }
    forall t: nat, o: nat ensures NoStray(sys', t, o) {
      assert NoStray(sys, t, o);
      GainNoStray(sys, id, k, routes', e, t, o);
    }
    PlanOneEnd(sys.phases, id, p');
  }

  lemma GainPlans(sys: System, id: nat, k: Key, routes': Routes, e: Emission)
    requires Gains(sys, id, k, routes', e) && Plans(sys)
    requires Planned(AfterRoute(sys, id, routes', Serving(Emitting([e]))), id, e, true)
    ensures Plans(AfterRoute(sys, id, routes', Serving(Emitting([e]))))
  {
    RoutePlans(sys, id, routes', Serving(Emitting([e])));
  }

  lemma Gain(sys: System, id: nat, k: Key, routes': Routes, e: Emission)
    requires Inv(sys) && Gains(sys, id, k, routes', e) && RouteSpec.Valid(routes')
    requires Planned(AfterRoute(sys, id, routes', Serving(Emitting([e]))), id, e, true)
    ensures Inv(AfterRoute(sys, id, routes', Serving(Emitting([e]))))
  {
    GainStanding(sys, id, k, routes', e);
    GainPlans(sys, id, k, routes', e);
    GainGrammar(sys, id, k, routes', e);
  }

  /** A chunk that fits is counted and will be forwarded. */
  lemma CountedStep(sys: System, id: nat, c: Chunk)
    requires Inv(sys) && In(sys, id, Serving(Idle)) && ValidChunk(c)
    requires AcceptChunk(sys.sh.routes, Key(id, c.id), |c.data|).1 == ChunkReady
    ensures var k := Key(id, c.id);
            Inv(AfterRoute(sys, id, AcceptChunk(sys.sh.routes, k, |c.data|).0, Serving(Emitting([CountedEmission(sys, k, c.data)]))))
  {
    var k := Key(id, c.id);
    var (routes', _, x) := AcceptChunk(sys.sh.routes, k, |c.data|);
    var out := Chunk(x.outbound, c.data);
    var e := Emission(x.target, ChunkFrame(out), ThenMark(k, x.outbound));
    ChunkMeaning(out);
    AcceptChunkValid(sys.sh.routes, k, |c.data|);
    CountedGains(sys, id, k, c.data, routes', e);
    CountedPlanned(sys, id, k, c.data, routes', e);
    Gain(sys, id, k, routes', e);
  }

  lemma CountedGains(sys: System, id: nat, k: Key, data: seq<Byte>, routes': Routes, e: Emission)
    requires Ownership(sys) && RoutesAgree(sys) && AllWait(sys) && In(sys, id, Serving(Idle)) && k.sender == id
    requires e.onFail.ThenMark? && e.onFail.key == k && Meaning(e.frame) == ChunkEvent(Chunk(e.onFail.outbound, data))
    requires AcceptChunk(sys.sh.routes, k, |data|) == (routes', ChunkReady, Endpoint(e.to, e.onFail.outbound))
    ensures Gains(sys, id, k, routes', e)
  {
    assert Owned(sys, k) && RouteAgrees(sys, k) && Waits(sys, k);
  }

  lemma CountedPlanned(sys: System, id: nat, k: Key, data: seq<Byte>, routes': Routes, e: Emission)
    requires Gains(sys, id, k, routes', e) && Fits(e.frame)
    requires e.onFail.ThenMark? && e.onFail.key == k && Meaning(e.frame) == ChunkEvent(Chunk(e.onFail.outbound, data))
    requires AcceptChunk(sys.sh.routes, k, |data|) == (routes', ChunkReady, Endpoint(e.to, e.onFail.outbound))
    ensures Planned(AfterRoute(sys, id, routes', Serving(Emitting([e]))), id, e, true)
  {
  }

  lemma ChunkStep(sys: System, id: nat, raw: seq<Byte>)
    requires Inv(sys) && In(sys, id, Serving(Idle))
    ensures Inv(AfterChunk(sys, id, raw))
  {
    match DecodeChunk(raw)
    case None => SpoilStep(sys, id, raw, true);
    case Some(c) =>
      ChunkCodec(raw, c);
      DecodedChunkStep(sys, id, raw, c);
  }

  ghost function CountedEmission(sys: System, k: Key, data: seq<Byte>): Emission
    requires 0 < |data| <= FILE_CHUNK_SIZE
  {
    var x := AcceptChunk(sys.sh.routes, k, |data|).2;
    Emission(x.target, ChunkFrame(Chunk(x.outbound, data)), ThenMark(k, x.outbound))
  }

  ghost function AfterChunk(sys: System, id: nat, raw: seq<Byte>): System {
    AfterRoute(sys, id, DispatchChunk(sys.sh, id, raw).0.routes, Serving(DispatchChunk(sys.sh, id, raw).1))
  }

  lemma ChunkIs(sys: System, id: nat, raw: seq<Byte>, c: Chunk)
    requires DecodeChunk(raw) == Some(c) && ValidChunk(c)
    ensures var k := Key(id, c.id); var (routes', result, _) := AcceptChunk(sys.sh.routes, k, |c.data|);
            AfterChunk(sys, id, raw) ==
            match result
            case ChunkMissing => AfterRoute(sys, id, PutDiscard(sys.sh.routes, k), Serving(Emitting([Note(id, NO_BEGIN)])))
            case ChunkDiscard => SetPhase(sys, id, Serving(Idle))
            case ChunkOverrun =>
              AfterRoute(sys, id, PutDiscard(sys.sh.routes, k), Serving(Emitting(LastWords(sys.sh.routes, k, OVERRUN))))
            case ChunkReady => AfterRoute(sys, id, routes', Serving(Emitting([CountedEmission(sys, k, c.data)])))
  {
  }

  lemma DecodedChunkStep(sys: System, id: nat, raw: seq<Byte>, c: Chunk)
    requires Inv(sys) && In(sys, id, Serving(Idle)) && DecodeChunk(raw) == Some(c) && ValidChunk(c)
    ensures Inv(AfterChunk(sys, id, raw))
  {
    var k := Key(id, c.id);
    ChunkIs(sys, id, raw, c);
    match AcceptChunk(sys.sh.routes, k, |c.data|).1
    case ChunkMissing =>
      NoteGivesUp(sys, k, id, NO_BEGIN);
      TombstoneStep(sys, id, k, Emitting([Note(id, NO_BEGIN)]));
    case ChunkDiscard => OpenNotice(sys, id, Serving(Idle));
    case ChunkOverrun =>
      LastWordsGiveUp(sys, k, OVERRUN);
      TombstoneStep(sys, id, k, Emitting(LastWords(sys.sh.routes, k, OVERRUN)));
    case ChunkReady => CountedStep(sys, id, c);
  }

  // ----- A begin frame -----

  ghost predicate Adding(sys: System, id: nat, begin: Begin, target: nat) {
    In(sys, id, Serving(LookedUp(begin, target)))
  }

  /** What file_routes_add does for the begin frame that thread id has looked up. */
  ghost function Added(sys: System, id: nat, begin: Begin, target: nat): (Routes, AddResult, Endpoint, Endpoint) {
    Add(sys.sh.routes, Key(id, begin.id), target, begin.size, target == INVALID_CLIENT || target == id)
  }

  ghost function AfterAdd(sys: System, id: nat, begin: Begin, target: nat): System {
    var (sh', pc') := AddRoute(sys.sh, id, NameOf(sys, id), begin, target);
    AfterRoute(sys, id, sh'.routes, Serving(pc'))
  }

  lemma RefusedIs(sys: System, id: nat, begin: Begin, target: nat)
    requires Added(sys, id, begin, target).1 != AddReady && Added(sys, id, begin, target).1 != AddIdUnavailable
    ensures var k := Key(id, begin.id);
            AfterAdd(sys, id, begin, target) ==
            match Added(sys, id, begin, target).1
            case AddDuplicate =>
              AfterRoute(sys, id, PutDiscard(sys.sh.routes, k), Serving(Emitting(LastWords(sys.sh.routes, k, DUPLICATE))))
            case AddDiscard =>
              AfterRoute(sys, id, PutDiscard(sys.sh.routes, k),
                         Serving(Emitting([Note(id, if target == id then TO_YOURSELF else NOT_CONNECTED)])))
            case _ => SetPhase(sys, id, Serving(Emitting([Note(id, LIMIT_REACHED)])))
  {
    if Added(sys, id, begin, target).1 == AddDuplicate {
      DuplicateWords(sys, id, begin, target);
    }
  }

  lemma ReadyIs(sys: System, id: nat, begin: Begin, target: nat)
    requires ValidPeer(NameOf(sys, id)) && ValidFilename(begin.filename) && Added(sys, id, begin, target).1 == AddReady
    ensures AfterAdd(sys, id, begin, target) ==
            AfterRoute(sys, id, Added(sys, id, begin, target).0, Serving(Emitting([NewEmission(sys, id, begin, target)])))
  {
  }

  lemma AddStep(sys: System, id: nat, begin: Begin, target: nat)
    requires Inv(sys) && Adding(sys, id, begin, target)
    ensures Inv(AfterAdd(sys, id, begin, target))
  {
    AddValid(sys.sh.routes, Key(id, begin.id), target, begin.size, target == INVALID_CLIENT || target == id);
    if Added(sys, id, begin, target).1 == AddReady {
      NamesValid(sys, id, begin, target);
      ReadyIs(sys, id, begin, target);
      NewRouteStep(sys, id, begin, target);
    } else {
      RefusedStep(sys, id, begin, target);
    }
  }

  lemma RefusedStep(sys: System, id: nat, begin: Begin, target: nat)
    requires Inv(sys) && Adding(sys, id, begin, target)
    requires Added(sys, id, begin, target).1 != AddReady && Added(sys, id, begin, target).1 != AddIdUnavailable
    ensures Inv(AfterAdd(sys, id, begin, target))
  {
    RefusedIs(sys, id, begin, target);
    match Added(sys, id, begin, target).1
    case AddDuplicate => DuplicateStep(sys, id, begin, target);
    case AddFull => OpenNotice(sys, id, Serving(Emitting([Note(id, LIMIT_REACHED)])));
    case AddDiscard => UnreachableStep(sys, id, begin, target, if target == id then TO_YOURSELF else NOT_CONNECTED);
  }

  lemma DuplicateStep(sys: System, id: nat, begin: Begin, target: nat)
    requires Inv(sys) && Adding(sys, id, begin, target)
    ensures var k := Key(id, begin.id);
            Inv(AfterRoute(sys, id, PutDiscard(sys.sh.routes, k), Serving(Emitting(LastWords(sys.sh.routes, k, DUPLICATE)))))
  {
    var k := Key(id, begin.id);
    LastWordsGiveUp(sys, k, DUPLICATE);
    TombstoneStep(sys, id, k, Emitting(LastWords(sys.sh.routes, k, DUPLICATE)));
  }

  lemma UnreachableStep(sys: System, id: nat, begin: Begin, target: nat, tag: Byte)
    requires Inv(sys) && Adding(sys, id, begin, target) && !Live(sys.sh.routes.table, Key(id, begin.id))
    ensures Inv(AfterRoute(sys, id, PutDiscard(sys.sh.routes, Key(id, begin.id)), Serving(Emitting([Note(id, tag)]))))
  {
    NoteGivesUp(sys, Key(id, begin.id), id, tag);
    TombstoneStep(sys, id, Key(id, begin.id), Emitting([Note(id, tag)]));
  }

  lemma NamesValid(sys: System, id: nat, begin: Begin, target: nat)
    requires Reg.Valid(sys.sh.registry) && Seating(sys) && Plans(sys) && Adding(sys, id, begin, target)
    ensures ValidPeer(NameOf(sys, id)) && ValidFilename(begin.filename) && PlannedAll(sys, id)
  {
    assert Seated(sys, id) && PlannedAll(sys, id);
  }

  lemma DuplicateWords(sys: System, id: nat, begin: Begin, target: nat)
    requires Added(sys, id, begin, target).1 == AddDuplicate
    ensures ErrorTo(Added(sys, id, begin, target).3) + [Note(id, DUPLICATE)]
            == LastWords(sys.sh.routes, Key(id, begin.id), DUPLICATE)
  {
  }

  ghost function NewEmission(sys: System, id: nat, begin: Begin, target: nat): Emission
    requires ValidPeer(NameOf(sys, id)) && ValidFilename(begin.filename)
  {
    var outbound := Added(sys, id, begin, target).2.outbound;
    Emission(target, BeginFrame(Begin(outbound, begin.size, NameOf(sys, id), begin.filename)), ThenQuarantine(Key(id, begin.id)))
  }

  lemma NewRouteStep(sys: System, id: nat, begin: Begin, target: nat)
    requires Inv(sys) && Adding(sys, id, begin, target)
    requires ValidPeer(NameOf(sys, id)) && ValidFilename(begin.filename) && PlannedAll(sys, id)
    requires Added(sys, id, begin, target).1 == AddReady && RouteSpec.Valid(Added(sys, id, begin, target).0)
    requires !InUse(sys.sh.routes.table, Added(sys, id, begin, target).2.outbound)
    ensures Inv(AfterRoute(sys, id, Added(sys, id, begin, target).0,
                           Serving(Emitting([NewEmission(sys, id, begin, target)]))))
  {
    var e := NewEmission(sys, id, begin, target);
    var out := Begin(Added(sys, id, begin, target).2.outbound, begin.size, NameOf(sys, id), begin.filename);
    BeginMeaning(out);
    NewGains(sys, id, begin, target, e);
    NewPlanned(sys, id, begin, target, e, out);
    Gain(sys, id, Key(id, begin.id), Added(sys, id, begin, target).0, e);
  }

  lemma NewGains(sys: System, id: nat, begin: Begin, target: nat, e: Emission)
    requires Adding(sys, id, begin, target)
    requires NoStrays(sys) && PlannedAll(sys, id)
    requires Added(sys, id, begin, target).1 == AddReady
    requires !InUse(sys.sh.routes.table, Added(sys, id, begin, target).2.outbound)
    requires e.onFail == ThenQuarantine(Key(id, begin.id)) && Meaning(e.frame).BeginEvent?
    ensures Gains(sys, id, Key(id, begin.id), Added(sys, id, begin, target).0, e)
  {
    var o := Added(sys, id, begin, target).2.outbound;
    assert NoStray(sys, target, o) && !HeldByRoute(sys.sh.routes.table, target, o);
  }

  lemma NewPlanned(sys: System, id: nat, begin: Begin, target: nat, e: Emission, out: Begin)
    requires Adding(sys, id, begin, target) && PlannedAll(sys, id)
    requires Added(sys, id, begin, target).1 == AddReady
    requires out.id == Added(sys, id, begin, target).2.outbound && out.size == begin.size && ValidBegin(out)
    requires e == Emission(target, BeginFrame(out), ThenQuarantine(Key(id, begin.id)))
    requires Meaning(e.frame) == BeginEvent(out)
    ensures Planned(AfterRoute(sys, id, Added(sys, id, begin, target).0, Serving(Emitting([e]))), id, e, true)
  {
  }

  // ----- The sweep of a departed client -----

  ghost predicate Sweeps(sys: System, id: nat, order: seq<Key>) {
    In(sys, id, Removed) && AbortOrder(sys.sh.routes.table, id, order) && id != INVALID_CLIENT
  }

  ghost function Swept(sys: System, id: nat, order: seq<Key>): System
    requires Sweeps(sys, id, order)
  {
    AfterRoute(sys, id, sys.sh.routes.(table := AbortTable(sys.sh.routes.table, id)),
               Closing(SweepTodo(sys.sh.routes.table, id, order)))
  }

  lemma SweptLive(sys: System, id: nat, order: seq<Key>, l: Key)
    requires Sweeps(sys, id, order) && l in Swept(sys, id, order).sh.routes.table
    ensures l in sys.sh.routes.table && l.sender != id
    ensures Live(Swept(sys, id, order).sh.routes.table, l) ==>
              && Live(sys.sh.routes.table, l) && sys.sh.routes.table[l].target != id
              && Swept(sys, id, order).sh.routes.table[l] == sys.sh.routes.table[l]
  {
  }

  lemma SweepStanding(sys: System, id: nat, order: seq<Key>)
    requires Sweeps(sys, id, order) && Seating(sys) && Ownership(sys)
    ensures Seating(Swept(sys, id, order)) && Ownership(Swept(sys, id, order))
  {
    var sys' := Swept(sys, id, order);
    forall s ensures Seated(sys', s) {
      assert Seated(sys, s);
    }
    forall l | l in sys'.sh.routes.table ensures Owned(sys', l) {
      SweptLive(sys, id, order, l);
      assert Owned(sys, l);
    }
  }

  /** Every emission of the sweep is an error frame for a live route or a notice. */
  lemma SweepEmission(sys: System, id: nat, order: seq<Key>, i: nat)
    requires Sweeps(sys, id, order) && Ownership(sys) && i < |order|
    ensures Planned(Swept(sys, id, order), id, SweepTodo(sys.sh.routes.table, id, order)[i], false)
    ensures forall t, o :: Ends(Swept(sys, id, order).phases, id, i, t, o) <==>
              && order[i].sender == id && t == sys.sh.routes.table[order[i]].target
              && o == sys.sh.routes.table[order[i]].outbound
    ensures order[i].sender == id ==> Meaning(SweepTodo(sys.sh.routes.table, id, order)[i].frame).ErrorEvent?
  {
    var k := order[i];
    assert NeedsAction(sys.sh.routes.table, k, id) && Owned(sys, k);
    ControlMeaning(sys.sh.routes.table[k].outbound);
  }

  lemma SweepPlans(sys: System, id: nat, order: seq<Key>)
    requires Sweeps(sys, id, order) && Plans(sys) && Ownership(sys) && Seating(sys)
    ensures Plans(Swept(sys, id, order))
  {
    var sys' := Swept(sys, id, order);
    assert Seated(sys, id);
    forall s | s in sys'.phases ensures PlannedAll(sys', s) {
      if s != id {
        assert PlannedAll(sys, s);
        SweepOtherPlans(sys, id, order, s);
      } else {
        forall i | 0 <= i < |order| ensures Planned(sys', id, Todo(sys'.phases[id])[i], false) {
          SweepEmission(sys, id, order, i);
        }
      }
    }
  }

  lemma SweepOtherPlans(sys: System, id: nat, order: seq<Key>, s: nat)
    requires Sweeps(sys, id, order) && id !in sys.sh.registry.clients
    requires s in sys.phases && s != id && PlannedAll(sys, s)
    ensures PlannedAll(Swept(sys, id, order), s)
  {
    var sys' := Swept(sys, id, order);
    assert Dead(sys', id);
    forall t ensures Dead(sys, t) <==> Dead(sys', t) {}
    forall t ensures Known(sys, t) <==> Known(sys', t) {}
    forall l: Key | l.sender != id
      ensures Live(sys'.sh.routes.table, l) <==> Live(sys.sh.routes.table, l) && sys.sh.routes.table[l].target != id
      ensures Live(sys'.sh.routes.table, l) ==> sys'.sh.routes.table[l] == sys.sh.routes.table[l]
    {
    }
  }

  /** A terminal frame is one of the sweep, for a route that was not starting, or an old one. */
  lemma SweepEnds(sys: System, id: nat, order: seq<Key>, s: nat, i: nat, t: nat, o: nat)
    requires Sweeps(sys, id, order) && Ownership(sys) && Ends(Swept(sys, id, order).phases, s, i, t, o)
    ensures if s == id
            then i < |order| && Live(sys.sh.routes.table, order[i]) && order[i].sender == id
                 && t == sys.sh.routes.table[order[i]].target && o == sys.sh.routes.table[order[i]].outbound
                 && Meaning(Todo(Swept(sys, id, order).phases[id])[i].frame).ErrorEvent?
            else Ends(sys.phases, s, i, t, o) && Todo(Swept(sys, id, order).phases[s]) == Todo(sys.phases[s])
  {
    if s == id {
      SweepEmission(sys, id, order, i);
      assert NeedsAction(sys.sh.routes.table, order[i], id);
    }
  }

  lemma SweepRoute(sys: System, id: nat, order: seq<Key>, l: Key)
    requires Sweeps(sys, id, order) && Ownership(sys) && DistinctOutbound(sys.sh.routes.table)
    requires RouteAgrees(sys, l) && Waits(sys, l)
    ensures RouteAgrees(Swept(sys, id, order), l) && Waits(Swept(sys, id, order), l)
  {
    var sys' := Swept(sys, id, order);
    if Live(sys'.sh.routes.table, l) {
      SweptLive(sys, id, order, l);
      var x := sys.sh.routes.table[l];
      if HeldByEnd(sys.phases, x.target, x.outbound) {
        PlanHeld(sys.phases, id, sys'.phases[id], x.target, x.outbound);
      }
      if HeldByEnd(sys'.phases, x.target, x.outbound) {
        var s: nat, i: nat :| Ends(sys'.phases, s, i, x.target, x.outbound);
        SweepEnds(sys, id, order, s, i, x.target, x.outbound);
      }
    }
  }

  lemma SweepEndAgrees(sys: System, id: nat, order: seq<Key>, s: nat, i: nat, t: nat, o: nat)
    requires Sweeps(sys, id, order) && RoutesAgree(sys) && EndAgrees(sys, s, i, t, o) && Ownership(sys)
    ensures EndAgrees(Swept(sys, id, order), s, i, t, o)
  {
    if Ends(Swept(sys, id, order).phases, s, i, t, o) {
      SweepEnds(sys, id, order, s, i, t, o);
      assert s == id ==> RouteAgrees(sys, order[i]);
    }
  }

  lemma SweepNoStray(sys: System, id: nat, order: seq<Key>, t: nat, o: nat)
    requires Sweeps(sys, id, order) && NoStray(sys, t, o) && Ownership(sys) && Seated(sys, id)
    requires forall l :: l in sys.sh.routes.table ==> ValidEntry(sys.sh.routes.table[l])
    ensures NoStray(Swept(sys, id, order), t, o)
  {
    if HeldByRoute(sys.sh.routes.table, t, o) && t != id {
      SweepKeepsHold(sys, id, order, t, o);
    } else if HeldByEnd(sys.phases, t, o) {
      PlanHeld(sys.phases, id, Swept(sys, id, order).phases[id], t, o);
    }
  }

  lemma SweepKeepsHold(sys: System, id: nat, order: seq<Key>, t: nat, o: nat)
    requires Sweeps(sys, id, order) && Ownership(sys) && HeldByRoute(sys.sh.routes.table, t, o) && t != id
    requires forall l :: l in sys.sh.routes.table ==> ValidEntry(sys.sh.routes.table[l])
    ensures HeldByRoute(Swept(sys, id, order).sh.routes.table, t, o) || HeldByEnd(Swept(sys, id, order).phases, t, o)
  {
    var sys' := Swept(sys, id, order);
    var l :| Live(sys.sh.routes.table, l) && sys.sh.routes.table[l].target == t && sys.sh.routes.table[l].outbound == o;
    if l.sender != id {
      assert Live(sys'.sh.routes.table, l) && sys'.sh.routes.table[l] == sys.sh.routes.table[l];
    } else {
      assert NeedsAction(sys.sh.routes.table, l, id);
      var i: nat :| i < |order| && order[i] == l;
      SweepEmission(sys, id, order, i);
      assert Ends(sys'.phases, id, i, t, o);
    }
  }

  lemma SweepOneEnd(sys: System, id: nat, order: seq<Key>)
    requires Sweeps(sys, id, order) && OneEnd(sys.phases) && AllWait(sys)
    requires Ownership(sys) && DistinctOutbound(sys.sh.routes.table)
    ensures OneEnd(Swept(sys, id, order).phases)
  {
    var phases' := Swept(sys, id, order).phases;
    forall s, i: nat, s', i': nat, t, o | Ends(phases', s, i, t, o) && Ends(phases', s', i', t, o)
      ensures s == s' && i == i'
    {
      SweepEnds(sys, id, order, s, i, t, o);
      SweepEnds(sys, id, order, s', i', t, o);
      if s == id && s' != id {
        assert HeldByEnd(sys.phases, t, o) && Waits(sys, order[i]);
      }
      if s != id && s' == id {
        assert HeldByEnd(sys.phases, t, o) && Waits(sys, order[i']);
      }
    }
  }

  lemma SweepGrammar(sys: System, id: nat, order: seq<Key>)
    requires Sweeps(sys, id, order) && Grammar(sys) && Ownership(sys) && Seating(sys) && RouteSpec.Valid(sys.sh.routes)
    ensures Grammar(Swept(sys, id, order))
  {
    var sys' := Swept(sys, id, order);
    forall l ensures RouteAgrees(sys', l) && Waits(sys', l) {
      assert RouteAgrees(sys, l) && Waits(sys, l);
      SweepRoute(sys, id, order, l);
    }
    forall s, i: nat, t, o ensures EndAgrees(sys', s, i, t, o) {
      assert EndAgrees(sys, s, i, t, o);
      SweepEndAgrees(sys, id, order, s, i, t, o);
    }
    assert Seated(sys, id);
    forall t: nat, o: nat ensures NoStray(sys', t, o) {
      assert NoStray(sys, t, o);
      SweepNoStray(sys, id, order, t, o);
    }
    SweepOneEnd(sys, id, order);
  }

  lemma SweepStep(sys: System, id: nat, order: seq<Key>)
    requires Inv(sys) && Sweeps(sys, id, order)
    ensures Inv(Swept(sys, id, order))
  {
    AbortValid(sys.sh.routes, id);
    SweepStanding(sys, id, order);
    SweepPlans(sys, id, order);
    SweepGrammar(sys, id, order);
  }
}
