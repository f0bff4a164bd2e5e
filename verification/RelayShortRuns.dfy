/** A run that hands out at most 2^32 - 1 outbound ids never hands one out twice, so nothing
    in it can overtake. */
module RelayShortRuns {
  import opened Bytes
  import opened FileProtocol
  import opened RouteSpec
  import opened Sessions
  import opened RelaySpec
  import opened Relay
  import opened RelayEnds
  import opened RelayProof
  import opened RelayRoutes
  import opened RelayTheorems
  import opened RelayRuns
  import Reg = RegistrySpec

  /** The largest id handed out so far, while the counter has not passed 2^32. */
  function Issued(next: Word): nat {
    if next == 0 then TWO32 - 1 else next - 1
  }

  /** Some thread still has to end a session of this id, at whatever target. */
  ghost predicate Pending(phases: map<nat, Phase>, o: nat) {
    exists s, i, t :: Ends(phases, s, i, t, o)
  }

  /** Every id in the table or in an unsent terminal frame has been handed out, and none is
      in both. */
  ghost predicate Rising(sys: System) {
    && (forall o: nat :: InUse(sys.sh.routes.table, o) ==> o <= Issued(sys.sh.routes.next) && !Pending(sys.phases, o))
    && (forall o: nat :: Pending(sys.phases, o) ==> o <= Issued(sys.sh.routes.next))
  }

  // ----- Steps that hand out nothing -----

  ghost predicate Shrinks(table: map<Key, Entry>, table': map<Key, Entry>) {
    forall o: nat :: InUse(table', o) ==> InUse(table, o)
  }

  /** What is pending was pending, or was in use and no longer is. */
  ghost predicate Moved(sys: System, sys': System, o: nat) {
    Pending(sys'.phases, o) ==>
      Pending(sys.phases, o) || (InUse(sys.sh.routes.table, o) && !InUse(sys'.sh.routes.table, o))
  }

  lemma StillRising(sys: System, sys': System)
    requires Rising(sys) && sys'.sh.routes.next == sys.sh.routes.next
    requires Shrinks(sys.sh.routes.table, sys'.sh.routes.table) && forall o: nat :: Moved(sys, sys', o)
    ensures Rising(sys')
  {
    forall o: nat ensures InUse(sys'.sh.routes.table, o) ==> !Pending(sys'.phases, o) {
      assert Moved(sys, sys', o);
    }
    forall o: nat ensures Pending(sys'.phases, o) ==> o <= Issued(sys.sh.routes.next) {
      assert Moved(sys, sys', o);
    }
  }

  /** The terminal frames of a plan name ids that were in use and no longer are. */
  ghost predicate Sourced(table: map<Key, Entry>, table': map<Key, Entry>, todo: seq<Emission>) {
    forall i :: 0 <= i < |todo| && Ender(todo[i]) ==>
      InUse(table, IdOf(Meaning(todo[i].frame))) && !InUse(table', IdOf(Meaning(todo[i].frame)))
  }

  lemma PlanMoves(sys: System, id: nat, sh': Shared, p': Phase, o: nat)
    requires Sourced(sys.sh.routes.table, sh'.routes.table, Todo(p'))
    ensures Moved(sys, System(sh', sys.phases[id := p']), o)
  {
    if Pending(sys.phases[id := p'], o) {
      var s: nat, i: nat, t: nat :| Ends(sys.phases[id := p'], s, i, t, o);
      if s != id {
        assert Ends(sys.phases, s, i, t, o);
      } else {
        assert Ender(Todo(p')[i]);
      }
    }
  }

  lemma DropMoves(sys: System, id: nat, sh': Shared, p': Phase, o: nat)
    requires id in sys.phases && Drops(sys.phases[id], p')
    ensures Moved(sys, System(sh', sys.phases[id := p']), o)
  {
    if Pending(sys.phases[id := p'], o) {
      var s: nat, i: nat, t: nat :| Ends(sys.phases[id := p'], s, i, t, o);
      DropEnds(sys.phases, id, p', s, i, t, o);
    }
  }

  /** Only key k changed, and it is not live any more, or as before. */
  lemma KeyShrinks(table: map<Key, Entry>, table': map<Key, Entry>, k: Key)
    requires OnlyKey(table, table', k)
    requires Live(table', k) ==> Live(table, k) && table[k].outbound == table'[k].outbound
    ensures Shrinks(table, table')
  {
    forall o: nat | InUse(table', o) ensures InUse(table, o) {
      var l :| Live(table', l) && table'[l].outbound == o;
      assert l != k ==> SameEntry(table, table', l);
      assert Live(table, l) && table[l].outbound == o;
    }
  }

  lemma CutOff(table: map<Key, Entry>, table': map<Key, Entry>, k: Key)
    requires OnlyKey(table, table', k) && !Live(table', k) && Live(table, k) && DistinctOutbound(table)
    ensures InUse(table, table[k].outbound) && !InUse(table', table[k].outbound)
  {
    forall l | Live(table', l) ensures table'[l].outbound != table[k].outbound {
      assert SameEntry(table, table', l);
    }
  }

  lemma GivesUpSourced(sys: System, k: Key, table': map<Key, Entry>, todo: seq<Emission>)
    requires GivesUp(sys, k, todo) && OnlyKey(sys.sh.routes.table, table', k) && !Live(table', k)
    requires DistinctOutbound(sys.sh.routes.table)
    ensures Sourced(sys.sh.routes.table, table', todo)
  {
    if Live(sys.sh.routes.table, k) {
      CutOff(sys.sh.routes.table, table', k);
    }
  }

  /** What a handler step leaves behind: no new ids in the table, sourced emissions. */
  ghost predicate Tame(sys: System, sh': Shared, pc': Pc) {
    && Shrinks(sys.sh.routes.table, sh'.routes.table) && sh'.routes.next == sys.sh.routes.next
    && Sourced(sys.sh.routes.table, sh'.routes.table, Todo(Serving(pc')))
  }

  lemma TameRises(sys: System, id: nat, sh': Shared, pc': Pc)
    requires Rising(sys) && Tame(sys, sh', pc')
    ensures Rising(System(sh', sys.phases[id := Serving(pc')]))
  {
    var sys' := System(sh', sys.phases[id := Serving(pc')]);
    forall o: nat ensures Moved(sys, sys', o) {
      PlanMoves(sys, id, sh', Serving(pc'), o);
    }
    StillRising(sys, sys');
  }

  lemma NothingTame(sys: System, pc': Pc)
    requires EndsNothing(Todo(Serving(pc')))
    ensures Tame(sys, sys.sh, pc')
  {
  }

  lemma RejectTame(sys: System, id: nat, k: Key, keep: bool)
    requires RouteSpec.Valid(sys.sh.routes) && k.sender == id
    ensures Tame(sys, Reject(sys.sh, id, k, keep).0, Reject(sys.sh, id, k, keep).1)
  {
    var table' := Reject(sys.sh, id, k, keep).0.routes.table;
    ErrorThenNote(sys, k, MALFORMED);
    QuarantineKey(sys.sh.routes, k, keep);
    GivesUpSourced(sys, k, table', LastWords(sys.sh.routes, k, MALFORMED));
    KeyShrinks(sys.sh.routes.table, table', k);
  }

  lemma SpoilTame(sys: System, id: nat, raw: seq<Byte>, keep: bool)
    requires RouteSpec.Valid(sys.sh.routes)
    ensures Tame(sys, Spoil(sys.sh, id, raw, keep).0, Spoil(sys.sh, id, raw, keep).1)
  {
    match ReadTransferId(raw)
    case None => NothingTame(sys, Emitting([Note(id, MALFORMED)]));
    case Some(source) => RejectTame(sys, id, Key(id, source), keep);
  }

  lemma DiscardTame(sys: System, k: Key, pc': Pc)
    requires RouteSpec.Valid(sys.sh.routes) && GivesUpPc(sys, k, pc')
    ensures Tame(sys, sys.sh.(routes := PutDiscard(sys.sh.routes, k)), pc')
  {
    var table' := PutDiscard(sys.sh.routes, k).table;
    PutDiscardKey(sys.sh.routes, k);
    GivesUpSourced(sys, k, table', Todo(Serving(pc')));
    KeyShrinks(sys.sh.routes.table, table', k);
  }

  lemma CountedTame(sys: System, id: nat, c: Chunk)
    requires AcceptChunk(sys.sh.routes, Key(id, c.id), |c.data|).1 == ChunkReady && ValidChunk(c)
    requires |sys.sh.routes.table| <= sys.sh.routes.capacity
    ensures var (routes', _, x) := AcceptChunk(sys.sh.routes, Key(id, c.id), |c.data|);
            Tame(sys, sys.sh.(routes := routes'), ChunkPc(c, Key(id, c.id), x))
  {
    var k := Key(id, c.id);
    var (routes', _, x) := AcceptChunk(sys.sh.routes, k, |c.data|);
    ChunkMeaning(Chunk(x.outbound, c.data));
    AcceptChunkKey(sys.sh.routes, k, |c.data|);
    KeyShrinks(sys.sh.routes.table, routes'.table, k);
  }

  lemma ChunkTame(sys: System, id: nat, raw: seq<Byte>)
    requires RouteSpec.Valid(sys.sh.routes)
    ensures Tame(sys, DispatchChunk(sys.sh, id, raw).0, DispatchChunk(sys.sh, id, raw).1)
  {
    match DecodeChunk(raw)
    case None => SpoilTame(sys, id, raw, true);
    case Some(c) =>
      var k := Key(id, c.id);
      ChunkCodec(raw, c);
      match AcceptChunk(sys.sh.routes, k, |c.data|).1
      case ChunkMissing =>
        NoteGivesUp(sys, k, id, NO_BEGIN);
        DiscardTame(sys, k, Emitting([Note(id, NO_BEGIN)]));
      case ChunkDiscard => NothingTame(sys, Idle);
      case ChunkOverrun =>
        LastWordsGiveUp(sys, k, OVERRUN);
        DiscardTame(sys, k, Emitting(LastWords(sys.sh.routes, k, OVERRUN)));
      case ChunkReady => CountedTame(sys, id, c);
  }

  lemma FinishTame(sys: System, id: nat, raw: seq<Byte>, end: bool)
    requires RouteSpec.Valid(sys.sh.routes)
    ensures var (sh', pc') := if end then DispatchEnd(sys.sh, id, raw) else DispatchError(sys.sh, id, raw);
            Tame(sys, sh', pc')
  {
    match DecodeControl(raw, if end then FILE_END else FILE_ERROR)
    case None => SpoilTame(sys, id, raw, false);
    case Some(source) =>
      var k := Key(id, source);
      var table' := Finish(sys.sh.routes, k, end).0.table;
      FinishGivesUp(sys, k, end);
      FinishKey(sys.sh.routes, k, end);
      GivesUpSourced(sys, k, table', Todo(Serving(Finished(sys.sh.routes, k, end))));
      KeyShrinks(sys.sh.routes.table, table', k);
  }

  lemma BeginTame(sys: System, id: nat, user: seq<Byte>, raw: seq<Byte>)
    requires RouteSpec.Valid(sys.sh.routes)
    ensures Tame(sys, DispatchBegin(sys.sh, id, user, raw).0, DispatchBegin(sys.sh, id, user, raw).1)
  {
    NothingTame(sys, Emitting([Note(id, BAD_SENDER)]));
    match DecodeBegin(raw)
    case None => SpoilTame(sys, id, raw, true);
    case Some(begin) => NothingTame(sys, LookedUp(begin, Reg.Find(sys.sh.registry, begin.peer)));
  }

  lemma DispatchTame(sys: System, id: nat, user: seq<Byte>, raw: seq<Byte>)
    requires RouteSpec.Valid(sys.sh.routes)
    ensures Tame(sys, Dispatch(sys.sh, id, user, raw).0, Dispatch(sys.sh, id, user, raw).1)
  {
    NothingTame(sys, Idle);
    NothingTame(sys, Emitting([Note(id, TOO_LARGE)]));
    NothingTame(sys, Emitting([Note(id, BAD_TYPE)]));
    if raw == [] {
    } else if raw[0] == FILE_BEGIN {
      BeginTame(sys, id, user, raw);
    } else if raw[0] == FILE_CHUNK {
      ChunkTame(sys, id, raw);
    } else if raw[0] == FILE_END {
      FinishTame(sys, id, raw, true);
    } else if raw[0] == FILE_ERROR {
      FinishTame(sys, id, raw, false);
    }
  }

  lemma RefusedTame(sys: System, id: nat, begin: Begin, target: nat)
    requires RouteSpec.Valid(sys.sh.routes) && Added(sys, id, begin, target).1 != AddReady
    requires Added(sys, id, begin, target).1 != AddIdUnavailable
    ensures var (sh', pc') := AddRoute(sys.sh, id, NameOf(sys, id), begin, target);
            Tame(sys, sh', pc')
  {
    var k := Key(id, begin.id);
    match Added(sys, id, begin, target).1
    case AddDuplicate =>
      LastWordsGiveUp(sys, k, DUPLICATE);
      DuplicateWords(sys, id, begin, target);
      DiscardTame(sys, k, Emitting(LastWords(sys.sh.routes, k, DUPLICATE)));
    case AddFull => NothingTame(sys, Emitting([Note(id, LIMIT_REACHED)]));
    case AddDiscard =>
      var tag := if target == id then TO_YOURSELF else NOT_CONNECTED;
      NoteGivesUp(sys, k, id, tag);
      DiscardTame(sys, k, Emitting([Note(id, tag)]));
  }

  lemma SweepMoves(sys: System, id: nat, order: seq<Key>, o: nat)
    requires Sweeps(sys, id, order) && Ownership(sys) && DistinctOutbound(sys.sh.routes.table)
    ensures Moved(sys, Swept(sys, id, order), o)
  {
    var sys' := Swept(sys, id, order);
    if Pending(sys'.phases, o) {
      var s: nat, i: nat, t: nat :| Ends(sys'.phases, s, i, t, o);
      SweepEnds(sys, id, order, s, i, t, o);
      if s == id {
        assert InUse(sys.sh.routes.table, o);
        if InUse(sys'.sh.routes.table, o) {
          var l :| Live(sys'.sh.routes.table, l) && sys'.sh.routes.table[l].outbound == o;
          SweptLive(sys, id, order, l);
          assert false;
        }
      }
    }
  }

  lemma SweepRises(sys: System, id: nat, order: seq<Key>)
    requires Rising(sys) && Sweeps(sys, id, order) && Ownership(sys) && DistinctOutbound(sys.sh.routes.table)
    ensures Rising(Swept(sys, id, order))
  {
    var sys' := Swept(sys, id, order);
    forall o: nat | InUse(sys'.sh.routes.table, o) ensures InUse(sys.sh.routes.table, o) {
      var l :| Live(sys'.sh.routes.table, l) && sys'.sh.routes.table[l].outbound == o;
      SweptLive(sys, id, order, l);
    }
    forall o: nat ensures Moved(sys, sys', o) {
      SweepMoves(sys, id, order, o);
    }
    StillRising(sys, sys');
  }

  // ----- Handing out an id -----

  ghost predicate Allocates(sys: System, step: Step) {
    && step.Proceed? && step.id in sys.phases && sys.phases[step.id].Serving? && sys.phases[step.id].pc.LookedUp?
    && Added(sys, step.id, sys.phases[step.id].pc.begin, sys.phases[step.id].pc.target).1 == AddReady
  }

  ghost function CountAllocations(sys: System, run: seq<Step>): nat
    requires Legal(sys, run)
    decreases |run|
  {
    if run == [] then 0
    else (if Allocates(sys, run[0]) then 1 else 0) + CountAllocations(Apply(sys, run[0]), run[1..])
  }

  /** While the counter has not passed 2^32, the id handed out is the counter itself. */
  lemma AllocationRises(sys: System, id: nat, begin: Begin, target: nat)
    requires RouteSpec.Valid(sys.sh.routes) && Rising(sys)
    requires Added(sys, id, begin, target).1 == AddReady && sys.sh.routes.next != 0
    ensures Added(sys, id, begin, target).2.outbound == sys.sh.routes.next
    ensures Issued(Added(sys, id, begin, target).0.next) == sys.sh.routes.next
    ensures Added(sys, id, begin, target).0.table ==
            sys.sh.routes.table[Key(id, begin.id) := Forwarding(target, sys.sh.routes.next, begin.size, 0)]
  {
    var r := sys.sh.routes;
    AllocationSucceeds(r);
    assert !InUse(r.table, Candidate(r.next, 0));
    assert Allocate(r.table, r.next, 0, r.capacity + 1) == (Candidate(r.next, 0), RouteSpec.After(Candidate(r.next, 0)));
  }

  lemma NewRouteRises(sys: System, id: nat, begin: Begin, target: nat, sh': Shared, pc': Pc)
    requires Rising(sys) && sys.sh.routes.next != 0 && Issued(sh'.routes.next) == sys.sh.routes.next
    requires sh'.routes.table == sys.sh.routes.table[Key(id, begin.id) := Forwarding(target, sys.sh.routes.next, begin.size, 0)]
    requires EndsNothing(Todo(Serving(pc')))
    ensures Rising(System(sh', sys.phases[id := Serving(pc')]))
  {
    var phases' := sys.phases[id := Serving(pc')];
    forall o: nat | Pending(phases', o) ensures Pending(sys.phases, o) {
      var s: nat, i: nat, t: nat :| Ends(phases', s, i, t, o);
      PlanEnds(sys.phases, id, Serving(pc'), s, i, t, o);
    }
    forall o: nat | InUse(sh'.routes.table, o) ensures o == sys.sh.routes.next || InUse(sys.sh.routes.table, o) {
      var l :| Live(sh'.routes.table, l) && sh'.routes.table[l].outbound == o;
      assert l != Key(id, begin.id) ==> Live(sys.sh.routes.table, l);
    }
  }

  lemma AddRises(sys: System, id: nat, begin: Begin, target: nat)
    requires Inv(sys) && Rising(sys) && Adding(sys, id, begin, target)
    requires Added(sys, id, begin, target).1 == AddReady ==> sys.sh.routes.next != 0
    ensures var (sh', pc') := AddRoute(sys.sh, id, NameOf(sys, id), begin, target);
            && Rising(System(sh', sys.phases[id := Serving(pc')]))
            && Issued(sh'.routes.next) ==
               Issued(sys.sh.routes.next) + if Added(sys, id, begin, target).1 == AddReady then 1 else 0
  {
    var (sh', pc') := AddRoute(sys.sh, id, NameOf(sys, id), begin, target);
    AddValid(sys.sh.routes, Key(id, begin.id), target, begin.size, target == INVALID_CLIENT || target == id);
    if Added(sys, id, begin, target).1 == AddReady {
      AllocationRises(sys, id, begin, target);
      NamesValid(sys, id, begin, target);
      BeginEndsNothing(NameOf(sys, id), begin, Key(id, begin.id), Added(sys, id, begin, target).2);
      NewRouteRises(sys, id, begin, target, sh', pc');
    } else {
      RefusedTame(sys, id, begin, target);
      TameRises(sys, id, sh', pc');
    }
  }

  lemma BeginEndsNothing(user: seq<Byte>, begin: Begin, k: Key, to: Endpoint)
    requires ValidPeer(user) && ValidFilename(begin.filename)
    ensures EndsNothing(Todo(Serving(BeginPc(user, begin, k, to))))
  {
    BeginMeaning(Begin(to.outbound, begin.size, user, begin.filename));
  }

  // ----- Every step -----

  ghost predicate RisesTo(sys: System, sys': System, allocates: bool) {
    Rising(sys') && Issued(sys'.sh.routes.next) == Issued(sys.sh.routes.next) + if allocates then 1 else 0
  }

  lemma EmitRises(sys: System, id: nat, todo: seq<Emission>)
    requires Rising(sys) && In(sys, id, Serving(Emitting(todo))) && todo != [] && (todo[0].onFail != Ignore ==> |todo| == 1)
    ensures var (sh', pc') := Emit(sys.sh, id, todo); RisesTo(sys, System(sh', sys.phases[id := Serving(pc')]), false)
  {
    var (sh', pc') := Emit(sys.sh, id, todo);
    var sys' := System(sh', sys.phases[id := Serving(pc')]);
    EmitDrops(sys.sh, id, todo);
    forall o: nat ensures Moved(sys, sys', o) {
      DropMoves(sys, id, sh', Serving(pc'), o);
    }
    StillRising(sys, sys');
  }

  lemma EmitDrops(sh: Shared, id: nat, todo: seq<Emission>)
    requires todo != [] && (todo[0].onFail != Ignore ==> |todo| == 1)
    ensures Drops(Serving(Emitting(todo)), Serving(Emit(sh, id, todo).1))
  {
  }

  lemma DiscardRises(sys: System, id: nat, k: Key, pc': Pc)
    requires RouteSpec.Valid(sys.sh.routes) && Rising(sys) && EndsNothing(Todo(Serving(pc')))
    ensures RisesTo(sys, System(sys.sh.(routes := PutDiscard(sys.sh.routes, k)), sys.phases[id := Serving(pc')]), false)
  {
    var table' := PutDiscard(sys.sh.routes, k).table;
    PutDiscardKey(sys.sh.routes, k);
    KeyShrinks(sys.sh.routes.table, table', k);
    TameRises(sys, id, sys.sh.(routes := PutDiscard(sys.sh.routes, k)), pc');
  }

  lemma ProceedRises(sys: System, id: nat)
    requires Inv(sys) && Rising(sys) && Enabled(sys, Proceed(id))
    requires Allocates(sys, Proceed(id)) ==> sys.sh.routes.next != 0
    ensures var (sh', pc') := RelaySpec.Advance(sys.sh, id, NameOf(sys, id), sys.phases[id].pc);
            RisesTo(sys, System(sh', sys.phases[id := Serving(pc')]), Allocates(sys, Proceed(id)))
  {
    assert PlannedAll(sys, id);
    match sys.phases[id].pc
    case LookedUp(begin, target) => AddRises(sys, id, begin, target);
    case Emitting(todo) =>
      assert Planned(sys, id, Todo(sys.phases[id])[0], sys.phases[id].Serving? && |Todo(sys.phases[id])| == 1);
      EmitRises(sys, id, todo);
    case Quarantining(k) => DiscardRises(sys, id, k, Emitting([Note(id, UNREACHABLE)]));
    case Marking(k, outbound) => MarkRises(sys, id, k, outbound);
    case Rejecting(_) => assert false;
  }

  lemma MarkRises(sys: System, id: nat, k: Key, outbound: Word)
    requires RouteSpec.Valid(sys.sh.routes) && Rising(sys)
    ensures var (sh', pc') := RelaySpec.Advance(sys.sh, id, [], Marking(k, outbound));
            RisesTo(sys, System(sh', sys.phases[id := Serving(pc')]), false)
  {
    if MarkForwardFailed(sys.sh.routes, k, outbound).1 {
      DiscardRises(sys, id, k, Emitting([Note(id, DISCONNECTED)]));
    } else {
      NothingTame(sys, Idle);
      TameRises(sys, id, sys.sh, Idle);
    }
  }

  /** Steps that touch neither the routes nor, except by dropping, the plans. */
  lemma QuietRises(sys: System, step: Step)
    requires Rising(sys) && Enabled(sys, step) && !step.Receive? && !step.Proceed? && !step.Sweep? && !step.Close?
    ensures RisesTo(sys, Apply(sys, step), false)
  {
    var sys' := Apply(sys, step);
    forall o: nat ensures Moved(sys, sys', o) {
      if Pending(sys'.phases, o) {
        var s: nat, i: nat, t: nat :| Ends(sys'.phases, s, i, t, o);
        assert Ends(sys.phases, s, i, t, o);
      }
    }
    StillRising(sys, sys');
  }

  lemma CloseRises(sys: System, id: nat)
    requires Rising(sys) && Enabled(sys, Close(id))
    ensures RisesTo(sys, Apply(sys, Close(id)), false)
  {
    var sys' := Apply(sys, Close(id));
    forall o: nat ensures Moved(sys, sys', o) {
      if sys.phases[id].todo == [] {
        PlanMoves(sys, id, sys'.sh, Gone, o);
      } else {
        DropMoves(sys, id, sys'.sh, sys'.phases[id], o);
      }
    }
    StillRising(sys, sys');
  }

  lemma ReceiveRises(sys: System, id: nat, raw: seq<Byte>)
    requires Rising(sys) && RouteSpec.Valid(sys.sh.routes)
    ensures var (sh', pc') := Dispatch(sys.sh, id, NameOf(sys, id), raw);
            RisesTo(sys, System(sh', sys.phases[id := Serving(pc')]), false)
  {
    var (sh', pc') := Dispatch(sys.sh, id, NameOf(sys, id), raw);
    DispatchTame(sys, id, NameOf(sys, id), raw);
    TameRises(sys, id, sh', pc');
  }

  lemma StepRises(sys: System, step: Step)
    requires Inv(sys) && Rising(sys) && Enabled(sys, step) && (Allocates(sys, step) ==> sys.sh.routes.next != 0)
    ensures RisesTo(sys, Apply(sys, step), Allocates(sys, step))
  {
    match step
    case Receive(id, raw) => ReceiveRises(sys, id, raw);
    case Proceed(id) => ProceedRises(sys, id);
    case Sweep(id, order) =>
      assert Seated(sys, id);
      SweepRises(sys, id, order);
    case Close(id) => CloseRises(sys, id);
    case _ => QuietRises(sys, step);
  }

  /** A BEGIN that can be queued is that of a live route, whose id is not pending. */
  lemma NotOvertaking(sys: System, step: Step)
    requires Plans(sys) && Seating(sys) && Rising(sys)
    ensures !Overtakes(sys, step)
  {
    if Overtakes(sys, step) {
      var p := sys.phases[step.id];
      var e := Todo(p)[0];
      assert PlannedAll(sys, step.id) && Planned(sys, step.id, e, p.Serving? && |Todo(p)| == 1);
      var s: nat, i: nat :| Ends(sys.phases, s, i, e.to, Meaning(e.frame).begin.id);
      assert Pending(sys.phases, Meaning(e.frame).begin.id);
      BeginInUse(sys, step.id, e);
    }
  }

  lemma BeginInUse(sys: System, id: nat, e: Emission)
    requires Planned(sys, id, e, true) && Meaning(e.frame).BeginEvent? && Reg.Queue(sys.sh.registry, e.to, e.frame).1
    ensures InUse(sys.sh.routes.table, Meaning(e.frame).begin.id)
  {
    assert Live(sys.sh.routes.table, e.onFail.key);
  }

  lemma {:induction false} FewAllocations(sys: System, run: seq<Step>)
    requires Inv(sys) && Rising(sys) && Legal(sys, run)
    requires Issued(sys.sh.routes.next) + CountAllocations(sys, run) < TWO32
    ensures NoOvertaking(sys, run)
    decreases |run|
  {
    if run != [] {
      NotOvertaking(sys, run[0]);
      StepRises(sys, run[0]);
      StepKeepsInvariant(sys, run[0]);
      FewAllocations(Apply(sys, run[0]), run[1..]);
    }
  }

  /** A run that accepts at most 2^32 - 1 begin frames never overtakes, so all that is
      proved of such runs holds for it. One more begin frame can break it. */
  lemma ShortRunsDoNotOvertake(clients: nat, routes: Capacity, run: seq<Step>)
    requires Legal(Start(clients, routes), run)
    requires CountAllocations(Start(clients, routes), run) <= TWO32 - 1
    ensures NoOvertaking(Start(clients, routes), run)
  {
    StartInvariant(clients, routes);
    FewAllocations(Start(clients, routes), run);
  }
}
