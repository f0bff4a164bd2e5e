/** Whole runs of the interleaved server: what holds in every reachable state. */
module RelayRuns {
  import opened Bytes
  import opened FileProtocol
  import opened RouteSpec
  import opened Sessions
  import opened RelaySpec
  import opened Relay
  import opened RelayEnds
  import opened RelayProof
  import opened RelayRoutes
  import opened RelayTheorems
  import Reg = RegistrySpec

  ghost predicate Legal(sys: System, run: seq<Step>)
    decreases |run|
  {
    run != [] ==> Enabled(sys, run[0]) && Legal(Apply(sys, run[0]), run[1..])
  }

  ghost function After(sys: System, run: seq<Step>): System
    requires Legal(sys, run)
    decreases |run|
  {
    if run == [] then sys else After(Apply(sys, run[0]), run[1..])
  }

  /** No step of the run queues a BEGIN ahead of the terminal frame of an older session
      with the same target and outbound id. */
  ghost predicate NoOvertaking(sys: System, run: seq<Step>)
    requires Legal(sys, run)
    decreases |run|
  {
    run != [] ==> !Overtakes(sys, run[0]) && NoOvertaking(Apply(sys, run[0]), run[1..])
  }

  lemma StartInvariant(clients: nat, routes: Capacity)
    ensures Inv(Start(clients, routes))
  {
  }

  lemma {:induction false} RunKeepsInvariant(sys: System, run: seq<Step>)
    requires Inv(sys) && Legal(sys, run) && NoOvertaking(sys, run)
    ensures Inv(After(sys, run))
    decreases |run|
  {
    if run != [] {
      StepKeepsInvariant(sys, run[0]);
      RunKeepsInvariant(Apply(sys, run[0]), run[1..]);
    }
  }

  /** Every thread is between frames, or has not logged in yet, or is over. */
  ghost predicate Quiet(sys: System) {
    forall id :: id in sys.phases ==> sys.phases[id] in {Joining, Serving(Idle), Gone}
  }

  // ----- The grammar holds exactly while nothing overtakes -----

  /** No log breaks the grammar. */
  ghost predicate Unbroken(sys: System) {
    forall t, o :: SessionAt(sys.sh.registry, t, o) != Broken
  }

  /** No log breaks the grammar after any prefix of the run. */
  ghost predicate AlwaysUnbroken(sys: System, run: seq<Step>)
    requires Legal(sys, run)
    decreases |run|
  {
    Unbroken(sys) && (run != [] ==> AlwaysUnbroken(Apply(sys, run[0]), run[1..]))
  }

  lemma InvUnbroken(sys: System)
    requires NoStrays(sys)
    ensures Unbroken(sys)
  {
    forall t: nat, o: nat ensures SessionAt(sys.sh.registry, t, o) != Broken {
      assert NoStray(sys, t, o);
    }
  }

  lemma {:induction false} OvertakingFromInv(sys: System, run: seq<Step>)
    requires Inv(sys) && Legal(sys, run)
    ensures NoOvertaking(sys, run) <==> AlwaysUnbroken(sys, run)
    decreases |run|
  {
    InvUnbroken(sys);
    if run != [] {
      var next := Apply(sys, run[0]);
      if Overtakes(sys, run[0]) {
        OvertakingBreaks(sys, run[0]);
        assert !Unbroken(next);
      } else {
        StepKeepsInvariant(sys, run[0]);
        OvertakingFromInv(next, run[1..]);
      }
    }
  }

  /** For every interleaving of handlers, disconnects and overflows: the logs keep to the
      grammar after every prefix of the run if and only if no BEGIN overtakes the terminal
      frame of an older session with the same target and outbound id. */
  lemma GrammarIffNothingOvertakes(clients: nat, routes: Capacity, run: seq<Step>)
    requires Legal(Start(clients, routes), run)
    ensures AlwaysUnbroken(Start(clients, routes), run) <==> NoOvertaking(Start(clients, routes), run)
  {
    StartInvariant(clients, routes);
    OvertakingFromInv(Start(clients, routes), run);
  }

  /** Under every such interleaving: the grammar, one terminal frame per session, and once
      handlers and sweeps are done a session is open at a client that accepts frames exactly
      when a live route feeds it. */
  lemma RunsKeepGrammar(clients: nat, routes: Capacity, run: seq<Step>, target: nat, outbound: Word)
    requires Legal(Start(clients, routes), run) && NoOvertaking(Start(clients, routes), run)
    ensures var sys := After(Start(clients, routes), run);
            var log := Reg.Log(sys.sh.registry, target);
            && SessionOf(log, outbound) != Broken
            && CountBegins(log, outbound) ==
               CountTerminals(log, outbound) + (if SessionOf(log, outbound).Open? then 1 else 0)
            && (Quiet(sys) && Reg.Accepting(sys.sh.registry, target) ==> FedByRoutes(sys, target, outbound))
  {
    var sys := After(Start(clients, routes), run);
    StartInvariant(clients, routes);
    RunKeepsInvariant(Start(clients, routes), run);
    assert NoStray(sys, target, outbound);
    OneTerminalPerSession(Reg.Log(sys.sh.registry, target), outbound);
    if Quiet(sys) && Reg.Accepting(sys.sh.registry, target) {
      forall d: nat, r: nat ensures SessionAt(sys.sh.registry, target, outbound) == Open(d, r) <==> Feeding(sys, target, outbound, d, r) {
        QuietSessionsAreRoutes(sys, target, outbound, d, r);
      }
    }
  }

  /** A live route for this target and id has forwarded `received` of `declared` bytes. */
  ghost predicate Feeding(sys: System, target: nat, outbound: Word, declared: nat, received: nat) {
    exists k :: Live(sys.sh.routes.table, k) && sys.sh.routes.table[k] == Forwarding(target, outbound, declared, received)
  }

  /** Open sessions are exactly the live routes, with the same sizes. */
  ghost predicate FedByRoutes(sys: System, target: nat, outbound: Word) {
    forall d: nat, r: nat :: SessionAt(sys.sh.registry, target, outbound) == Open(d, r) <==> Feeding(sys, target, outbound, d, r)
  }

  /** Once in-flight handlers and sweeps are done, a session is open at a client that still
      accepts frames exactly when a live route feeds it, with the same declared size and the
      same byte count: every transfer that left the forwarding state has had its one
      terminal frame. */
  lemma QuietSessionsAreRoutes(sys: System, target: nat, outbound: Word, declared: nat, received: nat)
    requires RoutesAgree(sys) && NoStrays(sys) && Ownership(sys) && Quiet(sys) && Reg.Accepting(sys.sh.registry, target)
    ensures SessionAt(sys.sh.registry, target, outbound) == Open(declared, received) <==>
            Feeding(sys, target, outbound, declared, received)
  {
    var table := sys.sh.routes.table;
    assert NoStray(sys, target, outbound);
    assert !HeldByEnd(sys.phases, target, outbound);
    if SessionAt(sys.sh.registry, target, outbound) == Open(declared, received) {
      var k :| Live(table, k) && table[k].target == target && table[k].outbound == outbound;
      assert RouteAgrees(sys, k) && Owned(sys, k);
      assert table[k] == Forwarding(target, outbound, declared, received);
    }
    if k :| Live(table, k) && table[k] == Forwarding(target, outbound, declared, received) {
      assert RouteAgrees(sys, k) && Owned(sys, k);
    }
  }
}
