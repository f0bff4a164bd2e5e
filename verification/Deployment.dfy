/** The main results at the sizes the program is built with. */
module Deployment {
  import opened Bytes
  import opened FileProtocol
  import opened FileCrypto
  import opened RouteSpec
  import opened Sessions
  import opened Relay
  import opened RelayTheorems
  import opened RelayRuns
  import opened RelayShortRuns
  import Serial = SerialRelay
  import Owners = RelayOwners
  import Overtaking = RelayOvertaking
  import Files = ServerFiles
  import Inbox = InboxSpec
  import Client = InboxRuns
  import Receiving = Receiver
  import Reg = RegistrySpec

  const FILE_ROUTE_CAPACITY: Capacity := 4 * Reg.MAX_CLIENTS

  ghost function Fresh(): System {
    Start(100, 400)
  }

  /** A server with 100 clients and 400 routes starts where all the runs start. */
  method NewServer() returns (server: Files.Server)
    ensures server.Valid() && server.View() == Fresh().sh
  {
    server := new Files.Server(Reg.MAX_CLIENTS, FILE_ROUTE_CAPACITY);
  }

  /** A client with 16 incoming files starts with what is in its download directory. */
  method NewReceiver(files: map<Inbox.Name, seq<Byte>>) returns (receiver: Receiving.Receiver)
    ensures receiver.Valid() && receiver.View() == Inbox.Start(16, files)
    ensures Inbox.Valid(receiver.View())
  {
    receiver := new Receiving.Receiver(Inbox.MAX_INCOMING_FILES, files);
    Inbox.StartValid(Inbox.MAX_INCOMING_FILES, files);
  }

  /** The server as built, with handlers interrupted at every lock: its logs keep to the
      grammar exactly while nothing overtakes, which no run of fewer than 2^32 accepted
      begin frames does and some run of 2^32 does; and it never leaves a stale route. */
  lemma ServerAsBuilt(run: seq<Step>, k: Key)
    requires Legal(Fresh(), run)
    ensures AlwaysUnbroken(Fresh(), run) <==> NoOvertaking(Fresh(), run)
    ensures CountAllocations(Fresh(), run) < TWO32 ==> AlwaysUnbroken(Fresh(), run)
    ensures exists bad :: Legal(Fresh(), bad) && CountAllocations(Fresh(), bad) == TWO32 && !AlwaysUnbroken(Fresh(), bad)
    ensures var sys := RelayRuns.After(Fresh(), run);
            Quiet(sys) && k in sys.sh.routes.table ==>
              && k.sender in sys.sh.registry.clients
              && (Live(sys.sh.routes.table, k) ==> sys.sh.routes.table[k].target in sys.sh.registry.clients)
  {
    GrammarIffNothingOvertakes(Reg.MAX_CLIENTS, FILE_ROUTE_CAPACITY, run);
    if CountAllocations(Fresh(), run) < TWO32 {
      ShortRunsDoNotOvertake(Reg.MAX_CLIENTS, FILE_ROUTE_CAPACITY, run);
    }
    BadRun();
    var sys := RelayRuns.After(Fresh(), run);
    if Quiet(sys) && k in sys.sh.routes.table {
      Owners.NoStaleRoutes(Reg.MAX_CLIENTS, FILE_ROUTE_CAPACITY, run, k);
    }
  }

  lemma BadRun()
    ensures exists bad :: Legal(Fresh(), bad) && CountAllocations(Fresh(), bad) == TWO32 && !AlwaysUnbroken(Fresh(), bad)
  {
    Overtaking.GrammarCanBreak(Reg.MAX_CLIENTS, FILE_ROUTE_CAPACITY);
    var bad :| && Legal(Fresh(), bad) && CountAllocations(Fresh(), bad) == TWO32
               && SessionAt(RelayRuns.After(Fresh(), bad).sh.registry, Overtaking.TARGET, 1) == Broken;
    BrokenAtEnd(Fresh(), bad);
  }

  lemma {:induction false} BrokenAtEnd(sys: System, run: seq<Step>)
    requires Legal(sys, run) && !Unbroken(RelayRuns.After(sys, run))
    ensures !AlwaysUnbroken(sys, run)
    decreases |run|
  {
    if run != [] {
      BrokenAtEnd(Apply(sys, run[0]), run[1..]);
    }
  }

  /** Uninterrupted handlers need no assumption at all. */
  lemma ServerUninterrupted(events: seq<Serial.Event>, target: nat, outbound: Word)
    requires Serial.AllPossible(Fresh(), events)
    ensures var sys := Serial.Outcome(Fresh(), events);
            && SessionAt(sys.sh.registry, target, outbound) != Broken
            && (Reg.Accepting(sys.sh.registry, target) ==> FedByRoutes(sys, target, outbound))
  {
    Serial.SerialRunsKeepGrammar(Reg.MAX_CLIENTS, FILE_ROUTE_CAPACITY, events, target, outbound);
  }

  /** The receiving client as built stages at most 16 files at a time, and after a final
      cleanup in which nothing is stuck holds only what was there or is kept. */
  lemma ReceiverAsBuilt(files: map<Inbox.Name, seq<Byte>>, run: seq<Client.Delivery>, box: Box, secret: Secret, n: Inbox.Name)
    requires Lawful(box) && Inbox.Valid(Inbox.Start(Inbox.MAX_INCOMING_FILES, files))
    requires Client.Legal(Inbox.Start(Inbox.MAX_INCOMING_FILES, files), run, box, secret)
    ensures var b := Client.After(Inbox.Start(Inbox.MAX_INCOMING_FILES, files), run, box, secret);
            && |b.active| <= 16 && Inbox.Valid(Inbox.Cleanup(b, {}))
            && (n in Inbox.Cleanup(b, {}).files <==> n in b.kept || n in b.leaked)
  {
    var b := Client.After(Inbox.Start(Inbox.MAX_INCOMING_FILES, files), run, box, secret);
    Client.StagingIsConsistent(Inbox.MAX_INCOMING_FILES, files, run, box, secret, 0);
    Inbox.CleanupValid(b, {});
    Inbox.CleanupIsComplete(b, n);
  }
}
