/** What a frame leaves alone: every key it does not name, and, while its own key is
    discarded, every receiver. */
module RelayKeys {
  import opened Bytes
  import opened FileProtocol
  import opened RouteSpec
  import opened Sessions
  import opened RelaySpec
  import opened Relay
  import opened RelayRuns
  import opened RelayTransfer
  import opened RelayCarries
  import Serial = SerialRelay
  import Files = ServerFiles
  import Reg = RegistrySpec

  // ----- Other keys -----

  /** The thread works on other keys only. */
  ghost predicate OtherWork(pc: Pc, sender: nat, k: Key) {
    match pc
    case Idle => true
    case LookedUp(begin, _) => Key(sender, begin.id) != k
    case Emitting(todo) => forall i :: 0 <= i < |todo| ==> OtherKey(todo[i].onFail, k)
    case Quarantining(l) => l != k
    case Marking(l, _) => l != k
    case Rejecting(l) => l != k
  }

  lemma AdvanceLeaves(sh: Shared, sender: nat, user: seq<Byte>, pc: Pc, k: Key)
    requires !pc.Idle? && OtherWork(pc, sender, k)
    ensures var (sh', pc') := Advance(sh, sender, user, pc);
            SameEntry(sh.routes.table, sh'.routes.table, k) && OtherWork(pc', sender, k)
  {
  }

  lemma {:induction false} RunLeaves(sh: Shared, sender: nat, user: seq<Byte>, pc: Pc, k: Key)
    requires OtherWork(pc, sender, k)
    ensures SameEntry(sh.routes.table, Run(sh, sender, user, pc).routes.table, k)
    decreases Remaining(pc)
  {
    if !pc.Idle? {
      AdvanceDecreases(sh, sender, user, pc);
      AdvanceLeaves(sh, sender, user, pc, k);
      var (sh', pc') := Advance(sh, sender, user, pc);
      RunLeaves(sh', sender, user, pc', k);
    }
  }

  lemma SpoilLeaves(sh: Shared, sender: nat, raw: seq<Byte>, keep: bool, k: Key)
    requires !NamesKey(sender, raw, k)
    ensures var (sh', pc) := Spoil(sh, sender, raw, keep);
            SameEntry(sh.routes.table, sh'.routes.table, k) && OtherWork(pc, sender, k)
  {
  }

  lemma BeginLeaves(sh: Shared, sender: nat, user: seq<Byte>, raw: seq<Byte>, k: Key)
    requires !NamesKey(sender, raw, k)
    ensures var (sh', pc) := DispatchBegin(sh, sender, user, raw);
            SameEntry(sh.routes.table, sh'.routes.table, k) && OtherWork(pc, sender, k)
  {
    SpoilLeaves(sh, sender, raw, true, k);
  }

  lemma ChunkLeaves(sh: Shared, sender: nat, raw: seq<Byte>, k: Key)
    requires !NamesKey(sender, raw, k)
    ensures var (sh', pc) := DispatchChunk(sh, sender, raw);
            SameEntry(sh.routes.table, sh'.routes.table, k) && OtherWork(pc, sender, k)
  {
    SpoilLeaves(sh, sender, raw, true, k);
  }

  lemma EndLeaves(sh: Shared, sender: nat, raw: seq<Byte>, k: Key)
    requires !NamesKey(sender, raw, k)
    ensures var (sh', pc) := DispatchEnd(sh, sender, raw);
            SameEntry(sh.routes.table, sh'.routes.table, k) && OtherWork(pc, sender, k)
  {
    SpoilLeaves(sh, sender, raw, false, k);
  }

  lemma ErrorLeaves(sh: Shared, sender: nat, raw: seq<Byte>, k: Key)
    requires !NamesKey(sender, raw, k)
    ensures var (sh', pc) := DispatchError(sh, sender, raw);
            SameEntry(sh.routes.table, sh'.routes.table, k) && OtherWork(pc, sender, k)
  {
    SpoilLeaves(sh, sender, raw, false, k);
  }

  lemma DispatchLeaves(sh: Shared, sender: nat, user: seq<Byte>, raw: seq<Byte>, k: Key)
    requires !NamesKey(sender, raw, k)
    ensures var (sh', pc) := Dispatch(sh, sender, user, raw);
            SameEntry(sh.routes.table, sh'.routes.table, k) && OtherWork(pc, sender, k)
  {
    if raw == [] {
    } else if raw[0] == FILE_BEGIN {
      BeginLeaves(sh, sender, user, raw, k);
    } else if raw[0] == FILE_CHUNK {
      ChunkLeaves(sh, sender, raw, k);
    } else if raw[0] == FILE_END {
      EndLeaves(sh, sender, raw, k);
    } else if raw[0] == FILE_ERROR {
      ErrorLeaves(sh, sender, raw, k);
    }
  }

  /** A frame changes no key but the one it names. */
  lemma OtherKeysUntouched(sh: Shared, sender: nat, user: seq<Byte>, raw: seq<Byte>, k: Key)
    requires !NamesKey(sender, raw, k)
    ensures SameEntry(sh.routes.table, HandleFrame(sh, sender, user, raw).routes.table, k)
  {
    DispatchLeaves(sh, sender, user, raw, k);
    var (sh', pc) := Dispatch(sh, sender, user, raw);
    RunLeaves(sh', sender, user, pc, k);
  }

  // ----- Discarded keys -----

  ghost predicate Discarded(sh: Shared, k: Key) {
    k in sh.routes.table && sh.routes.table[k] == Discard
  }

  /** No client was queued a file frame. */
  ghost predicate NoFileFrames(r: Reg.Registry, r': Reg.Registry) {
    forall t, o: Word :: Grew(Reg.Log(r, t), Reg.Log(r', t), o, [])
  }

  lemma ToldOnly(r: Reg.Registry, to: nat, tag: Byte)
    ensures NoFileFrames(r, Files.Told(r, to, tag)) && NoFileFrames(r, r)
  {
    forall t, o: Word ensures Grew(Reg.Log(r, t), Reg.Log(Files.Told(r, to, tag), t), o, []) {
      NoticeIsOther(tag, o);
      QueueGrows(r, to, Notice(tag), t, o);
    }
  }

  /** Any frame of a discarded key other than END and ERROR ends in at most one notice. */
  lemma DiscardedIsSilent(sh: Shared, sender: nat, user: seq<Byte>, raw: seq<Byte>, k: Key)
    requires Discarded(sh, k) && NamesKey(sender, raw, k) && raw[0] != FILE_END && raw[0] != FILE_ERROR
    ensures Discarded(HandleFrame(sh, sender, user, raw), k)
    ensures NoFileFrames(sh.registry, HandleFrame(sh, sender, user, raw).registry)
  {
    var (sh', pc) := Dispatch(sh, sender, user, raw);
    assert sh'.registry == sh.registry && Discarded(sh', k);
    ToldOnly(sh.registry, sender, 0);
    if pc.LookedUp? {
      var (sh'', pc'') := AddRoute(sh', sender, user, pc.begin, pc.target);
      assert pc'' == Emitting(ErrorTo(NO_ENDPOINT) + [Note(sender, DUPLICATE)]);
      NoticeRuns(sh'', sender, user, pc'', DUPLICATE);
    } else if pc.Emitting? {
      assert |pc.todo| == 1 && pc.todo[0].frame.kind == TEXT && |pc.todo[0].frame.payload| == 1;
      NoticeRuns(sh', sender, user, pc, pc.todo[0].frame.payload[0]);
    }
  }

  lemma NoticeRuns(sh: Shared, sender: nat, user: seq<Byte>, pc: Pc, tag: Byte)
    requires pc.Emitting? && |pc.todo| == 1 && pc.todo[0] == Note(sender, tag)
    ensures Run(sh, sender, user, pc).routes == sh.routes
    ensures NoFileFrames(sh.registry, Run(sh, sender, user, pc).registry)
  {
    assert pc.todo == [Note(sender, tag)];
    Files.RunNote(sh, sender, user, tag);
    ToldOnly(sh.registry, sender, tag);
  }

  /** What can end a discarded state: END, ERROR, and the sender's disconnection. */
  ghost predicate Releases(ev: Serial.Event, k: Key) {
    match ev
    case FileFrame(id, raw) => NamesKey(id, raw, k) && raw[0] in {FILE_END, FILE_ERROR}
    case Disconnect(id, _) => id == k.sender
    case _ => false
  }

  lemma EventKeepsDiscarded(sys: System, ev: Serial.Event, k: Key)
    requires Serial.Possible(sys, ev) && Discarded(sys.sh, k) && !Releases(ev, k)
    ensures Discarded(Serial.Happen(sys, ev).sh, k)
    ensures ev.FileFrame? && NamesKey(ev.id, ev.raw, k) ==>
            NoFileFrames(sys.sh.registry, Serial.Happen(sys, ev).sh.registry)
  {
    if ev.FileFrame? {
      if NamesKey(ev.id, ev.raw, k) {
        DiscardedIsSilent(sys.sh, ev.id, NameOf(sys, ev.id), ev.raw, k);
      } else {
        OtherKeysUntouched(sys.sh, ev.id, NameOf(sys, ev.id), ev.raw, k);
      }
    }
  }

  ghost predicate NeverReleased(events: seq<Serial.Event>, k: Key) {
    forall i :: 0 <= i < |events| ==> !Releases(events[i], k)
  }

  /** No frame of key k leads to a file frame for anybody, at any moment of the run. */
  ghost predicate Silent(sys: System, events: seq<Serial.Event>, k: Key)
    requires Serial.AllPossible(sys, events)
    decreases |events|
  {
    events != [] ==>
      var next := Serial.Happen(sys, events[0]);
      && (events[0].FileFrame? && NamesKey(events[0].id, events[0].raw, k) ==> NoFileFrames(sys.sh.registry, next.sh.registry))
      && Silent(next, events[1..], k)
  }

  /** Over every run a discarded key stays discarded, and its frames reach nobody, until its
      sender ends it, reports an error or disconnects. */
  lemma {:induction false} DiscardedStays(sys: System, events: seq<Serial.Event>, k: Key)
    requires Serial.AllPossible(sys, events) && Discarded(sys.sh, k) && NeverReleased(events, k)
    ensures Discarded(Serial.Outcome(sys, events).sh, k) && Silent(sys, events, k)
    decreases |events|
  {
    if events != [] {
      EventKeepsDiscarded(sys, events[0], k);
      DiscardedStays(Serial.Happen(sys, events[0]), events[1..], k);
    }
  }
}
