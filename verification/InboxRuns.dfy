/** What the receiving client guarantees over every sequence of frames. */
module InboxRuns {
  import opened Bytes
  import opened FileProtocol
  import opened FileCrypto
  import opened Sessions
  import opened InboxSpec

  /** A frame, and how the operating system answers while it is handled. */
  datatype Delivery = Delivery(frame: Frame, env: Env)

  function Frames(run: seq<Delivery>): (log: seq<Frame>)
    ensures |log| == |run| && forall i :: 0 <= i < |run| ==> log[i] == run[i].frame
  {
    seq(|run|, i requires 0 <= i < |run| => run[i].frame)
  }

  lemma MeaningIsValid(f: Frame)
    ensures Meaning(f).BeginEvent? ==> ValidBegin(Meaning(f).begin)
  {
  }

  /** mkstemp behaves, and does not lead to the removal of somebody's file. */
  ghost predicate Gentle(b: Inbox, d: Delivery) {
    Honest(b, d.env) && !ClobbersOn(b, Meaning(d.frame), d.env)
  }

  ghost function Deliver(b: Inbox, d: Delivery, box: Box, secret: Secret): (b': Inbox)
    requires Valid(b) && Lawful(box) && Gentle(b, d)
    ensures Valid(b')
  {
    MeaningIsValid(d.frame);
    HandleValid(b, Meaning(d.frame), d.env, box, secret);
    Handle(b, Meaning(d.frame), d.env, box, secret)
  }

  ghost predicate Legal(b: Inbox, run: seq<Delivery>, box: Box, secret: Secret)
    requires Valid(b) && Lawful(box)
    decreases |run|
  {
    run != [] ==> Gentle(b, run[0]) && Legal(Deliver(b, run[0], box, secret), run[1..], box, secret)
  }

  ghost function After(b: Inbox, run: seq<Delivery>, box: Box, secret: Secret): (b': Inbox)
    requires Valid(b) && Lawful(box) && Legal(b, run, box, secret)
    ensures Valid(b')
    decreases |run|
  {
    if run == [] then b else After(Deliver(b, run[0], box, secret), run[1..], box, secret)
  }

  // ----- Downloads -----

  /** The contents came out of an envelope of acceptable size that was sealed for this
      receiver and carries this very filename. */
  ghost predicate Authentic(box: Box, secret: Secret, name: Name, data: seq<Byte>)
    requires Lawful(box)
  {
    exists e :: AcceptableSize(name, |e|) && OpenEnvelope(box, name, e, secret) == Some(data)
  }

  /** Nothing kept ever changes, and whatever is added is authentic. */
  ghost predicate Grows(before: map<Name, seq<Byte>>, after: map<Name, seq<Byte>>, box: Box, secret: Secret)
    requires Lawful(box)
  {
    && (forall n :: n in before ==> n in after && after[n] == before[n])
    && (forall n :: n in after && n !in before ==> Authentic(box, secret, n, after[n]))
  }

  lemma SavingGrows(b: Inbox, id: Word, env: Env, box: Box, secret: Secret)
    requires Staged(b) && Lawful(box) && Saves(b, id, env, box, secret) && Accounted(b, b.active[id].filename)
    ensures Grows(b.kept, ReceiveEnd(b, id, env, box, secret).kept, box, secret)
  {
    assert ValidIncoming(b, id);
    assert Authentic(box, secret, b.active[id].filename, Decrypted(b, id, env, box, secret).value);
  }

  lemma HandleGrows(b: Inbox, e: Event, env: Env, box: Box, secret: Secret)
    requires Valid(b) && Lawful(box)
    ensures Grows(b.kept, Handle(b, e, env, box, secret).kept, box, secret)
    ensures env.stuck == {} ==> Handle(b, e, env, box, secret).leaked <= b.leaked
    ensures Handle(b, e, env, box, secret).capacity == b.capacity
  {
    if e.EndEvent? {
      EndSaves(b, e.id, env, box, secret);
      if Saves(b, e.id, env, box, secret) {
        SavingGrows(b, e.id, env, box, secret);
      }
    } else {
      OthersKeep(b, e, env, box, secret);
    }
  }

  lemma {:induction false} RunGrows(b: Inbox, run: seq<Delivery>, box: Box, secret: Secret)
    requires Valid(b) && Lawful(box) && Legal(b, run, box, secret)
    ensures Grows(b.kept, After(b, run, box, secret).kept, box, secret)
    ensures (forall i :: 0 <= i < |run| ==> run[i].env.stuck == {}) ==> After(b, run, box, secret).leaked <= b.leaked
    ensures After(b, run, box, secret).capacity == b.capacity
    decreases |run|
  {
    if run != [] {
      HandleGrows(b, Meaning(run[0].frame), run[0].env, box, secret);
      RunGrows(Deliver(b, run[0], box, secret), run[1..], box, secret);
    }
  }

  /** For every sequence of frames, as long as none of them clobbers (by IntactIffNoClobber
      the exact condition), and whatever else fails: no file that was there is changed or
      removed, and every new name in the directory is an authentic download, the temporary
      of a transfer under way, or a temporary whose removal failed. */
  lemma DownloadsAreAuthentic(capacity: nat, files: map<Name, seq<Byte>>, run: seq<Delivery>, box: Box, secret: Secret, n: Name)
    requires Lawful(box)
    ensures Valid(Start(capacity, files))
    ensures Legal(Start(capacity, files), run, box, secret) ==>
              var b := After(Start(capacity, files), run, box, secret);
              && (n in files ==> n in b.files && b.files[n] == files[n])
              && (n in b.files && n !in files ==>
                    || Authentic(box, secret, n, b.files[n])
                    || (exists id :: Uses(b, id, n))
                    || (n in b.leaked && exists i :: 0 <= i < |run| && run[i].env.stuck != {}))
  {
    StartValid(capacity, files);
    if Legal(Start(capacity, files), run, box, secret) {
      RunGrows(Start(capacity, files), run, box, secret);
      assert Accounted(After(Start(capacity, files), run, box, secret), n);
    }
  }

  /** Staged bytes, sizes, ids and temporaries stay consistent: what is staged is as long
      as what was received and never longer than declared, at most `capacity` transfers are
      under way, and no two of them share a temporary. */
  lemma StagingIsConsistent(capacity: nat, files: map<Name, seq<Byte>>, run: seq<Delivery>, box: Box, secret: Secret, id: Word)
    requires Lawful(box)
    ensures Valid(Start(capacity, files))
    ensures Legal(Start(capacity, files), run, box, secret) ==>
              var b := After(Start(capacity, files), run, box, secret);
              && |b.active| <= capacity
              && (id in b.active ==>
                    && b.active[id].temp in b.files
                    && |b.files[b.active[id].temp]| == b.active[id].received <= b.active[id].expected
                    && forall j :: j in b.active && j != id ==> b.active[j].temp != b.active[id].temp)
  {
    StartValid(capacity, files);
    if Legal(Start(capacity, files), run, box, secret) {
      var b := After(Start(capacity, files), run, box, secret);
      RunGrows(Start(capacity, files), run, box, secret);
      if id in b.active {
        assert ValidIncoming(b, id) && Uses(b, id, b.active[id].temp);
        assert forall j :: j in b.active ==> Uses(b, j, b.active[j].temp);
      }
    }
  }

  // ----- Transfers under way follow the sessions of the relay -----

  /** The begin record of the session under way and the bytes received in it. */
  datatype Gathering = NoSession | Gathering(begin: Begin, bytes: seq<Byte>)

  function Gather(g: Gathering, e: Event, id: nat): Gathering {
    match e
    case BeginEvent(b) => if b.id == id then Gathering(b, []) else g
    case ChunkEvent(c) => if c.id == id && g.Gathering? then Gathering(g.begin, g.bytes + c.data) else g
    case EndEvent(i) => if i == id then NoSession else g
    case ErrorEvent(i) => if i == id then NoSession else g
    case OtherEvent => g
  }

  function Gathered(log: seq<Frame>, id: nat): Gathering {
    if log == [] then NoSession
    else Gather(Gathered(log[..|log| - 1], id), Meaning(log[|log| - 1]), id)
  }

  /** An active transfer is an open session: same sender, name and size, same bytes. */
  ghost predicate Follows(b: Inbox, id: Word, s: Session, g: Gathering) {
    id in b.active ==>
      var i := b.active[id];
      && s == Open(i.expected, i.received) && g.Gathering?
      && g.begin.size == i.expected && g.begin.filename == i.filename && g.begin.peer == i.sender
      && i.temp in b.files && b.files[i.temp] == g.bytes
  }

  /** A frame about another transfer leaves this one's temporary alone. */
  lemma OthersUndisturbed(b: Inbox, e: Event, env: Env, box: Box, secret: Secret, id: Word)
    requires Valid(b) && Lawful(box) && Honest(b, env) && !ClobbersOn(b, e, env) && id in b.active
    requires e.OtherEvent? || IdOf(e) != id
    ensures Undisturbed(b, Handle(b, e, env, box, secret), id)
  {
    match e
    case OtherEvent => assert ValidIncoming(b, id);
    case BeginEvent(begin) => BeginUndisturbed(b, begin, env, id);
    case ChunkEvent(c) => ChunkUndisturbed(b, c, env, id);
    case EndEvent(i) => EndUndisturbed(b, i, env, box, secret, id);
    case ErrorEvent(i) =>
      assert ValidIncoming(b, id);
      if i in b.active {
        DiscardUndisturbed(b, i, env, id);
      }
  }

  lemma BeginUndisturbed(b: Inbox, begin: Begin, env: Env, id: Word)
    requires Valid(b) && Honest(b, env) && !Clobbers(b, begin, env) && id in b.active && begin.id != id
    ensures Undisturbed(b, ReceiveBegin(b, begin, env), id)
  {
    assert ValidIncoming(b, id) && Uses(b, id, b.active[id].temp);
  }

  lemma ChunkUndisturbed(b: Inbox, c: Chunk, env: Env, id: Word)
    requires Valid(b) && id in b.active && c.id != id
    ensures Undisturbed(b, ReceiveChunk(b, c, env), id)
  {
    assert ValidIncoming(b, id) && Uses(b, id, b.active[id].temp);
    if c.id in b.active {
      assert Uses(b, c.id, b.active[c.id].temp);
      DiscardUndisturbed(b, c.id, env, id);
    }
  }

  lemma EndUndisturbed(b: Inbox, i: Word, env: Env, box: Box, secret: Secret, id: Word)
    requires Valid(b) && Lawful(box) && id in b.active && i != id
    ensures Undisturbed(b, ReceiveEnd(b, i, env, box, secret), id)
  {
    assert ValidIncoming(b, id);
    if i in b.active {
      DiscardUndisturbed(b, i, env, id);
      if b.active[i].filename !in b.files && b.active[i].received == b.active[i].expected
         && Decrypted(b, i, env, box, secret).Some? {
        var data := Decrypted(b, i, env, box, secret).value;
        SavedValid(b, b.active[i].filename, data);
        DiscardUndisturbed(Saved(b, b.active[i].filename, data), i, env.(junk := data), id);
      }
    }
  }

  ghost predicate Undisturbed(b: Inbox, b': Inbox, id: Word)
    requires id in b.active
  {
    && id in b'.active && b'.active[id] == b.active[id]
    && b.active[id].temp in b.files && b.active[id].temp in b'.files
    && b'.files[b.active[id].temp] == b.files[b.active[id].temp]
  }

  lemma DiscardUndisturbed(b: Inbox, i: Word, env: Env, id: Word)
    requires Valid(b) && i in b.active && id in b.active && i != id
    ensures Undisturbed(b, Discard(b, i, env), id)
  {
    assert ValidIncoming(b, id) && Uses(b, id, b.active[id].temp) && Uses(b, i, b.active[i].temp);
  }

  lemma BeginFollows(b: Inbox, begin: Begin, env: Env, s: Session)
    requires Valid(b) && begin.id !in b.active && s == Open(begin.size, 0)
    ensures Follows(ReceiveBegin(b, begin, env), begin.id, s, Gathering(begin, []))
  {
  }

  lemma ChunkFollows(b: Inbox, c: Chunk, env: Env, s: Session, g: Gathering)
    requires Valid(b) && Follows(b, c.id, s, g) && Follow(s, ChunkEvent(c), c.id) != Broken
    ensures Follows(ReceiveChunk(b, c, env), c.id, Follow(s, ChunkEvent(c), c.id), Gather(g, ChunkEvent(c), c.id))
  {
    if c.id in b.active {
      assert ValidIncoming(b, c.id);
    }
  }

  lemma TerminalFollows(b: Inbox, id: Word, env: Env, box: Box, secret: Secret)
    requires Valid(b) && Lawful(box)
    ensures id !in ReceiveEnd(b, id, env, box, secret).active && id !in ReceiveError(b, id, env).active
  {
  }

  lemma HandleFollows(b: Inbox, e: Event, env: Env, box: Box, secret: Secret, id: Word, s: Session, g: Gathering)
    requires Valid(b) && Lawful(box) && Honest(b, env) && !ClobbersOn(b, e, env) && Follows(b, id, s, g)
    requires Follow(s, e, id) != Broken
    ensures Follows(Handle(b, e, env, box, secret), id, Follow(s, e, id), Gather(g, e, id))
  {
    if e.OtherEvent? || IdOf(e) != id {
      OtherFollows(b, e, env, box, secret, id, s, g);
    } else {
      match e
      case BeginEvent(begin) => BeginFollows(b, begin, env, Follow(s, e, id));
      case ChunkEvent(c) => ChunkFollows(b, c, env, s, g);
      case _ => TerminalFollows(b, id, env, box, secret);
    }
  }

  lemma OtherFollows(b: Inbox, e: Event, env: Env, box: Box, secret: Secret, id: Word, s: Session, g: Gathering)
    requires Valid(b) && Lawful(box) && Honest(b, env) && !ClobbersOn(b, e, env) && Follows(b, id, s, g)
    requires e.OtherEvent? || IdOf(e) != id
    ensures Follows(Handle(b, e, env, box, secret), id, Follow(s, e, id), Gather(g, e, id))
  {
    if id in b.active {
      OthersUndisturbed(b, e, env, box, secret, id);
    } else {
      StaysInactive(b, e, env, box, secret, id);
    }
  }

  /** A frame about another transfer does not start this one. */
  lemma StaysInactive(b: Inbox, e: Event, env: Env, box: Box, secret: Secret, id: Word)
    requires Valid(b) && Lawful(box) && id !in b.active && (e.OtherEvent? || IdOf(e) != id)
    ensures id !in Handle(b, e, env, box, secret).active
  {
  }

  lemma GatheredAppend(log: seq<Frame>, f: Frame, id: nat)
    ensures Gathered(log + [f], id) == Gather(Gathered(log, id), Meaning(f), id)
  {
    assert (log + [f])[..|log|] == log;
  }

  lemma FramesCons(log: seq<Frame>, run: seq<Delivery>)
    requires run != []
    ensures log + Frames(run) == (log + [run[0].frame]) + Frames(run[1..])
  {
  }

  /** One frame further along a log that keeps to the grammar. */
  lemma StepFollows(b: Inbox, d: Delivery, box: Box, secret: Secret, id: Word, log: seq<Frame>)
    requires Valid(b) && Lawful(box) && Gentle(b, d) && Follows(b, id, SessionOf(log, id), Gathered(log, id))
    requires SessionOf(log + [d.frame], id) != Broken
    ensures Follows(Deliver(b, d, box, secret), id, SessionOf(log + [d.frame], id), Gathered(log + [d.frame], id))
  {
    SessionAppend(log, d.frame, id);
    GatheredAppend(log, d.frame, id);
    HandleFollows(b, Meaning(d.frame), d.env, box, secret, id, SessionOf(log, id), Gathered(log, id));
  }

  /** As long as the frames of an id keep to the grammar, which the relay guarantees, an
      active transfer of that id is the session under way, with the same bytes. */
  lemma {:induction false} RunFollows(b: Inbox, run: seq<Delivery>, box: Box, secret: Secret, id: Word, log: seq<Frame>)
    requires Valid(b) && Lawful(box) && Legal(b, run, box, secret)
    requires Follows(b, id, SessionOf(log, id), Gathered(log, id)) && SessionOf(log + Frames(run), id) != Broken
    ensures Follows(After(b, run, box, secret), id, SessionOf(log + Frames(run), id), Gathered(log + Frames(run), id))
    decreases |run|
  {
    if run == [] {
      assert log + Frames(run) == log;
    } else {
      FramesCons(log, run);
      PrefixKeepsGrammar(log + [run[0].frame], Frames(run[1..]), id);
      StepFollows(b, run[0], box, secret, id, log);
      RunFollows(Deliver(b, run[0], box, secret), run[1..], box, secret, id, log + [run[0].frame]);
    }
  }
}
