/** One transfer at the receiving client, interleaved with any other frames: when the
    operating system does not fail it, the file comes out. */
module InboxTransfer {
  import opened Bytes
  import opened FileProtocol
  import opened FileCrypto
  import opened Sessions
  import opened InboxSpec
  import opened InboxRuns
  import opened Sender
  import opened RelayTransfer

  /** Nothing outside the transfer stands in the way of a frame about o: a free slot and a
      free name when it begins, a free name when it ends, and no failing system call. */
  ghost predicate Smooth(b: Inbox, e: Event, env: Env, name: Name) {
    match e
    case BeginEvent(_) =>
      env.directoryOk && env.statOk && env.temp.Some? && env.openOk && |b.active| < b.capacity && name !in b.files
    case ChunkEvent(_) => env.writeOk
    case EndEvent(_) => env.decryptOk && env.closeOk && env.linkOk && name !in b.files
    case _ => true
  }

  ghost predicate SmoothRun(b: Inbox, run: seq<Delivery>, box: Box, secret: Secret, o: Word, name: Name)
    requires Valid(b) && Lawful(box) && Legal(b, run, box, secret)
    decreases |run|
  {
    run != [] ==>
      && (About(run[0].frame, o) ==> Smooth(b, Meaning(run[0].frame), run[0].env, name))
      && SmoothRun(Deliver(b, run[0], box, secret), run[1..], box, secret, o, name)
  }

  lemma ProjectCons(run: seq<Delivery>, o: Word)
    requires run != []
    ensures Project(Frames(run), o) ==
            (if About(run[0].frame, o) then [run[0].frame] else []) + Project(Frames(run[1..]), o)
  {
    var f := run[0].frame;
    assert Frames(run) == [f] + Frames(run[1..]);
    ProjectConcat([f], Frames(run[1..]), o);
    ProjectAppend([], f, o);
    assert [] + [f] == [f];
  }

  /** The transfer o is active and `staged` is what it has stored. */
  ghost predicate Staging(b: Inbox, o: Word, name: Name, size: nat, staged: seq<Byte>) {
    && o in b.active && b.active[o].filename == name && b.active[o].expected == size
    && b.active[o].temp in b.files && b.files[b.active[o].temp] == staged
  }

  lemma StagingBegins(b: Inbox, begin: Begin, env: Env)
    requires Valid(b) && begin.id !in b.active && AcceptableSize(begin.filename, begin.size)
    requires Smooth(b, BeginEvent(begin), env, begin.filename)
    ensures Staging(ReceiveBegin(b, begin, env), begin.id, begin.filename, begin.size, [])
  {
  }

  lemma StagingGoesOn(b: Inbox, chunk: Chunk, env: Env, name: Name, size: nat, staged: seq<Byte>)
    requires Valid(b) && Staging(b, chunk.id, name, size, staged) && |staged| + |chunk.data| <= size && env.writeOk
    ensures Staging(ReceiveChunk(b, chunk, env), chunk.id, name, size, staged + chunk.data)
  {
    assert ValidIncoming(b, chunk.id);
  }

  lemma StagingUndisturbed(b: Inbox, e: Event, env: Env, box: Box, secret: Secret, o: Word, name: Name, size: nat, staged: seq<Byte>)
    requires Valid(b) && Lawful(box) && Honest(b, env) && !ClobbersOn(b, e, env) && Staging(b, o, name, size, staged)
    requires e.OtherEvent? || IdOf(e) != o
    ensures Staging(Handle(b, e, env, box, secret), o, name, size, staged)
  {
    OthersUndisturbed(b, e, env, box, secret, o);
  }

  lemma StagingEnds(b: Inbox, o: Word, env: Env, box: Box, secret: Secret, name: Name, envelope: seq<Byte>, data: seq<Byte>)
    requires Valid(b) && Lawful(box) && Staging(b, o, name, |envelope|, envelope)
    requires AcceptableSize(name, |envelope|) && OpenEnvelope(box, name, envelope, secret) == Some(data)
    requires Smooth(b, EndEvent(o), env, name)
    ensures var b' := ReceiveEnd(b, o, env, box, secret); name in b'.kept && b'.kept[name] == data
  {
    assert ValidIncoming(b, o);
  }

  ghost predicate Pieces(chunks: seq<seq<Byte>>) {
    forall i :: 0 <= i < |chunks| ==> 0 < |chunks[i]| <= FILE_CHUNK_SIZE
  }

  /** Once its END has been handled, a saved file stays. */
  lemma KeptStays(b: Inbox, run: seq<Delivery>, box: Box, secret: Secret, name: Name)
    requires Valid(b) && Lawful(box) && Legal(b, run, box, secret) && name in b.kept
    ensures var b' := After(b, run, box, secret);
            name in b'.files && b'.files[name] == b.kept[name]
  {
    RunGrows(b, run, box, secret);
    assert Accounted(After(b, run, box, secret), name);
  }

  lemma {:induction false} RestIsReceived(b: Inbox, run: seq<Delivery>, box: Box, secret: Secret, o: Word,
                                          name: Name, envelope: seq<Byte>, data: seq<Byte>, staged: seq<Byte>, chunks: seq<seq<Byte>>)
    requires Valid(b) && Lawful(box) && Legal(b, run, box, secret) && SmoothRun(b, run, box, secret, o, name)
    requires Staging(b, o, name, |envelope|, staged) && staged + Joined(chunks) == envelope && Pieces(chunks)
    requires AcceptableSize(name, |envelope|) && OpenEnvelope(box, name, envelope, secret) == Some(data)
    requires Project(Frames(run), o) == Rest(o, chunks)
    ensures var b' := After(b, run, box, secret); name in b'.files && b'.files[name] == data
    decreases |run|
  {
    assert run != [] by {
      assert run == [] ==> Frames(run) == [];
    }
    var d, next := run[0], Deliver(b, run[0], box, secret);
    var more := Project(Frames(run[1..]), o);
    ProjectCons(run, o);
    if !About(d.frame, o) {
      assert more == Rest(o, chunks);
      StagingUndisturbed(b, Meaning(d.frame), d.env, box, secret, o, name, |envelope|, staged);
      RestIsReceived(next, run[1..], box, secret, o, name, envelope, data, staged, chunks);
    } else if chunks == [] {
      EndReceived(b, d, box, secret, o, name, envelope, data, staged, more);
      KeptStays(next, run[1..], box, secret, name);
    } else {
      PieceReceived(b, d, box, secret, o, name, envelope, staged, chunks, more);
      RestIsReceived(next, run[1..], box, secret, o, name, envelope, data, staged + chunks[0], chunks[1..]);
    }
  }

  lemma PieceReceived(b: Inbox, d: Delivery, box: Box, secret: Secret, o: Word, name: Name,
                      envelope: seq<Byte>, staged: seq<Byte>, chunks: seq<seq<Byte>>, more: seq<Frame>)
    requires Valid(b) && Lawful(box) && Gentle(b, d) && Smooth(b, Meaning(d.frame), d.env, name)
    requires Staging(b, o, name, |envelope|, staged) && staged + Joined(chunks) == envelope
    requires chunks != [] && Pieces(chunks) && [d.frame] + more == Rest(o, chunks)
    ensures Staging(Deliver(b, d, box, secret), o, name, |envelope|, staged + chunks[0])
    ensures (staged + chunks[0]) + Joined(chunks[1..]) == envelope && more == Rest(o, chunks[1..])
  {
    var c := Chunk(o, chunks[0]);
    NextPiece(d.frame, more, o, chunks);
    ChunkMeaning(c);
    PieceFits(staged, chunks, envelope);
    StagingGoesOn(b, c, d.env, name, |envelope|, staged);
  }

  lemma EndReceived(b: Inbox, d: Delivery, box: Box, secret: Secret, o: Word, name: Name,
                    envelope: seq<Byte>, data: seq<Byte>, staged: seq<Byte>, more: seq<Frame>)
    requires Valid(b) && Lawful(box) && Gentle(b, d) && Smooth(b, Meaning(d.frame), d.env, name)
    requires Staging(b, o, name, |envelope|, staged) && staged + Joined([]) == envelope && [d.frame] + more == Rest(o, [])
    requires AcceptableSize(name, |envelope|) && OpenEnvelope(box, name, envelope, secret) == Some(data)
    ensures var b' := Deliver(b, d, box, secret); name in b'.kept && b'.kept[name] == data
  {
    assert d.frame == ([d.frame] + more)[0] == EndFrame(o);
    ControlMeaning(o);
    assert staged == envelope;
    StagingEnds(b, o, d.env, box, secret, name, envelope, data);
  }

  lemma NextPiece(f: Frame, more: seq<Frame>, o: Word, chunks: seq<seq<Byte>>)
    requires chunks != [] && Pieces(chunks) && [f] + more == Rest(o, chunks)
    ensures f == ChunkFrame(Chunk(o, chunks[0])) && more == Rest(o, chunks[1..])
  {
    var c := ChunkFrame(Chunk(o, chunks[0]));
    assert Rest(o, chunks) == [c] + Rest(o, chunks[1..]);
    assert f == ([f] + more)[0] && more == ([f] + more)[1..];
    assert ([c] + Rest(o, chunks[1..]))[1..] == Rest(o, chunks[1..]);
  }

  lemma PieceFits(staged: seq<Byte>, chunks: seq<seq<Byte>>, envelope: seq<Byte>)
    requires chunks != [] && staged + Joined(chunks) == envelope
    ensures (staged + chunks[0]) + Joined(chunks[1..]) == envelope && |staged| + |chunks[0]| <= |envelope|
  {
  }

  /** The frames of a whole transfer, in the order in which they were queued and mixed with
      any others, leave the file in the directory. */
  lemma TransferIsReceived(b: Inbox, run: seq<Delivery>, box: Box, secret: Secret, o: Word,
                           peer: seq<Byte>, name: Name, envelope: seq<Byte>, data: seq<Byte>)
    requires Valid(b) && Lawful(box) && Legal(b, run, box, secret) && SmoothRun(b, run, box, secret, o, name)
    requires o !in b.active && ValidPeer(peer) && ValidFilename(name) && |envelope| < TWO64
    requires AcceptableSize(name, |envelope|) && OpenEnvelope(box, name, envelope, secret) == Some(data)
    requires Project(Frames(run), o) == TransferFrames(o, peer, name, envelope)
    ensures var b' := After(b, run, box, secret); name in b'.files && b'.files[name] == data
    decreases |run|
  {
    assert run != [];
    var d, next := run[0], Deliver(b, run[0], box, secret);
    ProjectCons(run, o);
    if !About(d.frame, o) {
      assert o !in next.active by {
        StaysInactive(b, Meaning(d.frame), d.env, box, secret, o);
      }
      TransferIsReceived(next, run[1..], box, secret, o, peer, name, envelope, data);
    } else {
      var begin := Begin(o, |envelope|, peer, name);
      assert d.frame == ([d.frame] + Project(Frames(run[1..]), o))[0] == BeginFrame(begin);
      assert Project(Frames(run[1..]), o) == TransferFrames(o, peer, name, envelope)[1..] == Rest(o, Cut(envelope));
      BeginMeaning(begin);
      StagingBegins(b, begin, d.env);
      CutIsExact(envelope);
      assert [] + Joined(Cut(envelope)) == envelope;
      RestIsReceived(next, run[1..], box, secret, o, name, envelope, data, [], Cut(envelope));
    }
  }
}
