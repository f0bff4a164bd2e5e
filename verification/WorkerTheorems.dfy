/** What the worker loop guarantees over every run. */
module WorkerTheorems {
  import opened Bytes
  import opened Framing
  import opened WorkerSpec
  import opened WorkerRuns
  import Reg = RegistrySpec

  /** However the byte stream is cut into pieces, the frames dispatched are those of the
      one-shot decoder; nothing beyond the current frame has been read; the worker refuses
      exactly the streams the decoder refuses; the end of the stream is clean exactly on a
      frame boundary. */
  lemma EveryFragmentation(s: State, me: nat, run: seq<Step>)
    requires Initial(s, me)
    ensures Inv(s, me)
    ensures Legal(s, me, run) ==>
              var t := After(s, me, run);
              var d := DecodeAll(t.consumed);
              && t.frames == d.frames
              && (t.pc == Stopped(BadInput) <==> !d.ok)
              && (t.pc != Stopped(BadInput) ==>
                    t.consumed == WireAll(t.frames) + t.io.incoming && DecodeOne(t.io.incoming).Incomplete?)
              && (t.pc == Stopped(PeerClosed) ==> CleanEnd(t.consumed))
              && (t.pc == Stopped(Truncated) ==> !CleanEnd(t.consumed))
  {
    InitialInvariant(s, me);
    if Legal(s, me, run) {
      RunKeepsInvariant(s, me, run);
      DecodeAllSound(After(s, me, run).consumed);
      RestIsUnfinished(After(s, me, run).consumed);
    }
  }

  /** The encoding of everything queued so far is what was written, then the unsent rest of
      the current frame, then the encoding of the queue. */
  lemma OutputIsConserved(s: State, me: nat, run: seq<Step>)
    requires Initial(s, me)
    ensures Inv(s, me)
    ensures Legal(s, me, run) ==>
              var t := After(s, me, run);
              && me in t.registry.clients && t.io.sent <= |t.io.outgoing| <= BUFFER
              && |t.registry.clients[me].queue| <= Reg.MAX_OUTGOING_FRAMES
              && WireAll(Reg.Log(t.registry, me)) ==
                 t.written + t.io.outgoing[t.io.sent..] + WireAll(t.registry.clients[me].queue)
  {
    InitialInvariant(s, me);
    if Legal(s, me, run) {
      RunKeepsInvariant(s, me, run);
    }
  }

  /** The client on the other end, decoding what has been written, sees the frames queued to
      it in order; all of them once nothing is left to write. */
  lemma PeerSeesTheQueue(s: State, me: nat, run: seq<Step>)
    requires Initial(s, me)
    ensures Inv(s, me)
    ensures Legal(s, me, run) ==>
              var t := After(s, me, run);
              var log, seen := Reg.Log(t.registry, me), DecodeAll(t.written);
              && me in t.registry.clients && seen.ok && |seen.frames| <= |log| && log[..|seen.frames|] == seen.frames
              && (t.io.outgoing == [] && t.registry.clients[me].queue == [] ==> seen == Decoding(log, [], true))
  {
    InitialInvariant(s, me);
    if Legal(s, me, run) {
      RunKeepsInvariant(s, me, run);
      var t := After(s, me, run);
      var rest := t.io.outgoing[t.io.sent..] + WireAll(t.registry.clients[me].queue);
      Regroup(t.written, t.io.outgoing[t.io.sent..], WireAll(t.registry.clients[me].queue));
      PrefixDecodes(Reg.Log(t.registry, me), t.written, rest);
    }
  }

  /** The server dispatches what a client sent, in order: frames written by send_frame come
      out of the incremental reader however the stream was cut. */
  lemma ServerSeesTheSender(s: State, me: nat, run: seq<Step>, frames: seq<Frame>, rest: seq<Byte>)
    requires Initial(s, me) && AllFit(frames)
    ensures Inv(s, me)
    ensures Legal(s, me, run) && WireAll(frames) == After(s, me, run).consumed + rest ==>
              var t := After(s, me, run);
              && t.pc != Stopped(BadInput) && |t.frames| <= |frames| && frames[..|t.frames|] == t.frames
              && (rest == [] ==> t.frames == frames && t.pc != Stopped(Truncated))
  {
    InitialInvariant(s, me);
    if Legal(s, me, run) && WireAll(frames) == After(s, me, run).consumed + rest {
      RunKeepsInvariant(s, me, run);
      PrefixDecodes(frames, After(s, me, run).consumed, rest);
    }
  }

  /** A write that must be retried is retried with the same offset and bytes and nothing in
      between; a read waiting for writability is not interrupted; the two directions never
      block each other; the worker never blocks on an empty event mask. */
  lemma RetriesAreDisciplined(s: State, me: nat, run: seq<Step>)
    requires Initial(s, me)
    ensures Inv(s, me)
    ensures Legal(s, me, run) ==>
              var t := After(s, me, run);
              && Disciplined(t.calls)
              && !(t.io.readWait == ForWrite && t.io.writeWait != NoWait)
              && (t.pc == AtPoll ==> PollMask(t.io) != NoWait)
  {
    InitialInvariant(s, me);
    if Legal(s, me, run) {
      RunKeepsInvariant(s, me, run);
    }
  }

  /** Whenever the worker blocks while its output is marked failed, the wake-up counter is
      positive; while its queue is nonempty, either the counter is positive or a frame is
      in the outgoing buffer. */
  lemma NoWakeUpIsLost(s: State, me: nat, run: seq<Step>)
    requires Initial(s, me)
    ensures Inv(s, me)
    ensures Legal(s, me, run) && After(s, me, run).pc == AtPoll ==>
              var t := After(s, me, run);
              && me in t.registry.clients
              && (t.registry.clients[me].failed ==> t.counter > 0)
              && (t.registry.clients[me].queue != [] ==> t.counter > 0 || t.io.outgoing != [])
  {
    InitialInvariant(s, me);
    if Legal(s, me, run) {
      RunKeepsInvariant(s, me, run);
    }
  }

  // ----- Is the frame in the buffer being watched for? -----

  /** A blocked worker that holds a frame polls for the operation that lets it go on writing. */
  ghost predicate Watched(s: State) {
    s.pc == AtPoll && s.io.outgoing != [] ==>
      PollMask(s.io) == s.io.writeWait != NoWait || PollMask(s.io) == ForWrite
  }

  /** A write was put off for a read that waited for writability, and that read now asks
      for readability instead. */
  ghost predicate Deferring(s: State, step: Step) {
    s.pc == AtRead(false) && s.io.outgoing != [] && step == Read(ReadAgain(ForRead))
  }

  ghost predicate AlwaysWatched(s: State, me: nat, run: seq<Step>)
    requires Inv(s, me) && Legal(s, me, run)
    decreases |run|
  {
    Watched(s) && (run != [] ==>
      (StepKeepsInvariant(s, me, run[0]); AlwaysWatched(Next(s, me, run[0]), me, run[1..])))
  }

  ghost predicate NeverDeferring(s: State, me: nat, run: seq<Step>)
    requires Inv(s, me) && Legal(s, me, run)
    decreases |run|
  {
    run != [] ==>
      !Deferring(s, run[0])
      && (StepKeepsInvariant(s, me, run[0]); NeverDeferring(Next(s, me, run[0]), me, run[1..]))
  }

  lemma WatchedStep(s: State, me: nat, step: Step)
    requires Inv(s, me) && Enabled(s, me, step) && Watched(s)
    ensures Watched(Next(s, me, step)) <==> !Deferring(s, step)
  {
  }

  /** The frame in the buffer is watched for at every poll of a run if and only if the TLS
      layer never gives that answer. */
  lemma {:induction false} WatchedUnlessDeferred(s: State, me: nat, run: seq<Step>)
    requires Inv(s, me) && Legal(s, me, run) && Watched(s)
    ensures AlwaysWatched(s, me, run) <==> NeverDeferring(s, me, run)
    decreases |run|
  {
    if run != [] {
      WatchedStep(s, me, run[0]);
      StepKeepsInvariant(s, me, run[0]);
      var next := Next(s, me, run[0]);
      if Watched(next) {
        WatchedUnlessDeferred(next, me, run[1..]);
      } else {
        assert !AlwaysWatched(next, me, run[1..]);
      }
    }
  }

  // ----- It does give that answer: a run that strands two frames -----

  /** A run is its first step and the run of the rest. */
  lemma RunCons(s: State, me: nat, run: seq<Step>)
    requires Inv(s, me) && run != [] && Enabled(s, me, run[0])
    ensures Inv(Next(s, me, run[0]), me) && (Legal(s, me, run) <==> Legal(Next(s, me, run[0]), me, run[1..]))
    ensures Legal(s, me, run) ==> After(s, me, run) == After(Next(s, me, run[0]), me, run[1..])
  {
    StepKeepsInvariant(s, me, run[0]);
  }

  lemma RunOfOne(s: State, me: nat, step: Step)
    requires Inv(s, me) && Enabled(s, me, step)
    ensures Legal(s, me, [step]) && After(s, me, [step]) == Next(s, me, step)
  {
    RunCons(s, me, [step]);
    assert [step][1..] == [];
  }

  lemma {:induction false} Extend(s: State, me: nat, run: seq<Step>, step: Step)
    requires Inv(s, me) && Legal(s, me, run) && Enabled(After(s, me, run), me, step)
    ensures Legal(s, me, run + [step]) && Inv(After(s, me, run), me)
    ensures After(s, me, run + [step]) == Next(After(s, me, run), me, step)
    decreases |run|
  {
    var longer := run + [step];
    if run == [] {
      assert longer == [step];
      RunOfOne(s, me, step);
    } else {
      assert longer[1..] == run[1..] + [step] && longer[0] == run[0];
      RunCons(s, me, run);
      RunCons(s, me, longer);
      Extend(Next(s, me, run[0]), me, run[1..], step);
    }
  }

  ghost predicate Reaches(s: State, me: nat, t: State) {
    Inv(s, me) && exists run :: Legal(s, me, run) && After(s, me, run) == t
  }

  lemma ReachStep(s: State, me: nat, t: State, step: Step)
    requires Reaches(s, me, t) && Enabled(t, me, step)
    ensures Inv(t, me) && Reaches(s, me, Next(t, me, step))
  {
    var run :| Legal(s, me, run) && After(s, me, run) == t;
    Extend(s, me, run, step);
  }

  /** The worker, with nothing under way, gets as far as the write. */
  lemma ReachLoaded(s: State, me: nat, t: State) returns (u: State)
    requires Reaches(s, me, t) && t.pc == AtWake && t.holder.None? && t.io.outgoing == []
    requires me != 0 && me in t.registry.clients && !t.registry.clients[me].failed
    ensures Reaches(s, me, u) && u.pc == AtWrite && u.holder.None? && u.counter == 0
    ensures u.registry == Reg.Take(t.registry, me).0 && u.io.readWait == t.io.readWait && u.io.writeWait == t.io.writeWait
    ensures u.io == if t.registry.clients[me].queue == [] then t.io else Loaded(t.io, t.registry.clients[me].queue[0])
  {
    var t2 := ReachLoad(s, me, t);
    ReachStep(s, me, t2, Load);
    u := Next(t2, me, Load);
  }

  lemma ReachLoad(s: State, me: nat, t: State) returns (u: State)
    requires Reaches(s, me, t) && t.pc == AtWake && t.holder.None?
    requires me in t.registry.clients && !t.registry.clients[me].failed
    ensures Reaches(s, me, u) && u == t.(counter := 0, pc := AtLoad)
  {
    ReachStep(s, me, t, Wake);
    var t1 := Next(t, me, Wake);
    ReachStep(s, me, t1, CheckStatus);
    u := Next(t1, me, CheckStatus);
  }

  /** One pass of the loop whose read ends with the given wait. */
  lemma ReachBlockedRead(s: State, me: nat, t: State, wait: Wait) returns (u: State)
    requires Reaches(s, me, t) && t.pc == AtWake && t.holder.None? && wait != NoWait
    requires t.io.writeWait == NoWait && me != 0 && me in t.registry.clients && !t.registry.clients[me].failed
    requires t.io.outgoing == [] && (t.io.readWait == ForWrite || t.registry.clients[me].queue == [])
    ensures Reaches(s, me, u) && u.pc == AtPoll && u.holder.None? && u.counter == 0
    ensures u.registry == Reg.Take(t.registry, me).0
    ensures u.io.outgoing == if t.registry.clients[me].queue == [] then [] else Wire(t.registry.clients[me].queue[0])
    ensures u.io.readWait == wait && u.io.writeWait == NoWait && (u.io.outgoing != [] ==> u.io.sent == 0)
  {
    var v := ReachLoaded(s, me, t);
    u := ReachSkipped(s, me, v, wait);
  }

  lemma ReachSkipped(s: State, me: nat, t: State, wait: Wait) returns (u: State)
    requires Reaches(s, me, t) && t.pc == AtWrite && wait != NoWait && t.io.writeWait == NoWait && !Writing(t.io)
    ensures Reaches(s, me, u) && u.pc == AtPoll && u.holder == t.holder && u.counter == t.counter && u.registry == t.registry
    ensures u.io == t.io.(readWait := wait)
  {
    ReachStep(s, me, t, SkipWrite);
    var t1 := Next(t, me, SkipWrite);
    ReachStep(s, me, t1, Read(ReadAgain(wait)));
    u := Next(t1, me, Read(ReadAgain(wait)));
  }

  /** Some thread queues a small frame to the client. */
  lemma ReachQueued(s: State, me: nat, t: State) returns (u: State)
    requires Reaches(s, me, t) && t.holder.None? && Ready(t, me) && |t.registry.clients[me].queue| < Reg.MAX_OUTGOING_FRAMES
    ensures Reaches(s, me, u) && u.holder.None? && u.pc == t.pc && u.io == t.io && Ready(u, me)
    ensures u.registry.clients[me].queue == t.registry.clients[me].queue + [Frame(TEXT, [])]
  {
    var t2 := ReachSignalled(s, me, t, Frame(TEXT, []));
    QueueIs(t2, me);
    u := ReachNext(s, me, t2, Queue);
  }

  lemma QueueIs(t: State, me: nat)
    requires t.holder == Some(Signalled(me, Frame(TEXT, []))) && Ready(t, me) && |t.registry.clients[me].queue| < Reg.MAX_OUTGOING_FRAMES
    requires WriterValid(t.io) && ReaderValid(t.io)
    ensures var u := Next(t, me, Queue);
            && u.holder.None? && u.pc == t.pc && u.io == t.io && Ready(u, me)
            && u.registry.clients[me].queue == t.registry.clients[me].queue + [Frame(TEXT, [])]
  {
  }

  /** The step without the invariant. */
  lemma ReachNext(s: State, me: nat, t: State, step: Step) returns (u: State)
    requires Reaches(s, me, t) && Enabled(t, me, step)
    ensures WriterValid(t.io) && ReaderValid(t.io) && u == Next(t, me, step) && Reaches(s, me, u)
  {
    ReachStep(s, me, t, step);
    u := Next(t, me, step);
  }

  lemma ReachSignalled(s: State, me: nat, t: State, f: Frame) returns (u: State)
    requires Reaches(s, me, t) && t.holder.None? && Ready(t, me)
    ensures Reaches(s, me, u) && u == t.(holder := Some(Signalled(me, f)), counter := u.counter)
    ensures WriterValid(u.io) && ReaderValid(u.io)
  {
    ReachStep(s, me, t, Enter(me, f));
    var t1 := Next(t, me, Enter(me, f));
    ReachStep(s, me, t1, Signal);
    u := Next(t1, me, Signal);
  }

  ghost predicate Ready(s: State, me: nat) {
    me != 0 && Reg.Accepting(s.registry, me) && !s.registry.clients[me].failed
  }

  lemma ReachTwoQueued(s: State, me: nat) returns (u: State)
    requires Initial(s, me) && Reg.Accepting(s.registry, me)
    ensures Reaches(s, me, u) && u.pc == AtWake && u.holder.None? && Ready(u, me) && |u.registry.clients[me].queue| == 2
    ensures u.io.writeWait == NoWait && u.io.outgoing == [] && u.io.readWait == ForWrite
  {
    InitialInvariant(s, me);
    assert Legal(s, me, []) && After(s, me, []) == s;
    var a := ReachBlockedRead(s, me, s, ForWrite);
    var b := ReachQueued(s, me, a);
    var c := ReachQueued(s, me, b);
    ReachStep(s, me, c, PollReturn);
    u := Next(c, me, PollReturn);
  }

  /** From every starting state with a client that accepts frames: the worker blocks with a
      whole frame in its buffer and another in its queue, no wake-up pending, and polls the
      socket for reading only. */
  lemma FramesCanStrand(s: State, me: nat)
    requires Initial(s, me) && Reg.Accepting(s.registry, me)
    ensures exists t :: Reaches(s, me, t) && t.pc == AtPoll && t.counter == 0
                        && me in t.registry.clients && t.registry.clients[me].queue != []
                        && t.io.outgoing != [] && t.io.sent == 0 && PollMask(t.io) == ForRead
  {
    var u := ReachTwoQueued(s, me);
    var t := ReachBlockedRead(s, me, u, ForRead);
    assert |t.registry.clients[me].queue| == 1;
  }
}
