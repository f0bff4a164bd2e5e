/** The worker loop of one client among all the threads that queue frames to it: every
    step takes at most one lock or makes one system call, the TLS layer answers as it
    likes, and the registry lock is held over several steps by a thread that queues. */
module WorkerRuns {
  import opened Bytes
  import opened Framing
  import opened WorkerSpec
  import Reg = RegistrySpec

  /** A thread inside queue_frame_to_client_id, holding the registry lock. */
  datatype Holder = Entered(to: nat, frame: Frame) | Signalled(to: nat, frame: Frame)

  datatype Stop = PeerClosed | HandlerQuit | BadInput | Truncated | OutputFailed | TlsFailed

  datatype Pc =
    | AtWake                   // before reading the wake-up counter
    | AtStatus                 // before client_output_status
    | AtLoad                   // before take_outgoing_frame
    | AtWrite
    | AtRead(progress: bool)
    | Handling                 // inside the frame handler
    | AtPoll                   // blocked
    | Stopped(why: Stop)

  datatype Call =
    | WriteCall(offset: nat, bytes: seq<Byte>, wait: Wait)
    | ReadCall(offset: nat, size: nat, wait: Wait)

  datatype State = State(
    registry: Reg.Registry, holder: Option<Holder>, counter: nat,
    pc: Pc, io: Io,
    written: seq<Byte>, consumed: seq<Byte>, frames: seq<Frame>, calls: seq<Call>)  // history

  datatype WriteAnswer = Wrote(count: nat) | WriteAgain(wait: Wait) | WriteStop
  datatype ReadAnswer = Got(bytes: seq<Byte>) | ReadAgain(wait: Wait) | ReadClosed | ReadStop

  datatype Step =
    | Enter(to: nat, frame: Frame)
    | Signal
    | Queue
    | Meanwhile(registry: Reg.Registry)
    | Wake
    | CheckStatus
    | Load
    | Write(w: WriteAnswer)
    | SkipWrite
    | Read(r: ReadAnswer)
    | SkipRead
    | HandlerReturn(goOn: bool)
    | PollReturn

  const COUNTER_MAX: nat := TWO64 - 2

  /** A full counter is left alone: a wake-up is pending already. */
  function Bump(counter: nat): nat {
    if counter < COUNTER_MAX then counter + 1 else counter
  }

  /** Other threads may change anything but this client's queue and flags. */
  ghost predicate SameOutput(r: Reg.Registry, r': Reg.Registry, me: nat) {
    && me in r.clients && me in r'.clients && Reg.Log(r', me) == Reg.Log(r, me)
    && r'.clients[me].queue == r.clients[me].queue
    && r'.clients[me].failed == r.clients[me].failed
  }

  predicate Writing(io: Io) {
    io.outgoing != [] && io.readWait != ForWrite
  }

  ghost predicate Enabled(s: State, me: nat, step: Step) {
    match step
    case Enter(_, _) => s.holder.None?
    case Signal => s.holder.Some? && s.holder.value.Entered?
    case Queue => s.holder.Some? && s.holder.value.Signalled?
    case Meanwhile(r) => s.holder.None? && SameOutput(s.registry, r, me)
    case Wake => s.pc == AtWake
    case CheckStatus => s.pc == AtStatus && s.holder.None?
    case Load => s.pc == AtLoad && (s.io.outgoing == [] ==> s.holder.None?)
    case Write(w) =>
      && s.pc == AtWrite && Writing(s.io)
      && (w.Wrote? ==> 0 < w.count <= |s.io.outgoing| - s.io.sent)
      && (w.WriteAgain? ==> w.wait != NoWait)
    case SkipWrite => s.pc == AtWrite && !Writing(s.io)
    case Read(r) =>
      && s.pc.AtRead? && s.io.writeWait == NoWait
      && (r.Got? ==> 0 < |r.bytes| <= s.io.needed - |s.io.incoming|)
      && (r.ReadAgain? ==> r.wait != NoWait)
    case SkipRead => s.pc.AtRead? && s.io.writeWait != NoWait
    case HandlerReturn(_) => s.pc == Handling
    case PollReturn => s.pc == AtPoll
  }

  function LoopOrPoll(progress: bool): Pc {
    if progress then AtWake else AtPoll
  }

  ghost function AfterLoad(s: State, me: nat): State {
    if s.io.outgoing != [] then s.(pc := AtWrite) else
    var (r, result) := Reg.Take(s.registry, me);
    match result
    case TakeError => s.(pc := Stopped(OutputFailed))
    case Nothing => s.(pc := AtWrite)
    case Taken(f) => s.(registry := r, io := Loaded(s.io, f), pc := AtWrite)
  }

  function WriteCalled(s: State, w: WriteAnswer): seq<Call>
    requires s.io.sent <= |s.io.outgoing|
  {
    s.calls + [WriteCall(s.io.sent, s.io.outgoing[s.io.sent..], if w.WriteAgain? then w.wait else NoWait)]
  }

  function AfterWrite(s: State, w: WriteAnswer): State
    requires s.io.sent <= |s.io.outgoing|
    requires w.Wrote? ==> w.count <= |s.io.outgoing| - s.io.sent
  {
    var s' := s.(calls := WriteCalled(s, w));
    match w
    case Wrote(count) =>
      s'.(io := AfterWrote(s.io, count), pc := AtRead(true),
          written := s.written + s.io.outgoing[s.io.sent..][..count])
    case WriteAgain(wait) => s'.(io := s.io.(writeWait := wait), pc := AtRead(false))
    case WriteStop => s'.(pc := Stopped(TlsFailed))
  }

  function ReadCalled(s: State, r: ReadAnswer): seq<Call>
    requires |s.io.incoming| <= s.io.needed
  {
    s.calls + [ReadCall(|s.io.incoming|, s.io.needed - |s.io.incoming|, if r.ReadAgain? then r.wait else NoWait)]
  }

  function AfterRead(s: State, r: ReadAnswer): State
    requires s.pc.AtRead? && |s.io.incoming| <= s.io.needed
  {
    var s' := s.(calls := ReadCalled(s, r));
    match r
    case Got(data) =>
      var s'' := s'.(consumed := s.consumed + data);
      (match AfterGot(s.io, data)
       case More(io) => s''.(io := io, pc := AtWake)
       case Deliver(raw, io) =>
         s''.(io := io, pc := Handling, frames := s.frames + if raw == [] then [] else [Frame(raw[0], raw[1..])])
       case Reject => s''.(pc := Stopped(BadInput)))
    case ReadAgain(wait) => s'.(io := s.io.(readWait := wait), pc := LoopOrPoll(s.pc.progress))
    case ReadClosed => s'.(pc := Stopped(if s.io.incoming == [] then PeerClosed else Truncated))
    case ReadStop => s'.(pc := Stopped(TlsFailed))
  }

  ghost function Next(s: State, me: nat, step: Step): State
    requires Enabled(s, me, step) && WriterValid(s.io) && ReaderValid(s.io)
  {
    match step
    case Enter(to, f) => s.(holder := Some(Entered(to, f)))
    case Signal =>
      var h := s.holder.value;
      if !Reg.Accepting(s.registry, h.to) then s.(holder := None)
      else s.(holder := Some(Signalled(h.to, h.frame)), counter := if h.to == me then Bump(s.counter) else s.counter)
    case Queue =>
      s.(registry := Reg.Queue(s.registry, s.holder.value.to, s.holder.value.frame).0, holder := None)
    case Meanwhile(r) => s.(registry := r)
    case Wake => s.(counter := 0, pc := AtStatus)
    case CheckStatus =>
      s.(pc := if me !in s.registry.clients || s.registry.clients[me].failed then Stopped(OutputFailed) else AtLoad)
    case Load => AfterLoad(s, me)
    case Write(w) => AfterWrite(s, w)
    case SkipWrite => s.(pc := AtRead(false))
    case Read(r) => AfterRead(s, r)
    case SkipRead => s.(pc := LoopOrPoll(s.pc.progress))
    case HandlerReturn(goOn) => s.(pc := if goOn then AtWake else Stopped(HandlerQuit))
    case PollReturn => s.(pc := AtWake)
  }

  // ----- Invariants -----

  /** Input: what was dispatched is what the one-shot decoder finds in the bytes read. */
  ghost predicate Deframed(s: State) {
    && ReaderValid(s.io)
    && DecodeAll(s.consumed).frames == s.frames
    && (if s.pc == Stopped(BadInput) then !DecodeAll(s.consumed).ok
        else DecodeAll(s.consumed) == Decoding(s.frames, s.io.incoming, true))
    && (s.pc == Stopped(PeerClosed) ==> s.io.incoming == [])
    && (s.pc == Stopped(Truncated) ==> s.io.incoming != [])
  }

  /** Output: nothing queued is lost, doubled, reordered or altered on its way to the wire. */
  ghost predicate Conserved(s: State, me: nat) {
    && WriterValid(s.io) && me in s.registry.clients
    && AllFit(Reg.Log(s.registry, me)) && AllFit(s.registry.clients[me].queue)
    && |s.registry.clients[me].queue| <= Reg.MAX_OUTGOING_FRAMES
    && WireAll(Reg.Log(s.registry, me)) ==
       s.written + s.io.outgoing[s.io.sent..] + WireAll(s.registry.clients[me].queue)
  }

  /** Retries: the two directions never wait for each other. */
  ghost predicate Waiting(s: State) {
    && (s.io.readWait == ForWrite ==> s.io.writeWait == NoWait)
    && (s.io.writeWait != NoWait ==> s.io.outgoing != [])
    && (s.pc == AtRead(true) ==> s.io.writeWait == NoWait)
    && (s.pc == AtRead(false) && s.io.outgoing != [] ==> s.io.writeWait != NoWait || s.io.readWait == ForWrite)
    && (s.pc == AtPoll ==> PollMask(s.io) != NoWait)
  }

  function PollMask(io: Io): Wait {
    if io.writeWait != NoWait then io.writeWait else io.readWait
  }

  /** How one TLS call may follow another. */
  predicate MayFollow(first: Call, second: Call) {
    && (first.WriteCall? && first.wait != NoWait ==>
          second.WriteCall? && second.offset == first.offset && second.bytes == first.bytes)
    && (first.ReadCall? && first.wait == ForWrite ==>
          second.ReadCall? && second.offset == first.offset && second.size == first.size)
  }

  ghost predicate Disciplined(calls: seq<Call>) {
    forall i :: 0 <= i < |calls| - 1 ==> MayFollow(calls[i], calls[i + 1])
  }

  function LastCall(s: State): Call
    requires s.calls != []
  {
    s.calls[|s.calls| - 1]
  }

  /** What the last call requires of the next one is still in the worker's state. */
  ghost predicate Remembered(s: State) {
    s.calls != [] && !s.pc.Stopped? ==>
      && (LastCall(s).WriteCall? && LastCall(s).wait != NoWait ==>
            && s.io.writeWait != NoWait && LastCall(s).offset == s.io.sent <= |s.io.outgoing|
            && LastCall(s).bytes == s.io.outgoing[s.io.sent..] && s.io.readWait != ForWrite)
      && (LastCall(s).ReadCall? && LastCall(s).wait == ForWrite ==>
            && s.io.readWait == ForWrite && LastCall(s).offset == |s.io.incoming|
            && LastCall(s).size == s.io.needed - |s.io.incoming|)
  }

  ghost predicate Retrying(s: State) {
    Disciplined(s.calls) && Remembered(s)
  }

  predicate Checked(pc: Pc) {
    pc.AtLoad? || pc.AtWrite? || pc.AtRead? || pc.Handling? || pc.AtPoll?
  }

  predicate Idling(pc: Pc) {
    pc == AtWrite || pc == AtRead(false) || pc == AtPoll
  }

  /** Wake-ups: what a thread did after the worker last looked has left the counter positive. */
  ghost predicate Awake(s: State, me: nat) {
    && me in s.registry.clients
    && (Checked(s.pc) && s.holder.Some? && s.holder.value.Signalled? && s.holder.value.to == me ==> s.counter > 0)
    && (Checked(s.pc) && s.registry.clients[me].failed ==> s.counter > 0)
    && (Idling(s.pc) && s.registry.clients[me].queue != [] ==> s.counter > 0 || s.io.outgoing != [])
  }

  ghost predicate Inv(s: State, me: nat) {
    && me != 0
    && Deframed(s) && Conserved(s, me) && Waiting(s) && Retrying(s) && Awake(s, me)
  }

  // ----- Every step keeps them -----

  /** Steps that read nothing. */
  lemma InputUntouched(s: State, t: State)
    requires Deframed(s) && t.io.incoming == s.io.incoming && t.io.needed == s.io.needed
    requires t.consumed == s.consumed && t.frames == s.frames
    requires t.pc == s.pc || (!s.pc.Stopped? && t.pc != Stopped(BadInput))
    requires t.pc != s.pc && t.pc.Stopped? ==>
               (t.pc.why == PeerClosed ==> t.io.incoming == []) && (t.pc.why == Truncated ==> t.io.incoming != [])
    ensures Deframed(t)
  {
  }

  lemma GotDeframed(s: State, data: seq<Byte>)
    requires Deframed(s) && s.pc.AtRead? && 0 < |data| <= s.io.needed - |s.io.incoming|
    ensures Deframed(AfterRead(s, Got(data)))
  {
    GotIsDecoding(s.io, data);
    GotExtendsDecoding(s.io, data, s.consumed, s.frames);
  }

  lemma KeepsDeframed(s: State, me: nat, step: Step)
    requires Deframed(s) && WriterValid(s.io) && Enabled(s, me, step)
    ensures Deframed(Next(s, me, step))
  {
    if step.Read? && step.r.Got? {
      GotDeframed(s, step.r.bytes);
    } else {
      ReadsNothing(s, me, step);
      InputUntouched(s, Next(s, me, step));
    }
  }

  lemma ReadsNothing(s: State, me: nat, step: Step)
    requires WriterValid(s.io) && ReaderValid(s.io) && Enabled(s, me, step) && !(step.Read? && step.r.Got?)
    ensures var t := Next(s, me, step);
            && t.io.incoming == s.io.incoming && t.io.needed == s.io.needed && t.consumed == s.consumed && t.frames == s.frames
            && (t.pc == s.pc || (!s.pc.Stopped? && t.pc != Stopped(BadInput)))
            && (t.pc != s.pc && t.pc.Stopped? ==>
                  (t.pc.why == PeerClosed ==> t.io.incoming == []) && (t.pc.why == Truncated ==> t.io.incoming != []))
  {
  }

  /** Queueing extends the log and the queue by the same frames, or by none. */
  lemma QueueExtends(r: Reg.Registry, me: nat, to: nat, f: Frame)
    requires me in r.clients && |r.clients[me].queue| <= Reg.MAX_OUTGOING_FRAMES
    ensures var r' := Reg.Queue(r, to, f).0;
            && me in r'.clients && |r'.clients[me].queue| <= Reg.MAX_OUTGOING_FRAMES
            && var more := QueuedTo(r, me, to, f);
            && AllFit(more) && Reg.Log(r', me) == Reg.Log(r, me) + more
            && r'.clients[me].queue == r.clients[me].queue + more
  {
  }

  function QueuedTo(r: Reg.Registry, me: nat, to: nat, f: Frame): seq<Frame> {
    if to == me && Reg.Queue(r, to, f).1 then [f] else []
  }

  lemma QueueConserves(s: State, me: nat)
    requires Conserved(s, me) && Enabled(s, me, Queue)
    ensures Conserved(s.(registry := Reg.Queue(s.registry, s.holder.value.to, s.holder.value.frame).0, holder := None), me)
  {
    var queue := s.registry.clients[me].queue;
    var more := QueuedTo(s.registry, me, s.holder.value.to, s.holder.value.frame);
    QueueExtends(s.registry, me, s.holder.value.to, s.holder.value.frame);
    WireAllAppend(Reg.Log(s.registry, me), more);
    WireAllAppend(queue, more);
    Regroup(s.written + s.io.outgoing[s.io.sent..], WireAll(queue), WireAll(more));
  }

  lemma LoadConserves(s: State, me: nat)
    requires Conserved(s, me) && s.io.outgoing == [] && Reg.Take(s.registry, me).1.Taken?
    ensures Conserved(AfterLoad(s, me), me)
  {
    var queue := s.registry.clients[me].queue;
    assert [queue[0]] + queue[1..] == queue;
    WireAllCons(queue[0], queue[1..]);
    var s' := AfterLoad(s, me);
    assert s'.registry.clients[me].queue == queue[1..];
    assert s'.io.outgoing[0..] == Wire(queue[0]);
    Regroup(s.written, Wire(queue[0]), WireAll(queue[1..]));
    assert s.written + s.io.outgoing[s.io.sent..] == s.written;
  }

  lemma WriteConserves(s: State, me: nat, count: nat)
    requires Conserved(s, me) && Enabled(s, me, Write(Wrote(count)))
    ensures Conserved(AfterWrite(s, Wrote(count)), me)
  {
    var rest := s.io.outgoing[s.io.sent..];
    var s' := AfterWrite(s, Wrote(count));
    assert rest == rest[..count] + rest[count..];
    assert s'.io.outgoing[s'.io.sent..] == rest[count..];
    Regroup(s.written, rest[..count], rest[count..]);
  }

  lemma SameOutputConserves(s: State, me: nat, t: State)
    requires Conserved(s, me) && SameOutput(s.registry, t.registry, me) && t.written == s.written
    requires t.io.outgoing == s.io.outgoing && t.io.sent == s.io.sent
    ensures Conserved(t, me)
  {
  }

  lemma KeepsConserved(s: State, me: nat, step: Step)
    requires me != 0 && Conserved(s, me) && ReaderValid(s.io) && Enabled(s, me, step)
    ensures Conserved(Next(s, me, step), me)
  {
    match step
    case Queue => QueueConserves(s, me);
    case Load =>
      if s.io.outgoing == [] && Reg.Take(s.registry, me).1.Taken? {
        LoadConserves(s, me);
      } else {
        SameOutputConserves(s, me, Next(s, me, step));
      }
    case Write(w) =>
      if w.Wrote? {
        WriteConserves(s, me, w.count);
      } else {
        SameOutputConserves(s, me, Next(s, me, step));
      }
    case _ =>
      WritesNothing(s, me, step);
      SameOutputConserves(s, me, Next(s, me, step));
  }

  lemma WritesNothing(s: State, me: nat, step: Step)
    requires me in s.registry.clients && WriterValid(s.io) && ReaderValid(s.io) && Enabled(s, me, step)
    requires !step.Queue? && !step.Load? && !step.Write?
    ensures var t := Next(s, me, step);
            && SameOutput(s.registry, t.registry, me) && t.written == s.written
            && t.io.outgoing == s.io.outgoing && t.io.sent == s.io.sent
  {
  }

  lemma KeepsWaiting(s: State, me: nat, step: Step)
    requires Waiting(s) && WriterValid(s.io) && ReaderValid(s.io) && Enabled(s, me, step)
    ensures Waiting(Next(s, me, step))
  {
    match step
    case Write(w) => WriteWaits(s, me, w);
    case Read(r) => ReadWaits(s, me, r);
    case _ =>
  }

  lemma WriteWaits(s: State, me: nat, w: WriteAnswer)
    requires Waiting(s) && WriterValid(s.io) && Enabled(s, me, Write(w))
    ensures Waiting(AfterWrite(s, w))
  {
  }

  lemma ReadWaits(s: State, me: nat, r: ReadAnswer)
    requires Waiting(s) && ReaderValid(s.io) && Enabled(s, me, Read(r))
    ensures Waiting(AfterRead(s, r))
  {
  }

  lemma CallFollows(s: State, call: Call)
    requires Disciplined(s.calls) && (s.calls != [] ==> MayFollow(LastCall(s), call))
    ensures Disciplined(s.calls + [call])
  {
  }

  lemma WriteRetries(s: State, me: nat, w: WriteAnswer)
    requires Retrying(s) && WriterValid(s.io) && ReaderValid(s.io) && Enabled(s, me, Write(w))
    ensures Retrying(AfterWrite(s, w))
  {
    CallFollows(s, WriteCalled(s, w)[|s.calls|]);
  }

  lemma ReadRetries(s: State, me: nat, r: ReadAnswer)
    requires Retrying(s) && WriterValid(s.io) && ReaderValid(s.io) && Enabled(s, me, Read(r))
    ensures Retrying(AfterRead(s, r))
  {
    CallFollows(s, ReadCalled(s, r)[|s.calls|]);
  }

  lemma KeepsRetrying(s: State, me: nat, step: Step)
    requires Retrying(s) && Waiting(s) && WriterValid(s.io) && ReaderValid(s.io) && Enabled(s, me, step)
    ensures Retrying(Next(s, me, step))
  {
    match step
    case Write(w) => WriteRetries(s, me, w);
    case Read(r) => ReadRetries(s, me, r);
    case _ =>
  }

  /** Steps of the threads that queue frames, to this client or to others. */
  lemma ProducerAwake(s: State, me: nat, step: Step)
    requires Awake(s, me) && WriterValid(s.io) && ReaderValid(s.io) && Enabled(s, me, step)
    requires step.Enter? || step.Signal? || step.Queue? || step.Meanwhile?
    ensures Awake(Next(s, me, step), me)
  {
  }

  lemma ReadAwake(s: State, me: nat, r: ReadAnswer)
    requires Awake(s, me) && WriterValid(s.io) && ReaderValid(s.io) && Enabled(s, me, Read(r))
    ensures Awake(AfterRead(s, r), me)
  {
  }

  lemma WriteAwake(s: State, me: nat, w: WriteAnswer)
    requires Awake(s, me) && WriterValid(s.io) && ReaderValid(s.io) && Enabled(s, me, Write(w))
    ensures Awake(AfterWrite(s, w), me)
  {
  }

  lemma LoadAwake(s: State, me: nat)
    requires Awake(s, me) && WriterValid(s.io) && Enabled(s, me, Load)
    ensures Awake(AfterLoad(s, me), me)
  {
  }

  lemma KeepsAwake(s: State, me: nat, step: Step)
    requires Awake(s, me) && Waiting(s) && WriterValid(s.io) && ReaderValid(s.io) && Enabled(s, me, step)
    ensures Awake(Next(s, me, step), me)
  {
    match step
    case Load => LoadAwake(s, me);
    case Write(w) => WriteAwake(s, me, w);
    case Read(r) => ReadAwake(s, me, r);
    case Enter(_, _) => ProducerAwake(s, me, step);
    case Signal => ProducerAwake(s, me, step);
    case Queue => ProducerAwake(s, me, step);
    case Meanwhile(_) => ProducerAwake(s, me, step);
    case _ =>
  }

  lemma StepKeepsInvariant(s: State, me: nat, step: Step)
    requires Inv(s, me) && Enabled(s, me, step)
    ensures Inv(Next(s, me, step), me)
  {
    KeepsDeframed(s, me, step);
    KeepsConserved(s, me, step);
    KeepsWaiting(s, me, step);
    KeepsRetrying(s, me, step);
    KeepsAwake(s, me, step);
  }

  // ----- Runs -----

  /** A client just activated, whose worker is about to start. */
  ghost predicate Initial(s: State, me: nat) {
    && me != 0 && me in s.registry.clients
    && s.registry.clients[me].queue == [] && !s.registry.clients[me].failed && Reg.Log(s.registry, me) == []
    && s.holder.None? && s.pc == AtWake && s.io == FRESH
    && s.written == [] && s.consumed == [] && s.frames == [] && s.calls == []
  }

  ghost predicate Legal(s: State, me: nat, run: seq<Step>)
    requires Inv(s, me)
    decreases |run|
  {
    run != [] ==> Enabled(s, me, run[0]) && (StepKeepsInvariant(s, me, run[0]); Legal(Next(s, me, run[0]), me, run[1..]))
  }

  ghost function After(s: State, me: nat, run: seq<Step>): State
    requires Inv(s, me) && Legal(s, me, run)
    decreases |run|
  {
    if run == [] then s else
    StepKeepsInvariant(s, me, run[0]);
    After(Next(s, me, run[0]), me, run[1..])
  }

  lemma InitialInvariant(s: State, me: nat)
    requires Initial(s, me)
    ensures Inv(s, me)
  {
  }

  lemma {:induction false} RunKeepsInvariant(s: State, me: nat, run: seq<Step>)
    requires Inv(s, me) && Legal(s, me, run)
    ensures Inv(After(s, me, run), me)
    decreases |run|
  {
    if run != [] {
      StepKeepsInvariant(s, me, run[0]);
      RunKeepsInvariant(Next(s, me, run[0]), me, run[1..]);
    }
  }
}
