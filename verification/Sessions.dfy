/** The grammar of the file frames queued to one client under one outbound id:
    (BEGIN CHUNK* (END | ERROR))*, where the chunks never exceed the size that BEGIN
    declared and END comes only when they add up to exactly that size. */
module Sessions {
  import opened Bytes
  import opened FileProtocol

  /** What a queued frame means to the receiver of file frames. */
  datatype Event =
    | BeginEvent(begin: Begin)
    | ChunkEvent(chunk: Chunk)
    | EndEvent(id: Word)
    | ErrorEvent(id: Word)
    | OtherEvent

  function Meaning(f: Frame): Event {
    var raw := Raw(f);
    if f.kind == FILE_BEGIN && DecodeBegin(raw).Some? then BeginEvent(DecodeBegin(raw).value)
    else if f.kind == FILE_CHUNK && DecodeChunk(raw).Some? then ChunkEvent(DecodeChunk(raw).value)
    else if f.kind == FILE_END && DecodeControl(raw, FILE_END).Some? then EndEvent(DecodeControl(raw, FILE_END).value)
    else if f.kind == FILE_ERROR && DecodeControl(raw, FILE_ERROR).Some? then
      ErrorEvent(DecodeControl(raw, FILE_ERROR).value)
    else OtherEvent
  }

  function BeginFrame(b: Begin): Frame
    requires ValidBegin(b)
  {
    Frame(FILE_BEGIN, BeginPayload(b))
  }

  function ChunkFrame(c: Chunk): Frame
    requires ValidChunk(c)
  {
    Frame(FILE_CHUNK, ChunkPayload(c))
  }

  function EndFrame(id: Word): Frame
  {
    Frame(FILE_END, Be32(id))
  }

  function ErrorFrame(id: Word): Frame
  {
    Frame(FILE_ERROR, Be32(id))
  }

  lemma BeginMeaning(b: Begin)
    requires ValidBegin(b)
    ensures Meaning(BeginFrame(b)) == BeginEvent(b)
  {
    BeginCodec(Raw(BeginFrame(b)), b);
  }

  lemma ChunkMeaning(c: Chunk)
    requires ValidChunk(c)
    ensures Meaning(ChunkFrame(c)) == ChunkEvent(c)
  {
    ChunkCodec(Raw(ChunkFrame(c)), c);
  }

  lemma ControlMeaning(id: Word)
    ensures Meaning(EndFrame(id)) == EndEvent(id) && Meaning(ErrorFrame(id)) == ErrorEvent(id)
  {
    ControlCodec(Raw(EndFrame(id)), FILE_END, id);
    ControlCodec(Raw(ErrorFrame(id)), FILE_ERROR, id);
  }

  /** The outbound id that a file frame is about. */
  function IdOf(e: Event): Word
    requires !e.OtherEvent?
  {
    match e
    case BeginEvent(b) => b.id
    case ChunkEvent(c) => c.id
    case EndEvent(id) => id
    case ErrorEvent(id) => id
  }

  // ----- The grammar as an automaton -----

  datatype Session = Closed | Open(declared: nat, received: nat) | Broken

  function Follow(s: Session, e: Event, id: nat): Session {
    match e
    case BeginEvent(b) => if b.id != id then s else if s.Closed? then Open(b.size, 0) else Broken
    case ChunkEvent(c) =>
      if c.id != id then s
      else if s.Open? && s.received + |c.data| <= s.declared then Open(s.declared, s.received + |c.data|)
      else Broken
    case EndEvent(i) => if i != id then s else if s.Open? && s.received == s.declared then Closed else Broken
    case ErrorEvent(i) => if i != id then s else if s.Open? then Closed else Broken
    case OtherEvent => s
  }

  /** Where the frames of `log` leave the session of outbound id `id`. */
  function SessionOf(log: seq<Frame>, id: nat): Session {
    if log == [] then Closed
    else Follow(SessionOf(log[..|log| - 1], id), Meaning(log[|log| - 1]), id)
  }

  lemma SessionAppend(log: seq<Frame>, f: Frame, id: nat)
    ensures SessionOf(log + [f], id) == Follow(SessionOf(log, id), Meaning(f), id)
  {
    assert (log + [f])[..|log|] == log;
  }

  // ----- What the grammar says about counts -----

  predicate Begins(e: Event, id: nat) {
    e.BeginEvent? && e.begin.id == id
  }

  predicate Terminates(e: Event, id: nat) {
    (e.EndEvent? || e.ErrorEvent?) && e.id == id
  }

  function CountBegins(log: seq<Frame>, id: nat): nat {
    if log == [] then 0
    else CountBegins(log[..|log| - 1], id) + if Begins(Meaning(log[|log| - 1]), id) then 1 else 0
  }

  function CountTerminals(log: seq<Frame>, id: nat): nat {
    if log == [] then 0
    else CountTerminals(log[..|log| - 1], id) + if Terminates(Meaning(log[|log| - 1]), id) then 1 else 0
  }

  /** A log that keeps to the grammar has exactly one terminal frame per begun session,
      except for one session still open at the end. */
  lemma {:induction false} OneTerminalPerSession(log: seq<Frame>, id: nat)
    requires SessionOf(log, id) != Broken
    ensures CountBegins(log, id) == CountTerminals(log, id) + if SessionOf(log, id).Open? then 1 else 0
  {
    if log != [] {
      OneTerminalPerSession(log[..|log| - 1], id);
    }
  }

  /** The grammar is a safety property: what breaks it stays broken. */
  lemma {:induction false} PrefixKeepsGrammar(log: seq<Frame>, more: seq<Frame>, id: nat)
    requires SessionOf(log + more, id) != Broken
    ensures SessionOf(log, id) != Broken
  {
    if more == [] {
      assert log + more == log;
    } else {
      var front := more[..|more| - 1];
      assert (log + more)[..|log + more| - 1] == log + front;
      PrefixKeepsGrammar(log, front, id);
    }
  }
}
