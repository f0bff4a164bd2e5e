/** A client's key requests and the server's replies, composed: the client asks, the server
    handles the requests in order, and the client reads what was queued to it in order. */
module KeyExchange {
  import opened Bytes
  import opened FileProtocol
  import opened Pending
  import opened ChatSpec
  import Reg = RegistrySpec

  /** `asked` are the requests the server has not handled yet, `read` how many of the frames
      queued to the client it has read. */
  datatype Exchange = Exchange(ops: seq<Op>, registry: Reg.Registry, asked: seq<seq<Byte>>, read: nat)

  datatype Step =
    | AskFor(package: Package)
    | Serve
    | Listen
    | Meanwhile(registry: Reg.Registry)

  predicate IsReply(f: Frame) {
    f.kind == PEER_PK && ParseReply(f.payload).Some?
  }

  predicate RepliesTo(f: Frame, name: seq<Byte>) {
    IsReply(f) && ParseReply(f.payload).value.name == name
  }

  /** Whatever else happens at the server queues no key reply to this client. */
  ghost predicate Elsewhere(r: Reg.Registry, r': Reg.Registry, id: nat) {
    && |Reg.Log(r, id)| <= |Reg.Log(r', id)| && Reg.Log(r', id)[..|Reg.Log(r, id)|] == Reg.Log(r, id)
    && forall i :: |Reg.Log(r, id)| <= i < |Reg.Log(r', id)| ==> Reg.Log(r', id)[i].kind != PEER_PK
  }

  ghost predicate Enabled(x: Exchange, id: nat, step: Step) {
    match step
    case AskFor(_) => true
    case Serve => x.asked != []
    case Listen => x.read < |Reg.Log(x.registry, id)|
    case Meanwhile(r) => Reg.Valid(r) && Elsewhere(x.registry, r, id)
  }

  /** A package that the list refuses is not asked for. */
  ghost function Next(x: Exchange, id: nat, step: Step): Exchange
    requires Enabled(x, id, step)
  {
    match step
    case AskFor(p) =>
      if |After(x.ops).list| < MAX_PENDING_PACKAGES then x.(ops := x.ops + [Ask(p, true)], asked := x.asked + [p.recipient]) else x
    case Serve => x.(registry := Request(x.registry, id, x.asked[0]), asked := x.asked[1..])
    case Listen =>
      var f := Reg.Log(x.registry, id)[x.read];
      x.(read := x.read + 1, ops := if IsReply(f) then x.ops + [Reply(ParseReply(f.payload).value.name)] else x.ops)
    case Meanwhile(r) => x.(registry := r)
  }

  // ----- Replies never run ahead -----

  function CountAsked(asked: seq<seq<Byte>>, name: seq<Byte>): nat {
    if asked == [] then 0 else (if asked[0] == name then 1 else 0) + CountAsked(asked[1..], name)
  }

  /** The replies for a name among the frames from position `from` on. */
  function Unread(log: seq<Frame>, from: nat, name: seq<Byte>): nat
    requires from <= |log|
  {
    if |log| == from then 0
    else Unread(log[..|log| - 1], from, name) + if RepliesTo(log[|log| - 1], name) then 1 else 0
  }

  lemma {:induction false} CountAskedAppend(asked: seq<seq<Byte>>, last: seq<Byte>, name: seq<Byte>)
    ensures CountAsked(asked + [last], name) == CountAsked(asked, name) + if last == name then 1 else 0
  {
    if asked == [] {
      assert asked + [last] == [last] && [last][1..] == [];
    } else {
      CountAskedAppend(asked[1..], last, name);
      assert (asked + [last])[1..] == asked[1..] + [last];
    }
  }

  lemma UnreadAppend(log: seq<Frame>, from: nat, f: Frame, name: seq<Byte>)
    requires from <= |log|
    ensures Unread(log + [f], from, name) == Unread(log, from, name) + if RepliesTo(f, name) then 1 else 0
  {
    assert (log + [f])[..|log|] == log;
  }

  lemma {:induction false} UnreadStep(log: seq<Frame>, from: nat, name: seq<Byte>)
    requires from < |log|
    ensures Unread(log, from, name) == Unread(log, from + 1, name) + if RepliesTo(log[from], name) then 1 else 0
    decreases |log|
  {
    if |log| > from + 1 {
      UnreadStep(log[..|log| - 1], from, name);
    }
  }

  lemma {:induction false} UnreadOther(log: seq<Frame>, log': seq<Frame>, from: nat, name: seq<Byte>)
    requires from <= |log| <= |log'| && log'[..|log|] == log
    requires forall i :: |log| <= i < |log'| ==> log'[i].kind != PEER_PK
    ensures Unread(log', from, name) == Unread(log, from, name)
    decreases |log'|
  {
    if |log'| == |log| {
      assert log' == log;
    } else {
      var front := log'[..|log'| - 1];
      assert front[..|log|] == log;
      UnreadOther(log, front, from, name);
    }
  }

  /** Replies read, replies under way and requests under way account for accepted packages. */
  ghost predicate Accounted(x: Exchange, id: nat, name: seq<Byte>) {
    && x.read <= |Reg.Log(x.registry, id)|
    && Replies(x.ops, name) + Unread(Reg.Log(x.registry, id), x.read, name) + CountAsked(x.asked, name)
       <= |For(After(x.ops).accepted, name)|
  }

  lemma AskAccounted(x: Exchange, id: nat, p: Package, name: seq<Byte>)
    requires Accounted(x, id, name) && |After(x.ops).list| < MAX_PENDING_PACKAGES
    ensures Accounted(Next(x, id, AskFor(p)), id, name)
  {
    assert (x.ops + [Ask(p, true)])[..|x.ops|] == x.ops;
    CountAskedAppend(x.asked, p.recipient, name);
    ForConcat(After(x.ops).accepted, [p], name);
    ForOne(p, name);
  }

  /** Handling a request queues at most one reply, for the name that was asked for. */
  lemma RequestLog(r: Reg.Registry, id: nat, asked: seq<Byte>, from: nat, name: seq<Byte>)
    requires Reg.Valid(r) && from <= |Reg.Log(r, id)|
    ensures var r' := Request(r, id, asked);
            && from <= |Reg.Log(r', id)|
            && Unread(Reg.Log(r', id), from, name) <= Unread(Reg.Log(r, id), from, name) + if asked == name then 1 else 0
  {
    var f := if ValidPeer(asked) then Frame(PEER_PK, ReplyPayload(r, asked)) else Frame(TEXT, [INVALID_REQUEST]);
    if ValidPeer(asked) {
      ReplyNamesThePeer(r, asked);
    }
    UnreadAppend(Reg.Log(r, id), from, f, name);
  }

  lemma RequestValid(r: Reg.Registry, id: nat, asked: seq<Byte>)
    requires Reg.Valid(r)
    ensures Reg.Valid(Request(r, id, asked))
  {
    Reg.QueueValid(r, id, Frame(TEXT, [INVALID_REQUEST]));
    if ValidPeer(asked) {
      Reg.QueueValid(r, id, Frame(PEER_PK, ReplyPayload(r, asked)));
    }
  }

  lemma ListenAccounted(x: Exchange, id: nat, name: seq<Byte>)
    requires Accounted(x, id, name) && Enabled(x, id, Listen)
    ensures Accounted(Next(x, id, Listen), id, name)
  {
    var f := Reg.Log(x.registry, id)[x.read];
    UnreadStep(Reg.Log(x.registry, id), x.read, name);
    if IsReply(f) {
      var op := Reply(ParseReply(f.payload).value.name);
      assert (x.ops + [op])[..|x.ops|] == x.ops;
    }
  }

  lemma StepAccounted(x: Exchange, id: nat, step: Step, name: seq<Byte>)
    requires Accounted(x, id, name) && Enabled(x, id, step) && Reg.Valid(x.registry)
    ensures Accounted(Next(x, id, step), id, name) && Reg.Valid(Next(x, id, step).registry)
  {
    match step
    case AskFor(p) =>
      if |After(x.ops).list| < MAX_PENDING_PACKAGES {
        AskAccounted(x, id, p, name);
      }
    case Serve =>
      RequestLog(x.registry, id, x.asked[0], x.read, name);
      RequestValid(x.registry, id, x.asked[0]);
    case Listen => ListenAccounted(x, id, name);
    case Meanwhile(r) => UnreadOther(Reg.Log(x.registry, id), Reg.Log(r, id), x.read, name);
  }

  lemma StepAnswered(x: Exchange, id: nat, step: Step, name: seq<Byte>)
    requires Accounted(x, id, name) && Enabled(x, id, step) && Reg.Valid(x.registry) && Answered(x.ops, name)
    ensures Answered(Next(x, id, step).ops, name)
  {
    var ops' := Next(x, id, step).ops;
    StepAccounted(x, id, step, name);
    if ops' != x.ops {
      assert ops'[..|ops'| - 1] == x.ops;
      AnsweredPrefix(ops', name);
    }
  }

  // ----- Runs -----

  ghost predicate Legal(x: Exchange, id: nat, run: seq<Step>)
    decreases |run|
  {
    run != [] ==> Enabled(x, id, run[0]) && Legal(Next(x, id, run[0]), id, run[1..])
  }

  ghost function Outcome(x: Exchange, id: nat, run: seq<Step>): Exchange
    requires Legal(x, id, run)
    decreases |run|
  {
    if run == [] then x else Outcome(Next(x, id, run[0]), id, run[1..])
  }

  /** A client that has asked for nothing and been answered nothing. */
  ghost predicate Initial(x: Exchange, id: nat) {
    x.ops == [] && x.asked == [] && x.read == |Reg.Log(x.registry, id)| && Reg.Valid(x.registry)
  }

  lemma {:induction false} RunAnswers(x: Exchange, id: nat, run: seq<Step>, name: seq<Byte>)
    requires Accounted(x, id, name) && Reg.Valid(x.registry) && Answered(x.ops, name) && Legal(x, id, run)
    ensures Answered(Outcome(x, id, run).ops, name)
    decreases |run|
  {
    if run != [] {
      StepAnswered(x, id, run[0], name);
      StepAccounted(x, id, run[0], name);
      RunAnswers(Next(x, id, run[0]), id, run[1..], name);
    }
  }

  /** In every run of client and server together no reply is wasted: the j-th reply for a
      name is matched to the j-th package accepted for that name. */
  lemma EveryReplyMatches(x: Exchange, id: nat, run: seq<Step>, name: seq<Byte>)
    requires Initial(x, id) && Legal(x, id, run)
    ensures var ops := Outcome(x, id, run).ops;
            && Replies(ops, name) <= |For(After(ops).accepted, name)|
            && For(After(ops).matched, name) == For(After(ops).accepted, name)[..Replies(ops, name)]
  {
    assert Answered(x.ops, name);
    RunAnswers(x, id, run, name);
    AnsweredIffAllMatch(Outcome(x, id, run).ops, name);
    RepliesMatchInOrder(Outcome(x, id, run).ops, name);
  }
}
