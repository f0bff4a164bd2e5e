/** The client's list of packages waiting for a public key (client.c): a singly linked list
    with head, tail and count, appended at the tail, first match removed anywhere. */
module Pending {
  import opened Bytes
  import opened Framing
  import opened LinkedList

  const MAX_PENDING_PACKAGES: nat := 128

  datatype Kind = Message | File
  datatype Package = Package(recipient: seq<Byte>, kind: Kind, data: seq<Byte>)

  // ----- The list as a value -----

  function RemoveFirst(list: seq<Package>, name: seq<Byte>): (r: (Option<Package>, seq<Package>)) {
    if list == [] then (None, [])
    else if list[0].recipient == name then (Some(list[0]), list[1..])
    else var (found, rest) := RemoveFirst(list[1..], name); (found, [list[0]] + rest)
  }

  /** The packages for one recipient, in order. */
  function For(list: seq<Package>, name: seq<Byte>): seq<Package> {
    if list == [] then []
    else (if list[0].recipient == name then [list[0]] else []) + For(list[1..], name)
  }

  lemma {:induction false} ForConcat(a: seq<Package>, b: seq<Package>, name: seq<Byte>)
    ensures For(a + b, name) == For(a, name) + For(b, name)
  {
    if a == [] {
      assert a + b == b;
    } else {
      var first := if a[0].recipient == name then [a[0]] else [];
      ForConcat(a[1..], b, name);
      assert (a + b)[1..] == a[1..] + b && (a + b)[0] == a[0];
      Regroup(first, For(a[1..], name), For(b, name));
    }
  }

  lemma ForOne(p: Package, name: seq<Byte>)
    ensures For([p], name) == if p.recipient == name then [p] else []
  {
    assert [p][1..] == [];
  }

  /** Removing takes the oldest package of that name, if there is one, and disturbs the
      order of nothing else. */
  lemma {:induction false} RemoveFirstTakesOldest(list: seq<Package>, name: seq<Byte>, other: seq<Byte>)
    ensures var (found, rest) := RemoveFirst(list, name);
            && (found.None? <==> For(list, name) == [])
            && (found.None? ==> rest == list)
            && (found.Some? ==> found.value.recipient == name && For(list, name) == [found.value] + For(rest, name)
                                && |rest| == |list| - 1)
            && (other != name ==> For(rest, other) == For(list, other))
  {
    if list != [] && list[0].recipient != name {
      RemoveFirstTakesOldest(list[1..], name, other);
      var (found, rest) := RemoveFirst(list[1..], name);
      assert ([list[0]] + rest)[1..] == rest;
      assert found.None? ==> [list[0]] + list[1..] == list;
    }
  }

  lemma {:induction false} RemoveFirstAt(list: seq<Package>, name: seq<Byte>, i: nat)
    requires i < |list| && list[i].recipient == name && forall j :: 0 <= j < i ==> list[j].recipient != name
    ensures RemoveFirst(list, name) == (Some(list[i]), list[..i] + list[i + 1..])
  {
    if i > 0 {
      RemoveFirstAt(list[1..], name, i - 1);
      assert [list[0]] + (list[1..][..i - 1] + list[1..][i..]) == list[..i] + list[i + 1..];
    } else {
      assert list[..0] + list[1..] == list[1..];
    }
  }

  lemma {:induction false} RemoveFirstAbsent(list: seq<Package>, name: seq<Byte>)
    requires forall j :: 0 <= j < |list| ==> list[j].recipient != name
    ensures RemoveFirst(list, name) == (None, list)
  {
    if list != [] {
      RemoveFirstAbsent(list[1..], name);
      assert [list[0]] + list[1..] == list;
    }
  }

  // ----- The linked list -----

  class PendingList {
    const list: List<Package>

    ghost predicate Valid()
      reads list, list.spine
    {
      list.Valid() && list.count <= MAX_PENDING_PACKAGES
    }

    ghost function Contents(): seq<Package>
      reads list
    {
      list.Contents()
    }

    constructor ()
      ensures Valid() && Contents() == []
    {
      list := new List<Package>();
    }

    /** The package is appended once its key request has been sent, unless the list is full. */
    method Enqueue(p: Package, requestSent: bool) returns (ok: bool)
      requires Valid()
      modifies list, list.spine
      ensures Valid() && ok == (old(|Contents()|) < MAX_PENDING_PACKAGES && requestSent)
      ensures Contents() == if ok then old(Contents()) + [p] else old(Contents())
    {
      if list.count >= MAX_PENDING_PACKAGES || !requestSent {
        return false;
      }
      list.Append(p);
      return true;
    }

    /** Walk to the first node for a name, remembering the node before it. */
    method Search(name: seq<Byte>) returns (previous: Node?<Package>, pending: Node?<Package>, ghost i: nat)
      requires Valid()
      ensures i <= |list.spine| && pending == NodeAt(list.spine, i) && previous == NodeAt(list.spine, i - 1)
      ensures forall j :: 0 <= j < i ==> list.spine[j].item.recipient != name
      ensures pending != null ==> i < |list.spine| && pending.item.recipient == name
      ensures pending == null ==> i == |list.spine|
    {
      previous, pending, i := null, list.head, 0;
      while pending != null && pending.item.recipient != name
        invariant i <= |list.spine| && pending == NodeAt(list.spine, i) && previous == NodeAt(list.spine, i - 1)
        invariant forall j :: 0 <= j < i ==> list.spine[j].item.recipient != name
        decreases |list.spine| - i
      {
        assert Leads(list.spine, i, -1);
        previous, pending, i := pending, pending.next, i + 1;
      }
    }

    /** Unlink the first package for a name. */
    method Take(name: seq<Byte>) returns (found: Option<Package>)
      requires Valid()
      modifies list, list.spine
      ensures Valid() && (found, Contents()) == RemoveFirst(old(Contents()), name)
    {
      ghost var before := Contents();
      var previous, pending, i := Search(name);
      if pending == null {
        RemoveFirstAbsent(before, name);
        return None;
      }
      RemoveFirstAt(before, name, i);
      list.Unlink(previous, pending, i);
      return Some(pending.item);
    }
  }

  // ----- Every interleaving of requests and replies -----

  datatype Op = Ask(package: Package, requestSent: bool) | Reply(name: seq<Byte>)

  /** The list, with the packages accepted and the packages matched so far. */
  datatype History = History(list: seq<Package>, accepted: seq<Package>, matched: seq<Package>)

  function Perform(h: History, op: Op): History {
    match op
    case Ask(p, requestSent) =>
      if |h.list| < MAX_PENDING_PACKAGES && requestSent then h.(list := h.list + [p], accepted := h.accepted + [p]) else h
    case Reply(name) =>
      var (found, rest) := RemoveFirst(h.list, name);
      h.(list := rest, matched := h.matched + if found.Some? then [found.value] else [])
  }

  function After(ops: seq<Op>): History {
    if ops == [] then History([], [], []) else Perform(After(ops[..|ops| - 1]), ops[|ops| - 1])
  }

  /** For every name the packages matched, then those still waiting, are the packages
      accepted for it, in order: the j-th match is the j-th package. */
  ghost predicate Balanced(h: History, name: seq<Byte>) {
    For(h.accepted, name) == For(h.matched, name) + For(h.list, name)
  }

  lemma AskBalanced(h: History, p: Package, name: seq<Byte>)
    requires Balanced(h, name)
    ensures Balanced(h.(list := h.list + [p], accepted := h.accepted + [p]), name)
  {
    ForConcat(h.list, [p], name);
    ForConcat(h.accepted, [p], name);
    Regroup(For(h.matched, name), For(h.list, name), For([p], name));
  }

  lemma ReplyBalanced(h: History, n: seq<Byte>, name: seq<Byte>)
    requires Balanced(h, name)
    ensures Balanced(Perform(h, Reply(n)), name) && |Perform(h, Reply(n)).list| <= |h.list|
  {
    var (found, rest) := RemoveFirst(h.list, n);
    RemoveFirstTakesOldest(h.list, n, name);
    match found
    case None => assert h.matched + [] == h.matched;
    case Some(p) =>
      ForConcat(h.matched, [p], name);
      ForOne(p, name);
      Regroup(For(h.matched, name), For([p], name), For(rest, name));
  }

  lemma PerformBalanced(h: History, op: Op, name: seq<Byte>)
    requires Balanced(h, name) && |h.list| <= MAX_PENDING_PACKAGES
    ensures Balanced(Perform(h, op), name) && |Perform(h, op).list| <= MAX_PENDING_PACKAGES
  {
    match op
    case Ask(p, _) => AskBalanced(h, p, name);
    case Reply(n) => ReplyBalanced(h, n, name);
  }

  lemma {:induction false} RunsAreBalanced(ops: seq<Op>, name: seq<Byte>)
    ensures Balanced(After(ops), name) && |After(ops).list| <= MAX_PENDING_PACKAGES
  {
    if ops != [] {
      RunsAreBalanced(ops[..|ops| - 1], name);
      PerformBalanced(After(ops[..|ops| - 1]), ops[|ops| - 1], name);
    }
  }

  lemma {:induction false} WaitingCount(ops: seq<Op>)
    ensures |After(ops).list| == |After(ops).accepted| - |After(ops).matched| <= MAX_PENDING_PACKAGES
  {
    if ops != [] {
      var before, op := ops[..|ops| - 1], ops[|ops| - 1];
      WaitingCount(before);
      if op.Reply? {
        RemoveFirstTakesOldest(After(before).list, op.name, op.name);
      }
    }
  }

  /** A package whose request went out is refused if and only if 128 accepted packages have
      not been matched yet. */
  lemma RefusedOnlyWhenFull(ops: seq<Op>, p: Package, requestSent: bool)
    ensures var waiting := |After(ops).accepted| - |After(ops).matched|;
            After(ops + [Ask(p, requestSent)]).accepted ==
            After(ops).accepted + if requestSent && waiting < 128 then [p] else []
  {
    WaitingCount(ops);
    assert (ops + [Ask(p, requestSent)])[..|ops|] == ops;
    assert After(ops).accepted + [] == After(ops).accepted;
  }

  /** The replies for a name. */
  function Replies(ops: seq<Op>, name: seq<Byte>): nat {
    if ops == [] then 0
    else Replies(ops[..|ops| - 1], name) + if ops[|ops| - 1] == Reply(name) then 1 else 0
  }

  /** The replies for a name that find a package waiting; any other reply is ignored. */
  function Matches(ops: seq<Op>, name: seq<Byte>): nat {
    if ops == [] then 0
    else
      var before := ops[..|ops| - 1];
      Matches(before, name)
      + if ops[|ops| - 1] == Reply(name) && Matches(before, name) < |For(After(before).accepted, name)| then 1 else 0
  }

  /** In every interleaving of requests and replies, solicited or not, the j-th reply that
      finds a package for its name is matched to the j-th package accepted for that name. */
  lemma {:induction false} RepliesMatchInOrder(ops: seq<Op>, name: seq<Byte>)
    ensures Matches(ops, name) <= |For(After(ops).accepted, name)|
    ensures For(After(ops).matched, name) == For(After(ops).accepted, name)[..Matches(ops, name)]
  {
    RunsAreBalanced(ops, name);
    if ops != [] {
      var before := ops[..|ops| - 1];
      RepliesMatchInOrder(before, name);
      RunsAreBalanced(before, name);
      MatchCount(After(before), ops[|ops| - 1], name);
    }
  }

  /** A reply for a name with a package waiting matches one; nothing else does. */
  lemma MatchCount(h: History, op: Op, name: seq<Byte>)
    ensures |For(Perform(h, op).matched, name)| ==
            |For(h.matched, name)| + if op == Reply(name) && For(h.list, name) != [] then 1 else 0
  {
    if op.Reply? {
      RemoveFirstTakesOldest(h.list, op.name, name);
      var found := RemoveFirst(h.list, op.name).0;
      if found.Some? {
        ForConcat(h.matched, [found.value], name);
        ForOne(found.value, name);
      } else {
        assert h.matched + [] == h.matched;
      }
    }
  }

  /** Replies for a name never run ahead of the packages accepted for it. */
  ghost predicate Answered(ops: seq<Op>, name: seq<Byte>) {
    forall n :: 0 <= n <= |ops| ==> Replies(ops[..n], name) <= |For(After(ops[..n]).accepted, name)|
  }

  lemma AnsweredPrefix(ops: seq<Op>, name: seq<Byte>)
    requires ops != []
    ensures Answered(ops, name) <==>
            Answered(ops[..|ops| - 1], name) && Replies(ops, name) <= |For(After(ops).accepted, name)|
  {
    var before := ops[..|ops| - 1];
    assert ops[..|ops|] == ops;
    assert forall n :: 0 <= n <= |before| ==> before[..n] == ops[..n];
  }

  /** No reply is ignored if and only if replies never run ahead of requests. */
  lemma {:induction false} AnsweredIffAllMatch(ops: seq<Op>, name: seq<Byte>)
    ensures Matches(ops, name) <= Replies(ops, name)
    ensures Answered(ops, name) <==> Matches(ops, name) == Replies(ops, name)
  {
    if ops != [] {
      var before := ops[..|ops| - 1];
      AnsweredIffAllMatch(before, name);
      AnsweredPrefix(ops, name);
      RepliesMatchInOrder(ops, name);
      RepliesMatchInOrder(before, name);
      AcceptedGrows(After(before), ops[|ops| - 1], name);
    }
  }

  lemma AcceptedGrows(h: History, op: Op, name: seq<Byte>)
    ensures |For(Perform(h, op).accepted, name)| >= |For(h.accepted, name)|
    ensures op.Reply? ==> Perform(h, op).accepted == h.accepted
  {
    if op.Ask? {
      ForConcat(h.accepted, [op.package], name);
    }
  }
}
