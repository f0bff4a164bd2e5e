/** The relay's routes as a map from (sender, source id) to Forwarding or Discard:
    the specification that the slot table of server_file_routes.c refines. */
module RouteSpec {
  import opened Bytes
  import opened Counting

  const INVALID_CLIENT: nat := 0

  datatype Key = Key(sender: nat, source: nat)

  datatype Entry =
    | Discard
    | Forwarding(target: nat, outbound: Word, expected: nat, forwarded: nat)

  datatype Endpoint = Endpoint(target: nat, outbound: Word)

  const NO_ENDPOINT := Endpoint(INVALID_CLIENT, 0)

  /** Table sizes that leave room for more candidate ids than slots. */
  type Capacity = n: nat | n + 2 <= TWO32

  datatype Routes = Routes(capacity: Capacity, next: Word, table: map<Key, Entry>)

  datatype AddResult = AddReady | AddDiscard | AddDuplicate | AddFull | AddIdUnavailable
  datatype ChunkResult = ChunkReady | ChunkDiscard | ChunkMissing | ChunkOverrun
  datatype FinishResult = FinishReady | FinishDiscard | FinishMissing | FinishIncomplete

  // ----- Well-formed tables -----

  ghost predicate Live(table: map<Key, Entry>, k: Key) {
    k in table && table[k].Forwarding?
  }

  ghost predicate SameEntry(table: map<Key, Entry>, table': map<Key, Entry>, k: Key) {
    (k in table' <==> k in table) && (k in table ==> table'[k] == table[k])
  }

  /** Nothing but key k changed. */
  ghost predicate OnlyKey(table: map<Key, Entry>, table': map<Key, Entry>, k: Key) {
    forall l :: l != k ==> SameEntry(table, table', l)
  }

  ghost predicate ValidEntry(e: Entry) {
    e.Forwarding? ==> 0 < e.outbound && e.forwarded <= e.expected && e.target != INVALID_CLIENT
  }

  ghost predicate DistinctOutbound(table: map<Key, Entry>) {
    forall k, l :: Live(table, k) && Live(table, l) && k != l ==> table[k].outbound != table[l].outbound
  }

  ghost predicate Valid(r: Routes) {
    && |r.table| <= r.capacity
    && (forall k :: k in r.table ==> ValidEntry(r.table[k]))
    && DistinctOutbound(r.table)
  }

  ghost predicate InUse(table: map<Key, Entry>, outbound: nat) {
    exists k :: Live(table, k) && table[k].outbound == outbound
  }

  ghost function OutboundIds(table: map<Key, Entry>): (ids: set<nat>) {
    set k | k in table && table[k].Forwarding? :: table[k].outbound
  }

  function EndpointOf(e: Entry): Endpoint {
    if e.Forwarding? then Endpoint(e.target, e.outbound) else NO_ENDPOINT
  }

  // ----- Outbound ids: a wrapping 32-bit counter that skips zero -----

  /** The n-th candidate tried from counter value `next`. */
  function Candidate(next: Word, n: nat): (c: Word)
    requires n < TWO32 - 1
    ensures 0 < c
  {
    var first := if next == 0 then 1 else next;
    if first + n < TWO32 then first + n else first + n - (TWO32 - 1)
  }

  function After(candidate: Word): Word
  {
    (candidate + 1) % TWO32
  }

  lemma CandidateStep(next: Word, n: nat)
    requires n < TWO32 - 1
    ensures n + 1 < TWO32 - 1 ==> Candidate(After(Candidate(next, n)), 0) == Candidate(next, n + 1)
  {
  }

  /** The first unused candidate among `attempts` of them, starting with the n-th,
      and the counter left behind; id 0 when all are in use. */
  ghost function Allocate(table: map<Key, Entry>, next: Word, n: nat, attempts: nat): (r: (Word, Word))
    requires n <= attempts <= TWO32 - 1
    decreases attempts - n
  {
    if n == attempts then (0, if n == 0 then next else After(Candidate(next, n - 1)))
    else if InUse(table, Candidate(next, n)) then Allocate(table, next, n + 1, attempts)
    else (Candidate(next, n), After(Candidate(next, n)))
  }

  ghost function Tried(next: Word, n: nat): (s: set<nat>)
    requires n <= TWO32 - 1
  {
    set i | 0 <= i < n :: Candidate(next, i)
  }

  lemma {:induction false} TriedAreDistinct(next: Word, n: nat)
    requires n <= TWO32 - 1
    ensures |Tried(next, n)| == n
  {
    if n == 0 {
      assert Tried(next, 0) == {};
    } else {
      TriedAreDistinct(next, n - 1);
      assert Tried(next, n) == Tried(next, n - 1) + {Candidate(next, n - 1)};
      assert Candidate(next, n - 1) !in Tried(next, n - 1);
    }
  }

  lemma {:induction false} OutboundIdsBounded(table: map<Key, Entry>)
    ensures |OutboundIds(table)| <= |table|
  {
    if table == map[] {
      assert OutboundIds(table) == {};
    } else {
      var k :| k in table;
      var rest := table - {k};
      OutboundIdsBounded(rest);
      assert |rest| == |table| - 1 by {
        assert rest.Keys == table.Keys - {k};
      }
      var own := if table[k].Forwarding? then {table[k].outbound} else {};
      forall id | id in OutboundIds(table) ensures id in OutboundIds(rest) + own {
        var l :| l in table && table[l].Forwarding? && table[l].outbound == id;
        assert l != k ==> l in rest && rest[l].Forwarding?;
      }
      CardinalityOfSubset(OutboundIds(table), OutboundIds(rest) + own);
    }
  }

  /** Allocation as the code calls it: at most capacity + 1 attempts. From every counter
      value it succeeds, with a nonzero id no live route uses, and never inspects a
      candidate twice; ID_UNAVAILABLE is unreachable. */
  lemma AllocationSucceeds(r: Routes)
    requires Valid(r)
    ensures var (id, next) := Allocate(r.table, r.next, 0, r.capacity + 1);
            && 0 < id
            && !InUse(r.table, id)
            && next == After(id)
            && exists n :: 0 <= n <= r.capacity && id == Candidate(r.next, n)
                           && forall i :: 0 <= i < n ==> InUse(r.table, Candidate(r.next, i))
  {
    AllocationScan(r, 0);
  }

  lemma {:induction false} AllocationScan(r: Routes, n: nat)
    requires Valid(r) && n <= r.capacity + 1
    requires forall i :: 0 <= i < n ==> InUse(r.table, Candidate(r.next, i))
    ensures var (id, next) := Allocate(r.table, r.next, n, r.capacity + 1);
            && 0 < id
            && !InUse(r.table, id)
            && next == After(id)
            && exists m :: 0 <= m <= r.capacity && id == Candidate(r.next, m)
                           && forall i :: 0 <= i < m ==> InUse(r.table, Candidate(r.next, i))
    decreases r.capacity + 1 - n
  {
    TriedAreUsed(r, n);
    if n <= r.capacity && InUse(r.table, Candidate(r.next, n)) {
      AllocationScan(r, n + 1);
    }
  }

  /** Pigeonhole: the candidates found in use are fewer than the attempts allowed. */
  lemma TriedAreUsed(r: Routes, n: nat)
    requires Valid(r) && n <= r.capacity + 1
    requires forall i :: 0 <= i < n ==> InUse(r.table, Candidate(r.next, i))
    ensures n <= r.capacity
  {
    forall c | c in Tried(r.next, n) ensures c in OutboundIds(r.table) {
      var k :| Live(r.table, k) && r.table[k].outbound == c;
    }
    TriedAreDistinct(r.next, n);
    CardinalityOfSubset(Tried(r.next, n), OutboundIds(r.table));
    OutboundIdsBounded(r.table);
  }

  // ----- The operations -----

  ghost function Add(r: Routes, k: Key, target: nat, expected: nat, discard: bool)
    : (Routes, AddResult, Endpoint, Endpoint)
  {
    if k in r.table then
      (r.(table := r.table[k := Discard]), AddDuplicate, NO_ENDPOINT, EndpointOf(r.table[k]))
    else if |r.table| >= r.capacity then
      (r, AddFull, NO_ENDPOINT, NO_ENDPOINT)
    else if discard then
      (r.(table := r.table[k := Discard]), AddDiscard, NO_ENDPOINT, NO_ENDPOINT)
    else
      var (id, next) := Allocate(r.table, r.next, 0, r.capacity + 1);
      if id == 0 then (r.(next := next), AddIdUnavailable, NO_ENDPOINT, NO_ENDPOINT)
      else (Routes(r.capacity, next, r.table[k := Forwarding(target, id, expected, 0)]),
            AddReady, Endpoint(target, id), NO_ENDPOINT)
  }

  /** A tombstone is written over an existing entry, or into a free slot if there is one. */
  function PutDiscard(r: Routes, k: Key): Routes {
    if k in r.table || |r.table| < r.capacity then r.(table := r.table[k := Discard]) else r
  }

  function Remove(r: Routes, k: Key): Routes {
    r.(table := r.table - {k})
  }

  function Lookup(r: Routes, k: Key): Endpoint {
    if k in r.table then EndpointOf(r.table[k]) else NO_ENDPOINT
  }

  predicate IsLive(r: Routes, k: Key) {
    k in r.table && r.table[k].Forwarding?
  }

  function Quarantine(r: Routes, k: Key, keep: bool): (Routes, bool, Endpoint) {
    (if keep then PutDiscard(r, k) else Remove(r, k), IsLive(r, k), Lookup(r, k))
  }

  function AcceptChunk(r: Routes, k: Key, length: nat): (Routes, ChunkResult, Endpoint) {
    if k !in r.table then (PutDiscard(r, k), ChunkMissing, NO_ENDPOINT)
    else
      var e := r.table[k];
      if e.Discard? then (r, ChunkDiscard, NO_ENDPOINT)
      else if e.forwarded > e.expected || length > e.expected - e.forwarded then
        (PutDiscard(r, k), ChunkOverrun, EndpointOf(e))
      else
        (r.(table := r.table[k := e.(forwarded := e.forwarded + length)]), ChunkReady, EndpointOf(e))
  }

  function MarkForwardFailed(r: Routes, k: Key, outbound: Word): (Routes, bool) {
    if IsLive(r, k) && r.table[k].outbound == outbound then (PutDiscard(r, k), true) else (r, false)
  }

  function Finish(r: Routes, k: Key, validateSize: bool): (Routes, FinishResult, Endpoint) {
    if k !in r.table then (r, FinishMissing, NO_ENDPOINT)
    else
      var e := r.table[k];
      (Remove(r, k),
       if e.Discard? then FinishDiscard
       else if validateSize && e.forwarded != e.expected then FinishIncomplete
       else FinishReady,
       EndpointOf(e))
  }

  // ----- Aborting every route of a departed client -----

  datatype AbortAction = SendError(client: nat, outbound: Word) | NotifySender(client: nat)

  ghost predicate Names(table: map<Key, Entry>, k: Key, client: nat) {
    k in table && (k.sender == client || (table[k].Forwarding? && table[k].target == client))
  }

  /** The live routes for which the other endpoint must be told. */
  ghost predicate NeedsAction(table: map<Key, Entry>, k: Key, client: nat) {
    Live(table, k) && (k.sender == client) != (table[k].target == client)
    && table[k].target != INVALID_CLIENT && k.sender != INVALID_CLIENT
  }

  ghost function ActionFor(table: map<Key, Entry>, k: Key, client: nat): AbortAction
    requires Live(table, k)
  {
    if k.sender == client then SendError(table[k].target, table[k].outbound) else NotifySender(k.sender)
  }

  ghost predicate Tombstoned(table: map<Key, Entry>, k: Key, client: nat) {
    Live(table, k) && table[k].target == client && k.sender != client && k.sender != INVALID_CLIENT
  }

  ghost function AbortTable(table: map<Key, Entry>, client: nat): map<Key, Entry> {
    map k | k in table && (!Names(table, k, client) || Tombstoned(table, k, client)) ::
      if Tombstoned(table, k, client) then Discard else table[k]
  }

  /** An order in which the sweep may meet the keys that need an action: each exactly once. */
  ghost predicate AbortOrder(table: map<Key, Entry>, client: nat, order: seq<Key>) {
    && (forall i :: 0 <= i < |order| ==> NeedsAction(table, order[i], client))
    && (forall k :: NeedsAction(table, k, client) ==> k in order)
    && (forall i, j :: 0 <= i < j < |order| ==> order[i] != order[j])
  }

  // ----- Every operation touches one key -----

  lemma PutDiscardKey(r: Routes, k: Key)
    requires |r.table| <= r.capacity
    ensures OnlyKey(r.table, PutDiscard(r, k).table, k) && !Live(PutDiscard(r, k).table, k)
  {
  }

  lemma QuarantineKey(r: Routes, k: Key, keep: bool)
    requires |r.table| <= r.capacity
    ensures OnlyKey(r.table, Quarantine(r, k, keep).0.table, k) && !Live(Quarantine(r, k, keep).0.table, k)
  {
    PutDiscardKey(r, k);
  }

  lemma FinishKey(r: Routes, k: Key, validateSize: bool)
    ensures OnlyKey(r.table, Finish(r, k, validateSize).0.table, k) && !Live(Finish(r, k, validateSize).0.table, k)
  {
  }

  lemma AcceptChunkKey(r: Routes, k: Key, length: nat)
    requires |r.table| <= r.capacity
    ensures var r' := AcceptChunk(r, k, length).0;
            && OnlyKey(r.table, r'.table, k)
            && (Live(r'.table, k) ==> Live(r.table, k) && r'.table[k].target == r.table[k].target
                                      && r'.table[k].outbound == r.table[k].outbound)
  {
    PutDiscardKey(r, k);
  }

  lemma AddKey(r: Routes, k: Key, target: nat, expected: nat, discard: bool)
    ensures OnlyKey(r.table, Add(r, k, target, expected, discard).0.table, k)
    ensures Add(r, k, target, expected, discard).1 != AddReady ==> !Live(Add(r, k, target, expected, discard).0.table, k)
  {
  }

  // ----- What the operations keep -----

  lemma PutDiscardValid(r: Routes, k: Key)
    requires Valid(r)
    ensures Valid(PutDiscard(r, k))
  {
    var t := PutDiscard(r, k).table;
    assert forall l :: Live(t, l) ==> Live(r.table, l) && t[l] == r.table[l];
  }

  lemma RemoveValid(r: Routes, k: Key)
    requires Valid(r)
    ensures Valid(Remove(r, k))
  {
    var t := Remove(r, k).table;
    assert forall l :: l in t ==> l in r.table && t[l] == r.table[l];
    assert t.Keys == r.table.Keys - {k};
    CardinalityOfSubset(t.Keys, r.table.Keys);
  }

  /** Every operation keeps the table valid: live ids nonzero and distinct, nothing
      forwarded beyond the declared size, never more entries than slots. */
  lemma AddValid(r: Routes, k: Key, target: nat, expected: nat, discard: bool)
    requires Valid(r) && (discard || target != INVALID_CLIENT)
    ensures Valid(Add(r, k, target, expected, discard).0)
    ensures Add(r, k, target, expected, discard).1 != AddIdUnavailable
    ensures Add(r, k, target, expected, discard).1 == AddReady ==>
            !InUse(r.table, Add(r, k, target, expected, discard).2.outbound)
  {
    AllocationSucceeds(r);
    PutDiscardValid(r, k);
  }

  lemma QuarantineValid(r: Routes, k: Key, keep: bool)
    requires Valid(r)
    ensures Valid(Quarantine(r, k, keep).0)
  {
    PutDiscardValid(r, k);
    RemoveValid(r, k);
  }

  lemma AcceptChunkValid(r: Routes, k: Key, length: nat)
    requires Valid(r)
    ensures Valid(AcceptChunk(r, k, length).0)
  {
    PutDiscardValid(r, k);
    var t := AcceptChunk(r, k, length).0.table;
    if AcceptChunk(r, k, length).1 == ChunkReady {
      assert forall l :: Live(t, l) ==> Live(r.table, l) && t[l].outbound == r.table[l].outbound;
    }
  }

  lemma AbortValid(r: Routes, client: nat)
    requires Valid(r)
    ensures Valid(r.(table := AbortTable(r.table, client)))
  {
    var t := AbortTable(r.table, client);
    CardinalityOfSubset(t.Keys, r.table.Keys);
    assert forall l :: Live(t, l) ==> Live(r.table, l) && t[l] == r.table[l];
  }

  /** After the sweep no entry of the table names the client, and no other entry changed. */
  lemma AbortLeavesNoTrace(table: map<Key, Entry>, client: nat, k: Key)
    requires client != INVALID_CLIENT
    ensures !Names(AbortTable(table, client), k, client)
    ensures !Names(table, k, client) ==>
            (k in AbortTable(table, client) <==> k in table)
            && (k in table ==> AbortTable(table, client)[k] == table[k])
  {
  }

  /** When every client that the table mentions has gone, nothing is left. */
  lemma {:induction false} AllGoneMeansEmpty(table: map<Key, Entry>, clients: seq<nat>)
    requires forall k :: k in table ==> k.sender in clients
    ensures AbortAll(table, clients) == map[]
  {
    if clients == [] {
      assert table == map[];
    } else {
      var next := AbortTable(table, clients[0]);
      forall k | k in next ensures k.sender in clients[1..] {
        assert k in table && k.sender != clients[0];
      }
      AllGoneMeansEmpty(next, clients[1..]);
    }
  }

  ghost function AbortAll(table: map<Key, Entry>, clients: seq<nat>): map<Key, Entry> {
    if clients == [] then table else AbortAll(AbortTable(table, clients[0]), clients[1..])
  }
}
