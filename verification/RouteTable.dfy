/** The fixed slot table of server_file_routes.c: every operation scans and updates slots
    in place, and commutes with its version on the map of RouteSpec. */
module RouteTable {
  import opened Bytes
  import opened Counting
  import opened RouteSpec

  datatype Slot = Slot(
    active: bool, discard: bool, sender: nat, target: nat,
    source: nat, outbound: Word, expected: nat, forwarded: nat)

  const EMPTY_SLOT := Slot(false, false, 0, 0, 0, 0, 0, 0)

  function DiscardSlot(k: Key): Slot {
    Slot(true, true, k.sender, INVALID_CLIENT, k.source, 0, 0, 0)
  }

  function KeyOf(s: Slot): Key {
    Key(s.sender, s.source)
  }

  function EntryOf(s: Slot): Entry {
    if s.discard then Discard else Forwarding(s.target, s.outbound, s.expected, s.forwarded)
  }

  /** Slot sequence `s` stands for `table`; `at` says which slot holds each key. */
  ghost predicate Represents(s: seq<Slot>, table: map<Key, Entry>, at: map<Key, nat>) {
    && at.Keys == table.Keys
    && (forall k :: k in at ==> at[k] < |s| && s[at[k]].active && KeyOf(s[at[k]]) == k && EntryOf(s[at[k]]) == table[k])
    && (forall i :: 0 <= i < |s| && s[i].active ==> KeyOf(s[i]) in at && at[KeyOf(s[i])] == i)
    && (forall i :: 0 <= i < |s| && s[i].active && s[i].discard ==> s[i] == DiscardSlot(KeyOf(s[i])))
  }

  function Without<V>(m: map<Key, V>, s: Slot): map<Key, V> {
    if s.active then m - {KeyOf(s)} else m
  }

  function With<V>(m: map<Key, V>, s: Slot, v: V): map<Key, V> {
    if s.active then m[KeyOf(s) := v] else m
  }

  /** Writing one slot removes the key it held and inserts its new one. */
  lemma WriteSlot(s: seq<Slot>, table: map<Key, Entry>, at: map<Key, nat>, i: nat, x: Slot)
    requires Represents(s, table, at) && i < |s|
    requires x.active ==> KeyOf(x) !in Without(table, s[i])
    requires x.active && x.discard ==> x == DiscardSlot(KeyOf(x))
    ensures Represents(s[i := x], With(Without(table, s[i]), x, EntryOf(x)), With(Without(at, s[i]), x, i))
  {
  }

  lemma ActiveSlots(s: seq<Slot>, table: map<Key, Entry>, at: map<Key, nat>)
    requires Represents(s, table, at)
    ensures |table| == |Image(table.Keys, at)|
    ensures forall i :: i in Image(table.Keys, at) <==> 0 <= i < |s| && s[i].active
  {
    CountImage(table.Keys, at);
    forall i | 0 <= i < |s| && s[i].active ensures i in Image(table.Keys, at) {
      assert at[KeyOf(s[i])] == i;
    }
  }

  /** A free slot exists exactly while the map has fewer entries than there are slots. */
  lemma FreeSlots(s: seq<Slot>, table: map<Key, Entry>, at: map<Key, nat>)
    requires Represents(s, table, at)
    ensures |table| <= |s|
    ensures |table| < |s| <==> exists i :: 0 <= i < |s| && !s[i].active
  {
    ActiveSlots(s, table, at);
    SubsetOfIndices(Image(table.Keys, at), |s|);
  }

  // ----- The abort sweep, slot by slot -----

  predicate SlotNames(s: Slot, client: nat) {
    s.active && (s.sender == client || s.target == client)
  }

  /** The action emitted for one slot that names the departed client, if any. */
  function SlotAction(s: Slot, client: nat): (a: seq<AbortAction>)
    ensures |a| <= 1
  {
    if !SlotNames(s, client) || s.discard then []
    else if s.sender == client && s.target != INVALID_CLIENT && s.target != client then [SendError(s.target, s.outbound)]
    else if s.target == client && s.sender != INVALID_CLIENT && s.sender != client then [NotifySender(s.sender)]
    else []
  }

  /** The actions of the first n slots, in slot order. */
  ghost function SweepActions(s: seq<Slot>, n: nat, client: nat): seq<AbortAction>
    requires n <= |s|
  {
    if n == 0 then [] else SweepActions(s, n - 1, client) + SlotAction(s[n - 1], client)
  }

  /** The keys of those actions. */
  ghost function SweepKeys(s: seq<Slot>, n: nat, client: nat): seq<Key>
    requires n <= |s|
  {
    if n == 0 then []
    else SweepKeys(s, n - 1, client) + (if SlotAction(s[n - 1], client) != [] then [KeyOf(s[n - 1])] else [])
  }

  function Prefix<T>(s: seq<T>, limit: nat): seq<T> {
    if |s| <= limit then s else s[..limit]
  }

  /** The map when the sweep has passed the first n slots. */
  ghost function Swept(table: map<Key, Entry>, at: map<Key, nat>, n: nat, client: nat): map<Key, Entry>
    requires at.Keys == table.Keys
  {
    map k | k in table && (at[k] >= n || !Names(table, k, client) || Tombstoned(table, k, client)) ::
      if at[k] < n && Tombstoned(table, k, client) then Discard else table[k]
  }

  /** What the sweep of one slot does to the map. */
  ghost function AfterSlot(table: map<Key, Entry>, s: Slot, client: nat): map<Key, Entry> {
    if !SlotNames(s, client) then table
    else if Tombstoned(table, KeyOf(s), client) then table[KeyOf(s) := Discard]
    else table - {KeyOf(s)}
  }

  lemma SweepStep(s: seq<Slot>, table: map<Key, Entry>, at: map<Key, nat>, n: nat, client: nat)
    requires Represents(s, table, at) && n < |s| && client != INVALID_CLIENT
    ensures Swept(table, at, n + 1, client) == AfterSlot(Swept(table, at, n, client), s[n], client)
  {
    var k := KeyOf(s[n]);
    var now := Swept(table, at, n, client);
    if s[n].active {
      assert at[k] == n && table[k] == EntryOf(s[n]) && k in now && now[k] == table[k];
    } else {
      assert forall l :: l in at ==> at[l] != n;
    }
  }

  /** `order` and `actions` cover exactly the routes of the first n slots that need it. */
  ghost predicate Sorted(order: seq<Key>, at: map<Key, nat>, n: nat) {
    && (forall i :: 0 <= i < |order| ==> order[i] in at && at[order[i]] < n)
    && (forall i, j :: 0 <= i < j < |order| ==> at[order[i]] < at[order[j]])
  }

  ghost predicate Acting(order: seq<Key>, actions: seq<AbortAction>, table: map<Key, Entry>, client: nat) {
    && |actions| == |order|
    && (forall i :: 0 <= i < |order| ==>
          NeedsAction(table, order[i], client) && actions[i] == ActionFor(table, order[i], client))
  }

  ghost predicate Covers(order: seq<Key>, table: map<Key, Entry>, at: map<Key, nat>, n: nat, client: nat) {
    forall k :: NeedsAction(table, k, client) && k in at && at[k] < n ==> k in order
  }

  ghost predicate Sweeping(order: seq<Key>, actions: seq<AbortAction>, table: map<Key, Entry>, at: map<Key, nat>,
                           n: nat, client: nat) {
    Sorted(order, at, n) && Acting(order, actions, table, client) && Covers(order, table, at, n, client)
  }

  /** The sweep acts on exactly the routes that need it, each once, in slot order. */
  lemma {:induction false} SweepIsOrder(s: seq<Slot>, table: map<Key, Entry>, at: map<Key, nat>, n: nat, client: nat)
    requires Represents(s, table, at) && n <= |s| && client != INVALID_CLIENT
    ensures Sweeping(SweepKeys(s, n, client), SweepActions(s, n, client), table, at, n, client)
  {
    if n > 0 {
      var m: nat := n - 1;
      var order, actions := SweepKeys(s, m, client), SweepActions(s, m, client);
      SweepIsOrder(s, table, at, m, client);
      OrderStep(order, actions, s, table, at, m, client);
      assert SweepKeys(s, n, client) == order + if SlotAction(s[m], client) != [] then [KeyOf(s[m])] else [];
      assert SweepActions(s, n, client) == actions + SlotAction(s[m], client);
    }
  }

  lemma OrderStep(order: seq<Key>, actions: seq<AbortAction>,
                  s: seq<Slot>, table: map<Key, Entry>, at: map<Key, nat>, n: nat, client: nat)
    requires Represents(s, table, at) && n < |s| && client != INVALID_CLIENT
    requires Sweeping(order, actions, table, at, n, client)
    ensures var k := if SlotAction(s[n], client) != [] then [KeyOf(s[n])] else [];
            Sweeping(order + k, actions + SlotAction(s[n], client), table, at, n + 1, client)
  {
    SlotActionNeeded(s, table, at, n, client);
    if SlotAction(s[n], client) != [] {
      ExtendOrder(order, actions, table, at, n, client, KeyOf(s[n]));
    } else {
      SkipSlot(order, s, table, at, n, client);
      assert order + [] == order && actions + SlotAction(s[n], client) == actions;
    }
  }

  lemma SkipSlot(order: seq<Key>, s: seq<Slot>, table: map<Key, Entry>, at: map<Key, nat>, n: nat, client: nat)
    requires Represents(s, table, at) && n < |s|
    requires Sorted(order, at, n) && Covers(order, table, at, n, client)
    requires !(s[n].active && NeedsAction(table, KeyOf(s[n]), client))
    ensures Sorted(order, at, n + 1) && Covers(order, table, at, n + 1, client)
  {
    forall l | NeedsAction(table, l, client) && l in at && at[l] < n + 1 ensures l in order {
      assert s[at[l]].active && KeyOf(s[at[l]]) == l;
    }
  }

  lemma SweptStart(table: map<Key, Entry>, at: map<Key, nat>, client: nat)
    requires at.Keys == table.Keys
    ensures Swept(table, at, 0, client) == table
  {
  }

  lemma SweptEnd(s: seq<Slot>, table: map<Key, Entry>, at: map<Key, nat>, client: nat)
    requires Represents(s, table, at)
    ensures Swept(table, at, |s|, client) == AbortTable(table, client)
  {
  }

  lemma PrefixStep<T>(s: seq<T>, more: seq<T>, limit: nat)
    requires |more| <= 1
    ensures Prefix(s + more, limit) == Prefix(s, limit) + (if |Prefix(s, limit)| < limit then more else [])
  {
  }

  lemma ExtendOrder(order: seq<Key>, actions: seq<AbortAction>, table: map<Key, Entry>, at: map<Key, nat>,
                    n: nat, client: nat, k: Key)
    requires Sorted(order, at, n) && Acting(order, actions, table, client) && Covers(order, table, at, n, client)
    requires k in at && at[k] == n && NeedsAction(table, k, client)
    requires forall l :: l in at && at[l] == n ==> l == k
    ensures Sorted(order + [k], at, n + 1)
    ensures Acting(order + [k], actions + [ActionFor(table, k, client)], table, client)
    ensures Covers(order + [k], table, at, n + 1, client)
  {
  }

  lemma SlotActionNeeded(s: seq<Slot>, table: map<Key, Entry>, at: map<Key, nat>, n: nat, client: nat)
    requires Represents(s, table, at) && n < |s| && client != INVALID_CLIENT
    ensures SlotAction(s[n], client) != [] <==> s[n].active && NeedsAction(table, KeyOf(s[n]), client)
    ensures SlotAction(s[n], client) != [] ==> SlotAction(s[n], client) == [ActionFor(table, KeyOf(s[n]), client)]
  {
    if s[n].active {
      assert at[KeyOf(s[n])] == n && table[KeyOf(s[n])] == EntryOf(s[n]);
    }
  }

  lemma SweepAbortOrder(s: seq<Slot>, table: map<Key, Entry>, at: map<Key, nat>, client: nat)
    requires Represents(s, table, at) && client != INVALID_CLIENT
    ensures AbortOrder(table, client, SweepKeys(s, |s|, client))
  {
    SweepIsOrder(s, table, at, |s|, client);
  }

  class RouteTable {
    const capacity: Capacity
    const slots: array<Slot>
    var next: Word
    ghost var table: map<Key, Entry>
    ghost var at: map<Key, nat>

    /** The ghost map is what the slots say. (That the map is well formed is
        RouteSpec.Valid, which every operation keeps by the lemmas of RouteSpec.) */
    ghost predicate Valid()
      reads this, slots
    {
      Represents(slots[..], table, at) && slots.Length == capacity
    }

    ghost function View(): Routes
      reads this
    {
      Routes(capacity, next, table)
    }

    constructor (capacity: Capacity)
      ensures Valid() && fresh(slots)
      ensures View() == Routes(capacity, 1, map[])
    {
      this.capacity := capacity;
      slots := new Slot[capacity](i => EMPTY_SLOT);
      next := 1;
      table, at := map[], map[];
    }

    method Find(k: Key) returns (index: int)
      requires Valid()
      ensures -1 <= index < slots.Length
      ensures index >= 0 ==> slots[index].active && KeyOf(slots[index]) == k && k in table && table[k] == EntryOf(slots[index])
      ensures index == -1 <==> k !in table
    {
      for i := 0 to slots.Length
        invariant forall j :: 0 <= j < i && slots[j].active ==> KeyOf(slots[j]) != k
      {
        if slots[i].active && slots[i].sender == k.sender && slots[i].source == k.source {
          assert slots[..][i].active;
          return i;
        }
      }
      return -1;
    }

    method FindFree() returns (index: int)
      requires Valid()
      ensures -1 <= index < slots.Length
      ensures index >= 0 ==> !slots[index].active
      ensures index == -1 <==> |table| >= slots.Length
    {
      FreeSlots(slots[..], table, at);
      for i := 0 to slots.Length
        invariant forall j :: 0 <= j < i ==> slots[j].active
      {
        if !slots[i].active {
          assert !slots[..][i].active;
          return i;
        }
      }
      return -1;
    }

    /** Overwrite one slot: the only way the table ever changes. */
    method Put(index: nat, x: Slot)
      requires Valid() && index < slots.Length
      requires x.active ==> KeyOf(x) !in Without(table, slots[index])
      requires x.active && x.discard ==> x == DiscardSlot(KeyOf(x))
      modifies slots, `table, `at
      ensures Valid()
      ensures table == old(With(Without(table, slots[index]), x, EntryOf(x)))
      ensures slots[..] == old(slots[..])[index := x]
    {
      ghost var before := slots[..];
      WriteSlot(before, table, at, index, x);
      table, at := With(Without(table, slots[index]), x, EntryOf(x)), With(Without(at, slots[index]), x, index);
      slots[index] := x;
      assert slots[..] == before[index := x];
    }

    /** Overwrite the slot of key k by another slot of the same key. */
    method Replace(index: nat, k: Key, x: Slot)
      requires Valid() && index < slots.Length && slots[index].active && KeyOf(slots[index]) == k
      requires x.active && KeyOf(x) == k && (x.discard ==> x == DiscardSlot(k))
      modifies slots, `table, `at
      ensures Valid() && table == old(table)[k := EntryOf(x)]
      ensures slots[..] == old(slots[..])[index := x]
    {
      assert (table - {k})[k := EntryOf(x)] == table[k := EntryOf(x)] by {
        assert slots[..][index].active;
      }
      Put(index, x);
    }

    /** Replace the entry of a known key, or fill a free slot, by a tombstone. */
    method MakeDiscard(index: nat, k: Key)
      requires Valid() && index < slots.Length
      requires if slots[index].active then KeyOf(slots[index]) == k else k !in table
      modifies slots, `table, `at
      ensures Valid() && View() == PutDiscard(old(View()), k)
      ensures slots[..] == old(slots[..])[index := DiscardSlot(k)]
    {
      if slots[index].active {
        assert slots[..][index].active;
        Replace(index, k, DiscardSlot(k));
      } else {
        FreeSlots(slots[..], table, at);
        assert !slots[..][index].active;
        Put(index, DiscardSlot(k));
      }
    }

    method Clear(index: nat)
      requires Valid() && index < slots.Length && slots[index].active
      modifies slots, `table, `at
      ensures Valid() && View() == Remove(old(View()), old(KeyOf(slots[index])))
      ensures slots[..] == old(slots[..])[index := EMPTY_SLOT]
    {
      Put(index, EMPTY_SLOT);
    }

    method IdInUse(candidate: Word) returns (inUse: bool)
      requires Valid()
      ensures inUse == InUse(table, candidate)
    {
      for i := 0 to slots.Length
        invariant forall j :: 0 <= j < i && slots[j].active && !slots[j].discard ==> slots[j].outbound != candidate
      {
        if slots[i].active && !slots[i].discard && slots[i].outbound == candidate {
          assert slots[..][i].active;
          assert Live(table, KeyOf(slots[i]));
          return true;
        }
      }
      return false;
    }

    /** Advance the wrapping counter past the next nonzero value. */
    method TakeCandidate() returns (candidate: Word)
      modifies `next
      ensures candidate == Candidate(old(next), 0) && next == After(candidate)
    {
      candidate := next;
      next := (next + 1) % TWO32;
      if candidate == 0 {
        candidate := next;
        next := (next + 1) % TWO32;
      }
    }

    method AllocateId() returns (id: Word)
      requires Valid()
      modifies `next
      ensures Valid()
      ensures (id, next) == Allocate(table, old(next), 0, slots.Length + 1)
    {
      var start := next;
      for attempt := 0 to slots.Length + 1
        invariant attempt <= slots.Length ==> Candidate(next, 0) == Candidate(start, attempt)
        invariant attempt > 0 ==> next == After(Candidate(start, attempt - 1))
        invariant Allocate(table, start, 0, slots.Length + 1) == Allocate(table, start, attempt, slots.Length + 1)
      {
        var candidate := TakeCandidate();
        CandidateStep(start, attempt);
        var inUse := IdInUse(candidate);
        if !inUse {
          return candidate;
        }
      }
      return 0;
    }

    method Add(k: Key, target: nat, expected: nat, discard: bool)
      returns (result: AddResult, endpoint: Endpoint, replaced: Endpoint)
      requires Valid()
      modifies this, slots
      ensures Valid()
      ensures (View(), result, endpoint, replaced) == RouteSpec.Add(old(View()), k, target, expected, discard)
    {
      endpoint, replaced := NO_ENDPOINT, NO_ENDPOINT;
      var index := Find(k);
      if index >= 0 {
        if !slots[index].discard {
          replaced := Endpoint(slots[index].target, slots[index].outbound);
        }
        MakeDiscard(index, k);
        return AddDuplicate, endpoint, replaced;
      }
      index := FindFree();
      if index < 0 {
        return AddFull, endpoint, replaced;
      }
      if discard {
        MakeDiscard(index, k);
        return AddDiscard, endpoint, replaced;
      }
      result, endpoint := AddForwarding(index, k, target, expected);
    }

    method AddForwarding(index: nat, k: Key, target: nat, expected: nat)
      returns (result: AddResult, endpoint: Endpoint)
      requires Valid() && index < slots.Length && !slots[index].active && k !in table && |table| < slots.Length
      modifies this, slots
      ensures Valid()
      ensures (View(), result, endpoint, NO_ENDPOINT) == RouteSpec.Add(old(View()), k, target, expected, false)
    {
      var id := AllocateId();
      if id == 0 {
        return AddIdUnavailable, NO_ENDPOINT;
      }
      Put(index, Slot(true, false, k.sender, target, k.source, id, expected, 0));
      return AddReady, Endpoint(target, id);
    }

    method Quarantine(k: Key, keep: bool) returns (wasForwarding: bool, previous: Endpoint)
      requires Valid()
      modifies slots, `table, `at
      ensures Valid()
      ensures (View(), wasForwarding, previous) == RouteSpec.Quarantine(old(View()), k, keep)
    {
      wasForwarding, previous := false, NO_ENDPOINT;
      var index := Find(k);
      if index >= 0 {
        if !slots[index].discard {
          previous := Endpoint(slots[index].target, slots[index].outbound);
          wasForwarding := true;
        }
        if keep {
          MakeDiscard(index, k);
        } else {
          Clear(index);
        }
      } else if keep {
        index := FindFree();
        if index >= 0 {
          MakeDiscard(index, k);
        }
      } else {
        assert table - {k} == table;
      }
    }

    method AcceptChunk(k: Key, length: nat) returns (result: ChunkResult, endpoint: Endpoint)
      requires Valid()
      modifies slots, `table, `at
      ensures Valid()
      ensures (View(), result, endpoint) == RouteSpec.AcceptChunk(old(View()), k, length)
    {
      var index := Find(k);
      if index >= 0 {
        result, endpoint := AcceptAt(index, k, length);
        return;
      }
      index := FindFree();
      if index >= 0 {
        MakeDiscard(index, k);
      }
      return ChunkMissing, NO_ENDPOINT;
    }

    /** A chunk for a known key. */
    method AcceptAt(index: nat, k: Key, length: nat) returns (result: ChunkResult, endpoint: Endpoint)
      requires Valid() && index < slots.Length && slots[index].active && KeyOf(slots[index]) == k
      requires k in table && table[k] == EntryOf(slots[index])
      modifies slots, `table, `at
      ensures Valid()
      ensures (View(), result, endpoint) == RouteSpec.AcceptChunk(old(View()), k, length)
    {
      var s := slots[index];
      if s.discard {
        return ChunkDiscard, NO_ENDPOINT;
      }
      endpoint := Endpoint(s.target, s.outbound);
      if s.forwarded > s.expected || length > s.expected - s.forwarded {
        MakeDiscard(index, k);
        return ChunkOverrun, endpoint;
      }
      Replace(index, k, s.(forwarded := s.forwarded + length));
      return ChunkReady, endpoint;
    }

    method MarkForwardFailed(k: Key, outbound: Word) returns (converted: bool)
      requires Valid()
      modifies slots, `table, `at
      ensures Valid()
      ensures (View(), converted) == RouteSpec.MarkForwardFailed(old(View()), k, outbound)
    {
      converted := false;
      var index := Find(k);
      if index >= 0 && !slots[index].discard && slots[index].outbound == outbound {
        MakeDiscard(index, k);
        converted := true;
      }
    }

    method Finish(k: Key, validateSize: bool) returns (result: FinishResult, endpoint: Endpoint)
      requires Valid()
      modifies slots, `table, `at
      ensures Valid()
      ensures (View(), result, endpoint) == RouteSpec.Finish(old(View()), k, validateSize)
    {
      endpoint := NO_ENDPOINT;
      var index := Find(k);
      if index < 0 {
        return FinishMissing, endpoint;
      }
      var s := slots[index];
      Clear(index);
      if s.discard {
        return FinishDiscard, endpoint;
      }
      endpoint := Endpoint(s.target, s.outbound);
      return if validateSize && s.forwarded != s.expected then FinishIncomplete else FinishReady, endpoint;
    }

    /** Sweep the slots once, keeping the first `limit` actions. */
    method AbortClient(client: nat, limit: nat) returns (actions: seq<AbortAction>)
      requires Valid()
      modifies slots, `table, `at
      ensures Valid()
      ensures client == INVALID_CLIENT ==> actions == [] && table == old(table)
      ensures client != INVALID_CLIENT ==>
                && table == AbortTable(old(table), client)
                && actions == Prefix(old(SweepActions(slots[..], slots.Length, client)), limit)
    {
      if client == INVALID_CLIENT {
        return [];
      }
      SweptEnd(slots[..], table, at, client);
      actions := SweepAll(client, limit);
    }

    method SweepAll(client: nat, limit: nat) returns (actions: seq<AbortAction>)
      requires Valid() && client != INVALID_CLIENT
      modifies slots, `table, `at
      ensures Valid()
      ensures table == old(Swept(table, at, slots.Length, client))
      ensures actions == Prefix(old(SweepActions(slots[..], slots.Length, client)), limit)
    {
      actions := [];
      ghost var before, table0, at0 := slots[..], table, at;
      SweptStart(table0, at0, client);
      for i := 0 to slots.Length
        invariant Valid()
        invariant slots[i..] == before[i..]
        invariant table == Swept(table0, at0, i, client)
        invariant actions == Prefix(SweepActions(before, i, client), limit)
      {
        actions := SweepAt(i, client, limit, actions, before, table0, at0);
      }
    }

    /** One turn of the sweep. */
    method SweepAt(i: nat, client: nat, limit: nat, actions: seq<AbortAction>,
                   ghost before: seq<Slot>, ghost table0: map<Key, Entry>, ghost at0: map<Key, nat>)
      returns (more: seq<AbortAction>)
      requires Valid() && i < slots.Length == |before| && client != INVALID_CLIENT
      requires Represents(before, table0, at0) && slots[i..] == before[i..]
      requires table == Swept(table0, at0, i, client)
      requires actions == Prefix(SweepActions(before, i, client), limit)
      modifies slots, `table, `at
      ensures Valid() && slots[i + 1..] == before[i + 1..]
      ensures table == Swept(table0, at0, i + 1, client)
      ensures more == Prefix(SweepActions(before, i + 1, client), limit)
    {
      SweepStep(before, table0, at0, i, client);
      PrefixStep(SweepActions(before, i, client), SlotAction(slots[i], client), limit);
      assert slots[i] == slots[i..][0] == before[i];
      assert before[i + 1..] == before[i..][1..] == slots[i + 1..];
      more := actions + (if |actions| < limit then SlotAction(slots[i], client) else []);
      SweepSlot(i, client);
    }

    /** What the sweep does to one slot. */
    method SweepSlot(i: nat, client: nat)
      requires Valid() && i < slots.Length
      modifies slots, `table, `at
      ensures Valid() && slots[i + 1..] == old(slots[i + 1..])
      ensures table == old(AfterSlot(table, slots[i], client))
    {
      var s := slots[i];
      if SlotNames(s, client) {
        assert slots[..][i].active;
        if !s.discard && s.target == client && s.sender != INVALID_CLIENT && s.sender != client {
          MakeDiscard(i, KeyOf(s));
        } else {
          Clear(i);
        }
      }
    }
  }
}
