/** The slots of client_file_receiver.c: every frame updates them in place and commutes
    with its version on the map of InboxSpec. */
module Receiver {
  import opened Bytes
  import opened Counting
  import opened FileProtocol
  import opened FileCrypto
  import opened Sessions
  import opened InboxSpec

  datatype Slot = Slot(active: bool, id: Word, expected: nat, received: nat, sender: seq<Byte>, filename: Name, temp: Name)

  const EMPTY_SLOT := Slot(false, 0, 0, 0, [], [], [])

  /** A slot that has been claimed and knows nothing but its id. */
  function Claimed(id: Word): Slot {
    Slot(true, id, 0, 0, [], [], [])
  }

  function IncomingOf(s: Slot): Incoming {
    Incoming(s.sender, s.filename, s.expected, s.received, s.temp)
  }

  /** Slot sequence `s` stands for `active`; `at` says which slot holds each id. */
  ghost predicate Represents(s: seq<Slot>, active: map<Word, Incoming>, at: map<Word, nat>) {
    && at.Keys == active.Keys
    && (forall id :: id in at ==> at[id] < |s| && s[at[id]].active && s[at[id]].id == id && IncomingOf(s[at[id]]) == active[id])
    && (forall i :: 0 <= i < |s| && s[i].active ==> s[i].id in at && at[s[i].id] == i)
  }

  lemma FillSlot(s: seq<Slot>, active: map<Word, Incoming>, at: map<Word, nat>, i: nat, x: Slot)
    requires Represents(s, active, at) && i < |s| && x.active
    requires if s[i].active then x.id == s[i].id else x.id !in active
    ensures Represents(s[i := x], active[x.id := IncomingOf(x)], at[x.id := i])
  {
  }

  lemma ClearSlot(s: seq<Slot>, active: map<Word, Incoming>, at: map<Word, nat>, i: nat)
    requires Represents(s, active, at) && i < |s| && s[i].active
    ensures Represents(s[i := EMPTY_SLOT], active - {s[i].id}, at - {s[i].id})
  {
  }

  lemma ActiveSlots(s: seq<Slot>, active: map<Word, Incoming>, at: map<Word, nat>)
    requires Represents(s, active, at)
    ensures |active| == |Image(active.Keys, at)|
    ensures forall i :: i in Image(active.Keys, at) <==> 0 <= i < |s| && s[i].active
  {
    CountImage(active.Keys, at);
    forall i | 0 <= i < |s| && s[i].active ensures i in Image(active.Keys, at) {
      assert at[s[i].id] == i;
    }
  }

  lemma FreeSlots(s: seq<Slot>, active: map<Word, Incoming>, at: map<Word, nat>)
    requires Represents(s, active, at)
    ensures |active| < |s| <==> exists i :: 0 <= i < |s| && !s[i].active
  {
    ActiveSlots(s, active, at);
    SubsetOfIndices(Image(active.Keys, at), |s|);
  }

  /** The temporaries of the first n slots. */
  ghost function SlotTemps(s: seq<Slot>, n: nat): set<Name>
    requires n <= |s|
  {
    set i | 0 <= i < n && s[i].active :: s[i].temp
  }

  function TempOf(s: Slot): set<Name> {
    if s.active then {s.temp} else {}
  }

  function Emptied(s: Slot): Slot {
    if s.active then EMPTY_SLOT else s
  }

  /** The first n slots have been emptied. */
  ghost predicate Cleaned(before: seq<Slot>, now: seq<Slot>, n: nat) {
    && |now| == |before|
    && (forall j :: 0 <= j < |now| && n <= j ==> now[j] == before[j])
    && (forall j :: 0 <= j < |now| && j < n ==> !now[j].active)
  }

  lemma CleanedStep(before: seq<Slot>, now: seq<Slot>, n: nat)
    requires Cleaned(before, now, n) && n < |now|
    ensures before[n] == now[n] && Cleaned(before, now[n := Emptied(now[n])], n + 1)
    ensures SlotTemps(before, n + 1) == SlotTemps(before, n) + TempOf(now[n])
  {
    SlotTempsStep(before, n);
  }

  lemma SlotTempsStep(s: seq<Slot>, n: nat)
    requires n < |s|
    ensures SlotTemps(s, n + 1) == SlotTemps(s, n) + TempOf(s[n])
  {
  }

  lemma NoneActive(s: seq<Slot>, active: map<Word, Incoming>, at: map<Word, nat>)
    requires Represents(s, active, at) && forall j :: 0 <= j < |s| ==> !s[j].active
    ensures active == map[]
  {
    assert forall id :: id in at ==> at[id] < |s|;
    assert active.Keys == {};
  }

  lemma SweptAll(start: Inbox, now: Inbox, stuck: set<Name>)
    requires Swept(start, now, Temps(start), stuck) && now.active == map[]
    ensures now == Cleanup(start, stuck)
  {
  }

  lemma SlotTempsAll(s: seq<Slot>, b: Inbox, at: map<Word, nat>)
    requires Represents(s, b.active, at)
    ensures SlotTemps(s, |s|) == Temps(b)
  {
    forall n | n in Temps(b) ensures n in SlotTemps(s, |s|) {
      var id :| id in b.active && b.active[id].temp == n;
      assert s[at[id]].temp == n;
    }
    forall n | n in SlotTemps(s, |s|) ensures n in Temps(b) {
      var i :| 0 <= i < |s| && s[i].active && s[i].temp == n;
      assert b.active[s[i].id].temp == n;
    }
  }

  /** The state of a cleanup that has dealt with the temporaries in `done`. */
  ghost predicate Swept(start: Inbox, now: Inbox, done: set<Name>, stuck: set<Name>) {
    && now.capacity == start.capacity && now.kept == start.kept
    && now.files == start.files - (done - stuck) && now.leaked == start.leaked + done * stuck
  }

  lemma SweptMore(start: Inbox, now: Inbox, done: set<Name>, stuck: set<Name>, temp: Name)
    requires Swept(start, now, done, stuck)
    ensures temp in stuck ==> now.files == start.files - (done + {temp} - stuck)
                              && now.leaked + {temp} == start.leaked + (done + {temp}) * stuck
    ensures temp !in stuck ==> now.files - {temp} == start.files - (done + {temp} - stuck)
                               && now.leaked == start.leaked + (done + {temp}) * stuck
  {
    if temp in stuck {
      assert done + {temp} - stuck == done - stuck && (done + {temp}) * stuck == done * stuck + {temp};
    } else {
      assert done + {temp} - stuck == (done - stuck) + {temp} && (done + {temp}) * stuck == done * stuck;
    }
  }

  /** A claim that is given up or overwritten leaves no trace. */
  lemma ClaimLeavesNoTrace(before: map<Word, Incoming>, id: Word, claim: Incoming, x: Incoming)
    requires id !in before
    ensures before[id := claim] - {id} == before && before[id := claim][id := x] == before[id := x]
  {
  }

  /** Take an envelope apart at fixed offsets. */
  method DecryptEnvelope(box: Box, filename: seq<Byte>, encrypted: seq<Byte>, secret: Secret) returns (data: Option<seq<Byte>>)
    requires Lawful(box) && AcceptableSize(filename, |encrypted|)
    ensures data == OpenEnvelope(box, filename, encrypted, secret)
  {
    if encrypted[..MAGIC_SIZE] != MAGIC {
      return None;
    }
    var senderKey := encrypted[MAGIC_SIZE..MAGIC_SIZE + PUBLIC_KEY_SIZE];
    var nonce := encrypted[MAGIC_SIZE + PUBLIC_KEY_SIZE..HEADER_SIZE];
    var unsealed := box.open(encrypted[HEADER_SIZE..], nonce, senderKey, secret);
    if unsealed.None? {
      return None;
    }
    var plaintext := unsealed.value;
    var plaintextLength: nat := |encrypted| - HEADER_SIZE - MAC_SIZE;
    var filenameLength := Read16(plaintext, MAGIC_SIZE);
    if plaintext[..MAGIC_SIZE] != MAGIC || filenameLength != |filename| || filenameLength > plaintextLength - METADATA_SIZE {
      return None;
    }
    var dataOffset := METADATA_SIZE + filenameLength;
    if plaintext[METADATA_SIZE..dataOffset] != filename {
      return None;
    }
    assert plaintext[dataOffset..plaintextLength] == plaintext[dataOffset..];
    return Some(plaintext[dataOffset..plaintextLength]);
  }

  class Receiver {
    const slots: array<Slot>
    var files: map<Name, seq<Byte>>
    ghost var active: map<Word, Incoming>
    ghost var at: map<Word, nat>
    ghost var kept: map<Name, seq<Byte>>
    ghost var leaked: set<Name>

    ghost predicate Valid()
      reads this, slots
    {
      Represents(slots[..], active, at)
    }

    ghost function View(): Inbox
      reads this
    {
      Inbox(slots.Length, active, files, kept, leaked)
    }

    constructor (capacity: nat, files: map<Name, seq<Byte>>)
      ensures Valid() && fresh(slots) && View() == Start(capacity, files)
    {
      slots := new Slot[capacity](_ => EMPTY_SLOT);
      this.files := files;
      active, at, kept, leaked := map[], map[], files, {};
    }

    method FindIncoming(id: Word) returns (index: int)
      requires Valid()
      ensures -1 <= index < slots.Length
      ensures index >= 0 ==> slots[index].active && slots[index].id == id && id in active && IncomingOf(slots[index]) == active[id]
      ensures index == -1 <==> id !in active
    {
      for i := 0 to slots.Length
        invariant forall j :: 0 <= j < i && slots[j].active ==> slots[j].id != id
      {
        if slots[i].active && slots[i].id == id {
          assert slots[..][i].active;
          return i;
        }
      }
      return -1;
    }

    /** Claim a free slot for a new transfer; none when the id is known or all are taken. */
    method CreateIncoming(id: Word) returns (index: int)
      requires Valid()
      modifies slots, `active, `at
      ensures Valid() && -1 <= index < slots.Length
      ensures index == -1 <==> id in old(active) || |old(active)| >= slots.Length
      ensures index == -1 ==> active == old(active)
      ensures index >= 0 ==> slots[index] == Claimed(id) && active == old(active)[id := IncomingOf(Claimed(id))]
    {
      var known := FindIncoming(id);
      if known != -1 {
        return -1;
      }
      index := FindFree();
      if index >= 0 {
        Fill(index, Claimed(id));
      }
    }

    method FindFree() returns (index: int)
      requires Valid()
      ensures -1 <= index < slots.Length
      ensures index >= 0 ==> !slots[index].active
      ensures index == -1 <==> |active| >= slots.Length
    {
      FreeSlots(slots[..], active, at);
      for i := 0 to slots.Length
        invariant forall j :: 0 <= j < i ==> slots[j].active
      {
        if !slots[i].active {
          assert !slots[..][i].active;
          return i;
        }
      }
      return -1;
    }

    method Fill(index: nat, x: Slot)
      requires Valid() && index < slots.Length && x.active
      requires if slots[index].active then x.id == slots[index].id else x.id !in active
      modifies slots, `active, `at
      ensures Valid() && active == old(active)[x.id := IncomingOf(x)]
      ensures slots[..] == old(slots[..])[index := x]
    {
      ghost var before := slots[..];
      FillSlot(before, active, at, index, x);
      active, at := active[x.id := IncomingOf(x)], at[x.id := index];
      slots[index] := x;
      assert slots[..] == before[index := x];
    }

    method Clear(index: nat)
      requires Valid() && index < slots.Length && slots[index].active
      modifies slots, `active, `at
      ensures Valid() && active == old(active) - {old(slots[index].id)}
      ensures slots[..] == old(slots[..])[index := EMPTY_SLOT]
    {
      ghost var before := slots[..];
      ClearSlot(before, active, at, index);
      active, at := active - {slots[index].id}, at - {slots[index].id};
      slots[index] := EMPTY_SLOT;
      assert slots[..] == before[index := EMPTY_SLOT];
    }

    method WriteFile(name: Name, contents: seq<Byte>)
      requires Valid()
      modifies `files
      ensures Valid() && View() == old(View()).(files := old(files)[name := contents])
    {
      files := files[name := contents];
    }

    method RemoveFile(name: Name)
      requires Valid()
      modifies `files
      ensures Valid() && View() == old(View()).(files := old(files) - {name})
    {
      files := files - {name};
    }

    method UnlinkTemp(temp: Name, env: Env)
      requires Valid()
      modifies `files, `leaked
      ensures Valid() && View() == Unlink(old(View()), temp, env)
    {
      if temp in env.stuck {
        WriteFile(temp, env.junk);
        leaked := leaked + {temp};
      } else {
        RemoveFile(temp);
      }
    }

    method DiscardIncoming(index: nat, env: Env)
      requires Valid() && index < slots.Length && slots[index].active
      requires slots[index].id in active && IncomingOf(slots[index]) == active[slots[index].id]
      modifies this, slots
      ensures Valid() && View() == Discard(old(View()), old(slots[index].id), env)
    {
      var temp := slots[index].temp;
      Clear(index);
      UnlinkTemp(temp, env);
    }

    /** Give up a claimed slot that never got a temporary of its own. If mkstemp left a name
        in its path, that name is unlinked. */
    method AbandonIncoming(index: nat, leftover: Name, env: Env, ghost before: map<Word, Incoming>)
      requires Valid() && index < slots.Length && slots[index].active && leftover in {[], env.leftover}
      requires slots[index].id !in before && active == before[slots[index].id := IncomingOf(slots[index])]
      modifies this, slots
      ensures Valid()
      ensures View() == var b := old(View()).(active := before); if leftover == [] then b else UnlinkLeftover(b, env)
    {
      ClaimLeavesNoTrace(before, slots[index].id, IncomingOf(slots[index]), IncomingOf(slots[index]));
      Clear(index);
      if leftover != [] && leftover !in env.stuck {
        RemoveFile(leftover);
        leaked := leaked - {leftover};
      }
    }

    method ReceiveBegin(begin: Begin, env: Env)
      requires Valid()
      modifies this, slots
      ensures Valid() && View() == InboxSpec.ReceiveBegin(old(View()), begin, env)
    {
      var overhead := OVERHEAD + |begin.filename|;
      if begin.size < overhead || begin.size - overhead > PLAINTEXT_MAX_SIZE || !env.directoryOk {
        return;
      }
      var index := CreateIncoming(begin.id);
      if index >= 0 {
        StageIncoming(index, begin, env, old(active));
      }
    }

    /** The slot is claimed; give it a temporary, or give it up again. */
    method StageIncoming(index: nat, begin: Begin, env: Env, ghost before: map<Word, Incoming>)
      requires Valid() && index < slots.Length && slots[index] == Claimed(begin.id)
      requires AcceptableSize(begin.filename, begin.size) && env.directoryOk
      requires begin.id !in before && |before| < slots.Length && active == before[begin.id := IncomingOf(Claimed(begin.id))]
      modifies this, slots
      ensures Valid() && View() == InboxSpec.ReceiveBegin(old(View()).(active := before), begin, env)
    {
      if begin.filename in files || !env.statOk {
        AbandonIncoming(index, [], env, before);
      } else if env.temp.None? {
        AbandonIncoming(index, env.leftover, env, before);
      } else {
        OpenTemp(index, begin, env.temp.value, env, before);
      }
    }

    /** mkstemp has made a temporary; fdopen may still fail. */
    method OpenTemp(index: nat, begin: Begin, temp: Name, env: Env, ghost before: map<Word, Incoming>)
      requires Valid() && index < slots.Length && slots[index] == Claimed(begin.id)
      requires begin.id !in before && active == before[begin.id := IncomingOf(Claimed(begin.id))]
      modifies this, slots
      ensures Valid()
      ensures View() == if env.openOk then Opened(old(View()).(active := before), begin, temp)
                        else Unlink(old(View()).(active := before), temp, env)
    {
      var x := Slot(true, begin.id, begin.size, 0, begin.peer, begin.filename, temp);
      ClaimLeavesNoTrace(before, begin.id, IncomingOf(Claimed(begin.id)), IncomingOf(x));
      if env.openOk {
        Fill(index, x);
        WriteFile(temp, []);
      } else {
        Clear(index);
        UnlinkTemp(temp, env);
      }
    }

    method ReceiveChunk(chunk: Chunk, env: Env)
      requires Valid() && Staged(View())
      modifies this, slots
      ensures Valid() && View() == InboxSpec.ReceiveChunk(old(View()), chunk, env)
    {
      var index := FindIncoming(chunk.id);
      if index == -1 {
        return;
      }
      var s := slots[index];
      if s.received > s.expected || |chunk.data| > s.expected - s.received || !env.writeOk {
        DiscardIncoming(index, env);
        return;
      }
      assert ValidIncoming(View(), chunk.id);
      Write(index, chunk.data);
    }

    method Write(index: nat, data: seq<Byte>)
      requires Valid() && index < slots.Length && slots[index].active && slots[index].temp in files
      requires slots[index].id in active && IncomingOf(slots[index]) == active[slots[index].id]
      modifies this, slots
      ensures Valid() && View() == Extended(old(View()), old(slots[index].id), data)
    {
      var s := slots[index];
      Fill(index, s.(received := s.received + |data|));
      WriteFile(s.temp, files[s.temp] + data);
    }

    method ReceiveEnd(id: Word, env: Env, box: Box, secret: Secret)
      requires Valid() && Staged(View()) && Lawful(box)
      modifies this, slots
      ensures Valid() && View() == InboxSpec.ReceiveEnd(old(View()), id, env, box, secret)
    {
      var index := FindIncoming(id);
      if index == -1 {
        return;
      }
      var s := slots[index];
      if s.received != s.expected {
        DiscardIncoming(index, env);
        return;
      }
      SaveOrDiscard(index, id, env, box, secret);
    }

    /** All bytes are there: decrypt and save, or give up. */
    method SaveOrDiscard(index: nat, id: Word, env: Env, box: Box, secret: Secret)
      requires Valid() && Staged(View()) && Lawful(box)
      requires index < slots.Length && slots[index].active && slots[index].id == id
      requires id in active && IncomingOf(slots[index]) == active[id] && active[id].received == active[id].expected
      modifies this, slots
      ensures Valid() && View() == InboxSpec.ReceiveEnd(old(View()), id, env, box, secret)
    {
      var s := slots[index];
      var data := DecryptStaged(s, id, env, box, secret);
      if data.None? || !env.closeOk || !env.linkOk || s.filename in files {
        DiscardIncoming(index, env);
      } else {
        SaveAs(s.filename, data.value);
        DiscardIncoming(index, env.(junk := data.value));
      }
    }

    method DecryptStaged(s: Slot, id: Word, env: Env, box: Box, secret: Secret) returns (data: Option<seq<Byte>>)
      requires Staged(View()) && Lawful(box)
      requires id in active && IncomingOf(s) == active[id] && active[id].received == active[id].expected
      ensures data == Decrypted(View(), id, env, box, secret)
    {
      assert ValidIncoming(View(), id);
      if !env.decryptOk {
        return None;
      }
      data := DecryptEnvelope(box, s.filename, files[s.temp], secret);
    }

    method SaveAs(name: Name, data: seq<Byte>)
      requires Valid()
      modifies `files, `kept
      ensures Valid() && View() == Saved(old(View()), name, data)
    {
      WriteFile(name, data);
      kept := kept[name := data];
    }

    method ReceiveError(id: Word, env: Env)
      requires Valid()
      modifies this, slots
      ensures Valid() && View() == InboxSpec.ReceiveError(old(View()), id, env)
    {
      var index := FindIncoming(id);
      if index != -1 {
        DiscardIncoming(index, env);
      }
    }

    /** handle_incoming_file_frame: an undecodable frame changes nothing. */
    method HandleFrame(f: Frame, env: Env, box: Box, secret: Secret)
      requires Valid() && Staged(View()) && Lawful(box)
      modifies this, slots
      ensures Valid() && View() == Handle(old(View()), Meaning(f), env, box, secret)
    {
      HandleEvent(Meaning(f), env, box, secret);
    }

    method HandleEvent(e: Event, env: Env, box: Box, secret: Secret)
      requires Valid() && Staged(View()) && Lawful(box)
      modifies this, slots
      ensures Valid() && View() == Handle(old(View()), e, env, box, secret)
    {
      match e
      case BeginEvent(begin) => ReceiveBegin(begin, env);
      case ChunkEvent(chunk) => ReceiveChunk(chunk, env);
      case EndEvent(id) => ReceiveEnd(id, env, box, secret);
      case ErrorEvent(id) => ReceiveError(id, env);
      case OtherEvent =>
    }

    method CleanupIncoming(stuck: set<Name>)
      requires Valid()
      modifies this, slots
      ensures Valid() && View() == Cleanup(old(View()), stuck)
    {
      ghost var before, start := slots[..], View();
      SlotTempsAll(before, start, at);
      for i := 0 to slots.Length
        invariant Valid() && Cleaned(before, slots[..], i)
        invariant Swept(start, View(), SlotTemps(before, i), stuck)
      {
        CleanedStep(before, slots[..], i);
        CleanupSlot(i, stuck, start, SlotTemps(before, i));
      }
      NoneActive(slots[..], active, at);
      SweptAll(start, View(), stuck);
    }

    method CleanupSlot(i: nat, stuck: set<Name>, ghost start: Inbox, ghost done: set<Name>)
      requires Valid() && i < slots.Length && Swept(start, View(), done, stuck)
      modifies this, slots
      ensures Valid() && slots[..] == old(slots[..])[i := Emptied(old(slots[i]))]
      ensures Swept(start, View(), done + old(TempOf(slots[i])), stuck)
    {
      if slots[i].active {
        var temp := slots[i].temp;
        SweptMore(start, View(), done, stuck, temp);
        Clear(i);
        CleanupTemp(temp, stuck);
      } else {
        assert done + {} == done;
      }
    }

    method CleanupTemp(temp: Name, stuck: set<Name>)
      requires Valid()
      modifies `files, `leaked
      ensures Valid()
      ensures View() == if temp in stuck then old(View()).(leaked := old(leaked) + {temp})
                        else old(View()).(files := old(files) - {temp})
    {
      if temp in stuck {
        leaked := leaked + {temp};
      } else {
        RemoveFile(temp);
      }
    }
  }
}
