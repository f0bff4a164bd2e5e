/** The fixed client array of client_manager.c: slots are reused in place, and every
    operation commutes with its version on the map of RegistrySpec. */
module Registry {
  import opened Bytes
  import opened Counting
  import opened FileProtocol
  import Spec = RegistrySpec

  datatype Slot = Slot(
    active: bool, ready: bool, id: nat, name: seq<Byte>, hasKey: bool, key: seq<Byte>,
    queue: seq<Frame>, count: nat, failed: bool)

  const EMPTY_SLOT := Slot(false, false, 0, [], false, [], [], 0, false)

  function ClientOf(s: Slot): Spec.Client {
    Spec.Client(s.name, s.ready, s.failed, if s.hasKey then Some(s.key) else None, s.queue)
  }

  /** Slot sequence `s` stands for `clients`; `at` says which slot holds each id. A slot
      that is not in use keeps no queue, no failure and no key behind. */
  ghost predicate Represents(s: seq<Slot>, clients: map<nat, Spec.Client>, at: map<nat, nat>) {
    && at.Keys == clients.Keys
    && (forall id :: id in at ==> at[id] < |s| && s[at[id]].active && s[at[id]].id == id && ClientOf(s[at[id]]) == clients[id])
    && (forall i :: 0 <= i < |s| && s[i].active ==> s[i].id in at && at[s[i].id] == i)
    && (forall i :: 0 <= i < |s| ==> s[i].count == |s[i].queue|)
    && (forall i :: 0 <= i < |s| && !s[i].active ==> s[i].queue == [] && !s[i].failed && !s[i].ready && !s[i].hasKey)
  }

  lemma UpdateSlot(s: seq<Slot>, clients: map<nat, Spec.Client>, at: map<nat, nat>, i: nat, x: Slot)
    requires Represents(s, clients, at) && i < |s| && s[i].active
    requires x.active && x.id == s[i].id && x.count == |x.queue|
    ensures Represents(s[i := x], clients[x.id := ClientOf(x)], at)
  {
  }

  lemma FillSlot(s: seq<Slot>, clients: map<nat, Spec.Client>, at: map<nat, nat>, i: nat, x: Slot)
    requires Represents(s, clients, at) && i < |s| && !s[i].active
    requires x.active && x.id !in clients && x.count == |x.queue|
    ensures Represents(s[i := x], clients[x.id := ClientOf(x)], at[x.id := i])
  {
  }

  lemma ClearSlot(s: seq<Slot>, clients: map<nat, Spec.Client>, at: map<nat, nat>, i: nat, x: Slot)
    requires Represents(s, clients, at) && i < |s| && s[i].active
    requires !x.active && x.queue == [] && x.count == 0 && !x.failed && !x.ready && !x.hasKey
    ensures Represents(s[i := x], clients - {s[i].id}, at - {s[i].id})
  {
  }

  lemma ActiveSlots(s: seq<Slot>, clients: map<nat, Spec.Client>, at: map<nat, nat>)
    requires Represents(s, clients, at)
    ensures |clients| == |Image(clients.Keys, at)|
    ensures forall i :: i in Image(clients.Keys, at) <==> 0 <= i < |s| && s[i].active
  {
    CountImage(clients.Keys, at);
    forall i | 0 <= i < |s| && s[i].active ensures i in Image(clients.Keys, at) {
      assert at[s[i].id] == i;
    }
  }

  lemma FreeSlots(s: seq<Slot>, clients: map<nat, Spec.Client>, at: map<nat, nat>)
    requires Represents(s, clients, at)
    ensures |clients| < |s| <==> exists i :: 0 <= i < |s| && !s[i].active
  {
    ActiveSlots(s, clients, at);
    SubsetOfIndices(Image(clients.Keys, at), |s|);
  }

  class Registry {
    const slots: array<Slot>
    var next: nat
    ghost var clients: map<nat, Spec.Client>
    ghost var at: map<nat, nat>
    ghost var log: map<nat, seq<Frame>>

    ghost predicate Valid()
      reads this, slots
    {
      Represents(slots[..], clients, at)
    }

    ghost function View(): Spec.Registry
      reads this
    {
      Spec.Registry(slots.Length, next, clients, log)
    }

    constructor (capacity: nat)
      ensures Valid() && fresh(slots) && View() == Spec.Init(capacity)
    {
      slots := new Slot[capacity](i => EMPTY_SLOT);
      next := 1;
      clients, at, log := map[], map[], map[];
    }

    /** Overwrite the slot of a client that stays registered. */
    method Update(i: nat, x: Slot)
      requires Valid() && i < slots.Length && slots[i].active
      requires x.active && x.id == slots[i].id && x.count == |x.queue|
      modifies slots, `clients
      ensures Valid() && clients == old(clients)[x.id := ClientOf(x)]
    {
      ghost var before := slots[..];
      UpdateSlot(before, clients, at, i, x);
      slots[i] := x;
      clients := clients[x.id := ClientOf(x)];
      assert slots[..] == before[i := x];
    }

    /** The slot of an active client, or -1. */
    method Locate(id: nat) returns (index: int)
      requires Valid()
      ensures -1 <= index < slots.Length
      ensures index >= 0 ==> slots[index].active && slots[index].id == id && id in clients && ClientOf(slots[index]) == clients[id]
      ensures index >= 0 ==> slots[index].count == |slots[index].queue|
      ensures index == -1 <==> id !in clients
    {
      for i := 0 to slots.Length
        invariant forall j :: 0 <= j < i && slots[j].active ==> slots[j].id != id
      {
        if slots[i].active && slots[i].id == id {
          assert slots[..][i].active;
          return i;
        }
      }
      return -1;
    }

    /** One pass looks for the name and remembers the first free slot. */
    method Scan(name: seq<Byte>) returns (taken: bool, free: int)
      requires Valid()
      ensures taken == Spec.NameTaken(View(), name)
      ensures -1 <= free < slots.Length && (free >= 0 ==> !slots[free].active)
      ensures !taken ==> (free == -1 <==> |clients| >= slots.Length)
    {
      FreeSlots(slots[..], clients, at);
      free := -1;
      for i := 0 to slots.Length
        invariant forall j :: 0 <= j < i && slots[j].active ==> slots[j].name != name
        invariant -1 <= free < slots.Length && (free >= 0 ==> !slots[free].active)
        invariant free == -1 ==> forall j :: 0 <= j < i ==> slots[j].active
      {
        if slots[i].active && slots[i].name == name {
          assert slots[..][i].active;
          assert clients[slots[i].id].name == name;
          return true, free;
        }
        if !slots[i].active && free == -1 {
          free := i;
        }
      }
      assert free >= 0 ==> !slots[..][free].active;
      taken := false;
    }

    /** The queue and its counter are not reset here: a free slot has none to reset. */
    method AddClient(name: seq<Byte>) returns (result: Spec.LoginResult)
      requires Valid() && next !in clients
      modifies this, slots
      ensures Valid() && (View(), result) == Spec.Login(old(View()), name)
    {
      if !ValidPeer(name) {
        return Spec.InvalidName;
      }
      var taken, free := Scan(name);
      if taken {
        return Spec.NameInUse;
      }
      if free == -1 {
        return Spec.ServerFull;
      }
      Occupy(free, name);
      return Spec.LoggedIn(next - 1);
    }

    method Occupy(free: nat, name: seq<Byte>)
      requires Valid() && next !in clients && free < slots.Length && !slots[free].active
      modifies this, slots
      ensures Valid() && next == old(next) + 1
      ensures clients == old(clients)[old(next) := Spec.Client(name, false, false, None, [])]
      ensures log == old(log)[old(next) := []]
    {
      ghost var before := slots[..];
      var x := slots[free].(active := true, ready := false, id := next, failed := false, hasKey := false, name := name);
      assert before[free].queue == [] && before[free].count == 0;
      FillSlot(before, clients, at, free, x);
      slots[free] := x;
      clients, at, log := clients[next := ClientOf(x)], at[next := free], log[next := []];
      next := next + 1;
      assert slots[..] == before[free := x];
    }

    method ActivateClient(id: nat)
      requires Valid()
      modifies slots, `clients
      ensures Valid() && View() == Spec.Activate(old(View()), id)
    {
      var i := Locate(id);
      if i >= 0 {
        Update(i, slots[i].(ready := true));
      }
    }

    method RemoveClient(id: nat)
      requires Valid()
      modifies slots, `clients, `at
      ensures Valid() && View() == Spec.Remove(old(View()), id)
    {
      var i := Locate(id);
      if i < 0 {
        assert clients - {id} == clients;
        return;
      }
      ghost var before := slots[..];
      ClearSlot(before, clients, at, i, EMPTY_SLOT);
      slots[i] := EMPTY_SLOT;
      clients, at := clients - {id}, at - {id};
      assert slots[..] == before[i := EMPTY_SLOT];
    }

    method FindClientId(name: seq<Byte>) returns (id: nat)
      requires Valid() && Spec.UniqueNames(clients)
      ensures id == Spec.Find(View(), name)
    {
      for i := 0 to slots.Length
        invariant forall j :: 0 <= j < i && slots[j].active && slots[j].ready ==> slots[j].name != name
      {
        if slots[i].active && slots[i].ready && slots[i].name == name {
          assert slots[..][i].active;
          assert Spec.Accepting(View(), slots[i].id);
          return slots[i].id;
        }
      }
      return 0;
    }

    /** A registered key can be confirmed but never replaced. */
    method RegisterPublicKey(id: nat, key: seq<Byte>) returns (ok: bool)
      requires Valid()
      modifies slots, `clients
      ensures Valid() && (View(), ok) == Spec.RegisterKey(old(View()), id, key)
    {
      var i := Locate(id);
      if i < 0 || !slots[i].ready || (slots[i].hasKey && slots[i].key != key) {
        return false;
      }
      Update(i, slots[i].(key := key, hasKey := true));
      return true;
    }

    method GetPublicKey(id: nat) returns (key: Option<seq<Byte>>)
      requires Valid()
      ensures key == Spec.GetKey(View(), id)
    {
      var i := Locate(id);
      if i < 0 || !slots[i].ready || !slots[i].hasKey {
        return None;
      }
      return Some(slots[i].key);
    }

    method QueueFrame(id: nat, f: Frame) returns (queued: bool)
      requires Valid()
      modifies slots, `clients, `log
      ensures Valid() && (View(), queued) == Spec.Queue(old(View()), id, f)
    {
      if id == 0 || !ValidFrameType(f.kind) || |f.payload| > FRAME_MAX_SIZE - 1 {
        return false;
      }
      var i := Locate(id);
      if i < 0 || !slots[i].ready {
        return false;
      }
      queued := AppendAt(i, f);
    }

    /** A frame that fits, for a client that accepts frames. */
    method AppendAt(i: nat, f: Frame) returns (queued: bool)
      requires Valid() && i < slots.Length && slots[i].active && slots[i].ready && slots[i].id != 0 && Fits(f)
      requires slots[i].id in clients && ClientOf(slots[i]) == clients[slots[i].id] && slots[i].count == |slots[i].queue|
      modifies slots, `clients, `log
      ensures Valid() && (View(), queued) == Spec.Queue(old(View()), old(slots[i].id), f)
    {
      queued := slots[i].count < Spec.MAX_OUTGOING_FRAMES;
      if queued {
        Append(i, f);
      } else {
        Overflow(i);
      }
    }

    method Append(i: nat, f: Frame)
      requires Valid() && i < slots.Length && slots[i].active && slots[i].count == |slots[i].queue|
      requires slots[i].id in clients && ClientOf(slots[i]) == clients[slots[i].id]
      modifies slots, `clients, `log
      ensures Valid()
      ensures View() == Spec.Appended(old(View()), old(slots[i].id), f)
    {
      var s := slots[i];
      Update(i, s.(queue := s.queue + [f], count := s.count + 1));
      Record(s.id, f);
    }

    method Overflow(i: nat)
      requires Valid() && i < slots.Length && slots[i].active && slots[i].count == |slots[i].queue|
      requires slots[i].id in clients && ClientOf(slots[i]) == clients[slots[i].id]
      modifies slots, `clients
      ensures Valid()
      ensures View() == Spec.Overflowed(old(View()), old(slots[i].id))
    {
      Update(i, slots[i].(failed := true, ready := false));
    }

    /** History only. */
    ghost method Record(id: nat, f: Frame)
      requires Valid()
      modifies `log
      ensures Valid() && log == old(log)[id := Spec.Log(old(View()), id) + [f]]
    {
      log := log[id := Spec.Log(View(), id) + [f]];
    }

    method TakeOutgoingFrame(id: nat) returns (result: Spec.TakeResult)
      requires Valid()
      modifies slots, `clients
      ensures Valid() && (View(), result) == Spec.Take(old(View()), id)
    {
      if id == 0 {
        return Spec.TakeError;
      }
      var i := Locate(id);
      if i < 0 || slots[i].failed {
        return Spec.TakeError;
      }
      if slots[i].queue == [] {
        return Spec.Nothing;
      }
      var f := slots[i].queue[0];
      Update(i, slots[i].(queue := slots[i].queue[1..], count := slots[i].count - 1));
      return Spec.Taken(f);
    }
  }
}
