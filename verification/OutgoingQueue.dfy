/** The outgoing side of one client (client_manager.c): a linked queue with a bound and a
    failure flag. Both methods do to it what RegistrySpec does to the client's entry. */
module OutgoingQueue {
  import opened Bytes
  import opened LinkedList
  import Spec = RegistrySpec

  class OutgoingQueue {
    const frames: List<Frame>
    var ready: bool
    var failed: bool

    ghost predicate Valid()
      reads frames, frames.spine
    {
      frames.Valid()
    }

    /** What the registry says about a client with this queue. */
    ghost function View(name: seq<Byte>, key: Option<seq<Byte>>): Spec.Client
      reads this, frames
    {
      Spec.Client(name, ready, failed, key, frames.Contents())
    }

    constructor ()
      ensures Valid() && fresh(frames) && View([], None) == Spec.Client([], false, false, None, [])
    {
      frames := new List<Frame>();
      ready, failed := false, false;
    }

    /** Append a frame at the tail; a full queue fails the client for good. */
    method QueueFrame(f: Frame, ghost r: Spec.Registry, ghost id: nat, ghost name: seq<Byte>, ghost key: Option<seq<Byte>>)
      returns (queued: bool)
      requires Valid() && id != 0 && id in r.clients && r.clients[id] == View(name, key)
      modifies this, frames, frames.spine
      ensures Valid() && queued == Spec.Queue(r, id, f).1
      ensures Spec.Queue(r, id, f).0.clients == r.clients[id := View(name, key)]
    {
      assert r.clients[id := r.clients[id]] == r.clients;
      if !ValidFrameType(f.kind) || |f.payload| > FRAME_MAX_SIZE - 1 || !ready {
        return false;
      }
      if frames.count >= Spec.MAX_OUTGOING_FRAMES {
        failed, ready := true, false;
        return false;
      }
      frames.Append(f);
      return true;
    }

    /** Unlink the frame at the head, unless the client has failed. */
    method TakeFrame(ghost r: Spec.Registry, ghost id: nat, ghost name: seq<Byte>, ghost key: Option<seq<Byte>>)
      returns (result: Spec.TakeResult)
      requires Valid() && id != 0 && id in r.clients && r.clients[id] == View(name, key)
      modifies frames, frames.spine
      ensures Valid() && result == Spec.Take(r, id).1
      ensures Spec.Take(r, id).0.clients == r.clients[id := View(name, key)]
    {
      assert r.clients[id := r.clients[id]] == r.clients;
      if failed {
        return Spec.TakeError;
      }
      var removed, items := frames.RemoveHead();
      return if removed then Spec.Taken(items[0]) else Spec.Nothing;
    }
  }
}
