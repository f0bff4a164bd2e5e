/** What one frame does to the receiving client's transfers and directory, case by case. */
module InboxOutcomes {
  import opened Bytes
  import opened FileProtocol
  import opened FileCrypto
  import opened Sessions
  import opened InboxSpec

  /** Apart from these names the directory is as it was. */
  ghost predicate SameBut(b: Inbox, b': Inbox, names: set<Name>) {
    forall n :: n !in names ==> (n in b'.files <==> n in b.files) && (n in b.files ==> b'.files[n] == b.files[n])
  }

  /** The transfer is over: it is no longer active, no other transfer has changed, and its
      temporary is gone, unless it could not be removed. */
  ghost predicate Over(b: Inbox, b': Inbox, id: Word, env: Env)
    requires id in b.active
  {
    var temp := b.active[id].temp;
    b'.active == b.active - {id} && if temp in env.stuck then temp in b'.leaked else temp !in b'.files
  }

  /** A begin frame opens a transfer exactly when its size is one that a sender can produce
      for that filename, the id is new, a slot and the filename are free and no system call
      fails: the transfer is then staged, empty, in the new temporary. Otherwise no transfer
      changes, and nothing stays in the directory that was not there. */
  lemma BeginOutcome(b: Inbox, begin: Begin, env: Env)
    requires Valid(b) && Honest(b, env)
    ensures var b' := ReceiveBegin(b, begin, env);
            if && 90 + |begin.filename| <= begin.size <= 90 + |begin.filename| + 16 * 1024 * 1024
               && begin.id !in b.active && |b.active| < b.capacity && begin.filename !in b.files
               && env.directoryOk && env.statOk && env.temp.Some? && env.openOk
            then && b'.active == b.active[begin.id := Incoming(begin.peer, begin.filename, begin.size, 0, env.temp.value)]
                 && env.temp.value in b'.files && b'.files[env.temp.value] == [] && SameBut(b, b', {env.temp.value})
            else && b'.active == b.active && b'.kept == b.kept
                 && (env.temp.None? ==> SameBut(b, b', {env.leftover}) && b'.files.Keys <= b.files.Keys)
                 && (env.temp.Some? ==> SameBut(b, b', {env.temp.value})
                                        && (env.temp.value in b'.files ==> env.temp.value in env.stuck))
  {
  }

  /** A chunk within the declared size is appended to what is staged; one beyond it, or one
      that cannot be written, ends the transfer. A chunk of no transfer changes nothing. */
  lemma ChunkOutcome(b: Inbox, chunk: Chunk, env: Env)
    requires Valid(b)
    ensures var b' := ReceiveChunk(b, chunk, env);
            if chunk.id !in b.active then b' == b
            else
              var i := b.active[chunk.id];
              && i.temp in b.files && SameBut(b, b', {i.temp}) && b'.kept == b.kept
              && if i.received + |chunk.data| <= i.expected && env.writeOk
                 then && b'.active == b.active[chunk.id := i.(received := i.received + |chunk.data|)]
                      && i.temp in b'.files && b'.files[i.temp] == b.files[i.temp] + chunk.data
                 else Over(b, b', chunk.id, env)
  {
    assert chunk.id in b.active ==> ValidIncoming(b, chunk.id);
  }

  /** An end frame always ends the transfer. Its file appears under its name exactly when all
      declared bytes are there and open under that name, the name is free and no system call
      fails; otherwise the directory loses the temporary and is else as it was. */
  lemma EndOutcome(b: Inbox, id: Word, env: Env, box: Box, secret: Secret)
    requires Valid(b) && Lawful(box)
    ensures var b' := ReceiveEnd(b, id, env, box, secret);
            if id !in b.active then b' == b
            else
              var i := b.active[id];
              Over(b, b', id, env) &&
              if && i.received == i.expected && env.decryptOk && env.closeOk && env.linkOk && i.filename !in b.files
                 && Contents(b, id, box, secret).Some?
              then && SameBut(b, b', {i.temp, i.filename}) && b'.kept == b.kept[i.filename := Contents(b, id, box, secret).value]
                   && i.filename in b'.files && b'.files[i.filename] == Contents(b, id, box, secret).value
              else SameBut(b, b', {i.temp}) && b'.kept == b.kept
  {
    if id in b.active {
      assert ValidIncoming(b, id);
      DiscardOutcome(b, id, env);
      if Contents(b, id, box, secret).Some? && b.active[id].filename !in b.files {
        SavedOutcome(b, id, env, Contents(b, id, box, secret).value);
      }
    }
  }

  lemma DiscardOutcome(b: Inbox, id: Word, env: Env)
    requires id in b.active
    ensures var b' := Discard(b, id, env);
            Over(b, b', id, env) && SameBut(b, b', {b.active[id].temp}) && b'.kept == b.kept
  {
  }

  lemma SavedOutcome(b: Inbox, id: Word, env: Env, data: seq<Byte>)
    requires id in b.active && b.active[id].temp in b.files && b.active[id].filename !in b.files
    ensures var i, b' := b.active[id], Discard(Saved(b, b.active[id].filename, data), id, env.(junk := data));
            && Over(b, b', id, env) && SameBut(b, b', {i.temp, i.filename}) && b'.kept == b.kept[i.filename := data]
            && i.filename in b'.files && b'.files[i.filename] == data
  {
  }

  /** What a completely staged transfer opens to. */
  ghost function Contents(b: Inbox, id: Word, box: Box, secret: Secret): Option<seq<Byte>>
    requires Valid(b) && Lawful(box) && id in b.active
  {
    assert ValidIncoming(b, id);
    var i := b.active[id];
    if i.received == i.expected then OpenEnvelope(box, i.filename, b.files[i.temp], secret) else None
  }

  /** An error frame ends the transfer and does nothing else. */
  lemma ErrorOutcome(b: Inbox, id: Word, env: Env)
    requires Valid(b)
    ensures var b' := ReceiveError(b, id, env);
            if id in b.active then Over(b, b', id, env) && SameBut(b, b', {b.active[id].temp}) && b'.kept == b.kept
            else b' == b
  {
    if id in b.active {
      DiscardOutcome(b, id, env);
    }
  }
}
