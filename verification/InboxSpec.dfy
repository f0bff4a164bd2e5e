/** Receiving files (client_file_receiver.c): active transfers by id, and the download
    directory as a map from name to contents in which temporaries and downloads share one
    name space. `kept` and `leaked` are history: what the directory owes to nobody's
    transfer under way, and temporaries that could not be removed. */
module InboxSpec {
  import opened Bytes
  import opened FileProtocol
  import opened FileCrypto
  import opened Sessions

  const MAX_INCOMING_FILES: nat := 16

  type Name = seq<Byte>

  datatype Incoming = Incoming(sender: seq<Byte>, filename: Name, expected: nat, received: nat, temp: Name)

  datatype Inbox = Inbox(
    capacity: nat, active: map<Word, Incoming>, files: map<Name, seq<Byte>>,
    kept: map<Name, seq<Byte>>, leaked: set<Name>)

  /** How the operating system answers while one frame is handled. `temp` is the name
      mkstemp makes up, `leftover` what it leaves in the buffer when it fails, `stuck` the
      names that cannot be unlinked, and `junk` what a failed write may leave in such a file. */
  datatype Env = Env(
    directoryOk: bool, statOk: bool, temp: Option<Name>, leftover: Name, openOk: bool, writeOk: bool, decryptOk: bool,
    closeOk: bool, linkOk: bool, stuck: set<Name>, junk: seq<Byte>)

  /** mkstemp creates a file that did not exist. */
  ghost predicate Honest(b: Inbox, env: Env) {
    env.temp.Some? ==> env.temp.value !in b.files && env.temp.value != []
  }

  function Start(capacity: nat, files: map<Name, seq<Byte>>): Inbox {
    Inbox(capacity, map[], files, files, {})
  }

  // ----- Operations -----

  /** Remove a temporary, or lose track of it. */
  function Unlink(b: Inbox, temp: Name, env: Env): Inbox {
    if temp in env.stuck then b.(files := b.files[temp := env.junk], leaked := b.leaked + {temp})
    else b.(files := b.files - {temp})
  }

  function Discard(b: Inbox, id: Word, env: Env): Inbox
    requires id in b.active
  {
    Unlink(b.(active := b.active - {id}), b.active[id].temp, env)
  }

  /** A begin frame gets as far as mkstemp: its size is acceptable, its id is new, a slot is
      free and its name is not taken. */
  predicate Admitted(b: Inbox, begin: Begin, env: Env) {
    && AcceptableSize(begin.filename, begin.size) && env.directoryOk
    && begin.id !in b.active && |b.active| < b.capacity
    && begin.filename !in b.files && env.statOk
  }

  /** When mkstemp fails, the slot is discarded with the name that mkstemp left behind. */
  function UnlinkLeftover(b: Inbox, env: Env): Inbox {
    if env.leftover == [] || env.leftover in env.stuck then b
    else b.(files := b.files - {env.leftover}, leaked := b.leaked - {env.leftover})
  }

  function ReceiveBegin(b: Inbox, begin: Begin, env: Env): Inbox {
    if !Admitted(b, begin, env) then b
    else if env.temp.None? then UnlinkLeftover(b, env)
    else if !env.openOk then Unlink(b, env.temp.value, env)
    else Opened(b, begin, env.temp.value)
  }

  ghost function ReceiveChunk(b: Inbox, chunk: Chunk, env: Env): Inbox
    requires Staged(b)
  {
    if chunk.id !in b.active then b else
    var i := b.active[chunk.id];
    if i.received > i.expected || |chunk.data| > i.expected - i.received || !env.writeOk then Discard(b, chunk.id, env)
    else Extended(b, chunk.id, chunk.data)
  }

  /** Decrypt in place, then give the file its final name unless that name is taken. */
  ghost function ReceiveEnd(b: Inbox, id: Word, env: Env, box: Box, secret: Secret): Inbox
    requires Staged(b) && Lawful(box)
  {
    if id !in b.active then b else
    var i := b.active[id];
    if i.received != i.expected then Discard(b, id, env)
    else match Decrypted(b, id, env, box, secret)
      case None => Discard(b, id, env)
      case Some(data) =>
        if !env.closeOk || !env.linkOk || i.filename in b.files then Discard(b, id, env)
        else Discard(Saved(b, i.filename, data), id, env.(junk := data))
  }

  ghost function Decrypted(b: Inbox, id: Word, env: Env, box: Box, secret: Secret): Option<seq<Byte>>
    requires Staged(b) && Lawful(box) && id in b.active && b.active[id].received == b.active[id].expected
  {
    if env.decryptOk then OpenEnvelope(box, b.active[id].filename, b.files[b.active[id].temp], secret) else None
  }

  function ReceiveError(b: Inbox, id: Word, env: Env): Inbox {
    if id in b.active then Discard(b, id, env) else b
  }

  ghost function Handle(b: Inbox, e: Event, env: Env, box: Box, secret: Secret): Inbox
    requires Staged(b) && Lawful(box)
  {
    match e
    case BeginEvent(begin) => ReceiveBegin(b, begin, env)
    case ChunkEvent(chunk) => ReceiveChunk(b, chunk, env)
    case EndEvent(id) => ReceiveEnd(b, id, env, box, secret)
    case ErrorEvent(id) => ReceiveError(b, id, env)
    case OtherEvent => b
  }

  ghost function Temps(b: Inbox): set<Name> {
    set id | id in b.active :: b.active[id].temp
  }

  /** Every temporary goes, except those that cannot be removed. */
  ghost function Cleanup(b: Inbox, stuck: set<Name>): Inbox {
    Inbox(b.capacity, map[], b.files - (Temps(b) - stuck), b.kept, b.leaked + Temps(b) * stuck)
  }

  // ----- Invariant -----

  ghost predicate Uses(b: Inbox, id: Word, n: Name) {
    id in b.active && b.active[id].temp == n
  }

  ghost predicate ValidIncoming(b: Inbox, id: Word)
    requires id in b.active
  {
    var i := b.active[id];
    && i.temp in b.files && |b.files[i.temp]| == i.received <= i.expected
    && ValidFilename(i.filename) && AcceptableSize(i.filename, i.expected)
    && i.temp !in b.kept && i.temp !in b.leaked
  }

  /** The bytes received so far are in the temporaries. */
  ghost predicate Staged(b: Inbox) {
    forall id :: id in b.active ==> ValidIncoming(b, id)
  }

  ghost predicate DistinctTemps(b: Inbox) {
    forall i, j, n :: Uses(b, i, n) && Uses(b, j, n) ==> i == j
  }

  /** The directory holds what was there or was saved, unchanged, the temporaries of the
      active transfers, and what could not be removed: nothing else. */
  ghost predicate Accounted(b: Inbox, n: Name) {
    && (n in b.kept ==> n in b.files && b.files[n] == b.kept[n])
    && (n in b.leaked ==> n in b.files && n !in b.kept)
    && (n in b.files ==> n in b.kept || n in b.leaked || exists id :: Uses(b, id, n))
  }

  ghost predicate Valid(b: Inbox) {
    && |b.active| <= b.capacity
    && Staged(b)
    && DistinctTemps(b)
    && (forall n :: Accounted(b, n))
  }

  lemma StartValid(capacity: nat, files: map<Name, seq<Byte>>)
    ensures Valid(Start(capacity, files))
  {
  }

  // ----- Discarding a transfer -----

  lemma DiscardOthers(b: Inbox, id: Word, env: Env, j: Word)
    requires Valid(b) && id in b.active && j in Discard(b, id, env).active
    ensures ValidIncoming(Discard(b, id, env), j)
  {
    assert ValidIncoming(b, j) && Uses(b, id, b.active[id].temp) && Uses(b, j, b.active[j].temp);
  }

  lemma DiscardAccounts(b: Inbox, id: Word, env: Env, n: Name)
    requires Valid(b) && id in b.active
    ensures Accounted(Discard(b, id, env), n)
  {
    var b' := Discard(b, id, env);
    assert Accounted(b, n) && ValidIncoming(b, id);
    if n in b'.files && n !in b'.kept && n !in b'.leaked {
      var j :| Uses(b, j, n);
      assert Uses(b', j, n);
    }
  }

  lemma DiscardValid(b: Inbox, id: Word, env: Env)
    requires Valid(b) && id in b.active
    ensures Valid(Discard(b, id, env))
  {
    var b' := Discard(b, id, env);
    assert b'.active.Keys == b.active.Keys - {id};
    assert forall j, n :: Uses(b', j, n) ==> Uses(b, j, n);
    forall j | j in b'.active ensures ValidIncoming(b', j) {
      DiscardOthers(b, id, env, j);
    }
    forall n ensures Accounted(b', n) {
      DiscardAccounts(b, id, env, n);
    }
  }

  // ----- Starting one -----

  /** The inbox once a transfer has been accepted. */
  function Opened(b: Inbox, begin: Begin, temp: Name): Inbox {
    b.(active := b.active[begin.id := Incoming(begin.peer, begin.filename, begin.size, 0, temp)],
       files := b.files[temp := []])
  }

  lemma OpenedAccounts(b: Inbox, begin: Begin, temp: Name, n: Name)
    requires Valid(b) && begin.id !in b.active && temp !in b.files
    ensures Accounted(Opened(b, begin, temp), n)
  {
    var b' := Opened(b, begin, temp);
    assert Accounted(b, n) && Uses(b', begin.id, temp);
    if n in b'.files && n !in b'.kept && n !in b'.leaked && n != temp {
      var j :| Uses(b, j, n);
      assert Uses(b', j, n);
    }
  }

  lemma OpenedIncoming(b: Inbox, begin: Begin, temp: Name, j: Word)
    requires Valid(b) && begin.id !in b.active && temp !in b.files && ValidFilename(begin.filename)
    requires AcceptableSize(begin.filename, begin.size) && j in Opened(b, begin, temp).active
    ensures ValidIncoming(Opened(b, begin, temp), j)
  {
    assert Accounted(b, temp);
    assert j != begin.id ==> ValidIncoming(b, j);
  }

  lemma OpenedValid(b: Inbox, begin: Begin, temp: Name)
    requires Valid(b) && begin.id !in b.active && |b.active| < b.capacity && temp !in b.files
    requires ValidFilename(begin.filename) && AcceptableSize(begin.filename, begin.size)
    ensures Valid(Opened(b, begin, temp))
  {
    var b' := Opened(b, begin, temp);
    forall j | j in b'.active ensures ValidIncoming(b', j) {
      OpenedIncoming(b, begin, temp, j);
    }
    forall n ensures Accounted(b', n) {
      OpenedAccounts(b, begin, temp, n);
    }
    forall i, j, n | Uses(b', i, n) && Uses(b', j, n) ensures i == j {
      assert i != begin.id ==> Uses(b, i, n) && ValidIncoming(b, i);
      assert j != begin.id ==> Uses(b, j, n) && ValidIncoming(b, j);
    }
  }

  /** A new temporary that is removed again at once, or stays behind. */
  lemma UnlinkFreshValid(b: Inbox, temp: Name, env: Env)
    requires Valid(b) && temp !in b.files
    ensures Valid(Unlink(b, temp, env))
  {
    var b' := Unlink(b, temp, env);
    forall j | j in b'.active ensures ValidIncoming(b', j) {
      assert ValidIncoming(b, j);
    }
    forall n ensures Accounted(b', n) {
      UnlinkFreshAccounts(b, temp, env, n);
    }
    assert forall j, n :: Uses(b', j, n) ==> Uses(b, j, n);
  }

  lemma UnlinkFreshAccounts(b: Inbox, temp: Name, env: Env, n: Name)
    requires Accounted(b, temp) && Accounted(b, n) && temp !in b.files
    ensures Accounted(Unlink(b, temp, env), n)
  {
    assert forall j :: Uses(b, j, n) ==> Uses(Unlink(b, temp, env), j, n);
  }

  /** The name that a failed mkstemp left behind is that of a file which is somebody's. */
  ghost predicate Clobbers(b: Inbox, begin: Begin, env: Env) {
    && Admitted(b, begin, env) && env.temp.None? && env.leftover != [] && env.leftover !in env.stuck
    && (env.leftover in b.kept || exists id :: Uses(b, id, env.leftover))
  }

  ghost predicate ClobbersOn(b: Inbox, e: Event, env: Env) {
    e.BeginEvent? && Clobbers(b, e.begin, env)
  }

  lemma LeftoverAccounts(b: Inbox, env: Env, n: Name)
    requires Valid(b) && env.leftover !in b.kept && forall id :: !Uses(b, id, env.leftover)
    ensures Accounted(UnlinkLeftover(b, env), n)
  {
    var b' := UnlinkLeftover(b, env);
    assert Accounted(b, n);
    if j :| Uses(b, j, n) {
      assert Uses(b', j, n);
    }
  }

  lemma LeftoverValid(b: Inbox, env: Env)
    requires Valid(b) && env.leftover !in b.kept && forall id :: !Uses(b, id, env.leftover)
    ensures Valid(UnlinkLeftover(b, env))
  {
    var b' := UnlinkLeftover(b, env);
    assert forall j, n :: Uses(b', j, n) <==> Uses(b, j, n);
    forall j | j in b'.active ensures ValidIncoming(b', j) {
      assert ValidIncoming(b, j) && Uses(b, j, b.active[j].temp);
    }
    forall n ensures Accounted(b', n) {
      LeftoverAccounts(b, env, n);
    }
  }

  lemma BeginValid(b: Inbox, begin: Begin, env: Env)
    requires Valid(b) && Honest(b, env) && ValidBegin(begin) && !Clobbers(b, begin, env)
    ensures Valid(ReceiveBegin(b, begin, env))
  {
    if Admitted(b, begin, env) {
      if env.temp.None? {
        if env.leftover != [] && env.leftover !in env.stuck {
          LeftoverValid(b, env);
        }
      } else if env.openOk {
        OpenedValid(b, begin, env.temp.value);
      } else {
        UnlinkFreshValid(b, env.temp.value, env);
      }
    }
  }

  // ----- Continuing one -----

  /** The inbox once more bytes have been staged. */
  function Extended(b: Inbox, id: Word, data: seq<Byte>): Inbox
    requires id in b.active && b.active[id].temp in b.files
  {
    var i := b.active[id];
    b.(active := b.active[id := i.(received := i.received + |data|)],
       files := b.files[i.temp := b.files[i.temp] + data])
  }

  lemma ExtendedValid(b: Inbox, id: Word, data: seq<Byte>)
    requires Valid(b) && id in b.active && b.active[id].received + |data| <= b.active[id].expected
    ensures Valid(Extended(b, id, data))
  {
    var b', t := Extended(b, id, data), b.active[id].temp;
    assert ValidIncoming(b, id) && Uses(b, id, t);
    assert b'.active.Keys == b.active.Keys;
    assert forall j, n :: Uses(b', j, n) <==> Uses(b, j, n);
    forall j | j in b'.active ensures ValidIncoming(b', j) {
      assert ValidIncoming(b, j) && Uses(b, j, b.active[j].temp);
    }
    forall n ensures Accounted(b', n) {
      assert Accounted(b, n);
    }
  }

  lemma ChunkValid(b: Inbox, chunk: Chunk, env: Env)
    requires Valid(b)
    ensures Valid(ReceiveChunk(b, chunk, env))
  {
    if chunk.id in b.active {
      var i := b.active[chunk.id];
      if i.received > i.expected || |chunk.data| > i.expected - i.received || !env.writeOk {
        DiscardValid(b, chunk.id, env);
      } else {
        ExtendedValid(b, chunk.id, chunk.data);
      }
    }
  }

  // ----- Ending one -----

  /** The directory once a download has its final name. */
  function Saved(b: Inbox, name: Name, data: seq<Byte>): Inbox {
    b.(files := b.files[name := data], kept := b.kept[name := data])
  }

  lemma SavedValid(b: Inbox, name: Name, data: seq<Byte>)
    requires Valid(b) && name !in b.files
    ensures Valid(Saved(b, name, data))
  {
    var b' := Saved(b, name, data);
    assert forall j, n :: Uses(b', j, n) <==> Uses(b, j, n);
    forall j | j in b'.active ensures ValidIncoming(b', j) {
      assert ValidIncoming(b, j);
    }
    assert Accounted(b, name);
    forall n ensures Accounted(b', n) {
      assert Accounted(b, n);
    }
  }

  lemma EndValid(b: Inbox, id: Word, env: Env, box: Box, secret: Secret)
    requires Valid(b) && Lawful(box)
    ensures Valid(ReceiveEnd(b, id, env, box, secret))
  {
    if id in b.active {
      DiscardValid(b, id, env);
      var i := b.active[id];
      if i.received == i.expected && i.filename !in b.files {
        match Decrypted(b, id, env, box, secret)
        case None =>
        case Some(data) =>
          SavedValid(b, i.filename, data);
          DiscardValid(Saved(b, i.filename, data), id, env.(junk := data));
      }
    }
  }

  /** Every frame keeps the invariant, unless it clobbers somebody's file. */
  lemma HandleValid(b: Inbox, e: Event, env: Env, box: Box, secret: Secret)
    requires Valid(b) && Lawful(box) && Honest(b, env) && (e.BeginEvent? ==> ValidBegin(e.begin)) && !ClobbersOn(b, e, env)
    ensures Valid(Handle(b, e, env, box, secret))
  {
    match e
    case BeginEvent(begin) => BeginValid(b, begin, env);
    case ChunkEvent(chunk) => ChunkValid(b, chunk, env);
    case EndEvent(id) => EndValid(b, id, env, box, secret);
    case ErrorEvent(id) =>
      if id in b.active {
        DiscardValid(b, id, env);
      }
    case OtherEvent =>
  }

  lemma CleanupValid(b: Inbox, stuck: set<Name>)
    requires Valid(b)
    ensures Valid(Cleanup(b, stuck))
  {
    var b' := Cleanup(b, stuck);
    forall n ensures Accounted(b', n) {
      CleanupAccounts(b, stuck, n);
    }
  }

  /** After a cleanup in which every temporary could be removed, none is left. */
  lemma CleanupIsComplete(b: Inbox, n: Name)
    requires Valid(b)
    ensures n in Cleanup(b, {}).files <==> n in b.kept || n in b.leaked
  {
    CleanupAccounts(b, {}, n);
    assert Accounted(b, n);
    if n in b.files && n !in b.kept && n !in b.leaked {
      var j :| Uses(b, j, n);
      assert n in Temps(b);
    }
  }

  lemma CleanupAccounts(b: Inbox, stuck: set<Name>, n: Name)
    requires Valid(b)
    ensures Accounted(Cleanup(b, stuck), n)
    ensures n in Temps(b) ==> n !in b.kept && n !in b.leaked
  {
    assert Accounted(b, n);
    if n in Temps(b) {
      var j :| j in b.active && b.active[j].temp == n;
      assert ValidIncoming(b, j);
    } else if j :| Uses(b, j, n) {
      assert false;
    }
  }

  // ----- When files are safe -----

  /** Every file that was kept is still there with its contents, and every transfer under
      way still has its temporary. */
  ghost predicate Intact(b: Inbox, b': Inbox) {
    && (forall n :: n in b.kept ==> n in b'.files && b'.files[n] == b.kept[n])
    && (forall id :: id in b'.active ==> b'.active[id].temp in b'.files)
  }

  lemma ValidIsIntact(b: Inbox, b': Inbox)
    requires Valid(b') && forall n :: n in b.kept ==> n in b'.kept && b'.kept[n] == b.kept[n]
    ensures Intact(b, b')
  {
    forall n | n in b.kept ensures n in b'.files && b'.files[n] == b.kept[n] {
      assert Accounted(b', n);
    }
    forall id | id in b'.active ensures b'.active[id].temp in b'.files {
      assert ValidIncoming(b', id);
    }
  }

  lemma ClobberDestroys(b: Inbox, begin: Begin, env: Env)
    requires Clobbers(b, begin, env)
    ensures !Intact(b, ReceiveBegin(b, begin, env))
  {
    if j :| Uses(b, j, env.leftover) {
      assert b.active[j].temp !in ReceiveBegin(b, begin, env).files;
    }
  }

  /** An end frame saves the decrypted file under a free name, or nothing. */
  lemma EndSaves(b: Inbox, id: Word, env: Env, box: Box, secret: Secret)
    requires Staged(b) && Lawful(box)
    ensures ReceiveEnd(b, id, env, box, secret).kept == b.kept || Saves(b, id, env, box, secret)
    ensures env.stuck == {} ==> ReceiveEnd(b, id, env, box, secret).leaked == b.leaked
    ensures ReceiveEnd(b, id, env, box, secret).capacity == b.capacity
  {
  }

  ghost predicate Saves(b: Inbox, id: Word, env: Env, box: Box, secret: Secret)
    requires Staged(b) && Lawful(box)
  {
    && id in b.active && b.active[id].received == b.active[id].expected && b.active[id].filename !in b.files
    && Decrypted(b, id, env, box, secret).Some?
    && ReceiveEnd(b, id, env, box, secret).kept == b.kept[b.active[id].filename := Decrypted(b, id, env, box, secret).value]
  }

  lemma OthersKeep(b: Inbox, e: Event, env: Env, box: Box, secret: Secret)
    requires Staged(b) && Lawful(box) && !e.EndEvent?
    ensures Handle(b, e, env, box, secret).kept == b.kept && Handle(b, e, env, box, secret).capacity == b.capacity
    ensures env.stuck == {} ==> Handle(b, e, env, box, secret).leaked <= b.leaked
  {
  }

  lemma KeptGrows(b: Inbox, e: Event, env: Env, box: Box, secret: Secret)
    requires Valid(b) && Lawful(box)
    ensures forall n :: n in b.kept ==> n in Handle(b, e, env, box, secret).kept && Handle(b, e, env, box, secret).kept[n] == b.kept[n]
  {
    if e.EndEvent? {
      EndSaves(b, e.id, env, box, secret);
      assert e.id in b.active ==> Accounted(b, b.active[e.id].filename);
    } else {
      OthersKeep(b, e, env, box, secret);
    }
  }

  /** A frame leaves all files intact if and only if it does not clobber: no begin frame gets
      as far as a failing mkstemp that leaves behind the name of a kept file or of the
      temporary of another transfer. */
  lemma IntactIffNoClobber(b: Inbox, e: Event, env: Env, box: Box, secret: Secret)
    requires Valid(b) && Lawful(box) && Honest(b, env) && (e.BeginEvent? ==> ValidBegin(e.begin))
    ensures Intact(b, Handle(b, e, env, box, secret)) <==> !ClobbersOn(b, e, env)
  {
    if ClobbersOn(b, e, env) {
      ClobberDestroys(b, e.begin, env);
    } else {
      HandleValid(b, e, env, box, secret);
      KeptGrows(b, e, env, box, secret);
      ValidIsIntact(b, Handle(b, e, env, box, secret));
    }
  }

  /** A download can vanish: a file saved under a name that mkstemp tries, and a mkstemp that
      fails having tried it last. */
  lemma DownloadCanVanish(name: Name, contents: seq<Byte>, box: Box, secret: Secret)
    requires name != [] && name != [102] && Lawful(box)
    ensures exists e: Event, env: Env :: var b := Start(MAX_INCOMING_FILES, map[name := contents]);
              && Valid(b) && Honest(b, env) && (e.BeginEvent? ==> ValidBegin(e.begin))
              && name !in Handle(b, e, env, box, secret).files
  {
    var b := Start(MAX_INCOMING_FILES, map[name := contents]);
    var begin := Begin(1, OVERHEAD + 1, [97], [102]);
    var env := Env(true, true, None, name, true, true, true, true, true, {}, []);
    StartValid(MAX_INCOMING_FILES, map[name := contents]);
    assert name !in Handle(b, BeginEvent(begin), env, box, secret).files;
  }
}
