/** What a list of frames, queued one after the other, does to the logs of the clients. */
module Mail {
  import opened Bytes
  import opened RegistrySpec

  datatype Letter = Letter(to: nat, frame: Frame)

  /** The frames for one client, in order. */
  function Addressed(letters: seq<Letter>, c: nat): seq<Frame> {
    if letters == [] then []
    else (if letters[0].to == c then [letters[0].frame] else []) + Addressed(letters[1..], c)
  }

  /** Queue them all, whatever becomes of each. */
  function Post(r: Registry, letters: seq<Letter>): Registry
    decreases |letters|
  {
    if letters == [] then r else Post(Queue(r, letters[0].to, letters[0].frame).0, letters[1..])
  }

  /** The client takes n more frames without overflowing. */
  ghost predicate RoomFor(r: Registry, c: nat, n: nat) {
    n > 0 ==> c != 0 && Accepting(r, c) && |r.clients[c].queue| + n <= 128
  }

  /** The log of c gained these frames and nothing else: all of them if there was room, and
      otherwise a first part of them. */
  ghost predicate Gains(r: Registry, r': Registry, c: nat, frames: seq<Frame>) {
    && Log(r, c) <= Log(r', c) <= Log(r, c) + frames
    && (RoomFor(r, c, |frames|) ==> Log(r', c) == Log(r, c) + frames)
  }

  /** Every client gained what is addressed to it. */
  ghost predicate Delivered(r: Registry, r': Registry, letters: seq<Letter>) {
    forall c :: Gains(r, r', c, Addressed(letters, c))
  }

  predicate Sendable(letters: seq<Letter>) {
    forall i :: 0 <= i < |letters| ==> Fits(letters[i].frame)
  }

  // ----- Posting delivers -----

  ghost predicate Shut(r: Registry, c: nat) {
    c == 0 || !Accepting(r, c)
  }

  lemma {:induction false} ShutGainsNothing(r: Registry, letters: seq<Letter>, c: nat)
    requires Shut(r, c)
    ensures Log(Post(r, letters), c) == Log(r, c) && Shut(Post(r, letters), c)
    decreases |letters|
  {
    if letters != [] {
      ShutGainsNothing(Queue(r, letters[0].to, letters[0].frame).0, letters[1..], c);
    }
  }

  /** A frame that fits is queued to a client with room, and otherwise shuts it. */
  lemma QueueOrShut(r: Registry, c: nat, f: Frame)
    requires Fits(f)
    ensures var (r', queued) := Queue(r, c, f);
            && queued == RoomFor(r, c, 1)
            && (if queued then Log(r', c) == Log(r, c) + [f] else Log(r', c) == Log(r, c) && Shut(r', c))
            && (forall n: nat :: RoomFor(r, c, n + 1) ==> RoomFor(r', c, n))
            && (forall d :: d != c ==> SameFor(r, r', d))
  {
  }

  ghost predicate SameFor(r: Registry, r': Registry, d: nat) {
    Log(r', d) == Log(r, d) && (d in r.clients <==> d in r'.clients) && (d in r.clients ==> r.clients[d] == r'.clients[d])
  }

  lemma {:induction false} PostGains(r: Registry, letters: seq<Letter>, c: nat)
    requires Sendable(letters)
    ensures Gains(r, Post(r, letters), c, Addressed(letters, c))
    decreases |letters|
  {
    if letters == [] {
      assert Log(r, c) + [] == Log(r, c);
    } else {
      var first, rest := letters[0], letters[1..];
      var next := Queue(r, first.to, first.frame).0;
      PostGains(next, rest, c);
      if first.to == c {
        GainsFirst(r, next, Post(next, rest), c, first.frame, Addressed(rest, c), rest);
      } else {
        GainsElsewhere(r, next, Post(next, rest), c, first, Addressed(rest, c));
        assert [] + Addressed(rest, c) == Addressed(rest, c);
      }
    }
  }

  lemma GainsElsewhere(r: Registry, next: Registry, last: Registry, c: nat, first: Letter, frames: seq<Frame>)
    requires Fits(first.frame) && first.to != c && next == Queue(r, first.to, first.frame).0 && Gains(next, last, c, frames)
    ensures Gains(r, last, c, frames)
  {
    QueueOrShut(r, first.to, first.frame);
    assert SameFor(r, next, c);
  }

  lemma GainsFirst(r: Registry, next: Registry, last: Registry, c: nat, f: Frame, frames: seq<Frame>, rest: seq<Letter>)
    requires Fits(f) && next == Queue(r, c, f).0 && last == Post(next, rest) && Gains(next, last, c, frames)
    ensures Gains(r, last, c, [f] + frames)
  {
    QueueOrShut(r, c, f);
    assert Log(r, c) + ([f] + frames) == Log(r, c) + [f] + frames;
    if Queue(r, c, f).1 {
      assert RoomFor(r, c, |frames| + 1) ==> RoomFor(next, c, |frames|);
    } else {
      ShutGainsNothing(next, rest, c);
    }
  }

  lemma PostDelivers(r: Registry, letters: seq<Letter>)
    requires Sendable(letters)
    ensures Delivered(r, Post(r, letters), letters)
  {
    forall c ensures Gains(r, Post(r, letters), c, Addressed(letters, c)) {
      PostGains(r, letters, c);
    }
  }

  lemma NothingDelivers(r: Registry)
    ensures Delivered(r, r, [])
  {
    PostDelivers(r, []);
  }

  lemma OneDelivers(r: Registry, to: nat, f: Frame)
    requires Fits(f)
    ensures Delivered(r, Queue(r, to, f).0, [Letter(to, f)])
  {
    var letters := [Letter(to, f)];
    PostDelivers(r, letters);
    assert letters[1..] == [];
  }

  lemma TwoDeliver(r: Registry, a: Letter, b: Letter)
    requires Fits(a.frame) && Fits(b.frame)
    ensures Delivered(r, Queue(Queue(r, a.to, a.frame).0, b.to, b.frame).0, [a, b])
  {
    PostDelivers(r, [a, b]);
    assert [a, b][1..] == [b] && [b][1..] == [];
    assert Post(Queue(r, a.to, a.frame).0, [b]) == Queue(Queue(r, a.to, a.frame).0, b.to, b.frame).0;
  }

  /** A frame that could not be queued leaves nothing behind in the logs. */
  lemma RefusedThenOne(r: Registry, c: nat, f: Frame, to: nat, g: Frame)
    requires Fits(f) && Fits(g) && !RoomFor(r, c, 1)
    ensures Delivered(r, Queue(Queue(r, c, f).0, to, g).0, [Letter(to, g)])
  {
    var next := Queue(r, c, f).0;
    var last := Queue(next, to, g).0;
    QueueOrShut(r, c, f);
    OneDelivers(next, to, g);
    forall d ensures Gains(r, last, d, Addressed([Letter(to, g)], d)) {
      assert Gains(next, last, d, Addressed([Letter(to, g)], d));
    }
  }
}
