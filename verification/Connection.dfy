/** Blocking frame I/O (common.c). What the TLS layer will answer is an arbitrary script,
    so every fragmentation, retry, timeout and failure is some value of it. */
module Connection {
  import opened Bytes
  import opened Framing

  /** What successive reads find. After the script the peer has closed the stream. */
  datatype Arrival =
    | Data(bytes: seq<Byte>)
    | Stall(timedOut: bool, forWrite: bool)
    | ReadBroken

  /** What successive writes find. After the script everything is accepted. */
  datatype Room =
    | Accept(most: nat)
    | Block(pollFails: bool)
    | WriteClosed
    | WriteBroken

  /** The bytes that reads will deliver, and whether the stream then ends by closing. */
  datatype Stream = Stream(bytes: seq<Byte>, closes: bool)

  function Deliverable(script: seq<Arrival>): Stream {
    if script == [] then Stream([], true)
    else match script[0]
      case Data(bytes) => var s := Deliverable(script[1..]); Stream(bytes + s.bytes, s.closes)
      case Stall(timedOut, _) => if timedOut then Stream([], false) else Deliverable(script[1..])
      case ReadBroken => Stream([], false)
  }

  /** How many more bytes writes will take: a limit, or all there are. */
  datatype Budget = NoLimit | Limit(bytes: nat)

  function BudgetOf(script: seq<Room>): Budget {
    if script == [] then NoLimit
    else match script[0]
      case Accept(most) =>
        (match BudgetOf(script[1..])
         case NoLimit => NoLimit
         case Limit(n) => Limit(most + n))
      case Block(pollFails) => if pollFails then Limit(0) else BudgetOf(script[1..])
      case WriteClosed => Limit(0)
      case WriteBroken => Limit(0)
  }

  /** The state of the sending direction; once it has failed nothing is sent any more. */
  datatype Link = Link(budget: Budget, failed: bool)

  /** The link takes k more bytes. */
  predicate Passes(link: Link, k: nat) {
    !link.failed && (link.budget.Limit? ==> k <= link.budget.bytes)
  }

  /** How many of k bytes the link takes. */
  function Taken(link: Link, k: nat): (n: nat)
    ensures n <= k && (Passes(link, k) ==> n == k)
  {
    if Passes(link, k) then k else if link.failed then 0 else link.budget.bytes
  }

  function Spend(link: Link, k: nat): Link
    requires Passes(link, k)
  {
    match link.budget
    case NoLimit => link
    case Limit(n) => link.(budget := Limit(n - k))
  }

  /** What sending `bytes` over a link does to what has been sent, and whether it succeeds. */
  ghost predicate Sends(link: Link, before: seq<Byte>, bytes: seq<Byte>, after: seq<Byte>, ok: bool) {
    ok == Passes(link, |bytes|) && after == before + bytes[..Taken(link, |bytes|)]
  }

  lemma SendsThen(link: Link, before: seq<Byte>, x: seq<Byte>, mid: seq<Byte>, y: seq<Byte>, after: seq<Byte>, ok: bool)
    requires Sends(link, before, x, mid, true) && Sends(Spend(link, |x|), mid, y, after, ok)
    ensures Sends(link, before, x + y, after, ok)
  {
    var n := Taken(Spend(link, |x|), |y|);
    assert x[..|x|] == x && (x + y)[..|x| + n] == x + y[..n];
  }

  lemma SendsNoMore(link: Link, before: seq<Byte>, x: seq<Byte>, after: seq<Byte>, y: seq<Byte>)
    requires Sends(link, before, x, after, false)
    ensures Sends(link, before, x + y, after, false)
  {
    var n := Taken(link, |x|);
    assert (x + y)[..n] == x[..n];
  }

  /** A script in which nothing fails sends everything. */
  lemma {:induction false} HealthyHasNoLimit(script: seq<Room>)
    requires forall i :: 0 <= i < |script| ==> script[i].Accept? || script[i] == Block(false)
    ensures BudgetOf(script) == NoLimit
  {
    if script != [] {
      HealthyHasNoLimit(script[1..]);
    }
  }

  datatype ReadResult = Got(bytes: seq<Byte>) | ReadWant(timedOut: bool, forWrite: bool) | ReadEnd | ReadFatal

  datatype WriteResult = Wrote(count: nat) | WriteWant(pollFails: bool) | WriteEnd | WriteFatal

  class Connection {
    var arrivals: seq<Arrival>
    var rooms: seq<Room>
    var ioFailed: bool
    ghost var sent: seq<Byte>

    ghost function Input(): Stream
      reads this
    {
      if ioFailed then Stream([], false) else Deliverable(arrivals)
    }

    ghost function Output(): Link
      reads this
    {
      Link(BudgetOf(rooms), ioFailed)
    }

    constructor (arrivals: seq<Arrival>, rooms: seq<Room>)
      ensures this.arrivals == arrivals && this.rooms == rooms && !ioFailed && sent == []
    {
      this.arrivals, this.rooms, ioFailed, sent := arrivals, rooms, false, [];
    }

    /** SSL_read_ex: at most `most` bytes of what has arrived. */
    method SslRead(most: nat) returns (r: ReadResult)
      requires 0 < most
      modifies `arrivals
      ensures r.Got? ==> |r.bytes| <= most
      ensures r.Got? ==> Deliverable(old(arrivals)).bytes == r.bytes + Deliverable(arrivals).bytes
      ensures r.Got? ==> Deliverable(old(arrivals)).closes == Deliverable(arrivals).closes
      ensures r.ReadWant? && !r.timedOut ==> Deliverable(old(arrivals)) == Deliverable(arrivals)
      ensures r.ReadWant? && r.timedOut ==> Deliverable(old(arrivals)) == Stream([], false)
      ensures r.ReadEnd? ==> Deliverable(old(arrivals)) == Stream([], true) == Deliverable(arrivals)
      ensures r.ReadFatal? ==> Deliverable(old(arrivals)) == Stream([], false)
      ensures if r.Got? && |r.bytes| == most then |arrivals| <= |old(arrivals)|
              else r.ReadEnd? || |arrivals| < |old(arrivals)|
    {
      if arrivals == [] {
        return ReadEnd;
      }
      match arrivals[0]
      case Data(bytes) =>
        if |bytes| <= most {
          arrivals := arrivals[1..];
          return Got(bytes);
        }
        var rest := arrivals[1..];
        assert bytes + Deliverable(rest).bytes == bytes[..most] + (bytes[most..] + Deliverable(rest).bytes);
        arrivals := [Data(bytes[most..])] + rest;
        assert arrivals[1..] == rest;
        return Got(bytes[..most]);
      case Stall(timedOut, forWrite) =>
        arrivals := arrivals[1..];
        return ReadWant(timedOut, forWrite);
      case ReadBroken =>
        arrivals := arrivals[1..];
        return ReadFatal;
    }

    /** Fill the buffer from offset 0: complete, or short because the stream closed. */
    method RecvAll(buffer: array<Byte>, length: nat) returns (total: int)
      requires length <= buffer.Length
      modifies `arrivals, `ioFailed, buffer
      ensures var s := old(Input());
              if old(ioFailed) then total == -1
              else if |s.bytes| >= length then
                && total == length && buffer[..length] == s.bytes[..length]
                && Input() == Stream(s.bytes[length..], s.closes)
              else if s.closes then total == |s.bytes| && Input() == Stream([], true)
              else total == -1
    {
      if ioFailed {
        return -1;
      }
      total := 0;
      ghost var s := Input();
      while total < length
        invariant 0 <= total <= length && total <= |s.bytes| && !ioFailed
        invariant buffer[..total] == s.bytes[..total]
        invariant Input() == Stream(s.bytes[total..], s.closes)
        decreases length - total, |arrivals|
      {
        var r := SslRead(length - total);
        match r
        case Got(bytes) =>
          forall i | 0 <= i < |bytes| {
            buffer[total + i] := bytes[i];
          }
          assert s.bytes[total..] == bytes + Deliverable(arrivals).bytes;
          assert s.bytes[total..][|bytes|..] == s.bytes[total + |bytes|..];
          total := total + |bytes|;
        case ReadEnd =>
          return;
        case ReadWant(timedOut, forWrite) =>
          if timedOut {
            ioFailed := forWrite;
            return -1;
          }
        case ReadFatal =>
          ioFailed := true;
          return -1;
      }
    }

    /** One frame, type byte first; 0 at the end of the stream, -1 for an error. A frame is
        returned exactly when the one-shot decoder finds one that fits, and nothing behind
        it is consumed; the end is clean only before the first byte of a frame. */
    method ReceiveFrame(frame: array<Byte>) returns (r: int)
      modifies `arrivals, `ioFailed, frame
      ensures var s := old(Input());
              && (r > 0 <==> exists f, rest :: DecodeOne(s.bytes) == Complete(f, rest) && |Raw(f)| <= frame.Length)
              && (r > 0 ==> var one := DecodeOne(s.bytes);
                    && r == |Raw(one.frame)| <= frame.Length && frame[..r] == Raw(one.frame)
                    && Input() == Stream(one.rest, s.closes))
              && (r == 0 <==> frame.Length > 0 && s == Stream([], true))
              && (r <= 0 ==> r == 0 || r == -1)
    {
      if frame.Length == 0 {
        return -1;
      }
      ghost var s := Input();
      var header := new Byte[4](_ => 0);
      var got := RecvAll(header, 4);
      if got != 4 {
        return if got == 0 then 0 else -1;
      }
      assert header[..] == header[..4] == s.bytes[..4];
      var length := Read32(header[..], 0);
      if length == 0 || length > FRAME_MAX_SIZE || length > frame.Length {
        return -1;
      }
      got := RecvAll(frame, length);
      if got != length {
        return -1;
      }
      BodyOf(s.bytes, frame[..length]);
      if !ValidFrameType(frame[0]) {
        return -1;
      }
      return length;
    }

    /** SSL_write_ex: some nonempty prefix of the bytes, if any. */
    method SslWrite(bytes: seq<Byte>) returns (r: WriteResult)
      requires bytes != []
      modifies `rooms, `sent
      ensures r.Wrote? ==> 0 < r.count <= |bytes| && sent == old(sent) + bytes[..r.count]
      ensures r.Wrote? ==> Passes(Link(BudgetOf(old(rooms)), false), r.count)
                           && Link(BudgetOf(rooms), false) == Spend(Link(BudgetOf(old(rooms)), false), r.count)
      ensures !r.Wrote? ==> sent == old(sent) && |rooms| < |old(rooms)|
      ensures r.WriteWant? && !r.pollFails ==> BudgetOf(rooms) == BudgetOf(old(rooms))
      ensures r.WriteEnd? || r.WriteFatal? || (r.WriteWant? && r.pollFails) ==> BudgetOf(old(rooms)) == Limit(0)
    {
      if rooms == [] {
        sent := sent + bytes;
        assert bytes == bytes[..|bytes|];
        return Wrote(|bytes|);
      }
      var room, rest := rooms[0], rooms[1..];
      rooms := rest;
      match room
      case Accept(most) =>
        if most == 0 {
          return WriteWant(false);
        }
        if most <= |bytes| {
          sent := sent + bytes[..most];
          return Wrote(most);
        }
        rooms := [Accept(most - |bytes|)] + rest;
        assert rooms[1..] == rest && bytes == bytes[..|bytes|];
        sent := sent + bytes;
        return Wrote(|bytes|);
      case Block(pollFails) => return WriteWant(pollFails);
      case WriteClosed => return WriteEnd;
      case WriteBroken => return WriteFatal;
    }

    /** Succeeds exactly when the link takes all the bytes; otherwise it has taken what it could. */
    method SendAll(bytes: seq<Byte>) returns (ok: bool)
      modifies `rooms, `sent, `ioFailed
      ensures Sends(old(Output()), old(sent), bytes, sent, ok)
      ensures ok ==> Output() == Spend(old(Output()), |bytes|)
    {
      if ioFailed {
        return false;
      }
      var total := 0;
      ghost var link := Output();
      while total < |bytes|
        invariant 0 <= total <= |bytes| && sent == old(sent) + bytes[..total]
        invariant Passes(link, total) && Output() == Spend(link, total)
        decreases |bytes| - total, |rooms|
      {
        var r := SslWrite(bytes[total..]);
        match r
        case Wrote(count) =>
          assert bytes[..total] + bytes[total..][..count] == bytes[..total + count];
          total := total + count;
        case WriteWant(pollFails) =>
          if pollFails {
            ioFailed := true;
            return false;
          }
        case WriteEnd =>
          return false;
        case WriteFatal =>
          ioFailed := true;
          return false;
      }
      return true;
    }

    /** A frame that fits is sent exactly when the link takes its whole encoding; a frame
        that does not fit sends nothing. */
    method SendFrame(f: Frame) returns (ok: bool)
      modifies `rooms, `sent, `ioFailed
      ensures !Fits(f) ==> !ok && sent == old(sent)
      ensures Fits(f) ==> Sends(old(Output()), old(sent), Wire(f), sent, ok)
      ensures ok ==> Output() == Spend(old(Output()), |Wire(f)|)
    {
      if !ValidFrameType(f.kind) || |f.payload| > FRAME_MAX_SIZE - 1 {
        return false;
      }
      ghost var header, before, link := Be32(1 + |f.payload|), sent, Output();
      assert Wire(f) == header + ([f.kind] + f.payload) == (header + [f.kind]) + f.payload;
      ok := SendAll(Be32(1 + |f.payload|));
      if !ok {
        SendsNoMore(link, before, header, sent, [f.kind] + f.payload);
        return;
      }
      ghost var mid := sent;
      ok := SendAll([f.kind]);
      SendsThen(link, before, header, mid, [f.kind], sent, ok);
      if !ok {
        SendsNoMore(link, before, header + [f.kind], sent, f.payload);
        return;
      }
      mid := sent;
      if |f.payload| != 0 {
        ok := SendAll(f.payload);
      }
      SendsThen(link, before, header + [f.kind], mid, f.payload, sent, ok);
    }
  }

  /** What the second read delivers is the body of the frame. */
  lemma BodyOf(stream: seq<Byte>, body: seq<Byte>)
    requires |body| + 4 <= |stream| && 0 < |body| <= FRAME_MAX_SIZE
    requires Read32(stream[..4], 0) == |body| && body == stream[4..][..|body|]
    ensures DecodeOne(stream) == if ValidFrameType(body[0]) then Complete(Frame(body[0], body[1..]), stream[4 + |body|..]) else Bad
    ensures [body[0]] + body[1..] == body
  {
    assert body[1..] == stream[5..4 + |body|];
  }
}
