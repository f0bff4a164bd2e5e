/** What the departure of a client does to the routes and to the logs of the others. */
module RelayDepartures {
  import opened Bytes
  import opened Counting
  import opened RouteSpec
  import opened Sessions
  import opened RelaySpec
  import opened Relay
  import opened Mail
  import Serial = SerialRelay
  import Reg = RegistrySpec

  /** A live route between the client that left and another one. */
  ghost predicate Between(table: map<Key, Entry>, k: Key, id: nat, c: nat) {
    Live(table, k) && ((k.sender == id && table[k].target == c) || (k.sender == c && table[k].target == id))
  }

  /** What the other one has to be told about it: a receiver, that the session under its
      outbound id has failed; a sender, that the peer has gone. */
  ghost function News(table: map<Key, Entry>, k: Key, id: nat): Frame
    requires Live(table, k)
  {
    if k.sender == id then ErrorFrame(table[k].outbound) else Notice(DISCONNECTED)
  }

  ghost function RoutesBetween(table: map<Key, Entry>, id: nat, c: nat): set<Key> {
    set k | k in table && Between(table, k, id, c)
  }

  /** The routes for which c has to be told f. */
  ghost function Calls(table: map<Key, Entry>, id: nat, c: nat, f: Frame): set<Key> {
    set k | k in table && Between(table, k, id, c) && News(table, k, id) == f
  }

  /** Every frame occurs once for every route that calls for it. */
  ghost predicate Tells(table: map<Key, Entry>, id: nat, c: nat, told: seq<Frame>) {
    |told| == |RoutesBetween(table, id, c)| && forall f :: multiset(told)[f] == |Calls(table, id, c, f)|
  }

  // ----- The notifications of the sweep as letters -----

  ghost function Letters(table: map<Key, Entry>, id: nat, order: seq<Key>): (letters: seq<Letter>)
    requires forall k :: k in order ==> Live(table, k)
    ensures |letters| == |order|
  {
    var todo := SweepTodo(table, id, order);
    seq(|order|, i requires 0 <= i < |order| => Letter(todo[i].to, todo[i].frame))
  }

  lemma LettersTail(table: map<Key, Entry>, id: nat, order: seq<Key>)
    requires order != [] && forall k :: k in order ==> Live(table, k)
    ensures Letters(table, id, order)[1..] == Letters(table, id, order[1..])
    ensures SweepTodo(table, id, order)[1..] == SweepTodo(table, id, order[1..])
  {
  }

  lemma {:induction false} SweepPosts(table: map<Key, Entry>, id: nat, order: seq<Key>, r: Reg.Registry)
    requires forall k :: k in order ==> Live(table, k)
    ensures SendAll(r, SweepTodo(table, id, order)) == Post(r, Letters(table, id, order))
    decreases |order|
  {
    if order != [] {
      var first := SweepTodo(table, id, order)[0];
      LettersTail(table, id, order);
      SweepPosts(table, id, order[1..], Reg.Queue(r, first.to, first.frame).0);
    }
  }

  /** One key of the sweep: the letter goes to the other endpoint and says what it must. */
  lemma LetterFor(table: map<Key, Entry>, id: nat, k: Key, c: nat)
    requires NeedsAction(table, k, id) && c != id
    ensures var e := EmissionOf(ActionFor(table, k, id));
            (e.to == c <==> Between(table, k, id, c)) && e.frame == News(table, k, id) && Fits(e.frame)
  {
  }

  ghost predicate Sweepable(table: map<Key, Entry>, id: nat, order: seq<Key>) {
    && (forall i :: 0 <= i < |order| ==> NeedsAction(table, order[i], id))
    && (forall i, j :: 0 <= i < j < |order| ==> order[i] != order[j])
  }

  ghost function CallsIn(table: map<Key, Entry>, id: nat, c: nat, f: Frame, order: seq<Key>): set<Key> {
    set k | k in order && Between(table, k, id, c) && News(table, k, id) == f
  }

  ghost function RoutesIn(table: map<Key, Entry>, id: nat, c: nat, order: seq<Key>): set<Key> {
    set k | k in order && Between(table, k, id, c)
  }

  lemma InTail(table: map<Key, Entry>, id: nat, c: nat, f: Frame, order: seq<Key>)
    requires Sweepable(table, id, order) && order != []
    ensures Sweepable(table, id, order[1..]) && order[0] !in order[1..]
    ensures var k := order[0];
            && RoutesIn(table, id, c, order) == RoutesIn(table, id, c, order[1..]) + (if Between(table, k, id, c) then {k} else {})
            && CallsIn(table, id, c, f, order) ==
               CallsIn(table, id, c, f, order[1..]) + (if Between(table, k, id, c) && News(table, k, id) == f then {k} else {})
  {
    assert forall k :: k in order <==> k == order[0] || k in order[1..];
  }

  lemma CountFirst(here: bool, g: Frame, rest: seq<Frame>, f: Frame)
    ensures var told := (if here then [g] else []) + rest;
            && |told| == |rest| + (if here then 1 else 0)
            && multiset(told)[f] == multiset(rest)[f] + (if here && g == f then 1 else 0)
  {
    if here {
      assert multiset([g] + rest) == multiset{g} + multiset(rest);
    } else {
      assert [] + rest == rest;
    }
  }

  lemma CountWith(s: set<Key>, here: bool, k: Key)
    requires k !in s
    ensures |s + (if here then {k} else {})| == |s| + if here then 1 else 0
  {
  }

  lemma {:induction false} CountLetters(table: map<Key, Entry>, id: nat, c: nat, f: Frame, order: seq<Key>)
    requires Sweepable(table, id, order) && c != id
    ensures var told := Addressed(Letters(table, id, order), c);
            |told| == |RoutesIn(table, id, c, order)| && multiset(told)[f] == |CallsIn(table, id, c, f, order)|
    decreases |order|
  {
    if order != [] {
      var k, rest := order[0], order[1..];
      InTail(table, id, c, f, order);
      CountLetters(table, id, c, f, rest);
      AddressedFirst(table, id, c, order);
      var here := Between(table, k, id, c);
      CountFirst(here, News(table, k, id), Addressed(Letters(table, id, rest), c), f);
      CountWith(RoutesIn(table, id, c, rest), here, k);
      CountWith(CallsIn(table, id, c, f, rest), here && News(table, k, id) == f, k);
    }
  }

  lemma AddressedFirst(table: map<Key, Entry>, id: nat, c: nat, order: seq<Key>)
    requires Sweepable(table, id, order) && c != id && order != []
    ensures Addressed(Letters(table, id, order), c) ==
            (if Between(table, order[0], id, c) then [News(table, order[0], id)] else [])
            + Addressed(Letters(table, id, order[1..]), c)
  {
    LettersTail(table, id, order);
    LetterFor(table, id, order[0], c);
  }

  lemma LettersTell(table: map<Key, Entry>, id: nat, c: nat, order: seq<Key>)
    requires (forall k :: k in table ==> ValidEntry(table[k])) && AbortOrder(table, id, order)
    requires id != INVALID_CLIENT && c != INVALID_CLIENT && c != id
    ensures Tells(table, id, c, Addressed(Letters(table, id, order), c))
  {
    var told := Addressed(Letters(table, id, order), c);
    assert forall k :: Between(table, k, id, c) ==> NeedsAction(table, k, id);
    assert RoutesIn(table, id, c, order) == RoutesBetween(table, id, c);
    CountLetters(table, id, c, Notice(0), order);
    forall f ensures multiset(told)[f] == |Calls(table, id, c, f)| {
      CountLetters(table, id, c, f, order);
      assert CallsIn(table, id, c, f, order) == Calls(table, id, c, f);
    }
  }

  lemma RemovedElsewhere(r: Reg.Registry, last: Reg.Registry, id: nat, c: nat, told: seq<Frame>)
    requires c != id && Gains(Reg.Remove(r, id), last, c, told)
    ensures Gains(r, last, c, told)
  {
  }

  /** After a departure every other client has gained, for every live route between it and the
      client that left, one frame: the receiver an ERROR under the outbound id it knows, the
      sender one notice. Nobody else, and nobody for any other reason, has gained anything. */
  lemma DepartureIsTold(sh: Shared, id: nat, order: seq<Key>, c: nat)
    requires RouteSpec.Valid(sh.routes) && AbortOrder(sh.routes.table, id, order)
    requires id != INVALID_CLIENT && c != INVALID_CLIENT
    ensures var last := Serial.Depart(sh, id, order).registry;
            if c == id then Reg.Log(last, c) == Reg.Log(sh.registry, c)
            else exists told :: Tells(sh.routes.table, id, c, told) && Gains(sh.registry, last, c, told)
  {
    var table, r := sh.routes.table, Reg.Remove(sh.registry, id);
    var letters := Letters(table, id, order);
    SweepPosts(table, id, order, r);
    if c == id {
      ShutGainsNothing(r, letters, c);
    } else {
      forall i | 0 <= i < |letters| ensures Fits(letters[i].frame) {
        LetterFor(table, id, order[i], c);
      }
      PostGains(r, letters, c);
      LettersTell(table, id, c, order);
      RemovedElsewhere(sh.registry, Serial.Depart(sh, id, order).registry, id, c, Addressed(letters, c));
    }
  }

  /** In particular a receiver is told once about each of its sessions, and about no other. */
  lemma OneErrorPerRoute(routes: RouteSpec.Routes, id: nat, c: nat, told: seq<Frame>, o: Word)
    requires RouteSpec.Valid(routes) && Tells(routes.table, id, c, told)
    ensures multiset(told)[ErrorFrame(o)] ==
            if exists k :: Live(routes.table, k) && k.sender == id && routes.table[k].target == c && routes.table[k].outbound == o
            then 1 else 0
  {
    var table, calls := routes.table, Calls(routes.table, id, c, ErrorFrame(o));
    forall k | k in calls ensures k.sender == id && table[k].target == c && table[k].outbound == o {
      ControlMeaning(o);
      ControlMeaning(table[k].outbound);
    }
    if k :| Live(table, k) && k.sender == id && table[k].target == c && table[k].outbound == o {
      assert calls == {k};
    } else {
      assert calls == {};
    }
  }

  /** A route of the client that left is gone; a route to it is now a tombstone, so that the
      rest of the transfer is dropped; every other entry is as it was. */
  lemma DepartureBuries(sh: Shared, id: nat, order: seq<Key>, k: Key)
    requires RouteSpec.Valid(sh.routes) && AbortOrder(sh.routes.table, id, order) && id != INVALID_CLIENT
    requires k.sender != INVALID_CLIENT
    ensures var table, table' := sh.routes.table, Serial.Depart(sh, id, order).routes.table;
            if k.sender == id then k !in table'
            else if Live(table, k) && table[k].target == id then k in table' && table'[k] == Discard
            else SameEntry(table, table', k)
  {
  }
}
