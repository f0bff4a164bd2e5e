/** Which sessions the threads still have to end, and how that changes when one thread
    moves on. */
module RelayEnds {
  import opened Bytes
  import opened RouteSpec
  import opened Sessions
  import opened RelaySpec
  import opened Relay
  import Reg = RegistrySpec

  ghost predicate Ender(e: Emission) {
    Meaning(e.frame).EndEvent? || Meaning(e.frame).ErrorEvent?
  }

  // ----- A thread sends its first emission -----

  /** p' is p without its first emission; p' may add emissions that end nothing. */
  ghost predicate Drops(p: Phase, p': Phase) {
    && Todo(p) != []
    && (forall i :: 0 <= i < |Todo(p')| && Ender(Todo(p')[i]) ==> i + 1 < |Todo(p)| && Todo(p')[i] == Todo(p)[i + 1])
    && (forall i :: 1 <= i < |Todo(p)| && Ender(Todo(p)[i]) ==> i - 1 < |Todo(p')| && Todo(p')[i - 1] == Todo(p)[i])
  }

  lemma DropEnds(phases: map<nat, Phase>, id: nat, p': Phase, s: nat, i: nat, t: nat, o: nat)
    requires id in phases && Drops(phases[id], p') && Ends(phases[id := p'], s, i, t, o)
    ensures var j := if s == id then i + 1 else i;
            Ends(phases, s, j, t, o) && Todo(phases[id := p'][s])[i] == Todo(phases[s])[j]
  {
    assert s == id ==> Ender(Todo(p')[i]);
  }

  lemma DropHeld(phases: map<nat, Phase>, id: nat, p': Phase, t: nat, o: nat)
    requires id in phases && Drops(phases[id], p') && HeldByEnd(phases, t, o)
    requires !Closes(Todo(phases[id])[0], t, o)
    ensures HeldByEnd(phases[id := p'], t, o)
  {
    var s: nat, i: nat :| Ends(phases, s, i, t, o);
    assert s == id ==> i > 0 && Ender(Todo(phases[id])[i]);
    assert Ends(phases[id := p'], s, if s == id then i - 1 else i, t, o);
  }

  lemma DropHeldBack(phases: map<nat, Phase>, id: nat, p': Phase, t: nat, o: nat)
    requires id in phases && Drops(phases[id], p') && HeldByEnd(phases[id := p'], t, o)
    ensures HeldByEnd(phases, t, o)
  {
    var s: nat, i: nat :| Ends(phases[id := p'], s, i, t, o);
    DropEnds(phases, id, p', s, i, t, o);
  }

  lemma DropOneEnd(phases: map<nat, Phase>, id: nat, p': Phase)
    requires id in phases && Drops(phases[id], p') && OneEnd(phases)
    ensures OneEnd(phases[id := p'])
  {
    var phases' := phases[id := p'];
    forall s, i: nat, s', i': nat, t, o | Ends(phases', s, i, t, o) && Ends(phases', s', i', t, o)
      ensures s == s' && i == i'
    {
      DropEnds(phases, id, p', s, i, t, o);
      DropEnds(phases, id, p', s', i', t, o);
    }
  }

  /** The session that was ended has no other thread to end it. */
  lemma DropLast(phases: map<nat, Phase>, id: nat, p': Phase, t: nat, o: nat)
    requires id in phases && Drops(phases[id], p') && OneEnd(phases) && Closes(Todo(phases[id])[0], t, o)
    ensures !HeldByEnd(phases[id := p'], t, o)
  {
    if HeldByEnd(phases[id := p'], t, o) {
      var s: nat, i: nat :| Ends(phases[id := p'], s, i, t, o);
      DropEnds(phases, id, p', s, i, t, o);
      assert Ends(phases, id, 0, t, o);
    }
  }

  // ----- A thread that had nothing to send makes new plans -----

  ghost predicate Unoccupied(phases: map<nat, Phase>, id: nat) {
    id in phases ==> Todo(phases[id]) == []
  }

  lemma PlanHeld(phases: map<nat, Phase>, id: nat, p': Phase, t: nat, o: nat)
    requires Unoccupied(phases, id) && HeldByEnd(phases, t, o)
    ensures HeldByEnd(phases[id := p'], t, o)
  {
    var s: nat, i: nat :| Ends(phases, s, i, t, o);
    assert Ends(phases[id := p'], s, i, t, o);
  }

  ghost predicate EndsNothing(todo: seq<Emission>) {
    forall i :: 0 <= i < |todo| ==> !Ender(todo[i])
  }

  lemma PlanEnds(phases: map<nat, Phase>, id: nat, p': Phase, s: nat, i: nat, t: nat, o: nat)
    requires Ends(phases[id := p'], s, i, t, o) && EndsNothing(Todo(p'))
    ensures s != id && Ends(phases, s, i, t, o) && Todo(phases[id := p'][s])[i] == Todo(phases[s])[i]
  {
  }

  lemma PlanSame(phases: map<nat, Phase>, id: nat, p': Phase, t: nat, o: nat)
    requires Unoccupied(phases, id) && EndsNothing(Todo(p'))
    ensures HeldByEnd(phases[id := p'], t, o) <==> HeldByEnd(phases, t, o)
  {
    if HeldByEnd(phases, t, o) {
      PlanHeld(phases, id, p', t, o);
    }
    if HeldByEnd(phases[id := p'], t, o) {
      var s: nat, i: nat :| Ends(phases[id := p'], s, i, t, o);
      PlanEnds(phases, id, p', s, i, t, o);
    }
  }

  lemma PlanOneEnd(phases: map<nat, Phase>, id: nat, p': Phase)
    requires OneEnd(phases) && EndsNothing(Todo(p'))
    ensures OneEnd(phases[id := p'])
  {
    var phases' := phases[id := p'];
    forall s, i: nat, s', i': nat, t, o | Ends(phases', s, i, t, o) && Ends(phases', s', i', t, o)
      ensures s == s' && i == i'
    {
      PlanEnds(phases, id, p', s, i, t, o);
      PlanEnds(phases, id, p', s', i', t, o);
    }
  }
}
