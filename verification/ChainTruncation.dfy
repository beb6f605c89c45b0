/** setValidSections of chain/core/chain_indexer.go, statement by statement.  Two goroutines can be inside it
    at once: processSection calls it without the lock after a failed backend reset, and newHead calls it under
    the lock.  Both decrement and re-read the same counter. */
module ChainTruncation {
  import opened Chain

  const MAX_UINT64: nat := 0xFFFF_FFFF_FFFF_FFFF

  /** Where a goroutine stands in the loop: the test, the decrement, the removal of the head the counter names
      by then, the final assignment; or outside. */
  datatype Pc = Off | Test | Dec | Rem | Fin

  datatype Store = Store(stored: nat, heads: map<nat, Hash>)

  /** The next statement of the loop that cuts back to `target`. */
  function LoopStore(d: Store, pc: Pc, target: nat): Store {
    match pc
    case Dec => d.(stored := if d.stored == 0 then MAX_UINT64 else d.stored - 1)
    case Rem => d.(heads := d.heads - {d.stored})
    case Fin => d.(stored := target)
    case _ => d
  }

  function LoopPc(d: Store, pc: Pc, target: nat): Pc {
    match pc
    case Off => Off
    case Test => if d.stored > target then Dec else Fin
    case Dec => Rem
    case Rem => Test
    case Fin => Off
  }

  /** Section heads exist exactly below the stored count. */
  ghost predicate Dense(d: Store) { forall i: nat :: i in d.heads <==> i < d.stored }

  /** The same, but for the one head that was passed and is removed next. */
  ghost predicate DenseBut(d: Store, removing: bool) {
    forall i: nat :: i in d.heads <==> i < d.stored || (removing && i == d.stored)
  }

  /** What one goroutine alone in the loop keeps. */
  ghost predicate Alone(d: Store, pc: Pc, target: nat) {
    && DenseBut(d, pc.Rem?)
    && (pc.Test? || pc.Rem? ==> d.stored >= target) && (pc.Dec? ==> d.stored > target) && (pc.Fin? ==> d.stored == target)
  }

  /** A truncation that is not interrupted keeps the heads dense, and ends at its target. */
  lemma AloneStep(d: Store, pc: Pc, target: nat)
    requires Alone(d, pc, target) && !pc.Off?
    ensures Alone(LoopStore(d, pc, target), LoopPc(d, pc, target), target)
    ensures LoopStore(d, pc, target).stored <= d.stored
    ensures LoopPc(d, pc, target).Off? ==> LoopStore(d, pc, target).stored == target
  {}

  // ---------------------------------------------------------------- two goroutines

  /** The worker clears everything, without the lock; the chain event cuts back to its target. */
  datatype Duel = Duel(store: Store, clear: Pc, cut: Pc, target: nat)

  datatype Side = Clearer | Cutter

  function Other(x: Side): Side { if x.Clearer? then Cutter else Clearer }

  function PcOf(d: Duel, x: Side): Pc { if x.Clearer? then d.clear else d.cut }

  function TargetOf(d: Duel, x: Side): nat { if x.Clearer? then 0 else d.target }

  function Move(d: Duel, x: Side): Duel {
    var store := LoopStore(d.store, PcOf(d, x), TargetOf(d, x));
    var pc := LoopPc(d.store, PcOf(d, x), TargetOf(d, x));
    if x.Clearer? then d.(store := store, clear := pc) else d.(store := store, cut := pc)
  }

  /** A schedule moves only goroutines that are in the loop. */
  ghost predicate Playable(d: Duel, sides: seq<Side>)
    decreases |sides|
  {
    sides == [] || (!PcOf(d, sides[0]).Off? && Playable(Move(d, sides[0]), sides[1..]))
  }

  ghost function Play(d: Duel, sides: seq<Side>): Duel
    decreases |sides|
  {
    if sides == [] then d else Play(Move(d, sides[0]), sides[1..])
  }

  ghost predicate Over(d: Duel) { d.clear.Off? && d.cut.Off? }

  /** Two truncations at the moment the second one enters: the other was alone until then. */
  ghost predicate Meet(d: Duel) {
    || (d.cut.Test? && d.target < d.store.stored && !d.clear.Off? && Alone(d.store, d.clear, 0))
    || (d.clear.Test? && !d.cut.Off? && Alone(d.store, d.cut, d.target))
  }

  predicate InLoop(pc: Pc) { pc.Test? || pc.Dec? || pc.Rem? }

  /** At most the head of section 0 is left, and whoever brings the counter to zero removes it. */
  ghost predicate Calm(d: Duel) {
    && d.target == 0 && (forall i: nat :: i in d.store.heads ==> i == 0)
    && (0 in d.store.heads ==>
          || (d.store.stored >= 1 && InLoop(d.clear) && InLoop(d.cut))
          || (d.store.stored == 0 && (d.clear.Rem? || d.cut.Rem?)))
    && (Over(d) ==> d.store.stored == 0)
  }

  /** A truncation that starts while another is under way: the other was alone until then, or it is left over
      from a harmless meeting, in which the counter may have wrapped around. */
  ghost predicate Encounter(d: Duel) {
    Meet(d) || (d.cut.Test? && d.target < d.store.stored && !d.clear.Off? && Calm(d.(cut := Off, target := 0)))
  }

  /** The guard of the two loops that decides whether their meeting can do harm. */
  predicate Harmful(d: Duel) {
    d.target > 0 || (d.store.heads != map[] && (d.store.stored >= 2 || (d.store.stored == 1 && (d.clear.Rem? || d.cut.Rem?))))
  }

  ghost predicate Survives(d: Duel) {
    forall sides: seq<Side> :: Playable(d, sides) && Over(Play(d, sides)) ==> Dense(Play(d, sides).store)
  }

  /** A schedule on which the heads end up wrong. */
  ghost predicate Breaks(d: Duel, sides: seq<Side>) { Playable(d, sides) && Over(Play(d, sides)) && !Dense(Play(d, sides).store) }

  // ---------------------------------------------------------------- schedules

  lemma {:induction false} PlayOn(d: Duel, first: seq<Side>, then_: seq<Side>)
    requires Playable(d, first) && Playable(Play(d, first), then_)
    ensures Playable(d, first + then_) && Play(d, first + then_) == Play(Play(d, first), then_)
    decreases |first|
  {
    if first == [] {
      assert first + then_ == then_;
    } else {
      var all := first + then_;
      assert all[0] == first[0] && all[1..] == first[1..] + then_;
      PlayOn(Move(d, first[0]), first[1..], then_);
    }
  }

  lemma PlayOne(d: Duel, x: Side)
    requires !PcOf(d, x).Off?
    ensures Playable(d, [x]) && Play(d, [x]) == Move(d, x)
  {
    var one := [x];
    assert one[1..] == [];
    assert Play(Move(d, x), []) == Move(d, x);
  }

  /** Continuing a schedule by one move. */
  lemma Extend(d: Duel, sides: seq<Side>, x: Side) returns (more: seq<Side>)
    requires Playable(d, sides) && !PcOf(Play(d, sides), x).Off?
    ensures Playable(d, more) && Play(d, more) == Move(Play(d, sides), x)
  {
    PlayOne(Play(d, sides), x);
    more := sides + [x];
    PlayOn(d, sides, [x]);
  }

  /** `more` goes on from `d` to `e`. */
  ghost predicate Leads(d: Duel, sides: seq<Side>, e: Duel) { Playable(d, sides) && Play(d, sides) == e }

  lemma Go(d: Duel, sides: seq<Side>, e: Duel, x: Side) returns (more: seq<Side>)
    requires Leads(d, sides, e) && !PcOf(e, x).Off?
    ensures Leads(d, more, Move(e, x))
  {
    more := Extend(d, sides, x);
  }

  lemma Stay(d: Duel)
    ensures Leads(d, [], d)
  {}

  /** The worker runs to the end of its loop: everything below the counter is gone. */
  lemma {:induction false} Drain(d: Duel, sides: seq<Side>, e: Duel) returns (more: seq<Side>)
    requires Leads(d, sides, e) && e.clear.Test?
    ensures Leads(d, more, e.(store := Store(0, map i | i in e.store.heads && i >= e.store.stored :: e.store.heads[i]), clear := Off))
    decreases e.store.stored
  {
    more := Go(d, sides, e, Clearer);
    var e1 := Move(e, Clearer);
    if e.store.stored == 0 {
      more := Go(d, more, e1, Clearer);
      assert (map i | i in e.store.heads && i >= 0 :: e.store.heads[i]) == e.store.heads;
    } else {
      more := Go(d, more, e1, Clearer);
      var e2 := Move(e1, Clearer);
      more := Go(d, more, e2, Clearer);
      var e3 := Move(e2, Clearer);
      more := Drain(d, more, e3);
      assert (map i | i in e3.store.heads && i >= e3.store.stored :: e3.store.heads[i])
          == (map i | i in e.store.heads && i >= e.store.stored :: e.store.heads[i]);
    }
  }

  /** After the worker is through, the chain event finds the counter at or below its target and sets it. */
  lemma Conclude(d: Duel, sides: seq<Side>, e: Duel) returns (more: seq<Side>)
    requires Leads(d, sides, e) && e.clear.Off? && (e.cut.Fin? || (e.cut.Test? && e.store.stored <= e.target))
    ensures Leads(d, more, e.(store := e.store.(stored := e.target), cut := Off))
  {
    var e1 := e;
    more := sides;
    if e.cut.Test? {
      more := Go(d, more, e, Cutter);
      e1 := Move(e, Cutter);
    }
    more := Go(d, more, e1, Cutter);
  }

  // ---------------------------------------------------------------- the harm

  /** The worker clears everything, then the event sets the counter to its own target: sections are counted
      whose heads are gone. */
  lemma MissingHeads(d: Duel) returns (sides: seq<Side>)
    requires Meet(d) && d.target > 0
    ensures Breaks(d, sides)
  {
    sides := [];
    Stay(d);
    var e := d;
    if e.cut.Dec? {
      sides := Go(d, sides, e, Cutter);
      e := Move(e, Cutter);
    }
    if e.cut.Rem? {
      sides := Go(d, sides, e, Cutter);
      e := Move(e, Cutter);
    }
    if e.clear.Dec? {
      sides := Go(d, sides, e, Clearer);
      e := Move(e, Clearer);
    }
    if e.clear.Rem? {
      sides := Go(d, sides, e, Clearer);
      e := Move(e, Clearer);
    }
    assert e.clear.Test? && (e.cut.Test? || e.cut.Fin?) && e.target == d.target;
    assert e.store.stored == 0 ==> 0 !in e.store.heads;
    sides := Drain(d, sides, e);
    e := Play(d, sides);
    sides := Conclude(d, sides, e);
    assert 0 !in Play(d, sides).store.heads;
  }

  /** With both loops going down to zero: a head that one goroutine has passed and the other's decrement hides
      is never removed. */
  lemma StaleHead(d: Duel, e0: Duel, sides0: seq<Side>, x: Side) returns (sides: seq<Side>)
    requires d.target == 0 && e0.target == 0 && Leads(d, sides0, e0)
    requires PcOf(e0, x).Rem? && PcOf(e0, Other(x)).Test? && e0.store.stored >= 1 && e0.store.stored in e0.store.heads
    ensures Breaks(d, sides)
  {
    var k := e0.store.stored;
    var y := Other(x);
    sides := Go(d, sides0, e0, y);
    var e := Move(e0, y);
    sides := Go(d, sides, e, y);
    e := Move(e, y);
    assert e.store.stored == k - 1 && PcOf(e, x).Rem? && PcOf(e, y).Rem?;
    sides := Go(d, sides, e, x);
    e := Move(e, x);
    sides := Go(d, sides, e, y);
    e := Move(e, y);
    assert e.clear.Test? && e.cut.Test? && k in e.store.heads && e.store.stored < k && e.target == 0;
    sides := Drain(d, sides, e);
    e := Play(d, sides);
    sides := Conclude(d, sides, e);
    assert k in Play(d, sides).store.heads;
  }

  /** Two goroutines before their decrements, with two sections or more. */
  lemma TwoSections(d: Duel) returns (sides: seq<Side>)
    requires Meet(d) && d.target == 0 && d.store.stored >= 2 && !d.clear.Rem? && !d.cut.Rem?
    ensures Breaks(d, sides)
  {
    var n := d.store.stored;
    var x := if d.clear.Test? then Cutter else Clearer;
    assert PcOf(d, Other(x)).Test? && (PcOf(d, x).Test? || PcOf(d, x).Dec?);
    sides := [];
    Stay(d);
    var e := d;
    if PcOf(e, x).Test? {
      sides := Go(d, sides, e, x);
      e := Move(e, x);
    }
    sides := Go(d, sides, e, x);
    e := Move(e, x);
    assert e.store == Store(n - 1, d.store.heads) && PcOf(e, x).Rem? && PcOf(e, Other(x)).Test?;
    sides := StaleHead(d, e, sides, x);
  }

  /** The same with no head left: the worker clears to the end, then the event counts its own target. */
  lemma NoHeads(d: Duel) returns (sides: seq<Side>)
    requires d.store.heads == map[] && d.target > 0 && d.cut.Test? && !d.clear.Off?
    ensures Breaks(d, sides)
  {
    sides := [];
    Stay(d);
    var e := d;
    if e.clear.Dec? {
      sides := Go(d, sides, e, Clearer);
      e := Move(e, Clearer);
    }
    if e.clear.Rem? {
      sides := Go(d, sides, e, Clearer);
      e := Move(e, Clearer);
    }
    assert e.store.heads == map[] && e.cut.Test? && e.target == d.target;
    if e.clear.Test? { sides := Drain(d, sides, e); } else { sides := Go(d, sides, e, Clearer); }
    e := Play(d, sides);
    assert e.store.heads == map[] && e.store.stored == 0 && e.clear.Off?;
    sides := Conclude(d, sides, e);
    assert 0 !in Play(d, sides).store.heads;
  }

  lemma HarmDone(d: Duel) returns (sides: seq<Side>)
    requires Encounter(d) && Harmful(d)
    ensures Breaks(d, sides)
  {
    if !Meet(d) {
      assert d.store.heads.Keys == {};
      sides := NoHeads(d);
    } else if d.target > 0 {
      sides := MissingHeads(d);
    } else if d.clear.Rem? || d.cut.Rem? {
      var x := if d.clear.Rem? then Clearer else Cutter;
      Stay(d);
      sides := StaleHead(d, d, [], x);
    } else {
      sides := TwoSections(d);
    }
  }

  // ---------------------------------------------------------------- no harm

  lemma CalmMove(d: Duel, x: Side)
    requires Calm(d) && !PcOf(d, x).Off?
    ensures Calm(Move(d, x))
  {}

  lemma {:induction false} CalmPlay(d: Duel, sides: seq<Side>)
    requires Calm(d) && Playable(d, sides)
    ensures Calm(Play(d, sides))
    decreases |sides|
  {
    if sides != [] {
      CalmMove(d, sides[0]);
      CalmPlay(Move(d, sides[0]), sides[1..]);
    }
  }

  lemma HarmlessCalm(d: Duel)
    requires Encounter(d) && !Harmful(d)
    ensures Calm(d)
  {}

  lemma CalmEnd(d: Duel, sides: seq<Side>)
    requires Encounter(d) && !Harmful(d) && Playable(d, sides) && Over(Play(d, sides))
    ensures Play(d, sides).store == Store(0, map[])
  {
    HarmlessCalm(d);
    CalmPlay(d, sides);
    assert Play(d, sides).store.heads.Keys == {};
  }

  /** Two truncations that meet leave the heads dense on every schedule if and only if the event's target is
      section 0, and no head is left or else at most one section is, with nobody between its decrement and its
      removal while one is. */
  lemma MeetingIff(d: Duel)
    requires Encounter(d)
    ensures Survives(d) <==> !Harmful(d)
  {
    if Harmful(d) {
      var sides := HarmDone(d);
      assert Playable(d, sides) && Over(Play(d, sides));
    } else {
      forall sides: seq<Side> | Playable(d, sides) && Over(Play(d, sides)) ensures Dense(Play(d, sides).store) {
        CalmEnd(d, sides);
      }
    }
  }
}
