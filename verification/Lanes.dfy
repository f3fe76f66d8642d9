/** A byte as a set of eight constellations: constellation `g` is the bit under `1 << g`. */
module Lanes {
  import opened BitBuffer

  predicate Lane(v: bv8, g: nat)
    requires g < 8
  {
    BitIn(v, 7 - g)
  }

  function SetLane(v: bv8, g: nat, on: bool): bv8
    requires g < 8
  {
    PutIn(v, 7 - g, on)
  }

  lemma SetLanes(v: bv8, g: nat, on: bool)
    requires g < 8
    ensures forall h :: 0 <= h < 8 ==> Lane(SetLane(v, g, on), h) == if h == g then on else Lane(v, h)
  {
    hide BitIn, PutIn;
    forall h | 0 <= h < 8 { PutInBits(v, 7 - g, 7 - h, on); }
  }

  /** Constellation `g` alone is the byte `1 << g`. */
  lemma LaneAlone(g: nat, h: nat)
    requires g < 8 && h < 8
    ensures var alone: seq<bv8> := [1, 2, 4, 8, 16, 32, 64, 128]; Lane(alone[g], h) <==> g == h
  {
  }

  lemma NoLanes()
    ensures forall h :: 0 <= h < 8 ==> !Lane(0, h)
  {
  }

  lemma SomeLane(v: bv8)
    ensures v == 0 <==> forall g :: 0 <= g < 8 ==> !Lane(v, g)
  {
    assert v == 0 <==>
      !Lane(v, 0) && !Lane(v, 1) && !Lane(v, 2) && !Lane(v, 3) && !Lane(v, 4) && !Lane(v, 5) && !Lane(v, 6)
        && !Lane(v, 7);
    hide Lane;
  }

  lemma LaneOr(x: bv8, y: bv8, g: nat)
    requires g < 8
    ensures Lane(x | y, g) == (Lane(x, g) || Lane(y, g))
  {
  }

  lemma LaneAnd(x: bv8, y: bv8, g: nat)
    requires g < 8
    ensures Lane(x & y, g) == (Lane(x, g) && Lane(y, g))
  {
  }

  lemma LaneNot(x: bv8, g: nat)
    requires g < 8
    ensures Lane(!x, g) == !Lane(x, g)
  {
  }

  /** `x & ~y` is zero when every lane of `x` is one of `y`. */
  lemma SubsetLanes(x: bv8, y: bv8)
    ensures x & !y == 0 <==> forall g :: 0 <= g < 8 ==> Lane(x, g) ==> Lane(y, g)
  {
    SomeLane(x & !y);
    hide Lane;
    forall g | 0 <= g < 8
      ensures Lane(x & !y, g) == (Lane(x, g) && !Lane(y, g))
    {
      LaneAnd(x, !y, g);
      LaneNot(y, g);
    }
  }

  /** The unused constellation id. */
  lemma Lane4(x: bv8)
    ensures x & 16 == 0 <==> !Lane(x, 4)
  {
  }
}
