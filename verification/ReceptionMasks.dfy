/** The byte masks and flags the reception records share, and what they say lane by lane. */
module ReceptionMasks {
  import opened BigEndian
  import opened Lanes

  type Bytes8 = s: seq<byte> | |s| == 8 witness [0, 0, 0, 0, 0, 0, 0, 0]
  type Bytes16 = s: seq<byte> | |s| == 16 witness [0, 0, 0, 0, 0, 0, 0, 0, 0, 0, 0, 0, 0, 0, 0, 0]

  const UTC_MIN := 946684800
  const UTC_MAX := 4102444800

  function Bv(x: byte): bv8 { x as bv8 }

  /** `a & ~b` is zero. */
  predicate Within(a: byte, b: byte) { Bv(a) & !Bv(b) == 0 }

  function Meet(a: byte, b: byte): bv8 { Bv(a) & Bv(b) }

  predicate WithinBoth(a: byte, b: byte, c: byte) { Bv(a) & !Meet(b, c) == 0 }

  predicate Empty(a: byte) { a == 0 }

  predicate Local(flags: byte) { Bv(flags) & 1 != 0 }
  predicate Remote(flags: byte) { Bv(flags) & 2 != 0 }
  predicate FlagsOK(flags: byte) { Bv(flags) & !3 == 0 }

  predicate In(mask: byte, g: nat)
    requires g < 8
  {
    Lane(Bv(mask), g)
  }

  lemma InLane(a: byte)
    ensures forall g :: 0 <= g < 8 ==> In(a, g) == Lane(Bv(a), g)
  {
    hide Bv, Lane;
  }

  lemma WithinIn(a: byte, b: byte)
    ensures Within(a, b) <==> forall g :: 0 <= g < 8 ==> In(a, g) ==> In(b, g)
  {
    hide Bv, Lane, In;
    SubsetLanes(Bv(a), Bv(b));
    InLane(a);
    InLane(b);
  }

  lemma MeetIn(a: byte, b: byte, g: nat)
    requires g < 8
    ensures Lane(Meet(a, b), g) == (In(a, g) && In(b, g))
  {
    LaneAnd(Bv(a), Bv(b), g);
    hide Bv, Lane;
  }

  lemma WithinBothIn(a: byte, b: byte, c: byte)
    ensures WithinBoth(a, b, c) <==> forall g :: 0 <= g < 8 ==> In(a, g) ==> In(b, g) && In(c, g)
  {
    SubsetLanes(Bv(a), Meet(b, c));
    hide Bv, Lane, Meet;
    forall g | 0 <= g < 8
      ensures Lane(Meet(b, c), g) == (In(b, g) && In(c, g)) && In(a, g) == Lane(Bv(a), g)
    {
      MeetIn(b, c, g);
    }
  }

  lemma EmptyIn(a: byte)
    ensures Empty(a) <==> forall g :: 0 <= g < 8 ==> !In(a, g)
  {
    assert a == 0 <==> Bv(a) == 0;
    hide Bv, Lane, In;
    SomeLane(Bv(a));
    InLane(a);
  }

  lemma FlagsMeaning(flags: byte)
    requires FlagsOK(flags)
    ensures flags == 3 <==> Local(flags) && Remote(flags)
  {
    assert Bv(flags) == 3 <==> Local(flags) && Remote(flags);
  }

  /** What the flag byte can hold: the low bit is the local model, the next one the remote model. */
  lemma FlagValues(flags: byte)
    ensures FlagsOK(flags) <==> flags < 4
    ensures FlagsOK(flags) ==> (Local(flags) <==> flags == 1 || flags == 3)
    ensures FlagsOK(flags) ==> (Remote(flags) <==> flags == 2 || flags == 3)
  {
    var v := Bv(flags);
    assert v & !3 == 0 <==> v < 4;
    assert flags < 4 <==> v < 4;
  }

  /** `x & 16`: the constellation id nobody uses. */
  predicate Bit4(x: byte) { Bv(x) & 16 != 0 }

  lemma BitFour(x: byte)
    ensures Bit4(x) <==> x / 16 % 2 == 1
  {
    var v := Bv(x);
    assert v & 16 != 0 <==> v / 16 % 2 == 1;
    assert (v / 16) as int == x / 16;
  }
}
