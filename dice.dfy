/** The die kinds a roll may use (`Roll::Die`) and the two tables that relate
    a kind to its number of faces (`Roll::d2rv` and `Roll::rv2d`). */
module Dice {
  import opened Results

  /** The nine die kinds, in the order of the enumeration `Roll::Die`.
      Its underlying values are the ordinals 0..8, not face counts, so the
      face counts are given by an explicit table below. */
  datatype Die = Two | Three | Four | Six | Eight | Ten | Twelve | Twenty | Hundred

  /** Every die kind, once each. */
  const AllDice: seq<Die> := [Two, Three, Four, Six, Eight, Ten, Twelve, Twenty, Hundred]

  /** The face counts a die may have. */
  const Sizes: set<int> := {2, 3, 4, 6, 8, 10, 12, 20, 100}

  /** `d2rv`: the number of faces of a die. */
  function DieToFaces(d: Die): (n: int)
    ensures n in Sizes
    ensures n >= 2
  {
    match d
    case Two => 2
    case Three => 3
    case Four => 4
    case Six => 6
    case Eight => 8
    case Ten => 10
    case Twelve => 12
    case Twenty => 20
    case Hundred => 100
  }

  /** `rv2d`: the die with `n` faces; `None` for any number that is not a
      die size. */
  function FacesToDie(n: int): (r: Option<Die>)
    ensures r.Some? <==> n in Sizes
    ensures r.Some? ==> DieToFaces(r.value) == n
  {
    if n == 2 then Some(Two)
    else if n == 3 then Some(Three)
    else if n == 4 then Some(Four)
    else if n == 6 then Some(Six)
    else if n == 8 then Some(Eight)
    else if n == 10 then Some(Ten)
    else if n == 12 then Some(Twelve)
    else if n == 20 then Some(Twenty)
    else if n == 100 then Some(Hundred)
    else None
  }

  /** The two tables are inverse to each other: going from a die to its faces
      and back yields the same die. */
  lemma FacesToDieInverse(d: Die)
    ensures FacesToDie(DieToFaces(d)) == Some(d)
  {
  }

  /** No two die kinds share a face count. */
  lemma DieToFacesInjective(d1: Die, d2: Die)
    ensures DieToFaces(d1) == DieToFaces(d2) ==> d1 == d2
  {
    FacesToDieInverse(d1);
    FacesToDieInverse(d2);
  }

  /** `d2rv` maps the nine kinds onto exactly the allowed sizes. */
  lemma DieToFacesOnto()
    ensures (set d | d in AllDice :: DieToFaces(d)) == Sizes
    ensures forall d: Die :: d in AllDice
  {
    forall d: Die
      ensures d in AllDice
    {
      match d
      case Two => assert AllDice[0] == d;
      case Three => assert AllDice[1] == d;
      case Four => assert AllDice[2] == d;
      case Six => assert AllDice[3] == d;
      case Eight => assert AllDice[4] == d;
      case Ten => assert AllDice[5] == d;
      case Twelve => assert AllDice[6] == d;
      case Twenty => assert AllDice[7] == d;
      case Hundred => assert AllDice[8] == d;
    }
    var image := set d | d in AllDice :: DieToFaces(d);
    forall n | n in Sizes
      ensures n in image
    {
      var d := FacesToDie(n).value;
      assert d in AllDice;
    }
  }
}
