/** The `Roll` class: a dice expression held as three parallel vectors (die
    kinds, counts, signs) and a flat modifier, updated in place by the
    `add`, `subtract`, `set` and `clear` families. */
module Rolls {
  import opened Results
  import opened Dice
  import opened DiceText
  import opened Notation
  import opened Evaluation

  /** Reads a specification string as the string constructor does: tokenise
      it character by character, read the terms, then apply them one by
      one. */
  method ParseSpec(s: string) returns (r: Result<RollValue, ParseError>)
    ensures r == Parse(s)
  {
    var lexed := Tokenize(s);
    if lexed.Failure? {
      return Failure(lexed.error);
    }
    var parsed := ParseTokens(lexed.value);
    if parsed.Failure? {
      return Failure(parsed.error);
    }
    var ts := parsed.value;
    var v := Empty;
    for i := 0 to |ts|
      invariant v == FromTermsOnto(Empty, ts[..i])
    {
      assert ts[..i + 1][..i] == ts[..i];
      v := AddTerm(v, ts[i]);
    }
    assert ts[..|ts|] == ts;
    return Success(v);
  }

  /** The sum of the `k` draws starting at `from`. */
  method SumDraws(draws: seq<int>, from: int, k: int) returns (sum: int)
    requires 0 <= from && 0 <= k && from + k <= |draws|
    ensures sum == Sum(draws[from..from + k])
  {
    sum := 0;
    for j := 0 to k
      invariant sum == Sum(draws[from..from + j])
    {
      assert draws[from..from + j + 1][..j] == draws[from..from + j];
      sum := sum + draws[from + j];
    }
  }

  class Roll {
    var dice: seq<Die>
    var counts: seq<int>
    var signs: seq<bool>     // true: the group is added; false: subtracted
    var modifier: int

    /** The state of this roll as a value. */
    function Value(): RollValue
      reads this
    {
      RollValue(dice, counts, signs, modifier)
    }

    /** The three vectors have equal length and every count is at least 1. */
    ghost predicate Valid()
      reads this
    {
      Wellformed(Value())
    }

    // ------------------------------------------------------ constructors

    constructor ()
      ensures Valid() && Value() == Empty
    {
      dice, counts, signs, modifier := [], [], [], 0;
    }

    constructor OfDie(die: Die)
      ensures Valid() && Value() == RollValue([die], [1], [true], 0)
    {
      dice, counts, signs, modifier := [], [], [], 0;
      new;
      AddDie(die);
    }

    constructor OfCountDie(count: int, die: Die)
      requires count >= 1
      ensures Valid() && Value() == RollValue([die], [count], [true], 0)
    {
      dice, counts, signs, modifier := [], [], [], 0;
      new;
      AddCountDie(count, die);
    }

    constructor OfDieModifier(die: Die, m: int)
      ensures Valid() && Value() == RollValue([die], [1], [true], m)
    {
      dice, counts, signs, modifier := [], [], [], 0;
      new;
      AddDieModifier(die, m);
    }

    constructor OfCountDieModifier(count: int, die: Die, m: int)
      requires count >= 1
      ensures Valid() && Value() == RollValue([die], [count], [true], m)
    {
      dice, counts, signs, modifier := [], [], [], 0;
      new;
      AddCountDieModifier(count, die, m);
    }

    constructor OfModifier(m: int)
      ensures Valid() && Value() == RollValue([], [], [], m)
    {
      dice, counts, signs, modifier := [], [], [], 0;
      new;
      AddModifier(m);
    }

    /** `Roll(string)`: a new roll holding what the string describes, or the
        reason the string is refused. */
    static method FromSpec(spec: string) returns (r: Result<Roll, ParseError>)
      ensures r.Failure? ==> Parse(spec) == Failure(r.error)
      ensures r.Success? ==> fresh(r.value) && r.value.Valid() && Parse(spec) == Success(r.value.Value())
    {
      var roll := new Roll();
      var error := roll.AddSpec(spec);
      if error.None? {
        ConcatEmpty(roll.Value());
        ConcatEmpty(Parse(spec).value);
      }
      if error.Some? {
        r := Failure(error.value);
      } else {
        r := Success(roll);
      }
    }

    // ------------------------------------------- the two in-place updates

    /** Appends one group to the three vectors. */
    method AppendGroup(count: int, die: Die, adds: bool)
      requires Valid() && count >= 1
      modifies this
      ensures Valid()
      ensures dice == old(dice) + [die] && counts == old(counts) + [count] && signs == old(signs) + [adds]
      ensures modifier == old(modifier)
    {
      dice, counts, signs := dice + [die], counts + [count], signs + [adds];
    }

    /** Appends all groups of `w`, their signs flipped when `adds` is false. */
    method AppendRoll(w: RollValue, adds: bool)
      requires Valid() && Wellformed(w)
      modifies this
      ensures Valid()
      ensures Value() == if adds then Concat(old(Value()), w) else ConcatNegated(old(Value()), w)
    {
      dice, counts := dice + w.dice, counts + w.counts;
      if adds {
        signs, modifier := signs + w.signs, modifier + w.modifier;
      } else {
        signs, modifier := signs + Negated(w.signs), modifier - w.modifier;
      }
    }

    // --------------------------------------------------------------- add

    /** `add(roll)` and `operator+=(roll)`. The argument is read before the
        receiver changes, so `r.add(r)` doubles `r`. */
    method Add(other: Roll)
      requires Valid() && other.Valid()
      modifies this
      ensures Valid()
      ensures Value() == Concat(old(Value()), old(other.Value()))
      ensures Value() == old(Plus(other))
    {
      AppendRoll(other.Value(), true);
    }

    /** `add(string)` and `operator+=(string)`: appends what the string
        describes, or reports why it is refused and changes nothing. */
    method AddSpec(spec: string) returns (error: Option<ParseError>)
      requires Valid()
      modifies this
      ensures Valid()
      ensures error.None? <==> Parse(spec).Success?
      ensures error.Some? ==> Parse(spec) == Failure(error.value) && Value() == old(Value())
      ensures error.None? ==> Value() == Concat(old(Value()), Parse(spec).value)
      ensures error.None? ==> Value() == old(PlusSpec(spec)).value
    {
      var parsed := ParseSpec(spec);
      if parsed.Failure? {
        return Some(parsed.error);
      }
      AppendRoll(parsed.value, true);
      return None;
    }

    /** `add(die)` and `operator+=(die)`: one die of that kind, added. */
    method AddDie(die: Die)
      requires Valid()
      modifies this
      ensures Valid()
      ensures dice == old(dice) + [die] && counts == old(counts) + [1] && signs == old(signs) + [true]
      ensures modifier == old(modifier)
    {
      AppendGroup(1, die, true);
    }

    /** `add(count, die)`: one group of `count` dice, added. */
    method AddCountDie(count: int, die: Die)
      requires Valid() && count >= 1
      modifies this
      ensures Valid()
      ensures dice == old(dice) + [die] && counts == old(counts) + [count] && signs == old(signs) + [true]
      ensures modifier == old(modifier)
    {
      AppendGroup(count, die, true);
    }

    /** `add(die, mod)`: one die added, and the modifier raised by `m`. */
    method AddDieModifier(die: Die, m: int)
      requires Valid()
      modifies this
      ensures Valid()
      ensures dice == old(dice) + [die] && counts == old(counts) + [1] && signs == old(signs) + [true]
      ensures modifier == old(modifier) + m
    {
      AppendGroup(1, die, true);
      modifier := modifier + m;
    }

    /** `add(count, die, mod)`. */
    method AddCountDieModifier(count: int, die: Die, m: int)
      requires Valid() && count >= 1
      modifies this
      ensures Valid()
      ensures dice == old(dice) + [die] && counts == old(counts) + [count] && signs == old(signs) + [true]
      ensures modifier == old(modifier) + m
    {
      AppendGroup(count, die, true);
      modifier := modifier + m;
    }

    /** `add(mod)` and `operator+=(mod)`: only the modifier changes. */
    method AddModifier(m: int)
      requires Valid()
      modifies this
      ensures Valid()
      ensures dice == old(dice) && counts == old(counts) && signs == old(signs)
      ensures modifier == old(modifier) + m
    {
      modifier := modifier + m;
    }

    // ---------------------------------------------------------- subtract

    /** `subtract(roll)`: appends the other roll's groups with their signs
        flipped and subtracts its modifier. */
    method Subtract(other: Roll)
      requires Valid() && other.Valid()
      modifies this
      ensures Valid()
      ensures Value() == ConcatNegated(old(Value()), old(other.Value()))
    {
      AppendRoll(other.Value(), false);
    }

    /** `subtract(string)`: subtracts what the string describes, or reports
        why it is refused and changes nothing. */
    method SubtractSpec(spec: string) returns (error: Option<ParseError>)
      requires Valid()
      modifies this
      ensures Valid()
      ensures error.None? <==> Parse(spec).Success?
      ensures error.Some? ==> Parse(spec) == Failure(error.value) && Value() == old(Value())
      ensures error.None? ==> Value() == ConcatNegated(old(Value()), Parse(spec).value)
    {
      var parsed := ParseSpec(spec);
      if parsed.Failure? {
        return Some(parsed.error);
      }
      AppendRoll(parsed.value, false);
      return None;
    }

    method SubtractDie(die: Die)
      requires Valid()
      modifies this
      ensures Valid()
      ensures dice == old(dice) + [die] && counts == old(counts) + [1] && signs == old(signs) + [false]
      ensures modifier == old(modifier)
    {
      AppendGroup(1, die, false);
    }

    method SubtractCountDie(count: int, die: Die)
      requires Valid() && count >= 1
      modifies this
      ensures Valid()
      ensures dice == old(dice) + [die] && counts == old(counts) + [count] && signs == old(signs) + [false]
      ensures modifier == old(modifier)
    {
      AppendGroup(count, die, false);
    }

    method SubtractDieModifier(die: Die, m: int)
      requires Valid()
      modifies this
      ensures Valid()
      ensures dice == old(dice) + [die] && counts == old(counts) + [1] && signs == old(signs) + [false]
      ensures modifier == old(modifier) - m
    {
      AppendGroup(1, die, false);
      modifier := modifier - m;
    }

    method SubtractCountDieModifier(count: int, die: Die, m: int)
      requires Valid() && count >= 1
      modifies this
      ensures Valid()
      ensures dice == old(dice) + [die] && counts == old(counts) + [count] && signs == old(signs) + [false]
      ensures modifier == old(modifier) - m
    {
      AppendGroup(count, die, false);
      modifier := modifier - m;
    }

    method SubtractModifier(m: int)
      requires Valid()
      modifies this
      ensures Valid()
      ensures dice == old(dice) && counts == old(counts) && signs == old(signs)
      ensures modifier == old(modifier) - m
    {
      modifier := modifier - m;
    }

    // ---------------------------------------------------- clear and set

    /** `clear()`: no dice and modifier 0. */
    method Clear()
      modifies this
      ensures Valid() && Value() == Empty
    {
      dice, counts, signs, modifier := [], [], [], 0;
    }

    /** `set(roll)` and `operator=(roll)`: `clear()` followed by `add(roll)`.
        When the argument is the receiver itself, the clear empties it
        first, so the result is the empty roll. */
    method Set(other: Roll)
      requires Valid() && other.Valid()
      modifies this
      ensures Valid()
      ensures Value() == if other == this then Empty else old(other.Value())
    {
      Clear();
      Add(other);
    }

    /** `set(string)` and `operator=(string)`: `clear()` followed by
        `add(string)`; a refused string leaves the roll empty. */
    method SetSpec(spec: string) returns (error: Option<ParseError>)
      modifies this
      ensures Valid()
      ensures error.None? <==> Parse(spec).Success?
      ensures error.Some? ==> Parse(spec) == Failure(error.value) && Value() == Empty
      ensures error.None? ==> Value() == Parse(spec).value
    {
      Clear();
      error := AddSpec(spec);
    }

    method SetDie(die: Die)
      modifies this
      ensures Valid() && Value() == RollValue([die], [1], [true], 0)
    {
      Clear();
      AddDie(die);
    }

    method SetCountDie(count: int, die: Die)
      requires count >= 1
      modifies this
      ensures Valid() && Value() == RollValue([die], [count], [true], 0)
    {
      Clear();
      AddCountDie(count, die);
    }

    method SetDieModifier(die: Die, m: int)
      modifies this
      ensures Valid() && Value() == RollValue([die], [1], [true], m)
    {
      Clear();
      AddDieModifier(die, m);
    }

    method SetCountDieModifier(count: int, die: Die, m: int)
      requires count >= 1
      modifies this
      ensures Valid() && Value() == RollValue([die], [count], [true], m)
    {
      Clear();
      AddCountDieModifier(count, die, m);
    }

    method SetModifier(m: int)
      modifies this
      ensures Valid() && Value() == RollValue([], [], [], m)
    {
      Clear();
      AddModifier(m);
    }

    // ------------------------------------------------- reading the roll

    /** `spec()` and `operator string`: the canonical specification, built
        group by group. */
    method Spec() returns (s: string)
      requires Valid()
      ensures s == SpecOf(Value())
    {
      ghost var v := Value();
      s := "";
      var i := 0;
      while i < |dice|
        invariant 0 <= i <= |dice|
        invariant s == Render(DieTermsUpTo(v, i))
      {
        SpecStep(v, i);
        s := s + Piece(DieTerm(counts[i], dice[i], signs[i]), i == 0);
        i := i + 1;
      }
      SpecFinish(v);
      if modifier != 0 || dice == [] {
        s := s + Piece(ModifierTerm(modifier), dice == []);
      }
    }

    /** `roll()`: each group adds or subtracts the sum of its next draws,
        then the modifier is added. */
    method Evaluate(draws: seq<int>) returns (total: int)
      requires Valid() && DrawsNeeded(Value()) <= |draws|
      ensures total == RollTotal(Value(), draws)
    {
      var pos := 0;
      var groups := 0;
      var i := 0;
      while i < |dice|
        invariant 0 <= i <= |dice|
        invariant 0 <= pos == Sum(counts[..i]) <= DrawsNeeded(Value())
        invariant groups == GroupsTotal(dice[..i], counts[..i], signs[..i], draws[..pos])
      {
        GroupsStep(Value(), i, draws);
        var k := counts[i];
        var group := SumDraws(draws, pos, k);
        groups := groups + Signed(signs[i], group);
        pos := pos + k;
        i := i + 1;
      }
      assert dice[..i] == dice && counts[..i] == counts && signs[..i] == signs;
      total := groups + modifier;
    }

    /** Static `roll(spec)`: `Roll(spec).roll()` on the same draws. */
    static method RollSpec(spec: string, draws: seq<int>) returns (r: Result<int, ParseError>)
      requires Parse(spec).Success? ==> DrawsNeeded(Parse(spec).value) <= |draws|
      ensures r.Failure? <==> Parse(spec).Failure?
      ensures r.Failure? ==> r.error == Parse(spec).error
      ensures r.Success? ==> r.value == RollTotal(Parse(spec).value, draws)
    {
      var made := FromSpec(spec);
      if made.Failure? {
        return Failure(made.error);
      }
      var total := made.value.Evaluate(draws);
      return Success(total);
    }

    /** `operator==(roll)`: the canonical specifications are equal, which
        holds exactly when the two states are equal. */
    function Equals(rhs: Roll): (r: bool)
      reads this, rhs
      requires Valid() && rhs.Valid()
      ensures r <==> Value() == rhs.Value()
    {
      SpecOfInjective(Value(), rhs.Value());
      SpecOf(Value()) == SpecOf(rhs.Value())
    }

    /** `operator==(string)`: compares the string with the canonical
        specification; a string equal to it parses back to this roll. */
    function EqualsSpec(rhs: string): (r: bool)
      reads this
      requires Valid()
      ensures r <==> rhs == SpecOf(Value())
      ensures r ==> Parse(rhs) == Success(Value())
    {
      ParseSpecOf(Value());
      rhs == SpecOf(Value())
    }

    /** `operator+(roll)`: the combined roll as a new value; the receiver is
        unchanged. Its dice consume the draws of both. */
    function Plus(rhs: Roll): (r: RollValue)
      reads this, rhs
      requires Valid() && rhs.Valid()
      ensures Wellformed(r)
      ensures DrawsNeeded(r) == DrawsNeeded(Value()) + DrawsNeeded(rhs.Value())
    {
      SumConcat(counts, rhs.counts);
      Concat(Value(), rhs.Value())
    }

    /** `operator+(mod)`: the same groups, the modifier raised by `m`. */
    function PlusModifier(m: int): (r: RollValue)
      reads this
      requires Valid()
      ensures Wellformed(r)
      ensures r == Concat(Value(), RollValue([], [], [], m))
    {
      Value().(modifier := modifier + m)
    }

    /** `operator+(die)`: one more die of that kind, added. */
    function PlusDie(d: Die): (r: RollValue)
      reads this
      requires Valid()
      ensures Wellformed(r)
      ensures r == Concat(Value(), RollValue([d], [1], [true], 0))
    {
      RollValue(dice + [d], counts + [1], signs + [true], modifier)
    }

    /** `operator+(string)`: the receiver combined with what the string
        describes, or why the string is refused. */
    function PlusSpec(spec: string): (r: Result<RollValue, ParseError>)
      reads this
      requires Valid()
      ensures r.Failure? <==> Parse(spec).Failure?
      ensures r.Success? ==> Wellformed(r.value) && r.value == Concat(Value(), Parse(spec).value)
      ensures r.Success? ==> DrawsNeeded(r.value) == DrawsNeeded(Value()) + DrawsNeeded(Parse(spec).value)
    {
      match Parse(spec)
      case Failure(e) => Failure(e)
      case Success(w) =>
        SumConcat(counts, w.counts);
        Success(Concat(Value(), w))
    }
  }
}
