# Dice rolls

A model of the `Roll` class of `inc/p2e_core.h`, the dice-notation component
of the game core. A `Roll` holds a dice expression such as `2d6+1`. The
expression is stored in three parallel vectors: the die kinds `dice_`, the
group counts `counts_` and the group signs `signs_`. A single flat modifier
`mod_` sits beside them. The class parses specification strings, writes the
canonical specification back out, grows and replaces itself through the
`add`, `subtract` and `set` families, compares rolls, and rolls the dice.

The header declares the class but gives no bodies. The model follows the
declarations, and fixes the notation and the behaviour they leave open as
follows:

- The grammar is `term (('+'|'-') term)*` with `term := N 'd' S | integer`.
  `S` is one of 2, 3, 4, 6, 8, 10, 12, 20 and 100, and `N` is at least 1.
  Whitespace (space, tab, newline, carriage return) may stand between
  tokens. A single optional `+` or `-` may open the string, because the
  canonical form of a roll whose first group is subtracted starts with `-`.
- A refused string yields a `ParseError`, naming the character, the missing
  number or die size, a zero count or a disallowed size.
- The canonical specification lists the die groups in the order they were
  added, each written `[sign]NdS`. The modifier follows as `[sign]value`
  when it is non-zero or when there are no dice, so the empty roll reads
  `0`. The first term carries no `+`.
- `sign_t` is `bool`. In this model `true` means the group is added.
- The `Die` enumerators are ordinals, so `d2rv` and `rv2d` are explicit
  tables. `rv2d` reports an integer outside the nine sizes as `None`.
- Randomness is a parameter: `roll()` takes a sequence of draws and uses
  them group by group, `counts_[i]` draws for group `i`.
- `set(x)` is `clear()` followed by `add(x)`. So `r.set(r)` leaves `r`
  empty, and a refused string leaves the roll empty.
- `add(x)` and `subtract(x)` with a refused string change nothing.
- `add(roll)` reads its argument before changing the receiver, so
  `r.add(r)` doubles `r`.

The modules follow the class's parts:

- `Dice`: the `Die` enumeration and its tables.
- `DiceText`: characters to tokens.
- `Notation`: the roll as a value; parsing and the canonical specification,
  with their round trip.
- `Evaluation`: the value of a roll for given draws, and its bounds.
- `Rolls`: the `Roll` class itself.
- `WorkedRolls`: concrete specifications worked through the model.

## Model

| member | source | states |
|---|---|---|
| Dice.DieToFaces | inc/p2e_core.h:93 | `d2rv`: every die kind has one of the nine allowed face counts, each at least 2 |
| Dice.FacesToDie | inc/p2e_core.h:92 | `rv2d`: an integer names a die exactly when it is one of the nine sizes, and the die found has that many faces |
| Dice.FacesToDieInverse | inc/p2e_core.h:92-93 | `rv2d(d2rv(d)) == d` for every die |
| Dice.DieToFacesInjective | inc/p2e_core.h:80-93 | two die kinds with the same face count are the same kind |
| Dice.DieToFacesOnto | inc/p2e_core.h:80-93 | the nine enumerators map onto exactly {2,3,4,6,8,10,12,20,100}, and every die kind is one of them |
| DiceText.NatToString | inc/p2e_core.h:113 | the decimal form of a count or face number is non-empty and all digits |
| DiceText.Tokenize | inc/p2e_core.h:105 | the character-by-character scan of a specification gives the tokens, or the refused character |
| DiceText.LexDigits | inc/p2e_core.h:105 | scanning the decimal form of `n` leaves exactly the number `n` pending |
| DiceText.LexSymbol | inc/p2e_core.h:105 | `d`, `+` and `-` end the pending number and emit their own token |
| DiceText.LexAlphabet | inc/p2e_core.h:105 | a string lexes exactly when every character is a digit, whitespace, `d`, `+` or `-`; otherwise the error names a character outside that alphabet |
| DiceText.LexAppend | inc/p2e_core.h:105 | lexing `a + x` is lexing `a` and going on with `x` from the state `a` left, or `a`'s refusal |
| DiceText.LexSpaceIgnored | inc/p2e_core.h:105 | a whitespace character not standing between two digits may be dropped without changing the tokens or the refusal |
| Notation.Concat | inc/p2e_core.h:115 | appending one roll to another keeps the three vectors parallel and every count at least 1 |
| Notation.ConcatNegated | inc/p2e_core.h:123 | appending a roll with its signs flipped and its modifier negated keeps the roll well formed |
| Notation.NegatedTwice | inc/p2e_core.h:123 | subtracting a subtracted group adds it: flipping the signs twice gives them back |
| Notation.SubtractNegation | inc/p2e_core.h:123 | subtracting a roll that was itself subtracted from the empty roll adds the original roll |
| Notation.NegatedConcat | inc/p2e_core.h:123 | flipping the signs of two joined runs of groups flips each run on its own |
| Notation.ConcatEmpty | inc/p2e_core.h:104-105 | adding a roll to the empty roll gives that roll |
| Notation.FromTermsOnto | inc/p2e_core.h:105 | applying parsed terms to a well formed roll keeps it well formed and never drops a group |
| Notation.FromTermsOntoConcat | inc/p2e_core.h:116 | applying a string's terms to a roll equals appending the roll the string describes |
| Notation.AddTermConcat | inc/p2e_core.h:116 | applying one term commutes with appending to a prefix |
| Notation.ParseTerm | inc/p2e_core.h:105 | a parsed term is well formed, carries the sign read before it, and its tokens followed by the rest are the input |
| Notation.ParseTermsFrom | inc/p2e_core.h:105 | the terms read after a sign are a non-empty list of well formed terms |
| Notation.ParseTokens | inc/p2e_core.h:105 | a parsed token list is a non-empty list of well formed terms |
| Notation.Parse | inc/p2e_core.h:105 | every roll a string describes has parallel vectors and counts of at least 1 |
| Notation.ParseSpaceIgnored | inc/p2e_core.h:105 | whitespace between tokens is ignored: dropping it does not change the roll a string describes, or its refusal |
| Notation.ParseTermsFromSound | inc/p2e_core.h:105 | whatever the terms reader accepts is the first term's body followed by each later term with its sign |
| Notation.ParseTokensSound | inc/p2e_core.h:105 | every accepted token list is the tokens of the well formed terms returned (after an optional leading `+`), so a zero count, a disallowed size or a token outside the grammar is refused |
| Notation.DieTermsUpTo | inc/p2e_core.h:113 | the first `n` groups give exactly `n` terms |
| Notation.CanonicalTerms | inc/p2e_core.h:113 | the canonical form has at least one term, so no roll prints as an empty string |
| Notation.RenderSnoc | inc/p2e_core.h:113 | the specification is built by appending one piece per term |
| Notation.SpecStep | inc/p2e_core.h:113 | writing group `i` extends the string of the first `i` groups by that group's piece |
| Notation.SpecFinish | inc/p2e_core.h:113 | the modifier is written exactly when it is non-zero or there are no dice |
| Notation.LexRender | inc/p2e_core.h:113 | scanning any rendered term list gives back that list's tokens |
| Notation.ParseTermTokens | inc/p2e_core.h:105 | reading the tokens of a well formed term list gives back that list |
| Notation.FromCanonicalTerms | inc/p2e_core.h:113 | applying a roll's canonical terms rebuilds exactly that roll |
| Notation.ParseSpecOf | inc/p2e_core.h:105 | `Roll(r.spec())` has the same dice, counts, signs and modifier as `r` |
| Notation.CanonicalIdempotent | inc/p2e_core.h:113 | parsing the canonical form of a parsed string gives the same roll again |
| Notation.SpecOfInjective | inc/p2e_core.h:143 | two well formed rolls have the same specification exactly when they are the same roll |
| Evaluation.SumConcat | inc/p2e_core.h:112 | the sum of joined draws is the sum of the parts |
| Evaluation.DrawsNeeded | inc/p2e_core.h:99 | a roll needs at least one draw per group |
| Evaluation.GroupsStep | inc/p2e_core.h:112 | the signed sum of `i + 1` groups is that of `i` groups plus group `i`'s signed draws |
| Evaluation.SumBounds | inc/p2e_core.h:112 | `k` draws each in [1, S] sum to between `k` and `k·S` |
| Evaluation.GroupsBounds | inc/p2e_core.h:98-100 | with every draw in [1, S], the groups' signed sum lies between the per-sign lowest and highest totals |
| Evaluation.RollBounds | inc/p2e_core.h:98-112 | with every draw in [1, S], `roll()` lies between Σ ±count·1 and Σ ±count·S (per sign) plus `mod_` |
| Evaluation.GroupsConcat | inc/p2e_core.h:115 | the groups of two joined rolls total the sum of each roll's groups on its own draws |
| Evaluation.GroupsNegated | inc/p2e_core.h:123 | flipping every sign negates the groups' total |
| Evaluation.RollConcat | inc/p2e_core.h:115 | a roll grown by `add(roll)` needs the draws of both and rolls their sum |
| Evaluation.RollConcatNegated | inc/p2e_core.h:123 | a roll grown by `subtract(roll)` needs the draws of both and rolls their difference |
| Rolls.ParseSpec | inc/p2e_core.h:105 | the string constructor's scan-read-apply loop computes exactly `Parse` |
| Rolls.SumDraws | inc/p2e_core.h:112 | the inner loop of `roll()` sums one group's draws |
| Rolls.Roll.constructor | inc/p2e_core.h:104 | `Roll()` has no dice and modifier 0 |
| Rolls.Roll.OfDie | inc/p2e_core.h:106 | `Roll(die)` is `Roll()` followed by `add(die)`: one die of that kind, added |
| Rolls.Roll.OfCountDie | inc/p2e_core.h:107 | `Roll(count, die)` is one group of `count` dice, added |
| Rolls.Roll.OfDieModifier | inc/p2e_core.h:108 | `Roll(die, mod)` is one die, added, and modifier `mod` |
| Rolls.Roll.OfCountDieModifier | inc/p2e_core.h:109 | `Roll(count, die, mod)` is one group of `count` dice, added, and modifier `mod` |
| Rolls.Roll.OfModifier | inc/p2e_core.h:110 | `Roll(mod)` has no dice and modifier `mod` |
| Rolls.Roll.FromSpec | inc/p2e_core.h:105 | `Roll(string)` holds exactly the roll the string describes, or reports the parse error |
| Rolls.Roll.Add | inc/p2e_core.h:115 | `add(roll)` appends the other roll's groups and modifier, equal to `*this + roll` taken before the call |
| Rolls.Roll.AddSpec | inc/p2e_core.h:116 | `add(string)` appends what the string describes and equals `*this + string` taken before the call, as `operator+=(string)` does; on a parse error it reports it and changes nothing |
| Rolls.Roll.AddDie | inc/p2e_core.h:117 | `add(die)` appends one entry (count 1, added) to each vector; earlier entries and `mod_` are unchanged |
| Rolls.Roll.AddCountDie | inc/p2e_core.h:118 | `add(count, die)` appends one entry (count, added) to each vector; earlier entries and `mod_` are unchanged |
| Rolls.Roll.AddDieModifier | inc/p2e_core.h:119 | `add(die, mod)` is the die append followed by raising `mod_` by `mod` |
| Rolls.Roll.AddCountDieModifier | inc/p2e_core.h:120 | `add(count, die, mod)` is the group append followed by raising `mod_` by `mod` |
| Rolls.Roll.AddModifier | inc/p2e_core.h:121 | `add(mod)` raises only `mod_`, by `mod`; the vectors are untouched |
| Rolls.Roll.Subtract | inc/p2e_core.h:123 | `subtract(roll)` appends the other roll's groups with flipped signs and lowers `mod_` by its modifier |
| Rolls.Roll.SubtractSpec | inc/p2e_core.h:124 | `subtract(string)` subtracts what the string describes; on a parse error it reports it and changes nothing |
| Rolls.Roll.SubtractDie | inc/p2e_core.h:125 | `subtract(die)` appends one entry (count 1, subtracted); earlier entries and `mod_` are unchanged |
| Rolls.Roll.SubtractCountDie | inc/p2e_core.h:126 | `subtract(count, die)` appends one entry (count, subtracted); earlier entries and `mod_` are unchanged |
| Rolls.Roll.SubtractDieModifier | inc/p2e_core.h:127 | `subtract(die, mod)` is the die append followed by lowering `mod_` by `mod` |
| Rolls.Roll.SubtractCountDieModifier | inc/p2e_core.h:128 | `subtract(count, die, mod)` is the group append followed by lowering `mod_` by `mod` |
| Rolls.Roll.SubtractModifier | inc/p2e_core.h:129 | `subtract(mod)` lowers only `mod_`, by `mod`; the vectors are untouched |
| Rolls.Roll.Clear | inc/p2e_core.h:139 | `clear()` empties the three vectors and sets `mod_` to 0 |
| Rolls.Roll.Set | inc/p2e_core.h:131 | `set(roll)` is `clear()` then `add(roll)`: a copy of the other roll, or the empty roll when it is the receiver |
| Rolls.Roll.SetSpec | inc/p2e_core.h:132 | `set(string)` holds exactly what the string describes; on a parse error it reports it and the roll is empty |
| Rolls.Roll.SetDie | inc/p2e_core.h:133 | `set(die)` is `clear()` then `add(die)` |
| Rolls.Roll.SetCountDie | inc/p2e_core.h:134 | `set(count, die)` is `clear()` then `add(count, die)` |
| Rolls.Roll.SetDieModifier | inc/p2e_core.h:135 | `set(die, mod)` is `clear()` then `add(die, mod)` |
| Rolls.Roll.SetCountDieModifier | inc/p2e_core.h:136 | `set(count, die, mod)` is `clear()` then `add(count, die, mod)` |
| Rolls.Roll.SetModifier | inc/p2e_core.h:137 | `set(mod)` is `clear()` then `add(mod)` |
| Rolls.Roll.Spec | inc/p2e_core.h:113 | the loop over the groups builds exactly the canonical specification, the string `ParseSpecOf` reads back to this roll |
| Rolls.Roll.Evaluate | inc/p2e_core.h:112 | `roll()` is Σ ±(sum of each group's draws) + `mod_`, consuming `counts_[i]` draws for group `i` in order |
| Rolls.Roll.RollSpec | inc/p2e_core.h:95 | static `roll(spec)` equals `Roll(spec).roll()` on the same draws, or reports the parse error |
| Rolls.Roll.Equals | inc/p2e_core.h:143 | `operator==(roll)` compares specifications, which holds exactly when the two rolls have the same state |
| Rolls.Roll.EqualsSpec | inc/p2e_core.h:144 | `operator==(string)` holds exactly when the string is this roll's specification; such a string parses back to this roll |
| Rolls.Roll.Plus | inc/p2e_core.h:149 | `operator+(roll)` is well formed and needs the draws of both operands |
| Rolls.Roll.PlusModifier | inc/p2e_core.h:150 | `operator+(mod)` is this roll with a flat `mod` appended |
| Rolls.Roll.PlusDie | inc/p2e_core.h:151 | `operator+(die)` is this roll with one die of that kind appended |
| Rolls.Roll.PlusSpec | inc/p2e_core.h:152 | `operator+(string)` fails exactly when the string is refused; otherwise the result is well formed and needs the draws of the receiver and of the described roll together |
| WorkedRolls.LexTwoD6PlusOne | inc/p2e_core.h:105 | `2d6+1` scans to the tokens 2, d, 6, +, 1 |
| WorkedRolls.ParseTwoD6PlusOne | inc/p2e_core.h:105 | `2d6+1` is one added group of two six-sided dice and modifier 1 |
| WorkedRolls.TwoD6PlusOne | inc/p2e_core.h:112 | `2d6+1` needs two draws; with draws 3 and 5 it rolls 9 |
| WorkedRolls.SpacedTwoD6PlusOne | inc/p2e_core.h:105 | ` 2d6 + 1 ` describes the same roll as `2d6+1` |
| WorkedRolls.SevenSidedRefused | inc/p2e_core.h:92 | `1d7` is refused as a disallowed die size |
| WorkedRolls.ZeroDiceRefused | inc/p2e_core.h:105 | `0d6` is refused: a group has at least one die |
| WorkedRolls.EmptyRefused | inc/p2e_core.h:105 | the empty string is refused: a number is expected |
| WorkedRolls.UpperCaseDRefused | inc/p2e_core.h:105 | `1D6` is refused at the upper-case `D` |
| WorkedRolls.OrderMatters | inc/p2e_core.h:143 | `1d6+1d4` and `1d4+1d6` have different specifications, so `operator==` tells them apart |

## Left out

- Integer width: `rollval_t` and `size_t` are 32-bit `int` (inc/p2e_core.h:17-18). Signed overflow is undefined behaviour in C++; the model uses unbounded integers throughout and does not model overflow of a count, the modifier or a total.
- Rolls.Roll.Evaluate: the total is an unbounded integer; what happens when a 32-bit `rollval_t` total overflows is not modelled.
- The random number generator: `roll()` and static `roll(spec)` take the draws as a parameter. Whether the draws are uniform, or even within [1, S], is the caller's concern; the bounds lemmas assume the draws lie in [1, S].
- `average()` is described for dice expressions but has no declaration in `inc/p2e_core.h`, so it is not part of this model.
- `operator+` returns `Roll&` from a `const` method (inc/p2e_core.h:149-152). The model returns the combined roll as a value; the reference, its lifetime and any aliasing are not modelled.
- `operator+=` (inc/p2e_core.h:154-157) and `operator=` (inc/p2e_core.h:146-147) have no members of their own: they are the matching `add` and `set` members. The `Roll&` they return is not modelled.
- Rolls.Roll.Plus: states well-formedness and the draw count of `operator+(roll)`, not its value; its value is the one `Add` takes on, and `RollConcat` gives its total.
- `Object`, `Core`, UI binding and the stray forward declaration `RolLVal` (inc/p2e_core.h:21-76) are infrastructure without algorithmic content.
- The dependency graph and the modifier stack have no declarations in `inc/p2e_core.h`, so they are not part of this model.
- Several flat terms in one specification are summed into the single `mod_` field (inc/p2e_core.h:101), so the canonical form writes at most one flat term; the order and number of the flat terms of a parsed string are not kept.
- A parse error is a `Result` or an `Option` value. How the C++ code reports it (exception or return) is not visible in the header.
- Rolls.Roll.OfCountDie: requires a count of at least 1, while the overload at inc/p2e_core.h:107 takes a signed `int` count (inc/p2e_core.h:17) of any value; what it does with a count of 0 or less is not modelled.
- Rolls.Roll.OfCountDieModifier: requires a count of at least 1, while the overload at inc/p2e_core.h:109 takes a signed `int` count (inc/p2e_core.h:17) of any value; what it does with a count of 0 or less is not modelled.
- Rolls.Roll.AddCountDie: requires a count of at least 1, while the overload at inc/p2e_core.h:118 takes a signed `int` count (inc/p2e_core.h:17) of any value; what it does with a count of 0 or less is not modelled.
- Rolls.Roll.AddCountDieModifier: requires a count of at least 1, while the overload at inc/p2e_core.h:120 takes a signed `int` count (inc/p2e_core.h:17) of any value; what it does with a count of 0 or less is not modelled.
- Rolls.Roll.SubtractCountDie: requires a count of at least 1, while the overload at inc/p2e_core.h:126 takes a signed `int` count (inc/p2e_core.h:17) of any value; what it does with a count of 0 or less is not modelled.
- Rolls.Roll.SubtractCountDieModifier: requires a count of at least 1, while the overload at inc/p2e_core.h:128 takes a signed `int` count (inc/p2e_core.h:17) of any value; what it does with a count of 0 or less is not modelled.
- Rolls.Roll.SetCountDie: requires a count of at least 1, while the overload at inc/p2e_core.h:134 takes a signed `int` count (inc/p2e_core.h:17) of any value; what it does with a count of 0 or less is not modelled.
- Rolls.Roll.SetCountDieModifier: requires a count of at least 1, while the overload at inc/p2e_core.h:136 takes a signed `int` count (inc/p2e_core.h:17) of any value; what it does with a count of 0 or less is not modelled.
