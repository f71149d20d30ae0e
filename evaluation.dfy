/** Rolling a roll. The random number generator is replaced by a sequence of
    draws handed in by the caller: the groups consume it in order, each group
    taking as many draws as it has dice. */
module Evaluation {
  import opened Results
  import opened Dice
  import opened Notation

  function Sum(s: seq<int>): int
    decreases |s|
  {
    if s == [] then 0 else Sum(s[..|s| - 1]) + s[|s| - 1]
  }

  lemma {:induction false} SumNonNegative(s: seq<int>)
    requires forall i :: 0 <= i < |s| ==> s[i] >= 0
    ensures Sum(s) >= 0
    decreases |s|
  {
    if s != [] {
      SumNonNegative(s[..|s| - 1]);
    }
  }

  lemma {:induction false} SumConcat(a: seq<int>, b: seq<int>)
    ensures Sum(a + b) == Sum(a) + Sum(b)
    decreases |b|
  {
    if b == [] {
      assert a + b == a;
    } else {
      var n := |b| - 1;
      assert (a + b)[..|a + b| - 1] == a + b[..n];
      SumConcat(a, b[..n]);
    }
  }

  /** A prefix of non-negative numbers sums to no more than the whole. */
  lemma SumPrefix(s: seq<int>, i: int)
    requires forall j :: 0 <= j < |s| ==> s[j] >= 0
    requires 0 <= i <= |s|
    ensures Sum(s[..i]) <= Sum(s)
  {
    assert s == s[..i] + s[i..];
    SumConcat(s[..i], s[i..]);
    SumNonNegative(s[i..]);
  }

  /** The number of draws a roll consumes. */
  function DrawsNeeded(v: RollValue): (n: int)
    requires Wellformed(v)
    ensures n >= |v.dice|
  {
    CountsCoverGroups(v.counts);
    Sum(v.counts)
  }

  lemma {:induction false} CountsCoverGroups(counts: seq<int>)
    requires forall i :: 0 <= i < |counts| ==> counts[i] >= 1
    ensures Sum(counts) >= |counts|
    decreases |counts|
  {
    if counts != [] {
      CountsCoverGroups(counts[..|counts| - 1]);
    }
  }

  predicate CountsNonNegative(counts: seq<int>) {
    forall i :: 0 <= i < |counts| ==> counts[i] >= 0
  }

  /** The signed sum of the groups' draws: each group takes the next
      `counts[i]` draws, and adds or subtracts their sum by its sign. */
  function GroupsTotal(dice: seq<Die>, counts: seq<int>, signs: seq<bool>, draws: seq<int>): int
    requires |dice| == |counts| == |signs| && CountsNonNegative(counts)
    requires |draws| == Sum(counts)
    decreases |counts|
  {
    if counts == [] then 0
    else
      var n := |counts| - 1;
      SumNonNegative(counts[..n]);
      var start := Sum(counts[..n]);
      GroupsTotal(dice[..n], counts[..n], signs[..n], draws[..start]) + Signed(signs[n], Sum(draws[start..]))
  }

  /** `roll()`: the signed sums of the groups plus the modifier, for the
      given draws. */
  function RollTotal(v: RollValue, draws: seq<int>): int
    requires Wellformed(v) && DrawsNeeded(v) <= |draws|
  {
    GroupsTotal(v.dice, v.counts, v.signs, draws[..DrawsNeeded(v)]) + v.modifier
  }

  /** The signed sum of the first `i + 1` groups is that of the first `i`
      plus the signed sum of group `i`'s draws. */
  lemma GroupsStep(v: RollValue, i: nat, draws: seq<int>)
    requires Wellformed(v) && i < |v.dice| && DrawsNeeded(v) <= |draws|
    ensures 0 <= Sum(v.counts[..i]) && Sum(v.counts[..i]) + v.counts[i] == Sum(v.counts[..i + 1]) <= DrawsNeeded(v)
    ensures GroupsTotal(v.dice[..i + 1], v.counts[..i + 1], v.signs[..i + 1], draws[..Sum(v.counts[..i + 1])])
         == GroupsTotal(v.dice[..i], v.counts[..i], v.signs[..i], draws[..Sum(v.counts[..i])])
            + Signed(v.signs[i], Sum(draws[Sum(v.counts[..i])..Sum(v.counts[..i + 1])]))
  {
    SumPrefix(v.counts, i + 1);
    SumNonNegative(v.counts[..i]);
    var pos, k := Sum(v.counts[..i]), v.counts[i];
    assert v.counts[..i + 1][..i] == v.counts[..i];
    assert v.dice[..i + 1][..i] == v.dice[..i];
    assert v.signs[..i + 1][..i] == v.signs[..i];
    assert draws[..pos + k][..pos] == draws[..pos];
    assert draws[..pos + k][pos..] == draws[pos..pos + k];
  }

  /** Every draw of a group lies between 1 and the group's face count. */
  ghost predicate DrawsFit(dice: seq<Die>, counts: seq<int>, draws: seq<int>)
    requires |dice| == |counts| && CountsNonNegative(counts)
    requires |draws| == Sum(counts)
    decreases |counts|
  {
    if counts == [] then true
    else
      var n := |counts| - 1;
      SumNonNegative(counts[..n]);
      var start := Sum(counts[..n]);
      && DrawsFit(dice[..n], counts[..n], draws[..start])
      && forall j :: start <= j < |draws| ==> 1 <= draws[j] <= DieToFaces(dice[n])
  }

  /** The least total of the groups: every added die shows 1, every
      subtracted die its largest face. */
  function LowTotal(dice: seq<Die>, counts: seq<int>, signs: seq<bool>): int
    requires |dice| == |counts| == |signs|
    decreases |counts|
  {
    if counts == [] then 0
    else
      var n := |counts| - 1;
      LowTotal(dice[..n], counts[..n], signs[..n])
        + (if signs[n] then counts[n] else -counts[n] * DieToFaces(dice[n]))
  }

  /** The greatest total of the groups: every added die shows its largest
      face, every subtracted die 1. */
  function HighTotal(dice: seq<Die>, counts: seq<int>, signs: seq<bool>): int
    requires |dice| == |counts| == |signs|
    decreases |counts|
  {
    if counts == [] then 0
    else
      var n := |counts| - 1;
      HighTotal(dice[..n], counts[..n], signs[..n])
        + (if signs[n] then counts[n] * DieToFaces(dice[n]) else -counts[n])
  }

  /** Draws between 1 and `f` sum to between |s| and |s| * f. */
  lemma {:induction false} SumBounds(s: seq<int>, f: int)
    requires forall j :: 0 <= j < |s| ==> 1 <= s[j] <= f
    ensures |s| <= Sum(s) <= |s| * f
    decreases |s|
  {
    if s != [] {
      var n := |s| - 1;
      SumBounds(s[..n], f);
      assert n * f + f == |s| * f;
    }
  }

  lemma {:induction false} GroupsBounds(dice: seq<Die>, counts: seq<int>, signs: seq<bool>, draws: seq<int>)
    requires |dice| == |counts| == |signs| && CountsNonNegative(counts)
    requires |draws| == Sum(counts)
    requires DrawsFit(dice, counts, draws)
    ensures LowTotal(dice, counts, signs) <= GroupsTotal(dice, counts, signs, draws) <= HighTotal(dice, counts, signs)
    decreases |counts|
  {
    if counts != [] {
      var n := |counts| - 1;
      SumNonNegative(counts[..n]);
      var start := Sum(counts[..n]);
      GroupsBounds(dice[..n], counts[..n], signs[..n], draws[..start]);
      var group := draws[start..];
      assert forall j :: 0 <= j < |group| ==> group[j] == draws[start + j];
      SumBounds(group, DieToFaces(dice[n]));
    }
  }

  /** With every draw of a group between 1 and its face count, a roll lies
      between its least and greatest possible totals. */
  lemma RollBounds(v: RollValue, draws: seq<int>)
    requires Wellformed(v) && DrawsNeeded(v) <= |draws|
    requires DrawsFit(v.dice, v.counts, draws[..DrawsNeeded(v)])
    ensures LowTotal(v.dice, v.counts, v.signs) + v.modifier
         <= RollTotal(v, draws)
         <= HighTotal(v.dice, v.counts, v.signs) + v.modifier
  {
    GroupsBounds(v.dice, v.counts, v.signs, draws[..DrawsNeeded(v)]);
  }

  lemma {:induction false} GroupsConcat(
    d1: seq<Die>, c1: seq<int>, s1: seq<bool>, w1: seq<int>,
    d2: seq<Die>, c2: seq<int>, s2: seq<bool>, w2: seq<int>)
    requires |d1| == |c1| == |s1| && CountsNonNegative(c1) && |w1| == Sum(c1)
    requires |d2| == |c2| == |s2| && CountsNonNegative(c2) && |w2| == Sum(c2)
    ensures CountsNonNegative(c1 + c2) && |w1 + w2| == Sum(c1 + c2)
    ensures GroupsTotal(d1 + d2, c1 + c2, s1 + s2, w1 + w2)
         == GroupsTotal(d1, c1, s1, w1) + GroupsTotal(d2, c2, s2, w2)
    decreases |c2|
  {
    SumConcat(c1, c2);
    if c2 == [] {
      assert d1 + d2 == d1 && c1 + c2 == c1 && s1 + s2 == s1 && w1 + w2 == w1;
    } else {
      var n := |c2| - 1;
      var m := |c1| + n;
      var D, C, S, W := d1 + d2, c1 + c2, s1 + s2, w1 + w2;
      SumNonNegative(c2[..n]);
      SumConcat(c1, c2[..n]);
      var start2 := Sum(c2[..n]);
      assert C[..m] == c1 + c2[..n];
      var start := Sum(C[..m]);
      assert start == |w1| + start2;
      assert D[..m] == d1 + d2[..n];
      assert S[..m] == s1 + s2[..n];
      assert W[..start] == w1 + w2[..start2];
      assert W[start..] == w2[start2..];
      assert S[m] == s2[n];
      assert GroupsTotal(D, C, S, W)
          == GroupsTotal(D[..m], C[..m], S[..m], W[..start]) + Signed(S[m], Sum(W[start..]));
      assert GroupsTotal(d2, c2, s2, w2)
          == GroupsTotal(d2[..n], c2[..n], s2[..n], w2[..start2]) + Signed(s2[n], Sum(w2[start2..]));
      GroupsConcat(d1, c1, s1, w1, d2[..n], c2[..n], s2[..n], w2[..start2]);
    }
  }

  lemma {:induction false} GroupsNegated(dice: seq<Die>, counts: seq<int>, signs: seq<bool>, draws: seq<int>)
    requires |dice| == |counts| == |signs| && CountsNonNegative(counts)
    requires |draws| == Sum(counts)
    ensures GroupsTotal(dice, counts, Negated(signs), draws) == -GroupsTotal(dice, counts, signs, draws)
    decreases |counts|
  {
    if counts != [] {
      var n := |counts| - 1;
      SumNonNegative(counts[..n]);
      var start := Sum(counts[..n]);
      NegatedConcat(signs[..n], signs[n..]);
      assert signs[..n] + signs[n..] == signs;
      GroupsNegated(dice[..n], counts[..n], signs[..n], draws[..start]);
    }
  }

  /** `add(roll)` and `operator+`: the combined roll, rolled on the draws of
      the first followed by those of the second, totals the sum of the two
      rolls. */
  lemma RollConcat(a: RollValue, b: RollValue, da: seq<int>, db: seq<int>)
    requires Wellformed(a) && Wellformed(b)
    requires |da| == DrawsNeeded(a) && DrawsNeeded(b) <= |db|
    ensures DrawsNeeded(Concat(a, b)) == DrawsNeeded(a) + DrawsNeeded(b)
    ensures RollTotal(Concat(a, b), da + db) == RollTotal(a, da) + RollTotal(b, db)
  {
    var wb := db[..DrawsNeeded(b)];
    GroupsConcat(a.dice, a.counts, a.signs, da, b.dice, b.counts, b.signs, wb);
    assert (da + db)[..DrawsNeeded(Concat(a, b))] == da + wb;
    assert da[..DrawsNeeded(a)] == da;
  }

  /** `subtract(roll)`: rolled the same way, the result totals the first
      roll minus the second. */
  lemma RollConcatNegated(a: RollValue, b: RollValue, da: seq<int>, db: seq<int>)
    requires Wellformed(a) && Wellformed(b)
    requires |da| == DrawsNeeded(a) && DrawsNeeded(b) <= |db|
    ensures DrawsNeeded(ConcatNegated(a, b)) == DrawsNeeded(a) + DrawsNeeded(b)
    ensures RollTotal(ConcatNegated(a, b), da + db) == RollTotal(a, da) - RollTotal(b, db)
  {
    var wb := db[..DrawsNeeded(b)];
    GroupsConcat(a.dice, a.counts, a.signs, da, b.dice, b.counts, Negated(b.signs), wb);
    GroupsNegated(b.dice, b.counts, b.signs, wb);
    assert (da + db)[..DrawsNeeded(ConcatNegated(a, b))] == da + wb;
    assert da[..DrawsNeeded(a)] == da;
  }
}
