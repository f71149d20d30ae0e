/** Concrete specifications, worked through the model: a successful parse
    and evaluation, and the refusals of the grammar. */
module WorkedRolls {
  import opened Results
  import opened Dice
  import opened DiceText
  import opened Notation
  import opened Evaluation

  /** `2d6+1` is one group of two six-sided dice, added, and modifier 1;
      with draws 3 and 5 it rolls 9. */
  lemma TwoD6PlusOne()
    ensures Parse("2d6+1").Success? && DrawsNeeded(Parse("2d6+1").value) == 2
    ensures RollTotal(Parse("2d6+1").value, [3, 5]) == 9
  {
    ParseTwoD6PlusOne();
    var v := RollValue([Six], [2], [true], 1);
    assert [2][..0] == [] && Sum([2]) == 2;
    assert DrawsNeeded(v) == 2;
    var w: seq<int> := [3, 5];
    assert w[..2] == w && w[..0] == [] && w[0..] == w && w[..1] == [3];
    assert Sum(w) == 8;
    assert GroupsTotal(v.dice, v.counts, v.signs, w) == 8;
  }

  lemma LexTwoD6PlusOne()
    ensures Lex("2d6+1") == Success([Number(2), DieMark, Number(6), PlusSign, Number(1)])
  {
    var s := "2d6+1";
    assert s[1..] == "d6+1" && s[2..] == "6+1" && s[3..] == "+1" && s[4..] == "1" && s[5..] == "";
    assert Lex(s) == LexFrom("d6+1", Some(2), []);
    assert Flush(Some(2), []) + [DieMark] == [Number(2), DieMark];
    assert LexFrom("d6+1", Some(2), []) == LexFrom("6+1", None, [Number(2), DieMark]);
    assert LexFrom("6+1", None, [Number(2), DieMark]) == LexFrom("+1", Some(6), [Number(2), DieMark]);
    assert Flush(Some(6), [Number(2), DieMark]) + [PlusSign] == [Number(2), DieMark, Number(6), PlusSign];
    assert LexFrom("+1", Some(6), [Number(2), DieMark])
        == LexFrom("1", None, [Number(2), DieMark, Number(6), PlusSign]);
    var toks := [Number(2), DieMark, Number(6), PlusSign, Number(1)];
    assert Flush(Some(1), [Number(2), DieMark, Number(6), PlusSign]) == toks;
    assert Lex(s) == Success(toks);
  }

  lemma ParseTwoD6PlusOne()
    ensures Parse("2d6+1") == Success(RollValue([Six], [2], [true], 1))
  {
    var toks := [Number(2), DieMark, Number(6), PlusSign, Number(1)];
    LexTwoD6PlusOne();
    assert ParseTerm(toks, true) == Success((DieTerm(2, Six, true), toks[3..]));
    assert toks[3..][1..] == [Number(1)];
    assert ParseTermsFrom([Number(1)], true) == Success([FlatTerm(1, true)]);
    var ts := [DieTerm(2, Six, true), FlatTerm(1, true)];
    assert toks[3..][0] == PlusSign;
    assert ParseTermsFrom(toks, true) == Success([DieTerm(2, Six, true)] + [FlatTerm(1, true)]);
    assert [DieTerm(2, Six, true)] + [FlatTerm(1, true)] == ts;
    assert ts[..1] == [DieTerm(2, Six, true)];
    assert ts[..1][..0] == [];
    assert FromTerms([]) == Empty;
    assert Empty.dice + [Six] == [Six] && Empty.counts + [2] == [2] && Empty.signs + [true] == [true];
    assert FromTerms(ts[..1]) == RollValue([Six], [2], [true], 0);
  }

  /** Whitespace between tokens is ignored: ` 2d6 + 1 ` is `2d6+1`. */
  lemma SpacedTwoD6PlusOne()
    ensures Parse(" 2d6 + 1 ") == Success(RollValue([Six], [2], [true], 1))
  {
    assert Parse(" 2d6 + 1 ") == Parse("2d6 + 1 ") by {
      assert "" + [' '] + "2d6 + 1 " == " 2d6 + 1 " && "" + "2d6 + 1 " == "2d6 + 1 ";
      ParseSpaceIgnored("", ' ', "2d6 + 1 ");
    }
    assert Parse("2d6 + 1 ") == Parse("2d6+ 1 ") by {
      assert "2d6" + [' '] + "+ 1 " == "2d6 + 1 " && "2d6" + "+ 1 " == "2d6+ 1 ";
      ParseSpaceIgnored("2d6", ' ', "+ 1 ");
    }
    assert Parse("2d6+ 1 ") == Parse("2d6+1 ") by {
      assert "2d6+" + [' '] + "1 " == "2d6+ 1 " && "2d6+" + "1 " == "2d6+1 ";
      ParseSpaceIgnored("2d6+", ' ', "1 ");
    }
    assert Parse("2d6+1 ") == Parse("2d6+1") by {
      assert "2d6+1" + [' '] + "" == "2d6+1 " && "2d6+1" + "" == "2d6+1";
      ParseSpaceIgnored("2d6+1", ' ', "");
    }
    ParseTwoD6PlusOne();
  }

  /** A die size outside the allowed set is refused. */
  lemma SevenSidedRefused()
    ensures Parse("1d7") == Failure(BadDieSize(7))
  {
    var s := "1d7";
    assert s[1..] == "d7" && s[2..] == "7" && s[3..] == "";
    assert Flush(Some(1), []) + [DieMark] == [Number(1), DieMark];
    assert Lex(s) == LexFrom("d7", Some(1), []);
    assert LexFrom("d7", Some(1), []) == LexFrom("7", None, [Number(1), DieMark]);
    assert LexFrom("7", None, [Number(1), DieMark]) == LexFrom("", Some(7), [Number(1), DieMark]);
    assert Flush(Some(7), [Number(1), DieMark]) == [Number(1), DieMark, Number(7)];
    assert Lex(s) == Success([Number(1), DieMark, Number(7)]);
  }

  /** A die term needs at least one die. */
  lemma ZeroDiceRefused()
    ensures Parse("0d6") == Failure(ZeroCount)
  {
    var s := "0d6";
    assert s[1..] == "d6" && s[2..] == "6" && s[3..] == "";
    assert Flush(Some(0), []) + [DieMark] == [Number(0), DieMark];
    assert Lex(s) == LexFrom("d6", Some(0), []);
    assert LexFrom("d6", Some(0), []) == LexFrom("6", None, [Number(0), DieMark]);
    assert LexFrom("6", None, [Number(0), DieMark]) == LexFrom("", Some(6), [Number(0), DieMark]);
    assert Flush(Some(6), [Number(0), DieMark]) == [Number(0), DieMark, Number(6)];
    assert Lex(s) == Success([Number(0), DieMark, Number(6)]);
  }

  /** The empty string holds no term. */
  lemma EmptyRefused()
    ensures Parse("") == Failure(ExpectedNumber)
  {
  }

  /** A character outside the grammar is refused where it stands. */
  lemma UpperCaseDRefused()
    ensures Parse("1D6") == Failure(UnexpectedChar('D'))
  {
    var s := "1D6";
    assert s[1..] == "D6";
  }

  /** Equality compares canonical forms in order: the same dice listed in
      another order make a different roll. */
  lemma OrderMatters()
    ensures SpecOf(RollValue([Six, Four], [1, 1], [true, true], 0))
         != SpecOf(RollValue([Four, Six], [1, 1], [true, true], 0))
  {
    SpecOfInjective(RollValue([Six, Four], [1, 1], [true, true], 0), RollValue([Four, Six], [1, 1], [true, true], 0));
  }
}
