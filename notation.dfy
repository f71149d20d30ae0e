/** The term level of the dice notation: the abstract state of a roll, the
    parser from tokens to terms, the canonical serialisation `spec()`, and the
    round trip between the two. */
module Notation {
  import opened Results
  import opened Dice
  import opened DiceText

  /** The state of a `Roll`: three parallel sequences (die kind, count and
      sign of each dice group; a sign of `true` means the group is added,
      `false` that it is subtracted) and one flat modifier. */
  datatype RollValue = RollValue(dice: seq<Die>, counts: seq<int>, signs: seq<bool>, modifier: int)

  /** The state of a roll with no dice and modifier 0. */
  const Empty := RollValue([], [], [], 0)

  /** The three sequences are parallel and every group has at least one die. */
  predicate Wellformed(v: RollValue) {
    && |v.dice| == |v.counts| == |v.signs|
    && forall i :: 0 <= i < |v.counts| ==> v.counts[i] >= 1
  }

  /** `a` followed by the groups of `b`; the modifiers add up. */
  function Concat(a: RollValue, b: RollValue): (r: RollValue)
    ensures Wellformed(a) && Wellformed(b) ==> Wellformed(r)
  {
    RollValue(a.dice + b.dice, a.counts + b.counts, a.signs + b.signs, a.modifier + b.modifier)
  }

  lemma ConcatEmpty(w: RollValue)
    ensures Concat(Empty, w) == w
  {
    assert [] + w.dice == w.dice && [] + w.counts == w.counts && [] + w.signs == w.signs;
  }

  /** Every sign flipped. */
  function Negated(signs: seq<bool>): (r: seq<bool>)
    ensures |r| == |signs|
    ensures forall i :: 0 <= i < |signs| ==> r[i] == !signs[i]
  {
    seq(|signs|, i requires 0 <= i < |signs| => !signs[i])
  }

  /** Flipping the signs twice gives them back. */
  lemma NegatedTwice(signs: seq<bool>)
    ensures Negated(Negated(signs)) == signs
  {
  }

  /** Flipping the signs of two joined runs flips each run. */
  lemma NegatedConcat(a: seq<bool>, b: seq<bool>)
    ensures Negated(a + b) == Negated(a) + Negated(b)
  {
  }

  /** `a` followed by the groups of `b` with their signs flipped; `b`'s
      modifier is subtracted. */
  function ConcatNegated(a: RollValue, b: RollValue): (r: RollValue)
    ensures Wellformed(a) && Wellformed(b) ==> Wellformed(r)
  {
    RollValue(a.dice + b.dice, a.counts + b.counts, a.signs + Negated(b.signs), a.modifier - b.modifier)
  }

  /** Subtracting a roll that was itself subtracted from the empty roll adds
      the original roll. */
  lemma SubtractNegation(a: RollValue, b: RollValue)
    ensures ConcatNegated(a, ConcatNegated(Empty, b)) == Concat(a, b)
  {
    var nb := ConcatNegated(Empty, b);
    assert nb.dice == b.dice && nb.counts == b.counts && nb.signs == Negated(b.signs);
    NegatedTwice(b.signs);
  }

  /** One term of a specification: `N d S` with its sign, or a flat number
      with its sign. */
  datatype Term = DieTerm(count: nat, die: Die, adds: bool) | FlatTerm(amount: nat, adds: bool)

  predicate TermOk(t: Term) {
    t.DieTerm? ==> t.count >= 1
  }

  predicate TermsOk(ts: seq<Term>) {
    forall i :: 0 <= i < |ts| ==> TermOk(ts[i])
  }

  /** The effect of one term on a roll: a die term appends one group, a flat
      term moves the modifier. */
  function AddTerm(v: RollValue, t: Term): RollValue {
    match t
    case DieTerm(c, d, s) => RollValue(v.dice + [d], v.counts + [c], v.signs + [s], v.modifier)
    case FlatTerm(n, s) => v.(modifier := v.modifier + Signed(s, n))
  }

  /** `x` with the sign of a term: added or subtracted. */
  function Signed(adds: bool, x: int): int {
    if adds then x else -x
  }

  /** The terms applied to `base` from left to right. */
  function FromTermsOnto(base: RollValue, ts: seq<Term>): (r: RollValue)
    ensures Wellformed(base) && TermsOk(ts) ==> Wellformed(r)
    ensures |r.dice| >= |base.dice|
    decreases |ts|
  {
    if ts == [] then base
    else AddTerm(FromTermsOnto(base, ts[..|ts| - 1]), ts[|ts| - 1])
  }

  function FromTerms(ts: seq<Term>): RollValue {
    FromTermsOnto(Empty, ts)
  }

  lemma AddTermConcat(a: RollValue, b: RollValue, t: Term)
    ensures AddTerm(Concat(a, b), t) == Concat(a, AddTerm(b, t))
  {
    match t
    case DieTerm(c, d, s) =>
      assert a.dice + b.dice + [d] == a.dice + (b.dice + [d]);
      assert a.counts + b.counts + [c] == a.counts + (b.counts + [c]);
      assert a.signs + b.signs + [s] == a.signs + (b.signs + [s]);
    case FlatTerm(_, _) =>
  }

  /** Applying terms one by one onto a roll appends the roll they describe. */
  lemma {:induction false} FromTermsOntoConcat(base: RollValue, ts: seq<Term>)
    ensures FromTermsOnto(base, ts) == Concat(base, FromTerms(ts))
    decreases |ts|
  {
    if ts == [] {
      assert base.dice + [] == base.dice;
      assert base.counts + [] == base.counts;
      assert base.signs + [] == base.signs;
    } else {
      var init, last := ts[..|ts| - 1], ts[|ts| - 1];
      FromTermsOntoConcat(base, init);
      AddTermConcat(base, FromTerms(init), last);
    }
  }

  // ---------------------------------------------------------------- parsing

  /** Reads one term, with the given sign, from the front of `toks`; returns
      it with the tokens that follow it. */
  function ParseTerm(toks: seq<Token>, adds: bool): (r: Result<(Term, seq<Token>), ParseError>)
    ensures r.Success? ==> TermOk(r.value.0) && r.value.0.adds == adds
    ensures r.Success? ==> BodyTokens(r.value.0) + r.value.1 == toks
  {
    if toks == [] || !toks[0].Number? then Failure(ExpectedNumber)
    else if |toks| >= 2 && toks[1] == DieMark then
      if |toks| == 2 || !toks[2].Number? then Failure(ExpectedDieSize)
      else if toks[0].value == 0 then Failure(ZeroCount)
      else match FacesToDie(toks[2].value)
        case None => Failure(BadDieSize(toks[2].value))
        case Some(d) =>
          assert toks == [toks[0], toks[1], toks[2]] + toks[3..];
          Success((DieTerm(toks[0].value, d, adds), toks[3..]))
    else
      assert toks == [toks[0]] + toks[1..];
      Success((FlatTerm(toks[0].value, adds), toks[1..]))
  }

  /** Reads `term (('+'|'-') term)*`, the first term with sign `adds`. */
  function ParseTermsFrom(toks: seq<Token>, adds: bool): (r: Result<seq<Term>, ParseError>)
    ensures r.Success? ==> |r.value| >= 1 && TermsOk(r.value)
    decreases |toks|
  {
    match ParseTerm(toks, adds)
    case Failure(e) => Failure(e)
    case Success((t, rest)) =>
      assert |rest| < |toks| by { assert |BodyTokens(t)| >= 1; }
      if rest == [] then Success([t])
      else if rest[0] == PlusSign || rest[0] == MinusSign then
        match ParseTermsFrom(rest[1..], rest[0] == PlusSign)
        case Failure(e) => Failure(e)
        case Success(ts) => Success([t] + ts)
      else Failure(ExpectedOperator)
  }

  /** A whole specification: an optional leading sign, then the terms. */
  function ParseTokens(toks: seq<Token>): (r: Result<seq<Term>, ParseError>)
    ensures r.Success? ==> |r.value| >= 1 && TermsOk(r.value)
  {
    if toks != [] && toks[0] == MinusSign then ParseTermsFrom(toks[1..], false)
    else if toks != [] && toks[0] == PlusSign then ParseTermsFrom(toks[1..], true)
    else ParseTermsFrom(toks, true)
  }

  /** Whatever the terms reader accepts is the tokens of the terms it
      returns: the first term's body, then each later term with its sign. */
  lemma {:induction false} ParseTermsFromSound(toks: seq<Token>, adds: bool)
    requires ParseTermsFrom(toks, adds).Success?
    ensures var ts := ParseTermsFrom(toks, adds).value;
      ts[0].adds == adds && toks == BodyTokens(ts[0]) + TailTokens(ts[1..])
    decreases |toks|
  {
    var r := ParseTerm(toks, adds);
    var t, rest := r.value.0, r.value.1;
    assert BodyTokens(t) + rest == toks;
    assert |BodyTokens(t)| >= 1;
    if rest == [] {
      assert ParseTermsFrom(toks, adds).value == [t];
      assert toks == BodyTokens(t) + TailTokens([]);
    } else {
      var more := ParseTermsFrom(rest[1..], rest[0] == PlusSign).value;
      ParseTermsFromSound(rest[1..], rest[0] == PlusSign);
      assert ParseTermsFrom(toks, adds).value == [t] + more;
      assert ([t] + more)[1..] == more;
      assert rest == [SignToken(more[0])] + rest[1..];
      assert rest == TailTokens(more);
    }
  }

  /** Whatever the parser accepts is exactly the tokens of the terms it
      returns, possibly after a redundant leading `+`; with `ParseTermTokens`
      this makes the accepted token lists exactly the grammar's. */
  lemma ParseTokensSound(toks: seq<Token>)
    requires ParseTokens(toks).Success?
    ensures var ts := ParseTokens(toks).value;
      toks == TermTokens(ts) || toks == [PlusSign] + TermTokens(ts)
  {
    if toks != [] && toks[0] == MinusSign {
      ParseTermsFromSound(toks[1..], false);
      var ts := ParseTermsFrom(toks[1..], false).value;
      assert ParseTokens(toks).value == ts;
      assert TermTokens(ts) == [MinusSign] + (BodyTokens(ts[0]) + TailTokens(ts[1..]));
      assert toks == [MinusSign] + toks[1..];
    } else if toks != [] && toks[0] == PlusSign {
      ParseTermsFromSound(toks[1..], true);
      var ts := ParseTermsFrom(toks[1..], true).value;
      assert ParseTokens(toks).value == ts;
      assert TermTokens(ts) == BodyTokens(ts[0]) + TailTokens(ts[1..]);
      assert toks == [PlusSign] + toks[1..];
    } else {
      ParseTermsFromSound(toks, true);
      var ts := ParseTermsFrom(toks, true).value;
      assert ParseTokens(toks).value == ts;
      assert TermTokens(ts) == BodyTokens(ts[0]) + TailTokens(ts[1..]);
    }
  }

  /** The roll a specification string describes (the `Roll(string)`
      constructor), or why the string is refused. */
  function Parse(s: string): (r: Result<RollValue, ParseError>)
    ensures r.Success? ==> Wellformed(r.value)
  {
    match Lex(s)
    case Failure(e) => Failure(e)
    case Success(toks) =>
      match ParseTokens(toks)
      case Failure(e) => Failure(e)
      case Success(ts) => Success(FromTerms(ts))
  }

  /** A whitespace character that does not stand between two digits may be
      dropped without changing what the string describes. */
  lemma ParseSpaceIgnored(a: string, c: char, b: string)
    requires IsSpace(c)
    requires a == [] || b == [] || !IsDigit(a[|a| - 1]) || !IsDigit(b[0])
    ensures Parse(a + [c] + b) == Parse(a + b)
  {
    LexSpaceIgnored(a, c, b);
  }

  // ---------------------------------------------------------- serialisation

  /** The die terms of the first `n` groups, in order. */
  function DieTermsUpTo(v: RollValue, n: nat): (r: seq<Term>)
    requires Wellformed(v) && n <= |v.dice|
    ensures |r| == n
  {
    if n == 0 then []
    else DieTermsUpTo(v, n - 1) + [DieTerm(v.counts[n - 1], v.dice[n - 1], v.signs[n - 1])]
  }

  /** The flat term that ends the canonical form: present when the modifier
      is non-zero or there are no dice (so the empty roll reads `0`). */
  function ModifierTerms(v: RollValue): seq<Term> {
    if v.modifier != 0 || v.dice == [] then [ModifierTerm(v.modifier)] else []
  }

  /** The terms of the canonical form: die groups first, in the order they
      were added, then the flat modifier. */
  function CanonicalTerms(v: RollValue): (r: seq<Term>)
    requires Wellformed(v)
    ensures |r| >= 1
  {
    DieTermsUpTo(v, |v.dice|) + ModifierTerms(v)
  }

  /** A term without its sign: `NdS` or the number. */
  function Body(t: Term): string {
    match t
    case DieTerm(c, d, _) => NatToString(c) + "d" + NatToString(DieToFaces(d))
    case FlatTerm(n, _) => NatToString(n)
  }

  function SignChar(t: Term): char {
    if t.adds then '+' else '-'
  }

  /** The sign written before the first term: `-`, or nothing for `+`. */
  function Lead(t: Term): string {
    if t.adds then "" else "-"
  }

  /** Every term with its sign written out. */
  function RenderTail(ts: seq<Term>): string
    decreases |ts|
  {
    if ts == [] then "" else [SignChar(ts[0])] + (Body(ts[0]) + RenderTail(ts[1..]))
  }

  /** The terms written out, the leading `+` omitted. */
  function Render(ts: seq<Term>): string {
    if ts == [] then "" else Lead(ts[0]) + (Body(ts[0]) + RenderTail(ts[1..]))
  }

  /** `spec()`: the canonical specification string of a roll. */
  function SpecOf(v: RollValue): string
    requires Wellformed(v)
  {
    Render(CanonicalTerms(v))
  }

  /** What `spec()` appends for term `t`, depending on whether it is the
      first one. */
  function Piece(t: Term, first: bool): string {
    (if first then Lead(t) else [SignChar(t)]) + Body(t)
  }

  lemma {:induction false} RenderTailSnoc(ts: seq<Term>, t: Term)
    ensures RenderTail(ts + [t]) == RenderTail(ts) + Piece(t, false)
    decreases |ts|
  {
    if ts == [] {
      assert [t][1..] == [];
    } else {
      assert (ts + [t])[1..] == ts[1..] + [t];
      RenderTailSnoc(ts[1..], t);
    }
  }

  /** Rendering grows term by term, as `spec()` builds its string. */
  lemma RenderSnoc(ts: seq<Term>, t: Term)
    ensures Render(ts + [t]) == Render(ts) + Piece(t, ts == [])
  {
    if ts == [] {
      assert [t][1..] == [];
    } else {
      assert (ts + [t])[1..] == ts[1..] + [t];
      RenderTailSnoc(ts[1..], t);
    }
  }

  /** The canonical form grows one group at a time. */
  lemma SpecStep(v: RollValue, i: nat)
    requires Wellformed(v) && i < |v.dice|
    ensures Render(DieTermsUpTo(v, i + 1))
         == Render(DieTermsUpTo(v, i)) + Piece(DieTerm(v.counts[i], v.dice[i], v.signs[i]), i == 0)
  {
    RenderSnoc(DieTermsUpTo(v, i), DieTerm(v.counts[i], v.dice[i], v.signs[i]));
  }

  /** The flat term for a modifier: its magnitude and its sign. */
  function ModifierTerm(m: int): Term {
    FlatTerm(if m < 0 then -m else m, m >= 0)
  }

  /** After the groups, the canonical form ends with the modifier term, if
      any. */
  lemma SpecFinish(v: RollValue)
    requires Wellformed(v)
    ensures v.modifier != 0 || v.dice == [] ==>
      SpecOf(v) == Render(DieTermsUpTo(v, |v.dice|)) + Piece(ModifierTerm(v.modifier), v.dice == [])
    ensures v.modifier == 0 && v.dice != [] ==> SpecOf(v) == Render(DieTermsUpTo(v, |v.dice|))
  {
    var ds := DieTermsUpTo(v, |v.dice|);
    if v.modifier != 0 || v.dice == [] {
      RenderSnoc(ds, ModifierTerm(v.modifier));
    } else {
      assert CanonicalTerms(v) == ds;
    }
  }

  // ------------------------------------------------------------- round trip

  ghost function SignToken(t: Term): Token {
    if t.adds then PlusSign else MinusSign
  }

  ghost function LeadTokens(t: Term): seq<Token> {
    if t.adds then [] else [MinusSign]
  }

  ghost function BodyTokens(t: Term): seq<Token> {
    match t
    case DieTerm(c, d, _) => [Number(c), DieMark, Number(DieToFaces(d))]
    case FlatTerm(n, _) => [Number(n)]
  }

  ghost function TailTokens(ts: seq<Term>): seq<Token>
    decreases |ts|
  {
    if ts == [] then [] else [SignToken(ts[0])] + (BodyTokens(ts[0]) + TailTokens(ts[1..]))
  }

  ghost function TermTokens(ts: seq<Term>): seq<Token> {
    if ts == [] then [] else LeadTokens(ts[0]) + (BodyTokens(ts[0]) + TailTokens(ts[1..]))
  }

  /** The tokens of a term's body before its last number. */
  ghost function InitTokens(t: Term): seq<Token> {
    match t
    case DieTerm(c, _, _) => [Number(c), DieMark]
    case FlatTerm(_, _) => []
  }

  /** The last number of a term's body. */
  ghost function LastNumber(t: Term): nat {
    match t
    case DieTerm(_, d, _) => DieToFaces(d)
    case FlatTerm(n, _) => n
  }

  /** Lexing a rendered term leaves its last number being read. */
  lemma LexBody(t: Term, tail: string, acc: seq<Token>)
    ensures LexFrom(Body(t) + tail, None, acc) == LexFrom(tail, Some(LastNumber(t)), acc + InitTokens(t))
    ensures BodyTokens(t) == InitTokens(t) + [Number(LastNumber(t))]
  {
    match t
    case DieTerm(c, d, _) =>
      var f: nat := DieToFaces(d);
      var afterMark := NatToString(f) + tail;
      assert Body(t) + tail == NatToString(c) + (['d'] + afterMark);
      LexDigits(c, ['d'] + afterMark, acc);
      assert (['d'] + afterMark)[1..] == afterMark;
      assert Flush(Some(c), acc) + [DieMark] == acc + [Number(c), DieMark];
      LexDigits(f, tail, acc + [Number(c), DieMark]);
    case FlatTerm(n, _) =>
      LexDigits(n, tail, acc);
      assert acc + InitTokens(t) == acc;
  }

  lemma TailTokensCons(acc: seq<Token>, k: nat, rest: seq<Term>)
    requires rest != []
    ensures acc + [Number(k)] + [SignToken(rest[0])] + InitTokens(rest[0])
              + [Number(LastNumber(rest[0]))] + TailTokens(rest[1..])
         == acc + [Number(k)] + TailTokens(rest)
  {
    var r0 := rest[0];
    var i, l, t := InitTokens(r0), [Number(LastNumber(r0))], TailTokens(rest[1..]);
    var a := acc + [Number(k)];
    assert BodyTokens(r0) == i + l by { LexBody(r0, [], []); }
    assert TailTokens(rest) == [SignToken(r0)] + (i + l + t);
    assert a + [SignToken(r0)] + i + l + t == a + ([SignToken(r0)] + (i + l + t));
  }

  /** Lexing rendered signed terms, while number `k` is being read, yields
      `k` and then their tokens. */
  lemma {:induction false} LexTail(rest: seq<Term>, k: nat, acc: seq<Token>)
    ensures LexFrom(RenderTail(rest), Some(k), acc) == Success(acc + [Number(k)] + TailTokens(rest))
    decreases |rest|
  {
    if rest == [] {
      assert acc + [Number(k)] + [] == acc + [Number(k)];
    } else {
      var r0 := rest[0];
      var tailRest := RenderTail(rest[1..]);
      var more := Body(r0) + tailRest;
      assert RenderTail(rest) == [SignChar(r0)] + more;
      LexSymbol(SignChar(r0), more, Some(k), acc);
      var acc2 := acc + [Number(k)] + [SignToken(r0)];
      LexBody(r0, tailRest, acc2);
      LexTail(rest[1..], LastNumber(r0), acc2 + InitTokens(r0));
      TailTokensCons(acc, k, rest);
    }
  }

  /** The first step of lexing a rendered term list: its leading `-`, if
      any. */
  lemma LexLead(ts: seq<Term>)
    requires ts != []
    ensures Lex(Render(ts)) == LexFrom(Body(ts[0]) + RenderTail(ts[1..]), None, LeadTokens(ts[0]))
  {
    var body := Body(ts[0]) + RenderTail(ts[1..]);
    if !ts[0].adds {
      assert Render(ts) == ['-'] + body;
      LexSymbol('-', body, None, []);
      assert Flush(None, []) + [MinusSign] == LeadTokens(ts[0]);
    } else {
      assert Render(ts) == body;
    }
  }

  /** A non-empty term list's tokens, cut where lexing its rendering
      finishes the first term's body. */
  lemma TermTokensSplit(ts: seq<Term>)
    requires ts != []
    ensures TermTokens(ts)
         == LeadTokens(ts[0]) + InitTokens(ts[0]) + [Number(LastNumber(ts[0]))] + TailTokens(ts[1..])
  {
    var t := ts[0];
    var lead, i, l, tail := LeadTokens(t), InitTokens(t), [Number(LastNumber(t))], TailTokens(ts[1..]);
    assert BodyTokens(t) == i + l by { LexBody(t, [], []); }
    assert lead + i + l + tail == lead + (i + l + tail);
  }

  /** Lexing a rendered, non-empty term list yields its tokens. */
  lemma LexRender(ts: seq<Term>)
    requires ts != []
    ensures Lex(Render(ts)) == Success(TermTokens(ts))
  {
    var t := ts[0];
    var toks := LeadTokens(t) + InitTokens(t) + [Number(LastNumber(t))] + TailTokens(ts[1..]);
    assert Lex(Render(ts)) == Success(toks) by {
      var rt := RenderTail(ts[1..]);
      LexLead(ts);
      LexBody(t, rt, LeadTokens(t));
      LexTail(ts[1..], LastNumber(t), LeadTokens(t) + InitTokens(t));
    }
    TermTokensSplit(ts);
  }

  /** A term's tokens read back as that term, whatever follows, provided
      no `d` follows. */
  lemma ParseTermBody(t: Term, rest: seq<Token>)
    requires TermOk(t)
    requires rest == [] || rest[0] != DieMark
    ensures ParseTerm(BodyTokens(t) + rest, t.adds) == Success((t, rest))
  {
    var toks := BodyTokens(t) + rest;
    match t
    case DieTerm(c, d, s) =>
      FacesToDieInverse(d);
      assert toks[3..] == rest;
    case FlatTerm(n, s) =>
      assert toks[1..] == rest;
  }

  /** The tokens of a term followed by signed terms parse back to those
      terms. */
  lemma {:induction false} ParseBodyTail(t: Term, rest: seq<Term>)
    requires TermOk(t) && TermsOk(rest)
    ensures ParseTermsFrom(BodyTokens(t) + TailTokens(rest), t.adds) == Success([t] + rest)
    decreases |rest|
  {
    var tail := TailTokens(rest);
    ParseTermBody(t, tail);
    if rest == [] {
      assert tail == [];
      assert [t] + rest == [t];
    } else {
      var r0 := rest[0];
      assert tail[1..] == BodyTokens(r0) + TailTokens(rest[1..]);
      assert TermOk(r0);
      ParseBodyTail(r0, rest[1..]);
      assert [r0] + rest[1..] == rest;
    }
  }

  /** The tokens of a non-empty term list parse back to that list. */
  lemma ParseTermTokens(ts: seq<Term>)
    requires ts != [] && TermsOk(ts)
    ensures ParseTokens(TermTokens(ts)) == Success(ts)
  {
    var t := ts[0];
    var body := BodyTokens(t) + TailTokens(ts[1..]);
    assert TermOk(t);
    ParseBodyTail(t, ts[1..]);
    assert [t] + ts[1..] == ts;
    if !t.adds {
      assert TermTokens(ts) == [MinusSign] + body;
      assert ([MinusSign] + body)[1..] == body;
    } else {
      assert TermTokens(ts) == body;
    }
  }

  /** The die terms of the first `n` groups, applied to the empty roll,
      rebuild those groups. */
  lemma {:induction false} FromDieTerms(v: RollValue, n: nat)
    requires Wellformed(v) && n <= |v.dice|
    ensures FromTerms(DieTermsUpTo(v, n)) == RollValue(v.dice[..n], v.counts[..n], v.signs[..n], 0)
  {
    if n > 0 {
      var ts := DieTermsUpTo(v, n);
      assert ts[..|ts| - 1] == DieTermsUpTo(v, n - 1);
      FromDieTerms(v, n - 1);
      assert v.dice[..n - 1] + [v.dice[n - 1]] == v.dice[..n];
      assert v.counts[..n - 1] + [v.counts[n - 1]] == v.counts[..n];
      assert v.signs[..n - 1] + [v.signs[n - 1]] == v.signs[..n];
    }
  }

  /** The canonical terms of a roll rebuild that roll. */
  lemma FromCanonicalTerms(v: RollValue)
    requires Wellformed(v)
    ensures FromTerms(CanonicalTerms(v)) == v
  {
    var ds := DieTermsUpTo(v, |v.dice|);
    FromDieTerms(v, |v.dice|);
    assert v.dice[..|v.dice|] == v.dice && v.counts[..|v.counts|] == v.counts && v.signs[..|v.signs|] == v.signs;
    var ms := ModifierTerms(v);
    if ms == [] {
      assert CanonicalTerms(v) == ds;
    } else {
      var ts := ds + ms;
      assert ts[..|ts| - 1] == ds;
    }
  }

  lemma {:induction false} DieTermAt(v: RollValue, n: nat, i: nat)
    requires Wellformed(v) && n <= |v.dice| && i < n
    ensures DieTermsUpTo(v, n)[i] == DieTerm(v.counts[i], v.dice[i], v.signs[i])
  {
    if i < n - 1 {
      DieTermAt(v, n - 1, i);
    }
  }

  /** Round trip: the canonical specification of a well-formed roll parses
      back to the same groups, counts, signs and modifier. */
  lemma ParseSpecOf(v: RollValue)
    requires Wellformed(v)
    ensures Parse(SpecOf(v)) == Success(v)
  {
    var ts := CanonicalTerms(v);
    assert TermsOk(ts) by {
      forall i | 0 <= i < |ts| ensures TermOk(ts[i]) {
        if i < |v.dice| {
          DieTermAt(v, |v.dice|, i);
        }
      }
    }
    LexRender(ts);
    ParseTermTokens(ts);
    FromCanonicalTerms(v);
  }

  /** Canonicalisation is idempotent: whatever string parses to a roll, that
      roll's canonical specification parses to the same roll. */
  lemma CanonicalIdempotent(s: string)
    requires Parse(s).Success?
    ensures Parse(SpecOf(Parse(s).value)) == Parse(s)
  {
    ParseSpecOf(Parse(s).value);
  }

  /** Two well-formed rolls have the same canonical specification exactly
      when their groups, counts, signs and modifiers are equal. */
  lemma SpecOfInjective(a: RollValue, b: RollValue)
    requires Wellformed(a) && Wellformed(b)
    ensures SpecOf(a) == SpecOf(b) <==> a == b
  {
    ParseSpecOf(a);
    ParseSpecOf(b);
  }
}
