/** The character level of the dice notation: the tokens of a specification
    string, the lexer that produces them, and the decimal rendering of
    numbers that the serialiser uses. */
module DiceText {
  import opened Results

  /** The tokens of a dice specification: a non-negative decimal number, the
      letter `d` between a count and a die size, and the two operators. */
  datatype Token = Number(value: nat) | DieMark | PlusSign | MinusSign

  /** Why a specification string was refused. */
  datatype ParseError =
    | UnexpectedChar(c: char)     // a character outside the grammar
    | ExpectedNumber              // a term does not start with a number
    | ExpectedDieSize             // `N d` is not followed by a number
    | ZeroCount                   // a die term with count 0
    | BadDieSize(faces: nat)      // a die size outside the allowed set
    | ExpectedOperator            // two terms without `+` or `-` between them

  predicate IsDigit(c: char) {
    '0' <= c <= '9'
  }

  /** Whitespace separates tokens and is otherwise ignored. */
  predicate IsSpace(c: char) {
    c == ' ' || c == '\t' || c == '\n' || c == '\r'
  }

  function DigitValue(c: char): (d: nat)
    requires IsDigit(c)
    ensures d < 10
  {
    c as int - '0' as int
  }

  function DigitChar(d: nat): (c: char)
    requires d < 10
    ensures IsDigit(c) && DigitValue(c) == d
  {
    ('0' as int + d) as char
  }

  /** The decimal form of `n`, without leading zeros. */
  function NatToString(n: nat): (s: string)
    ensures |s| >= 1
    ensures forall i :: 0 <= i < |s| ==> IsDigit(s[i])
    decreases n
  {
    if n < 10 then [DigitChar(n)] else NatToString(n / 10) + [DigitChar(n % 10)]
  }

  /** The token a single non-digit, non-space character stands for. */
  function Symbol(c: char): Option<Token> {
    if c == 'd' then Some(DieMark)
    else if c == '+' then Some(PlusSign)
    else if c == '-' then Some(MinusSign)
    else None
  }

  /** Ends the number being read, if any, by appending it to `acc`. */
  function Flush(pending: Option<nat>, acc: seq<Token>): seq<Token> {
    match pending
    case None => acc
    case Some(n) => acc + [Number(n)]
  }

  /** The number being read, extended by one more digit. */
  function Accumulate(pending: Option<nat>, c: char): nat
    requires IsDigit(c)
  {
    match pending
    case None => DigitValue(c)
    case Some(n) => 10 * n + DigitValue(c)
  }

  /** Lexes the rest `s` of a string, given the number being read and the
      tokens found so far; one character per step. */
  function LexFrom(s: string, pending: Option<nat>, acc: seq<Token>): Result<seq<Token>, ParseError>
    decreases |s|
  {
    if s == [] then Success(Flush(pending, acc))
    else if IsDigit(s[0]) then LexFrom(s[1..], Some(Accumulate(pending, s[0])), acc)
    else if IsSpace(s[0]) then LexFrom(s[1..], None, Flush(pending, acc))
    else match Symbol(s[0])
      case Some(t) => LexFrom(s[1..], None, Flush(pending, acc) + [t])
      case None => Failure(UnexpectedChar(s[0]))
  }

  /** The tokens of a whole specification string. */
  function Lex(s: string): Result<seq<Token>, ParseError> {
    LexFrom(s, None, [])
  }

  /** The tokeniser of the string constructor: one pass over the characters,
      keeping the number being read and the tokens found so far. */
  method Tokenize(s: string) returns (r: Result<seq<Token>, ParseError>)
    ensures r == Lex(s)
  {
    var pending: Option<nat> := None;
    var acc: seq<Token> := [];
    var i := 0;
    while i < |s|
      invariant 0 <= i <= |s|
      invariant LexFrom(s[i..], pending, acc) == Lex(s)
    {
      var c := s[i];
      assert s[i..][1..] == s[i + 1..];
      if IsDigit(c) {
        pending := Some(Accumulate(pending, c));
      } else if IsSpace(c) {
        acc, pending := Flush(pending, acc), None;
      } else {
        match Symbol(c)
        case Some(t) =>
          acc, pending := Flush(pending, acc) + [t], None;
        case None =>
          return Failure(UnexpectedChar(c));
      }
      i := i + 1;
    }
    assert s[i..] == [];
    r := Success(Flush(pending, acc));
  }

  /** The characters the lexer accepts. */
  predicate InAlphabet(c: char) {
    IsDigit(c) || IsSpace(c) || Symbol(c).Some?
  }

  /** A string lexes exactly when all of its characters are digits,
      whitespace, `d`, `+` or `-`; when it does not, the error names a
      character outside that alphabet. */
  lemma {:induction false} LexAlphabet(s: string, pending: Option<nat>, acc: seq<Token>)
    ensures LexFrom(s, pending, acc).Success? <==> forall i :: 0 <= i < |s| ==> InAlphabet(s[i])
    ensures LexFrom(s, pending, acc).Failure? ==>
      exists i :: 0 <= i < |s| && LexFrom(s, pending, acc).error == UnexpectedChar(s[i]) && !InAlphabet(s[i])
    decreases |s|
  {
    if s != [] && InAlphabet(s[0]) {
      var next: (Option<nat>, seq<Token>) :=
        if IsDigit(s[0]) then (Some(Accumulate(pending, s[0])), acc)
        else if IsSpace(s[0]) then (None, Flush(pending, acc))
        else (None, Flush(pending, acc) + [Symbol(s[0]).value]);
      var p, a := next.0, next.1;
      assert LexFrom(s, pending, acc) == LexFrom(s[1..], p, a);
      LexAlphabet(s[1..], p, a);
      assert forall i :: 1 <= i < |s| ==> s[i] == s[1..][i - 1];
      if LexFrom(s, pending, acc).Failure? {
        var i :| 0 <= i < |s[1..]| && LexFrom(s[1..], p, a).error == UnexpectedChar(s[1..][i]) && !InAlphabet(s[1..][i]);
        assert s[i + 1] == s[1..][i];
      }
    }
  }

  /** The state of the lexer after the whole of `s`, before the last number
      is ended: the number being read and the tokens found so far. */
  ghost function LexState(s: string, pending: Option<nat>, acc: seq<Token>): Result<(Option<nat>, seq<Token>), ParseError>
    decreases |s|
  {
    if s == [] then Success((pending, acc))
    else if IsDigit(s[0]) then LexState(s[1..], Some(Accumulate(pending, s[0])), acc)
    else if IsSpace(s[0]) then LexState(s[1..], None, Flush(pending, acc))
    else match Symbol(s[0])
      case Some(t) => LexState(s[1..], None, Flush(pending, acc) + [t])
      case None => Failure(UnexpectedChar(s[0]))
  }

  /** Lexing `a + x` is lexing `a`, then going on with `x` from where `a`
      left off. */
  lemma {:induction false} LexAppend(a: string, x: string, pending: Option<nat>, acc: seq<Token>)
    ensures LexFrom(a + x, pending, acc) ==
      match LexState(a, pending, acc)
      case Failure(e) => Failure(e)
      case Success(st) => LexFrom(x, st.0, st.1)
    decreases |a|
  {
    if a == [] {
      assert a + x == x;
    } else {
      assert (a + x)[0] == a[0] && (a + x)[1..] == a[1..] + x;
      if IsDigit(a[0]) {
        LexAppend(a[1..], x, Some(Accumulate(pending, a[0])), acc);
      } else if IsSpace(a[0]) {
        LexAppend(a[1..], x, None, Flush(pending, acc));
      } else if Symbol(a[0]).Some? {
        LexAppend(a[1..], x, None, Flush(pending, acc) + [Symbol(a[0]).value]);
      }
    }
  }

  /** After a non-empty string that does not end in a digit, no number is
      being read. */
  lemma {:induction false} LexStateNoPending(a: string, pending: Option<nat>, acc: seq<Token>)
    requires a != [] && !IsDigit(a[|a| - 1])
    requires LexState(a, pending, acc).Success?
    ensures LexState(a, pending, acc).value.0 == None
    decreases |a|
  {
    if |a| > 1 {
      assert a[1..][|a[1..]| - 1] == a[|a| - 1];
      if IsDigit(a[0]) {
        LexStateNoPending(a[1..], Some(Accumulate(pending, a[0])), acc);
      } else if IsSpace(a[0]) {
        LexStateNoPending(a[1..], None, Flush(pending, acc));
      } else {
        LexStateNoPending(a[1..], None, Flush(pending, acc) + [Symbol(a[0]).value]);
      }
    }
  }

  /** A whitespace character ends the number being read, which is what the
      next character does anyway unless it is a digit. */
  lemma SpaceStep(c: char, b: string, pending: Option<nat>, acc: seq<Token>)
    requires IsSpace(c)
    requires pending == None || b == [] || !IsDigit(b[0])
    ensures LexFrom([c] + b, pending, acc) == LexFrom(b, pending, acc)
  {
    assert ([c] + b)[1..] == b;
  }

  /** Whitespace between tokens is ignored: a whitespace character that
      does not stand between two digits may be dropped without changing the
      tokens, or the refusal. */
  lemma LexSpaceIgnored(a: string, c: char, b: string)
    requires IsSpace(c)
    requires a == [] || b == [] || !IsDigit(a[|a| - 1]) || !IsDigit(b[0])
    ensures Lex(a + [c] + b) == Lex(a + b)
  {
    assert a + [c] + b == a + ([c] + b);
    LexAppend(a, [c] + b, None, []);
    LexAppend(a, b, None, []);
    var st := LexState(a, None, []);
    if st.Success? {
      if a != [] && !IsDigit(a[|a| - 1]) {
        LexStateNoPending(a, None, []);
      }
      SpaceStep(c, b, st.value.0, st.value.1);
    }
  }

  /** One step of the lexer over an operator or the die letter. */
  lemma LexSymbol(c: char, more: string, pending: Option<nat>, acc: seq<Token>)
    requires Symbol(c).Some?
    ensures LexFrom([c] + more, pending, acc) == LexFrom(more, None, Flush(pending, acc) + [Symbol(c).value])
  {
    assert ([c] + more)[1..] == more;
  }

  /** Lexing the decimal form of `n` leaves exactly `n` as the number being
      read: rendering and reading numbers are inverse. */
  lemma {:induction false} LexDigits(n: nat, rest: string, acc: seq<Token>)
    ensures LexFrom(NatToString(n) + rest, None, acc) == LexFrom(rest, Some(n), acc)
    decreases n
  {
    if n < 10 {
      var s := [DigitChar(n)] + rest;
      assert NatToString(n) + rest == s;
      assert s[1..] == rest;
    } else {
      var c := DigitChar(n % 10);
      assert NatToString(n) + rest == NatToString(n / 10) + ([c] + rest);
      LexDigits(n / 10, [c] + rest, acc);
      assert ([c] + rest)[1..] == rest;
      assert Accumulate(Some(n / 10), c) == n;
    }
  }
}
