/**
 * The calculation engine: a recursive-descent evaluator that walks an
 * expression string with a position passed by reference.
 *
 *   expression := term (('+' | '-') term)*
 *   term       := number (('*' | '/' | '%' | '^') number)*
 *   number     := spaces [sign] (digit | '.')*
 *
 * All four term operators share one precedence level and fold left to right;
 * the engine stops at the first character that cannot continue the expression
 * and does not require the whole string to be consumed.
 *
 * Arithmetic is over `real`: the rounding of IEEE doubles is not modelled,
 * `std::pow` is the parameter `pow`, and std::fmod is its exact real value.
 */
module Engine {
  import opened Outcomes
  import Decimal

  /** std::isspace in the "C" locale. */
  predicate IsSpace(c: char) {
    c == ' ' || c == '\t' || c == '\n' || c == '\U{000B}' || c == '\U{000C}' || c == '\r'
  }

  predicate IsSign(c: char) {
    c == '-' || c == '+'
  }

  /** The characters of the run that follows the optional sign of a number. */
  predicate IsNumeral(c: char) {
    Decimal.IsDigit(c) || c == '.'
  }

  predicate IsTermOperator(c: char) {
    c == '*' || c == '/' || c == '%' || c == '^'
  }

  predicate IsExpressionOperator(c: char) {
    c == '+' || c == '-'
  }

  /** Every character the engine can consume. */
  predicate IsEngineChar(c: char) {
    IsSpace(c) || IsSign(c) || IsNumeral(c) || IsTermOperator(c)
  }

  /** The exceptions the engine throws, all std::invalid_argument: division
      and modulo by zero, the failure of std::stod, and parseNumber's
      missing number. */
  datatype Failure = DivisionByZero | ModuloByZero | InvalidArgument | ExpectedNumberAt(pos: nat)

  const ExpectedNumber := "Expected number at position "

  /** The what() string of each exception. */
  function Message(f: Failure): (m: string)
    ensures f.ExpectedNumberAt? ==> m == ExpectedNumber + Decimal.Render(f.pos)
  {
    match f
    case DivisionByZero => "Division by zero"
    case ModuloByZero => "Modulo by zero"
    case InvalidArgument => "stod"
    case ExpectedNumberAt(pos) => ExpectedNumber + Decimal.Render(pos)
  }

  // ---------------------------------------------------------------------------
  // Operator helpers

  function Add(a: real, b: real): real {
    a + b
  }

  function Subtract(a: real, b: real): real {
    a - b
  }

  function Multiply(a: real, b: real): real {
    a * b
  }

  function Divide(a: real, b: real): (r: Result<real, Failure>)
    ensures r.Err? <==> b == 0.0
    ensures r.Err? ==> r.error == DivisionByZero
  {
    if b == 0.0 then Err(DivisionByZero) else Ok(a / b)
  }

  /** Rounding toward zero. */
  function Trunc(q: real): (t: int)
    ensures (t as real) <= q < (t as real) + 1.0 || (t as real) - 1.0 < q <= (t as real)
    ensures q >= 0.0 ==> t >= 0
    ensures q <= 0.0 ==> t <= 0
  {
    if q >= 0.0 then q.Floor else -((-q).Floor)
  }

  /** The exact value of std::fmod: a minus b times the truncated quotient. */
  function FMod(a: real, b: real): real
    requires b != 0.0
  {
    a - (Trunc(a / b) as real) * b
  }

  /** What the C standard promises of fmod(a, b): a - n*b for an integer n,
      with the sign of a and a magnitude below that of b. */
  ghost predicate IsRemainder(a: real, b: real, r: real)
    requires b != 0.0
  {
    && ((a - r) / b).Floor as real == (a - r) / b
    && (if b > 0.0 then -b < r < b else b < r < -b)
    && (a >= 0.0 ==> r >= 0.0)
    && (a <= 0.0 ==> r <= 0.0)
  }

  lemma FModIsRemainder(a: real, b: real)
    requires b != 0.0
    ensures IsRemainder(a, b, FMod(a, b))
  {
    var q := a / b;
    var t := Trunc(q) as real;
    var r := FMod(a, b);
    QuotientIdentity(a, b, q, t, r);
    FractionBounds(q - t, b, r);
    FractionSign(a, b, q, q - t, r);
  }

  lemma QuotientIdentity(a: real, b: real, q: real, t: real, r: real)
    requires b != 0.0 && q == a / b && r == a - t * b
    ensures r == (q - t) * b && (a - r) / b == t
  {
    assert q * b == a;
  }

  /** A factor strictly between -1 and 1 shrinks the magnitude of b. */
  lemma FractionBounds(f: real, b: real, r: real)
    requires -1.0 < f < 1.0 && b != 0.0 && r == f * b
    ensures b > 0.0 ==> -b < r < b
    ensures b < 0.0 ==> b < r < -b
  {
    assert b - r == (1.0 - f) * b;
    assert b + r == (1.0 + f) * b;
  }

  /** When f has the sign of a / b, f * b has the sign of a. */
  lemma FractionSign(a: real, b: real, q: real, f: real, r: real)
    requires b != 0.0 && q == a / b && r == f * b
    requires q >= 0.0 ==> f >= 0.0
    requires q <= 0.0 ==> f <= 0.0
    ensures a >= 0.0 ==> r >= 0.0
    ensures a <= 0.0 ==> r <= 0.0
  {
    assert a == q * b;
  }

  function Modulo(a: real, b: real): (r: Result<real, Failure>)
    ensures r.Err? <==> b == 0.0
    ensures r.Err? ==> r.error == ModuloByZero
  {
    if b == 0.0 then Err(ModuloByZero) else Ok(FMod(a, b))
  }

  /** A successful division gives the quotient: multiplying back by b gives a. */
  lemma DivideInverts(a: real, b: real)
    ensures Divide(a, b).Ok? ==> Divide(a, b).value * b == a
  {
  }

  /** A successful modulo is a C remainder of a by b. */
  lemma ModuloIsRemainder(a: real, b: real)
    ensures Modulo(a, b).Ok? ==> b != 0.0 && IsRemainder(a, b, Modulo(a, b).value)
  {
    if b != 0.0 {
      FModIsRemainder(a, b);
    }
  }

  /** std::pow, kept abstract: its value is whatever `pow` gives. */
  function Power(pow: (real, real) -> real, base: real, exponent: real): real {
    pow(base, exponent)
  }

  /** The if/else-if chains of parseTerm and parseExpression that pick a helper. */
  function Apply(op: char, a: real, b: real, pow: (real, real) -> real): (r: Result<real, Failure>)
    requires IsTermOperator(op) || IsExpressionOperator(op)
    ensures r.Err? <==> (op == '/' || op == '%') && b == 0.0
  {
    match op
    case '+' => Ok(Add(a, b))
    case '-' => Ok(Subtract(a, b))
    case '*' => Ok(Multiply(a, b))
    case '/' => Divide(a, b)
    case '%' => Modulo(a, b)
    case '^' => Ok(Power(pow, a, b))
  }

  // ---------------------------------------------------------------------------
  // Lexemes and std::stod

  /** The first index at or after i that does not hold a space. */
  function SkipSpaces(s: string, i: nat): (j: nat)
    requires i <= |s|
    ensures i <= j <= |s|
    decreases |s| - i
  {
    if i < |s| && IsSpace(s[i]) then SkipSpaces(s, i + 1) else i
  }

  /** SkipSpaces passes exactly the spaces: all of s[i..j] and not s[j]. */
  lemma {:induction false} SkipSpacesStops(s: string, i: nat)
    requires i <= |s|
    ensures forall k :: i <= k < SkipSpaces(s, i) ==> IsSpace(s[k])
    ensures SkipSpaces(s, i) == |s| || !IsSpace(s[SkipSpaces(s, i)])
    decreases |s| - i
  {
    if i < |s| && IsSpace(s[i]) {
      SkipSpacesStops(s, i + 1);
    }
  }

  /** The end of the maximal run of digits and dots that starts at i. */
  function NumeralsEnd(s: string, i: nat): (j: nat)
    requires i <= |s|
    ensures i <= j <= |s|
    decreases |s| - i
  {
    if i < |s| && IsNumeral(s[i]) then NumeralsEnd(s, i + 1) else i
  }

  /** The run ends exactly at the first character that is neither a digit nor a dot. */
  lemma {:induction false} NumeralsEndStops(s: string, i: nat)
    requires i <= |s|
    ensures forall k :: i <= k < NumeralsEnd(s, i) ==> IsNumeral(s[k])
    ensures NumeralsEnd(s, i) == |s| || !IsNumeral(s[NumeralsEnd(s, i)])
    decreases |s| - i
  {
    if i < |s| && IsNumeral(s[i]) {
      NumeralsEndStops(s, i + 1);
    }
  }

  /** The end of the number lexeme that starts at `start`: at most one sign,
      then the maximal run of digits and dots. */
  function LexemeEnd(s: string, start: nat): (end: nat)
    requires start <= |s|
    ensures start <= end <= |s|
  {
    NumeralsEnd(s, if start < |s| && IsSign(s[start]) then start + 1 else start)
  }

  /** The lexeme s[start..LexemeEnd(s, start)] is a sign-led run of numerals,
      maximal, and empty exactly when the character at `start` can begin no number. */
  lemma LexemeShape(s: string, start: nat)
    requires start <= |s|
    ensures IsLexeme(s, start, LexemeEnd(s, start))
    ensures LexemeEnd(s, start) == |s| || !IsNumeral(s[LexemeEnd(s, start)])
    ensures LexemeEnd(s, start) == start <==> start == |s| || !(IsSign(s[start]) || IsNumeral(s[start]))
  {
    NumeralsEndStops(s, if start < |s| && IsSign(s[start]) then start + 1 else start);
  }

  /** The shape of every string handed to std::stod: an optional sign, then digits and dots. */
  predicate IsLexeme(s: string, lo: nat, hi: nat)
    requires lo <= hi <= |s|
  {
    forall k :: lo <= k < hi ==> IsNumeral(s[k]) || (k == lo && IsSign(s[k]))
  }

  /** std::stod(s.substr(lo, hi - lo)) on the lexemes the engine hands it: the
      exact value of the longest prefix of the form [sign] digits [. digits]
      with at least one digit, or invalid_argument, whose what() is "stod",
      when there is no such prefix. */
  function Stod(s: string, lo: nat, hi: nat): (r: Result<real, Failure>)
    requires lo <= hi <= |s|
    ensures r.Err? ==> r.error == InvalidArgument
  {
    var b := if lo < hi && IsSign(s[lo]) then lo + 1 else lo;
    var w := Decimal.DigitsEnd(s, b, hi);
    var point := w < hi && s[w] == '.';
    var f := if point then Decimal.DigitsEnd(s, w + 1, hi) else w;
    if w == b && (!point || f == w + 1) then Err(InvalidArgument)
    else
      var magnitude := Decimal.ValueOf(s, b, w) as real + (if point then Decimal.FractionValue(s, w + 1, f) else 0.0);
      Ok(if b == lo + 1 && s[lo] == '-' then -magnitude else magnitude)
  }

  // ---------------------------------------------------------------------------
  // The grammar as functions: each gives the value and the position after it

  datatype Parsed = Parsed(value: real, pos: nat)

  /** parseNumber(s, pos) started at i. */
  function NumberAt(s: string, i: nat): (r: Result<Parsed, Failure>)
    requires i <= |s|
    ensures r.Ok? ==> SkipSpaces(s, i) < r.value.pos <= |s|
    ensures r.Ok? ==> r.value.pos == LexemeEnd(s, SkipSpaces(s, i))
  {
    var start := SkipSpaces(s, i);
    var end := LexemeEnd(s, start);
    if start == end then
      Err(ExpectedNumberAt(start))
    else
      match Stod(s, start, end)
      case Err(m) => Err(m)
      case Ok(v) => Ok(Parsed(v, end))
  }

  /** The while loop of parseTerm, entered at pos with `acc` as the running
      result: past the end, or where no term operator follows the spaces, it
      stops; otherwise it makes a pass. */
  function TermLoop(s: string, pos: nat, acc: real, pow: (real, real) -> real): (r: Result<Parsed, Failure>)
    requires pos <= |s|
    ensures r.Ok? ==> pos <= r.value.pos <= |s|
    decreases |s| - pos, 1
  {
    if pos >= |s| then Ok(Parsed(acc, pos))
    else
      var p := SkipSpaces(s, pos);
      if p >= |s| || !IsTermOperator(s[p]) then Ok(Parsed(acc, p))
      else TermPass(s, p, acc, pow)
  }

  /** One pass of parseTerm's loop from the operator at p: read the operand,
      apply the operator, go round again after the operand. */
  function TermPass(s: string, p: nat, acc: real, pow: (real, real) -> real): (r: Result<Parsed, Failure>)
    requires p < |s| && IsTermOperator(s[p])
    ensures r.Ok? ==> p < r.value.pos <= |s|
    decreases |s| - p, 0
  {
    match NumberAt(s, p + 1)
    case Err(m) => Err(m)
    case Ok(right) =>
      match Apply(s[p], acc, right.value, pow)
      case Err(m) => Err(m)
      case Ok(v) => TermLoop(s, right.pos, v, pow)
  }

  /** parseTerm(s, pos) started at i. */
  function TermAt(s: string, i: nat, pow: (real, real) -> real): (r: Result<Parsed, Failure>)
    requires i <= |s|
    ensures r.Ok? ==> i < r.value.pos <= |s|
  {
    match NumberAt(s, i)
    case Err(m) => Err(m)
    case Ok(first) => TermLoop(s, first.pos, first.value, pow)
  }

  /** The while loop of parseExpression, entered at pos (just after a term) with `acc`. */
  function ExpressionLoop(s: string, pos: nat, acc: real, pow: (real, real) -> real): (r: Result<Parsed, Failure>)
    requires pos <= |s|
    ensures r.Ok? ==> pos <= r.value.pos <= |s|
    decreases |s| - pos, 1
  {
    if pos >= |s| then Ok(Parsed(acc, pos))
    else
      var p := SkipSpaces(s, pos);
      if p >= |s| || !IsExpressionOperator(s[p]) then Ok(Parsed(acc, p))
      else ExpressionPass(s, p, acc, pow)
  }

  /** One pass of parseExpression's loop from the operator at p: read the
      term, apply the operator, go round again after the term. */
  function ExpressionPass(s: string, p: nat, acc: real, pow: (real, real) -> real): (r: Result<Parsed, Failure>)
    requires p < |s| && IsExpressionOperator(s[p])
    ensures r.Ok? ==> p < r.value.pos <= |s|
    decreases |s| - p, 0
  {
    match TermAt(s, p + 1, pow)
    case Err(m) => Err(m)
    case Ok(right) =>
      match Apply(s[p], acc, right.value, pow)
      case Err(m) => Err(m)
      case Ok(v) => ExpressionLoop(s, right.pos, v, pow)
  }

  /** parseExpression(s, pos) started at i. */
  function ExpressionAt(s: string, i: nat, pow: (real, real) -> real): (r: Result<Parsed, Failure>)
    requires i <= |s|
    ensures r.Ok? ==> i < r.value.pos <= |s|
  {
    match TermAt(s, i, pow)
    case Err(m) => Err(m)
    case Ok(first) => ExpressionLoop(s, first.pos, first.value, pow)
  }

  /** Calculator::evaluate: the value of the expression at the start of s. */
  function Value(s: string, pow: (real, real) -> real): (r: Result<real, Failure>)
  {
    match ExpressionAt(s, 0, pow)
    case Err(m) => Err(m)
    case Ok(p) => Ok(p.value)
  }

  // ---------------------------------------------------------------------------
  // The engine as written: loops over a position passed in and out

  /** The whitespace loop that opens parseNumber and each pass of the two operator loops. */
  method SkipWhitespace(s: string, pos: nat) returns (p: nat)
    requires pos <= |s|
    ensures p == SkipSpaces(s, pos)
  {
    p := pos;
    while p < |s| && IsSpace(s[p])
      invariant pos <= p <= |s|
      invariant SkipSpaces(s, p) == SkipSpaces(s, pos)
    {
      p := p + 1;
    }
  }

  method ParseNumber(s: string, pos: nat) returns (r: Result<Parsed, Failure>)
    requires pos <= |s|
    ensures r == NumberAt(s, pos)
  {
    var p := SkipWhitespace(s, pos);
    var start := p;
    if p < |s| && IsSign(s[p]) {
      p := p + 1;
    }
    while p < |s| && IsNumeral(s[p])
      invariant start <= p <= |s|
      invariant NumeralsEnd(s, p) == LexemeEnd(s, start)
    {
      p := p + 1;
    }
    if start == p {
      return Err(ExpectedNumberAt(p));
    }
    var v := Stod(s, start, p);
    if v.Err? {
      return Err(v.error);
    }
    return Ok(Parsed(v.value, p));
  }

  /** One pass of parseTerm's loop that meets no operator returns the running result. */
  lemma TermLoopStops(s: string, entry: nat, acc: real, pow: (real, real) -> real)
    requires entry < |s|
    requires SkipSpaces(s, entry) == |s| || !IsTermOperator(s[SkipSpaces(s, entry)])
    ensures TermLoop(s, entry, acc, pow) == Ok(Parsed(acc, SkipSpaces(s, entry)))
  {
  }

  /** A pass of parseTerm's loop whose operand fails fails with it. */
  lemma TermLoopOperandFails(s: string, entry: nat, acc: real, pow: (real, real) -> real)
    requires entry < |s|
    requires SkipSpaces(s, entry) < |s| && IsTermOperator(s[SkipSpaces(s, entry)])
    requires NumberAt(s, SkipSpaces(s, entry) + 1).Err?
    ensures TermLoop(s, entry, acc, pow) == NumberAt(s, SkipSpaces(s, entry) + 1)
  {
  }

  /** A pass of parseTerm's loop whose operator fails fails with the operator's failure. */
  lemma TermLoopOperatorFails(s: string, entry: nat, acc: real, pow: (real, real) -> real)
    requires entry < |s|
    requires SkipSpaces(s, entry) < |s| && IsTermOperator(s[SkipSpaces(s, entry)])
    requires NumberAt(s, SkipSpaces(s, entry) + 1).Ok?
    requires Apply(s[SkipSpaces(s, entry)], acc, NumberAt(s, SkipSpaces(s, entry) + 1).value.value, pow).Err?
    ensures TermLoop(s, entry, acc, pow)
      == Err(Apply(s[SkipSpaces(s, entry)], acc, NumberAt(s, SkipSpaces(s, entry) + 1).value.value, pow).error)
  {
  }

  /** A pass of parseTerm's loop that applies its operator goes on after the operand. */
  lemma TermLoopAdvances(s: string, entry: nat, acc: real, pow: (real, real) -> real)
    requires entry < |s|
    requires SkipSpaces(s, entry) < |s| && IsTermOperator(s[SkipSpaces(s, entry)])
    requires NumberAt(s, SkipSpaces(s, entry) + 1).Ok?
    requires Apply(s[SkipSpaces(s, entry)], acc, NumberAt(s, SkipSpaces(s, entry) + 1).value.value, pow).Ok?
    ensures TermLoop(s, entry, acc, pow)
      == TermLoop(s, NumberAt(s, SkipSpaces(s, entry) + 1).value.pos,
                Apply(s[SkipSpaces(s, entry)], acc, NumberAt(s, SkipSpaces(s, entry) + 1).value.value, pow).value, pow)
  {
  }

  /** One pass of parseExpression's loop that meets no operator returns the running result. */
  lemma ExpressionLoopStops(s: string, entry: nat, acc: real, pow: (real, real) -> real)
    requires entry < |s|
    requires SkipSpaces(s, entry) == |s| || !IsExpressionOperator(s[SkipSpaces(s, entry)])
    ensures ExpressionLoop(s, entry, acc, pow) == Ok(Parsed(acc, SkipSpaces(s, entry)))
  {
  }

  /** A pass of parseExpression's loop whose operand fails fails with it. */
  lemma ExpressionLoopOperandFails(s: string, entry: nat, acc: real, pow: (real, real) -> real)
    requires entry < |s|
    requires SkipSpaces(s, entry) < |s| && IsExpressionOperator(s[SkipSpaces(s, entry)])
    requires TermAt(s, SkipSpaces(s, entry) + 1, pow).Err?
    ensures ExpressionLoop(s, entry, acc, pow) == TermAt(s, SkipSpaces(s, entry) + 1, pow)
  {
  }

  /** A pass of parseExpression's loop that applies its operator goes on after the operand. */
  lemma ExpressionLoopAdvances(s: string, entry: nat, acc: real, pow: (real, real) -> real)
    requires entry < |s|
    requires SkipSpaces(s, entry) < |s| && IsExpressionOperator(s[SkipSpaces(s, entry)])
    requires TermAt(s, SkipSpaces(s, entry) + 1, pow).Ok?
    ensures ExpressionLoop(s, entry, acc, pow)
      == ExpressionLoop(s, TermAt(s, SkipSpaces(s, entry) + 1, pow).value.pos,
                Apply(s[SkipSpaces(s, entry)], acc, TermAt(s, SkipSpaces(s, entry) + 1, pow).value.value, pow).value, pow)
  {
  }

  method ParseTerm(s: string, pos: nat, pow: (real, real) -> real) returns (r: Result<Parsed, Failure>)
    requires pos <= |s|
    ensures r == TermAt(s, pos, pow)
  {
    var first := ParseNumber(s, pos);
    if first.Err? {
      return first;
    }
    var result := first.value.value;
    var p := first.value.pos;
    while p < |s|
      invariant p <= |s|
      invariant TermLoop(s, p, result, pow) == TermAt(s, pos, pow)
      decreases |s| - p
    {
      ghost var entry := p;
      p := SkipWhitespace(s, p);
      if p >= |s| || !IsTermOperator(s[p]) {
        TermLoopStops(s, entry, result, pow);
        return Ok(Parsed(result, p));
      }
      var op := s[p];
      p := p + 1;
      var right := ParseNumber(s, p);
      if right.Err? {
        TermLoopOperandFails(s, entry, result, pow);
        return right;
      }
      var applied := Apply(op, result, right.value.value, pow);
      if applied.Err? {
        TermLoopOperatorFails(s, entry, result, pow);
        return Err(applied.error);
      }
      TermLoopAdvances(s, entry, result, pow);
      result := applied.value;
      p := right.value.pos;
    }
    return Ok(Parsed(result, p));
  }

  method ParseExpression(s: string, pos: nat, pow: (real, real) -> real) returns (r: Result<Parsed, Failure>)
    requires pos <= |s|
    ensures r == ExpressionAt(s, pos, pow)
  {
    var first := ParseTerm(s, pos, pow);
    if first.Err? {
      return first;
    }
    var result := first.value.value;
    var p := first.value.pos;
    while p < |s|
      invariant p <= |s|
      invariant ExpressionLoop(s, p, result, pow) == ExpressionAt(s, pos, pow)
      decreases |s| - p
    {
      ghost var entry := p;
      p := SkipWhitespace(s, p);
      if p >= |s| || !IsExpressionOperator(s[p]) {
        ExpressionLoopStops(s, entry, result, pow);
        return Ok(Parsed(result, p));
      }
      var op := s[p];
      p := p + 1;
      var right := ParseTerm(s, p, pow);
      if right.Err? {
        ExpressionLoopOperandFails(s, entry, result, pow);
        return right;
      }
      var applied := Apply(op, result, right.value.value, pow);
      ExpressionLoopAdvances(s, entry, result, pow);
      result := applied.value;
      p := right.value.pos;
    }
    return Ok(Parsed(result, p));
  }

  method Evaluate(expression: string, pow: (real, real) -> real) returns (r: Result<real, Failure>)
    ensures r == Value(expression, pow)
  {
    var parsed := ParseExpression(expression, 0, pow);
    if parsed.Err? {
      return Err(parsed.error);
    }
    return Ok(parsed.value.value);
  }
}
