/** The engine on particular inputs: precedence, signs, trailing text and errors. */
module EngineExamples {
  import opened Outcomes
  import opened Engine
  import opened EngineReference
  import Decimal
  import EngineProperties

  /** A single digit followed by what may follow a number is read as its value. */
  lemma DigitAt(s: string, i: nat)
    requires i < |s| && Decimal.IsDigit(s[i]) && NumberFollows(s, i + 1)
    ensures NumberAt(s, i) == Ok(Parsed(Decimal.DigitValue(s[i]) as real, i + 1))
  {
    NumeralAt(s, i, [s[i]]);
  }

  /** `^` folds left like the other term operators: 2^3^2 is (2^3)^2. */
  lemma PowerFoldsLeft(pow: (real, real) -> real)
    ensures Value("2^3^2", pow) == Ok(pow(pow(2.0, 3.0), 2.0))
  {
    var s := "2^3^2";
    DigitAt(s, 0);
    DigitAt(s, 2);
    DigitAt(s, 4);
    assert TermLoop(s, 3, pow(2.0, 3.0), pow) == Ok(Parsed(pow(pow(2.0, 3.0), 2.0), 5));
    assert TermLoop(s, 1, 2.0, pow) == Ok(Parsed(pow(pow(2.0, 3.0), 2.0), 5));
  }

  /** `^` binds no tighter than `*`: 2*3^2 is (2*3)^2. */
  lemma PowerAfterProduct(pow: (real, real) -> real)
    ensures Value("2*3^2", pow) == Ok(pow(6.0, 2.0))
  {
    var s := "2*3^2";
    DigitAt(s, 0);
    DigitAt(s, 2);
    DigitAt(s, 4);
    assert TermLoop(s, 3, 6.0, pow) == Ok(Parsed(pow(6.0, 2.0), 5));
    assert TermLoop(s, 1, 2.0, pow) == Ok(Parsed(pow(6.0, 2.0), 5));
  }

  /** Term operators bind tighter than `+`. */
  lemma ProductBeforeSum(pow: (real, real) -> real)
    ensures Value("1+2*3", pow) == Ok(7.0)
  {
    var s := "1+2*3";
    DigitAt(s, 0);
    DigitAt(s, 2);
    DigitAt(s, 4);
    assert TermAt(s, 0, pow) == Ok(Parsed(1.0, 1));
    assert TermAt(s, 2, pow) == Ok(Parsed(6.0, 5));
    assert ExpressionLoop(s, 1, 1.0, pow) == Ok(Parsed(7.0, 5));
  }

  /** `-` folds left: 8-2-1 is (8-2)-1. */
  lemma DifferenceFoldsLeft(pow: (real, real) -> real)
    ensures Value("8-2-1", pow) == Ok(5.0)
  {
    var s := "8-2-1";
    DigitAt(s, 0);
    DigitAt(s, 2);
    DigitAt(s, 4);
    assert TermAt(s, 0, pow) == Ok(Parsed(8.0, 1));
    assert TermAt(s, 2, pow) == Ok(Parsed(2.0, 3));
    assert TermAt(s, 4, pow) == Ok(Parsed(1.0, 5));
    assert ExpressionLoop(s, 3, 6.0, pow) == Ok(Parsed(5.0, 5));
    assert ExpressionLoop(s, 1, 8.0, pow) == Ok(Parsed(5.0, 5));
  }

  /** Text the engine cannot consume ends the expression silently. */
  lemma TrailingTextIgnored(pow: (real, real) -> real)
    ensures Value("5)", pow) == Ok(5.0)
  {
    var e := Sum(Term("5", []), []);
    assert SumText(e) + ")" == "5)";
    EvaluatesTree(e, ")", pow);
  }

  /** A zero divisor fails the whole evaluation. */
  lemma DivisionByZeroFails(pow: (real, real) -> real)
    ensures Value("7+1/0", pow) == Err(DivisionByZero)
  {
    var e := Sum(Term("7", []), [Step('+', Term("1", [Link('/', "0")]))]);
    assert SumText(e) + [] == "7+1/0";
    EvaluatesTree(e, [], pow);
  }

  /** The empty input and an opening parenthesis are no number. */
  lemma NoNumberAtStart(pow: (real, real) -> real)
    ensures Value("", pow) == Err(ExpectedNumberAt(0))
    ensures Value("(1)", pow) == Err(ExpectedNumberAt(0))
    ensures Value("  (1)", pow) == Err(ExpectedNumberAt(2))
  {
    EngineProperties.LeadingNonNumberRejected("", pow);
    EngineProperties.LeadingNonNumberRejected("(1)", pow);
    EngineProperties.LeadingNonNumberRejected("  (1)", pow);
  }

  /** A space ends a term and an expression alike: the 3 is never read. */
  lemma SpaceThenNumber(pow: (real, real) -> real)
    ensures Value("2 3", pow) == Ok(2.0)
  {
    var s := "2 3";
    assert SkipSpaces(s, 1) == 2;
    assert NumberAt(s, 0) == Ok(Parsed(2.0, 1));
    assert TermLoop(s, 1, 2.0, pow) == Ok(Parsed(2.0, 2));
  }

  /** The sign belongs to the operand after an operator. */
  lemma SignedOperand(pow: (real, real) -> real)
    ensures Value("2*-3", pow) == Ok(-6.0)
  {
    var s := "2*-3";
    assert NumberAt(s, 0) == Ok(Parsed(2.0, 1));
    assert LexemeEnd(s, 2) == 4;
    assert NumberAt(s, 2) == Ok(Parsed(-3.0, 4));
    assert TermLoop(s, 1, 2.0, pow) == Ok(Parsed(-6.0, 4));
  }

  /** After `-` the second `-` is the sign of the operand: 2--3 is 2-(-3). */
  lemma SubtractNegative(pow: (real, real) -> real)
    ensures Value("2--3", pow) == Ok(5.0)
  {
    var s := "2--3";
    assert NumberAt(s, 0) == Ok(Parsed(2.0, 1));
    assert LexemeEnd(s, 2) == 4;
    assert NumberAt(s, 2) == Ok(Parsed(-3.0, 4));
    assert TermAt(s, 2, pow) == Ok(Parsed(-3.0, 4));
    assert ExpressionLoop(s, 1, 2.0, pow) == Ok(Parsed(5.0, 4));
  }

  /** Two signs make the lexeme a lone "-", which std::stod rejects. */
  lemma DoubleSignRejected(pow: (real, real) -> real)
    ensures Value("--3", pow) == Err(InvalidArgument)
    ensures Message(InvalidArgument) == "stod"
  {
    var s := "--3";
    assert LexemeEnd(s, 0) == 1;
    assert NumberAt(s, 0) == Err(InvalidArgument);
  }
}
