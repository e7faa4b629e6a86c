/**
 * What the engine's grammar promises about the text it reads: where each
 * level stops, which characters it can consume, where "Expected number"
 * is reported, and what std::stod makes of the lexemes it is handed.
 */
module EngineProperties {
  import opened Outcomes
  import opened Engine
  import Decimal

  /** Every character in s[i..j] is one the engine can consume. */
  predicate ConsumedOnly(s: string, i: nat, j: nat)
    requires i <= j <= |s|
    decreases j - i
  {
    i == j || (IsEngineChar(s[i]) && ConsumedOnly(s, i + 1, j))
  }

  /** Where a term may stop: the end, or a character that is neither a space nor a term operator. */
  predicate AfterTerm(s: string, p: nat)
    requires p <= |s|
  {
    p == |s| || (!IsSpace(s[p]) && !IsTermOperator(s[p]))
  }

  /** Where an expression may stop: the end, or a character that is no space and no operator. */
  predicate AfterExpression(s: string, p: nat)
    requires p <= |s|
  {
    p == |s| || (!IsSpace(s[p]) && !IsTermOperator(s[p]) && !IsExpressionOperator(s[p]))
  }

  lemma {:induction false} ConsumedAt(s: string, i: nat, j: nat, k: nat)
    requires i <= k < j <= |s| && ConsumedOnly(s, i, j)
    ensures IsEngineChar(s[k])
    decreases k - i
  {
    if i < k {
      ConsumedAt(s, i + 1, j, k);
    }
  }

  lemma {:induction false} ConsumedJoin(s: string, i: nat, j: nat, k: nat)
    requires i <= j <= k <= |s|
    requires ConsumedOnly(s, i, j) && ConsumedOnly(s, j, k)
    ensures ConsumedOnly(s, i, k)
    decreases j - i
  {
    if i < j {
      ConsumedJoin(s, i + 1, j, k);
    }
  }

  lemma {:induction false} SpacesConsumed(s: string, i: nat)
    requires i <= |s|
    ensures ConsumedOnly(s, i, SkipSpaces(s, i))
    decreases |s| - i
  {
    if i < |s| && IsSpace(s[i]) {
      SpacesConsumed(s, i + 1);
    }
  }

  lemma {:induction false} NumeralsConsumed(s: string, i: nat)
    requires i <= |s|
    ensures ConsumedOnly(s, i, NumeralsEnd(s, i))
    decreases |s| - i
  {
    if i < |s| && IsNumeral(s[i]) {
      NumeralsConsumed(s, i + 1);
    }
  }

  /** The spaces before an operator and the operator itself are consumed. */
  lemma OperatorConsumed(s: string, pos: nat)
    requires pos <= |s|
    requires SkipSpaces(s, pos) < |s|
    requires IsTermOperator(s[SkipSpaces(s, pos)]) || IsExpressionOperator(s[SkipSpaces(s, pos)])
    ensures ConsumedOnly(s, pos, SkipSpaces(s, pos) + 1)
  {
    var p := SkipSpaces(s, pos);
    SpacesConsumed(s, pos);
    assert ConsumedOnly(s, p + 1, p + 1);
    ConsumedJoin(s, pos, p, p + 1);
  }

  // ---------------------------------------------------------------------------
  // Numbers

  /** A number consumes spaces, one sign and a maximal run of digits and dots. */
  lemma NumberMunch(s: string, i: nat)
    requires i <= |s|
    ensures var r := NumberAt(s, i);
      r.Ok? ==> ConsumedOnly(s, i, r.value.pos) && (r.value.pos == |s| || !IsNumeral(s[r.value.pos]))
  {
    if NumberAt(s, i).Ok? {
      var start := SkipSpaces(s, i);
      var afterSign := if start < |s| && IsSign(s[start]) then start + 1 else start;
      SpacesConsumed(s, i);
      NumeralsConsumed(s, afterSign);
      NumeralsEndStops(s, afterSign);
      assert ConsumedOnly(s, start, afterSign) by {
        if afterSign > start {
          assert ConsumedOnly(s, afterSign, afterSign);
        }
      }
      ConsumedJoin(s, start, afterSign, NumeralsEnd(s, afterSign));
      ConsumedJoin(s, i, start, NumeralsEnd(s, afterSign));
    }
  }

  /** "Expected number at position p" is thrown exactly when the first
      character after the spaces, at p, can begin no number. */
  lemma ExpectedNumberWhere(s: string, i: nat)
    requires i <= |s|
    ensures var p := SkipSpaces(s, i);
      NumberAt(s, i) == Err(ExpectedNumberAt(p)) <==> p == |s| || !(IsSign(s[p]) || IsNumeral(s[p]))
    ensures NumberAt(s, i).Err? && NumberAt(s, i).error.ExpectedNumberAt?
      ==> NumberAt(s, i).error.pos == SkipSpaces(s, i)
  {
    LexemeShape(s, SkipSpaces(s, i));
  }

  /** A run of numerals that ends at j makes NumeralsEnd stop at j. */
  lemma {:induction false} NumeralsEndOfRun(s: string, i: nat, j: nat)
    requires i <= j <= |s|
    requires forall k :: i <= k < j ==> IsNumeral(s[k])
    requires j == |s| || !IsNumeral(s[j])
    ensures NumeralsEnd(s, i) == j
    decreases j - i
  {
    if i < j {
      NumeralsEndOfRun(s, i + 1, j);
    }
  }

  /** std::stod succeeds only on a lexeme that holds a digit. */
  lemma StodNeedsDigit(s: string, lo: nat, hi: nat)
    requires lo <= hi <= |s|
    ensures Stod(s, lo, hi).Ok? ==> exists k :: lo <= k < hi && Decimal.IsDigit(s[k])
  {
    var b := if lo < hi && IsSign(s[lo]) then lo + 1 else lo;
    var w := Decimal.DigitsEnd(s, b, hi);
    Decimal.DigitsEndStops(s, b, hi);
    if w < hi && s[w] == '.' {
      Decimal.DigitsEndStops(s, w + 1, hi);
    }
    if Stod(s, lo, hi).Ok? && w == b {
      assert Decimal.IsDigit(s[w + 1]);
    }
  }

  /** std::stod fails exactly when, after the optional sign, neither a digit
      nor a '.' followed by a digit comes next. */
  lemma StodFailsIff(s: string, lo: nat, hi: nat)
    requires lo <= hi <= |s|
    ensures var b := if lo < hi && IsSign(s[lo]) then lo + 1 else lo;
      Stod(s, lo, hi).Err? <==>
        !(b < hi && Decimal.IsDigit(s[b])) && !(b + 1 < hi && s[b] == '.' && Decimal.IsDigit(s[b + 1]))
  {
    var b := if lo < hi && IsSign(s[lo]) then lo + 1 else lo;
    var w := Decimal.DigitsEnd(s, b, hi);
    assert w == b <==> !(b < hi && Decimal.IsDigit(s[b]));
    if w == b && w < hi && s[w] == '.' {
      assert Decimal.DigitsEnd(s, w + 1, hi) == w + 1 <==> !(w + 1 < hi && Decimal.IsDigit(s[w + 1]));
    }
  }

  /** std::stod reads a run of digits as the number it denotes. */
  lemma StodOfDigits(s: string, lo: nat, hi: nat)
    requires lo < hi <= |s|
    requires forall k :: lo <= k < hi ==> Decimal.IsDigit(s[k])
    ensures IsLexeme(s, lo, hi) && Stod(s, lo, hi) == Ok(Decimal.ValueOf(s, lo, hi) as real)
  {
    Decimal.DigitsEndOfDigits(s, lo, hi);
  }

  /** std::stod reads back what std::to_string writes for a natural number. */
  lemma StodOfRender(n: nat)
    ensures Stod(Decimal.Render(n), 0, |Decimal.Render(n)|) == Ok(n as real)
  {
    Decimal.ValueOfRender(n);
    StodOfDigits(Decimal.Render(n), 0, |Decimal.Render(n)|);
  }

  // ---------------------------------------------------------------------------
  // Where terms and expressions stop

  /** The term loop consumes only engine characters and stops where no term operator follows. */
  lemma {:induction false} TermLoopEnds(s: string, pos: nat, acc: real, pow: (real, real) -> real)
    requires pos <= |s|
    ensures var r := TermLoop(s, pos, acc, pow);
      r.Ok? ==> AfterTerm(s, r.value.pos) && ConsumedOnly(s, pos, r.value.pos)
    decreases |s| - pos
  {
    if pos < |s| {
      var p := SkipSpaces(s, pos);
      SkipSpacesStops(s, pos);
      if p == |s| || !IsTermOperator(s[p]) {
        TermLoopStops(s, pos, acc, pow);
        SpacesConsumed(s, pos);
      } else {
        var n := NumberAt(s, p + 1);
        NumberMunch(s, p + 1);
        if n.Ok? && Apply(s[p], acc, n.value.value, pow).Ok? {
          var a := Apply(s[p], acc, n.value.value, pow).value;
          TermLoopAdvances(s, pos, acc, pow);
          TermLoopEnds(s, n.value.pos, a, pow);
          var r := TermLoop(s, n.value.pos, a, pow);
          if r.Ok? {
            OperatorConsumed(s, pos);
            ConsumedJoin(s, pos, p + 1, n.value.pos);
            ConsumedJoin(s, pos, n.value.pos, r.value.pos);
          }
        } else if n.Ok? {
          TermLoopOperatorFails(s, pos, acc, pow);
        } else {
          TermLoopOperandFails(s, pos, acc, pow);
        }
      }
    }
  }

  lemma TermEnds(s: string, i: nat, pow: (real, real) -> real)
    requires i <= |s|
    ensures var r := TermAt(s, i, pow);
      r.Ok? ==> AfterTerm(s, r.value.pos) && ConsumedOnly(s, i, r.value.pos)
  {
    NumberMunch(s, i);
    var n := NumberAt(s, i);
    if n.Ok? {
      TermLoopEnds(s, n.value.pos, n.value.value, pow);
      var r := TermLoop(s, n.value.pos, n.value.value, pow);
      if r.Ok? {
        ConsumedJoin(s, i, n.value.pos, r.value.pos);
      }
    }
  }

  /** The expression loop, entered where a term stopped, stops where no operator follows. */
  lemma {:induction false} ExpressionLoopEnds(s: string, pos: nat, acc: real, pow: (real, real) -> real)
    requires pos <= |s| && AfterTerm(s, pos)
    ensures var r := ExpressionLoop(s, pos, acc, pow);
      r.Ok? ==> AfterExpression(s, r.value.pos) && ConsumedOnly(s, pos, r.value.pos)
    decreases |s| - pos
  {
    if pos < |s| {
      assert SkipSpaces(s, pos) == pos;
      if !IsExpressionOperator(s[pos]) {
        ExpressionLoopStops(s, pos, acc, pow);
      } else {
        var t := TermAt(s, pos + 1, pow);
        TermEnds(s, pos + 1, pow);
        if t.Ok? {
          var a := Apply(s[pos], acc, t.value.value, pow).value;
          ExpressionLoopAdvances(s, pos, acc, pow);
          ExpressionLoopEnds(s, t.value.pos, a, pow);
          var r := ExpressionLoop(s, t.value.pos, a, pow);
          if r.Ok? {
            assert ConsumedOnly(s, pos + 1, pos + 1);
            ConsumedJoin(s, pos, pos + 1, t.value.pos);
            ConsumedJoin(s, pos, t.value.pos, r.value.pos);
          }
        } else {
          ExpressionLoopOperandFails(s, pos, acc, pow);
        }
      }
    }
  }

  /** A parsed expression ends at the end of the text or at a character that
      is no space and no operator, having consumed only engine characters. */
  lemma ExpressionEnds(s: string, i: nat, pow: (real, real) -> real)
    requires i <= |s|
    ensures var r := ExpressionAt(s, i, pow);
      r.Ok? ==> AfterExpression(s, r.value.pos) && ConsumedOnly(s, i, r.value.pos)
  {
    TermEnds(s, i, pow);
    var t := TermAt(s, i, pow);
    if t.Ok? {
      ExpressionLoopEnds(s, t.value.pos, t.value.value, pow);
      var r := ExpressionLoop(s, t.value.pos, t.value.value, pow);
      if r.Ok? {
        ConsumedJoin(s, i, t.value.pos, r.value.pos);
      }
    }
  }

  /** Parentheses are never part of what the engine consumes. */
  lemma ParenthesesNeverConsumed(s: string, i: nat, pow: (real, real) -> real)
    requires i <= |s|
    ensures var r := ExpressionAt(s, i, pow);
      r.Ok? ==> forall k :: i <= k < r.value.pos ==> s[k] != '(' && s[k] != ')'
  {
    ExpressionEnds(s, i, pow);
    var r := ExpressionAt(s, i, pow);
    if r.Ok? {
      forall k | i <= k < r.value.pos ensures s[k] != '(' && s[k] != ')' {
        ConsumedAt(s, i, r.value.pos, k);
      }
    }
  }

  /** A text whose first character after the spaces can begin no number, an
      empty or blank text among them, is rejected at that position. */
  lemma LeadingNonNumberRejected(s: string, pow: (real, real) -> real)
    ensures var p := SkipSpaces(s, 0);
      (p == |s| || !(IsSign(s[p]) || IsNumeral(s[p]))) ==> Value(s, pow) == Err(ExpectedNumberAt(p))
  {
    ExpectedNumberWhere(s, 0);
  }

  // ---------------------------------------------------------------------------
  // Messages

  /** Different failures have different what() strings. */
  lemma MessageIdentifies(f: Failure, g: Failure)
    ensures Message(f) == Message(g) ==> f == g
  {
    if Message(f) == Message(g) && f.ExpectedNumberAt? && g.ExpectedNumberAt? {
      var n := |ExpectedNumber|;
      assert Decimal.Render(f.pos) == Message(f)[n..];
      assert Decimal.Render(g.pos) == Message(g)[n..];
      Decimal.ValueOfRender(f.pos);
      Decimal.ValueOfRender(g.pos);
    }
  }
}
