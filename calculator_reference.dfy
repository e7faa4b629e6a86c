/**
 * An independent reading of the engine's grammar. An expression made of
 * natural numbers and operators, written without spaces, is built as a
 * tree of terms; its value is the left fold of each level, the term level
 * (* / % ^, all one precedence) inside the expression level (+ -). The
 * engine, run over the text of such an expression followed by anything it
 * cannot consume, gives exactly that fold, errors included.
 */
module EngineReference {
  import opened Outcomes
  import opened Engine
  import Decimal
  import EngineProperties

  /** `op operand`: one step of a term; the operand is a numeral. */
  datatype Link = Link(op: char, operand: string)

  /** A term: a numeral followed by term-operator steps. */
  datatype Term = Term(first: string, links: seq<Link>)

  /** `op term`: one step of an expression. */
  datatype Step = Step(op: char, term: Term)

  /** An expression: a term followed by `+`/`-` steps. */
  datatype Sum = Sum(first: Term, steps: seq<Step>)

  /** A numeral: one or more decimal digits, leading zeros allowed. */
  predicate DigitString(d: string) {
    d != [] && Decimal.AllDigits(d)
  }

  function NumeralValue(d: string): real
    requires DigitString(d)
  {
    Decimal.ValueOf(d, 0, |d|) as real
  }

  predicate TermOperators(links: seq<Link>)
    decreases |links|
  {
    links == [] || (IsTermOperator(links[0].op) && DigitString(links[0].operand) && TermOperators(links[1..]))
  }

  predicate WellFormedSteps(steps: seq<Step>)
    decreases |steps|
  {
    steps == [] ||
    (IsExpressionOperator(steps[0].op) && WellFormedTerm(steps[0].term) && WellFormedSteps(steps[1..]))
  }

  predicate WellFormedTerm(t: Term) {
    DigitString(t.first) && TermOperators(t.links)
  }

  predicate WellFormed(e: Sum) {
    WellFormedTerm(e.first) && WellFormedSteps(e.steps)
  }

  // ---------------------------------------------------------------------------
  // The text of a tree

  function LinksText(links: seq<Link>): string {
    if links == [] then [] else [links[0].op] + (links[0].operand + LinksText(links[1..]))
  }

  function TermText(t: Term): string {
    t.first + LinksText(t.links)
  }

  function StepsText(steps: seq<Step>): string {
    if steps == [] then [] else [steps[0].op] + (TermText(steps[0].term) + StepsText(steps[1..]))
  }

  function SumText(e: Sum): string {
    TermText(e.first) + StepsText(e.steps)
  }

  // ---------------------------------------------------------------------------
  // The value of a tree: a left fold per level, stopping at the first failure

  function FoldLinks(acc: real, links: seq<Link>, pow: (real, real) -> real): Result<real, Failure>
    requires TermOperators(links)
    decreases |links|
  {
    if links == [] then Ok(acc)
    else
      match Apply(links[0].op, acc, NumeralValue(links[0].operand), pow)
      case Err(f) => Err(f)
      case Ok(v) => FoldLinks(v, links[1..], pow)
  }

  function TermValue(t: Term, pow: (real, real) -> real): Result<real, Failure>
    requires WellFormedTerm(t)
  {
    FoldLinks(NumeralValue(t.first), t.links, pow)
  }

  function FoldSteps(acc: real, steps: seq<Step>, pow: (real, real) -> real): Result<real, Failure>
    requires WellFormedSteps(steps)
    decreases |steps|
  {
    if steps == [] then Ok(acc)
    else
      match TermValue(steps[0].term, pow)
      case Err(f) => Err(f)
      case Ok(t) =>
        match Apply(steps[0].op, acc, t, pow)
        case Err(f) => Err(f)
        case Ok(v) => FoldSteps(v, steps[1..], pow)
  }

  function SumValue(e: Sum, pow: (real, real) -> real): Result<real, Failure>
    requires WellFormed(e)
  {
    match TermValue(e.first, pow)
    case Err(f) => Err(f)
    case Ok(v) => FoldSteps(v, e.steps, pow)
  }

  // ---------------------------------------------------------------------------
  // Where a tree sits inside the input

  /** s holds `text` at pos. */
  predicate At(s: string, pos: nat, text: string)
    decreases |text|
  {
    if text == [] then pos <= |s| else pos < |s| && s[pos] == text[0] && At(s, pos + 1, text[1..])
  }

  function LinksWidth(links: seq<Link>): nat
    decreases |links|
  {
    if links == [] then 0 else 1 + |links[0].operand| + LinksWidth(links[1..])
  }

  function TermWidth(t: Term): nat {
    |t.first| + LinksWidth(t.links)
  }

  function StepsWidth(steps: seq<Step>): nat
    decreases |steps|
  {
    if steps == [] then 0 else 1 + TermWidth(steps[0].term) + StepsWidth(steps[1..])
  }

  /** s holds the links one after the other from pos on. */
  predicate LinksPlaced(s: string, pos: nat, links: seq<Link>)
    decreases |links|
  {
    if links == [] then pos <= |s|
    else
      pos < |s| && s[pos] == links[0].op && At(s, pos + 1, links[0].operand) &&
      LinksPlaced(s, pos + 1 + |links[0].operand|, links[1..])
  }

  predicate TermPlaced(s: string, pos: nat, t: Term) {
    At(s, pos, t.first) && LinksPlaced(s, pos + |t.first|, t.links)
  }

  /** s holds the steps one after the other from pos on. */
  predicate StepsPlaced(s: string, pos: nat, steps: seq<Step>)
    decreases |steps|
  {
    if steps == [] then pos <= |s|
    else
      pos < |s| && s[pos] == steps[0].op && TermPlaced(s, pos + 1, steps[0].term) &&
      StepsPlaced(s, pos + 1 + TermWidth(steps[0].term), steps[1..])
  }

  /** What may follow a number: the end, or a character that is neither a digit nor a dot. */
  predicate NumberFollows(s: string, j: nat) {
    j == |s| || (j < |s| && !IsNumeral(s[j]))
  }

  /** What may follow the text of a term: the end, an expression operator, or a character the engine cannot consume. */
  predicate EndsTerm(s: string, j: nat) {
    j == |s| || (j < |s| && (IsExpressionOperator(s[j]) || !IsEngineChar(s[j])))
  }

  /** What may follow the text of an expression: the end, or a character the engine cannot consume. */
  predicate EndsSum(s: string, j: nat) {
    j == |s| || (j < |s| && !IsEngineChar(s[j]))
  }

  /** parseTerm's loop entered at pos with `acc` as the running result. Not
      recursive itself, so that a proof step about it unfolds the loop once. */
  function TermRun(s: string, pos: nat, acc: real, pow: (real, real) -> real): Result<Parsed, Failure>
    requires pos <= |s|
  {
    TermLoop(s, pos, acc, pow)
  }

  /** parseExpression's loop entered at pos with `acc` as the running result. */
  function SumRun(s: string, pos: nat, acc: real, pow: (real, real) -> real): Result<Parsed, Failure>
    requires pos <= |s|
  {
    ExpressionLoop(s, pos, acc, pow)
  }

  /** A fold result placed at the position where parsing stopped. */
  function AtEnd(r: Result<real, Failure>, j: nat): Result<Parsed, Failure> {
    match r
    case Ok(v) => Ok(Parsed(v, j))
    case Err(f) => Err(f)
  }

  lemma {:induction false} AtIndex(s: string, pos: nat, text: string, k: nat)
    requires At(s, pos, text) && k < |text|
    ensures pos + k < |s| && s[pos + k] == text[k]
    decreases k
  {
    if k > 0 {
      AtIndex(s, pos + 1, text[1..], k - 1);
    }
  }

  lemma {:induction false} AtBound(s: string, pos: nat, text: string)
    requires At(s, pos, text)
    ensures pos + |text| <= |s|
    decreases |text|
  {
    if text != [] {
      AtBound(s, pos + 1, text[1..]);
    }
  }

  lemma {:induction false} AtSplit(s: string, pos: nat, a: string, b: string)
    requires At(s, pos, a + b)
    ensures At(s, pos, a) && At(s, pos + |a|, b)
    decreases |a|
  {
    if a != [] {
      assert (a + b)[1..] == a[1..] + b;
      AtSplit(s, pos + 1, a[1..], b);
    } else {
      assert a + b == b;
    }
  }

  lemma {:induction false} AtPrefix(text: string, tail: string, pos: nat)
    requires pos <= |text|
    ensures At(text + tail, pos, text[pos..])
    decreases |text| - pos
  {
    if pos < |text| {
      AtPrefix(text, tail, pos + 1);
      assert text[pos..][1..] == text[pos + 1..];
    }
  }

  lemma {:induction false} LinksTextPlaced(s: string, pos: nat, links: seq<Link>)
    requires At(s, pos, LinksText(links))
    ensures LinksPlaced(s, pos, links) && |LinksText(links)| == LinksWidth(links)
    decreases |links|
  {
    if links != [] {
      var rest := links[0].operand + LinksText(links[1..]);
      AtSplit(s, pos, [links[0].op], rest);
      AtSplit(s, pos + 1, links[0].operand, LinksText(links[1..]));
      LinksTextPlaced(s, pos + 1 + |links[0].operand|, links[1..]);
    }
  }

  lemma TermTextPlaced(s: string, pos: nat, t: Term)
    requires At(s, pos, TermText(t))
    ensures TermPlaced(s, pos, t) && |TermText(t)| == TermWidth(t)
  {
    AtSplit(s, pos, t.first, LinksText(t.links));
    LinksTextPlaced(s, pos + |t.first|, t.links);
  }

  lemma {:induction false} StepsTextPlaced(s: string, pos: nat, steps: seq<Step>)
    requires At(s, pos, StepsText(steps))
    ensures StepsPlaced(s, pos, steps) && |StepsText(steps)| == StepsWidth(steps)
    decreases |steps|
  {
    if steps != [] {
      var tt := TermText(steps[0].term);
      AtSplit(s, pos, [steps[0].op], tt + StepsText(steps[1..]));
      AtSplit(s, pos + 1, tt, StepsText(steps[1..]));
      TermTextPlaced(s, pos + 1, steps[0].term);
      StepsTextPlaced(s, pos + 1 + |tt|, steps[1..]);
    }
  }

  /** A numeral, followed by anything that is not a digit or a dot, is read
      as the number it denotes. */
  lemma NumeralAt(s: string, i: nat, d: string)
    requires DigitString(d) && At(s, i, d) && NumberFollows(s, i + |d|)
    ensures NumberAt(s, i) == Ok(Parsed(NumeralValue(d), i + |d|))
  {
    AtBound(s, i, d);
    var j := i + |d|;
    forall k | i <= k < j ensures s[k] == d[k - i] {
      AtIndex(s, i, d, k - i);
    }
    assert s[i..j] == d;
    assert SkipSpaces(s, i) == i;
    EngineProperties.NumeralsEndOfRun(s, i, j);
    assert LexemeEnd(s, i) == j;
    EngineProperties.StodOfDigits(s, i, j);
    Decimal.ValueOfAgree(s, i, d, 0, |d|);
  }

  // ---------------------------------------------------------------------------
  // One step of a loop or a fold, in a form shared by both

  /** The value a successful result carries; after a failure it is 0, which
      nothing that follows a failure reads. */
  function ValueOr(r: Result<real, Failure>): real {
    if r.Ok? then r.value else 0.0
  }

  /** A failed step stops with its failure; a successful one goes on with `rest`. */
  function Continue(a: Result<real, Failure>, rest: Result<Parsed, Failure>): Result<Parsed, Failure> {
    if a.Err? then Err(a.error) else rest
  }

  /** An operator applied to the result of its right operand: a failed operand fails first. */
  function ApplyTo(op: char, acc: real, r: Result<real, Failure>, pow: (real, real) -> real): Result<real, Failure>
    requires IsTermOperator(op) || IsExpressionOperator(op)
  {
    if r.Err? then Err(r.error) else Apply(op, acc, r.value, pow)
  }

  // ---------------------------------------------------------------------------
  // The term level

  /** One step of the term loop over an operator and an operand read as v, ending at j. */
  lemma TermLoopOnNumber(s: string, pos: nat, acc: real, v: real, j: nat, pow: (real, real) -> real)
    requires pos < |s| && IsTermOperator(s[pos])
    requires NumberAt(s, pos + 1) == Ok(Parsed(v, j))
    ensures j <= |s|
    ensures TermRun(s, pos, acc, pow) ==
            Continue(Apply(s[pos], acc, v, pow), TermRun(s, j, ValueOr(Apply(s[pos], acc, v, pow)), pow))
  {
    assert SkipSpaces(s, pos) == pos;
    if Apply(s[pos], acc, v, pow).Err? {
      TermLoopOperatorFails(s, pos, acc, pow);
    } else {
      TermLoopAdvances(s, pos, acc, pow);
    }
  }

  /** One step of the term loop over `op operand`. */
  lemma TermLoopOnLink(s: string, pos: nat, acc: real, l: Link, pow: (real, real) -> real)
    requires IsTermOperator(l.op) && pos < |s| && s[pos] == l.op
    requires DigitString(l.operand) && At(s, pos + 1, l.operand) && NumberFollows(s, pos + 1 + |l.operand|)
    ensures pos + 1 + |l.operand| <= |s|
    ensures TermRun(s, pos, acc, pow) ==
            Continue(Apply(l.op, acc, NumeralValue(l.operand), pow),
                     TermRun(s, pos + 1 + |l.operand|, ValueOr(Apply(l.op, acc, NumeralValue(l.operand), pow)), pow))
  {
    NumeralAt(s, pos + 1, l.operand);
    TermLoopOnNumber(s, pos, acc, NumeralValue(l.operand), pos + 1 + |l.operand|, pow);
  }

  /** The term loop stops where a term may end. */
  lemma TermLoopAtEnd(s: string, pos: nat, acc: real, pow: (real, real) -> real)
    requires EndsTerm(s, pos)
    ensures TermRun(s, pos, acc, pow) == Ok(Parsed(acc, pos))
  {
    if pos < |s| {
      assert SkipSpaces(s, pos) == pos;
      TermLoopStops(s, pos, acc, pow);
    }
  }

  /** The first link of placed links, and what follows it. */
  lemma LinksNext(s: string, pos: nat, links: seq<Link>)
    requires links != [] && TermOperators(links)
    requires LinksPlaced(s, pos, links) && EndsTerm(s, pos + LinksWidth(links))
    ensures IsTermOperator(links[0].op) && pos < |s| && s[pos] == links[0].op
    ensures DigitString(links[0].operand) && At(s, pos + 1, links[0].operand)
    ensures NumberFollows(s, pos + 1 + |links[0].operand|)
    ensures TermOperators(links[1..]) && LinksPlaced(s, pos + 1 + |links[0].operand|, links[1..])
    ensures EndsTerm(s, pos + 1 + |links[0].operand| + LinksWidth(links[1..]))
    ensures pos + LinksWidth(links) == pos + 1 + |links[0].operand| + LinksWidth(links[1..])
  {
    var j := pos + 1 + |links[0].operand|;
    if links[1..] != [] {
      assert s[j] == links[1].op;
    }
  }

  /** The fold of links unrolled once: the first application, then the rest. */
  lemma FoldLinksCons(acc: real, links: seq<Link>, pow: (real, real) -> real, w: nat)
    requires links != [] && TermOperators(links)
    ensures AtEnd(FoldLinks(acc, links, pow), w) ==
            Continue(Apply(links[0].op, acc, NumeralValue(links[0].operand), pow),
                     AtEnd(FoldLinks(ValueOr(Apply(links[0].op, acc, NumeralValue(links[0].operand), pow)), links[1..], pow), w))
  {
  }

  /** The term loop over placed term steps folds them. */
  lemma {:induction false} LinksParse(s: string, pos: nat, acc: real, links: seq<Link>, pow: (real, real) -> real)
    requires TermOperators(links)
    requires LinksPlaced(s, pos, links) && EndsTerm(s, pos + LinksWidth(links))
    ensures TermRun(s, pos, acc, pow) == AtEnd(FoldLinks(acc, links, pow), pos + LinksWidth(links))
    decreases |links|
  {
    if links == [] {
      TermLoopAtEnd(s, pos, acc, pow);
    } else {
      LinksNext(s, pos, links);
      TermLoopOnLink(s, pos, acc, links[0], pow);
      LinksParse(s, pos + 1 + |links[0].operand|, ValueOr(Apply(links[0].op, acc, NumeralValue(links[0].operand), pow)),
                 links[1..], pow);
      FoldLinksCons(acc, links, pow, pos + LinksWidth(links));
    }
  }

  /** parseTerm reads a number and enters its loop after it. */
  lemma TermAtNumber(s: string, pos: nat, v: real, j: nat, pow: (real, real) -> real)
    requires pos <= |s| && NumberAt(s, pos) == Ok(Parsed(v, j))
    ensures j <= |s| && TermAt(s, pos, pow) == TermRun(s, j, v, pow)
  {
  }

  /** The first numeral of a placed term is followed by what may follow a number. */
  lemma TermNext(s: string, pos: nat, t: Term, pow: (real, real) -> real)
    requires WellFormedTerm(t) && TermPlaced(s, pos, t) && EndsTerm(s, pos + TermWidth(t))
    ensures pos <= |s|
    ensures DigitString(t.first) && At(s, pos, t.first) && NumberFollows(s, pos + |t.first|)
    ensures TermOperators(t.links) && LinksPlaced(s, pos + |t.first|, t.links)
    ensures EndsTerm(s, pos + |t.first| + LinksWidth(t.links))
    ensures pos + TermWidth(t) == pos + |t.first| + LinksWidth(t.links)
    ensures TermValue(t, pow) == FoldLinks(NumeralValue(t.first), t.links, pow)
  {
    AtBound(s, pos, t.first);
    var j := pos + |t.first|;
    if t.links != [] {
      assert s[j] == t.links[0].op;
    }
  }

  /** parseTerm over a placed term gives the fold of the term. */
  lemma TermParse(s: string, pos: nat, t: Term, pow: (real, real) -> real)
    requires WellFormedTerm(t)
    requires TermPlaced(s, pos, t) && EndsTerm(s, pos + TermWidth(t))
    ensures TermAt(s, pos, pow) == AtEnd(TermValue(t, pow), pos + TermWidth(t))
  {
    TermNext(s, pos, t, pow);
    NumeralAt(s, pos, t.first);
    TermAtNumber(s, pos, NumeralValue(t.first), pos + |t.first|, pow);
    LinksParse(s, pos + |t.first|, NumeralValue(t.first), t.links, pow);
  }

  // ---------------------------------------------------------------------------
  // The expression level

  /** One step of the expression loop over an operator and a term whose
      parse is the fold r, ending at j. */
  lemma ExpressionLoopOnTerm(s: string, pos: nat, acc: real, r: Result<real, Failure>, j: nat, pow: (real, real) -> real)
    requires pos < |s| && IsExpressionOperator(s[pos])
    requires j <= |s| && TermAt(s, pos + 1, pow) == AtEnd(r, j)
    ensures SumRun(s, pos, acc, pow) ==
            Continue(ApplyTo(s[pos], acc, r, pow), SumRun(s, j, ValueOr(ApplyTo(s[pos], acc, r, pow)), pow))
  {
    assert SkipSpaces(s, pos) == pos;
    if r.Err? {
      ExpressionLoopOperandFails(s, pos, acc, pow);
    } else {
      ExpressionLoopAdvances(s, pos, acc, pow);
    }
  }

  /** One step of the expression loop over `op term`. */
  lemma ExpressionLoopOnStep(s: string, pos: nat, acc: real, st: Step, pow: (real, real) -> real)
    requires IsExpressionOperator(st.op) && WellFormedTerm(st.term) && pos < |s| && s[pos] == st.op
    requires TermPlaced(s, pos + 1, st.term) && EndsTerm(s, pos + 1 + TermWidth(st.term))
    ensures pos + 1 + TermWidth(st.term) <= |s|
    ensures SumRun(s, pos, acc, pow) ==
            Continue(ApplyTo(st.op, acc, TermValue(st.term, pow), pow),
                     SumRun(s, pos + 1 + TermWidth(st.term), ValueOr(ApplyTo(st.op, acc, TermValue(st.term, pow), pow)), pow))
  {
    TermParse(s, pos + 1, st.term, pow);
    ExpressionLoopOnTerm(s, pos, acc, TermValue(st.term, pow), pos + 1 + TermWidth(st.term), pow);
  }

  /** The expression loop stops where an expression may end. */
  lemma ExpressionLoopAtEnd(s: string, pos: nat, acc: real, pow: (real, real) -> real)
    requires EndsSum(s, pos)
    ensures SumRun(s, pos, acc, pow) == Ok(Parsed(acc, pos))
  {
    if pos < |s| {
      assert SkipSpaces(s, pos) == pos;
      ExpressionLoopStops(s, pos, acc, pow);
    }
  }

  /** The first step of placed steps, and what follows it. */
  lemma StepsNext(s: string, pos: nat, steps: seq<Step>)
    requires steps != [] && WellFormedSteps(steps)
    requires StepsPlaced(s, pos, steps) && EndsSum(s, pos + StepsWidth(steps))
    ensures IsExpressionOperator(steps[0].op) && WellFormedTerm(steps[0].term) && pos < |s| && s[pos] == steps[0].op
    ensures TermPlaced(s, pos + 1, steps[0].term) && EndsTerm(s, pos + 1 + TermWidth(steps[0].term))
    ensures WellFormedSteps(steps[1..]) && StepsPlaced(s, pos + 1 + TermWidth(steps[0].term), steps[1..])
    ensures EndsSum(s, pos + 1 + TermWidth(steps[0].term) + StepsWidth(steps[1..]))
    ensures pos + StepsWidth(steps) == pos + 1 + TermWidth(steps[0].term) + StepsWidth(steps[1..])
  {
    var j := pos + 1 + TermWidth(steps[0].term);
    if steps[1..] != [] {
      assert s[j] == steps[1].op;
    }
  }

  /** The fold of steps unrolled once: the first term and its operator, then the rest. */
  lemma FoldStepsCons(acc: real, steps: seq<Step>, pow: (real, real) -> real, w: nat)
    requires steps != [] && WellFormedSteps(steps)
    ensures AtEnd(FoldSteps(acc, steps, pow), w) ==
            Continue(ApplyTo(steps[0].op, acc, TermValue(steps[0].term, pow), pow),
                     AtEnd(FoldSteps(ValueOr(ApplyTo(steps[0].op, acc, TermValue(steps[0].term, pow), pow)), steps[1..], pow), w))
  {
  }

  /** The expression loop over placed expression steps folds them. */
  lemma {:induction false} StepsParse(s: string, pos: nat, acc: real, steps: seq<Step>, pow: (real, real) -> real)
    requires WellFormedSteps(steps)
    requires StepsPlaced(s, pos, steps) && EndsSum(s, pos + StepsWidth(steps))
    ensures SumRun(s, pos, acc, pow) == AtEnd(FoldSteps(acc, steps, pow), pos + StepsWidth(steps))
    decreases |steps|
  {
    if steps == [] {
      ExpressionLoopAtEnd(s, pos, acc, pow);
    } else {
      StepsNext(s, pos, steps);
      ExpressionLoopOnStep(s, pos, acc, steps[0], pow);
      StepsParse(s, pos + 1 + TermWidth(steps[0].term), ValueOr(ApplyTo(steps[0].op, acc, TermValue(steps[0].term, pow), pow)),
                 steps[1..], pow);
      FoldStepsCons(acc, steps, pow, pos + StepsWidth(steps));
    }
  }

  /** The first term of a placed expression is followed by what may follow a term. */
  lemma SumNext(s: string, pos: nat, e: Sum)
    requires WellFormed(e)
    requires TermPlaced(s, pos, e.first) && StepsPlaced(s, pos + TermWidth(e.first), e.steps)
    requires EndsSum(s, pos + TermWidth(e.first) + StepsWidth(e.steps))
    ensures pos + TermWidth(e.first) <= |s|
    ensures WellFormedTerm(e.first) && EndsTerm(s, pos + TermWidth(e.first)) && WellFormedSteps(e.steps)
  {
    var j := pos + TermWidth(e.first);
    if e.steps != [] {
      assert s[j] == e.steps[0].op;
    }
  }

  /** parseExpression reads a term and enters its loop after it. */
  lemma ExpressionAtTerm(s: string, pos: nat, r: Result<real, Failure>, j: nat, pow: (real, real) -> real)
    requires pos <= j <= |s| && TermAt(s, pos, pow) == AtEnd(r, j)
    ensures ExpressionAt(s, pos, pow) == Continue(r, SumRun(s, j, ValueOr(r), pow))
  {
  }

  /** The value of an expression tree unrolled once: its first term, then the fold of its steps. */
  lemma SumValueCons(e: Sum, pow: (real, real) -> real, w: nat)
    requires WellFormed(e)
    ensures AtEnd(SumValue(e, pow), w) ==
            Continue(TermValue(e.first, pow), AtEnd(FoldSteps(ValueOr(TermValue(e.first, pow)), e.steps, pow), w))
  {
  }

  /** parseExpression over a placed expression tree gives its fold. */
  lemma SumParse(s: string, pos: nat, e: Sum, pow: (real, real) -> real)
    requires WellFormed(e)
    requires TermPlaced(s, pos, e.first) && StepsPlaced(s, pos + TermWidth(e.first), e.steps)
    requires EndsSum(s, pos + TermWidth(e.first) + StepsWidth(e.steps))
    ensures ExpressionAt(s, pos, pow) == AtEnd(SumValue(e, pow), pos + TermWidth(e.first) + StepsWidth(e.steps))
  {
    SumNext(s, pos, e);
    TermParse(s, pos, e.first, pow);
    ExpressionAtTerm(s, pos, TermValue(e.first, pow), pos + TermWidth(e.first), pow);
    StepsParse(s, pos + TermWidth(e.first), ValueOr(TermValue(e.first, pow)), e.steps, pow);
    SumValueCons(e, pow, pos + TermWidth(e.first) + StepsWidth(e.steps));
  }

  /** The text of an expression tree, followed by nothing or by a character
      the engine cannot consume, places the tree at the start. */
  lemma TreePlaced(e: Sum, tail: string)
    requires tail == [] || !IsEngineChar(tail[0])
    ensures TermPlaced(SumText(e) + tail, 0, e.first)
    ensures StepsPlaced(SumText(e) + tail, 0 + TermWidth(e.first), e.steps)
    ensures EndsSum(SumText(e) + tail, 0 + TermWidth(e.first) + StepsWidth(e.steps))
  {
    var s := SumText(e) + tail;
    var tt := TermText(e.first);
    AtPrefix(SumText(e), tail, 0);
    assert SumText(e)[0..] == SumText(e);
    AtSplit(s, 0, tt, StepsText(e.steps));
    TermTextPlaced(s, 0, e.first);
    StepsTextPlaced(s, |tt|, e.steps);
    if tail != [] {
      assert s[|SumText(e)|] == tail[0];
    }
  }

  /** Calculator::evaluate over an input that holds a placed expression tree
      from position 0 gives the tree's value. */
  lemma EvaluatesPlaced(s: string, e: Sum, pow: (real, real) -> real)
    requires WellFormed(e)
    requires TermPlaced(s, 0, e.first) && StepsPlaced(s, 0 + TermWidth(e.first), e.steps)
    requires EndsSum(s, 0 + TermWidth(e.first) + StepsWidth(e.steps))
    ensures Value(s, pow) == SumValue(e, pow)
  {
    SumParse(s, 0, e, pow);
  }

  /** Calculator::evaluate over the text of an expression tree, followed by
      nothing or by a character it cannot consume, gives the tree's value:
      term operators bind tighter than + and -, and each level folds left to right. */
  lemma EvaluatesTree(e: Sum, tail: string, pow: (real, real) -> real)
    requires WellFormed(e)
    requires tail == [] || !IsEngineChar(tail[0])
    ensures Value(SumText(e) + tail, pow) == SumValue(e, pow)
  {
    TreePlaced(e, tail);
    EvaluatesPlaced(SumText(e) + tail, e, pow);
  }
}
