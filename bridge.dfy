/**
 * The engine and the server together. The engine answers a line with
 * "= v" and a line feed and then, at the top of its loop, writes the prompt
 * "> " and waits for the next line; because std::cin is tied to std::cout,
 * the prompt is flushed before that wait, so it reaches the server inside
 * the same response window as the answer. Trimmed, the server's text ends
 * in a line holding only ">", which the result pattern never matches.
 */
module Bridge {
  import opened Outcomes
  import opened JsText
  import Repl
  import opened Server

  /** What the engine writes to standard output for a line it evaluates to v,
      up to its next wait for input. */
  function AnswerText(v: real, show: real -> string): string {
    Repl.Answer(Ok(v), show).out + Repl.Prompt
  }

  /** The extraction as written rejects every successful evaluation:
      whatever came before and whatever v prints as, the last line of the
      trimmed text is the prompt's ">". */
  lemma {:induction false} PromptHidesAnswer(before: string, v: real, show: real -> string)
    ensures Classify(before + AnswerText(v, show), "") == Rejected(Unparsed)
  {
    var s := before + AnswerText(v, show);
    assert s == before + "= " + show(v) + "\n" + "> ";
    PromptIsLastLine(before, show(v));
    assert MatchAt(">", 0).None?;
  }

  /** The last line of the trimmed text is the prompt's ">". */
  lemma {:induction false} PromptIsLastLine(before: string, t: string)
    ensures LastLine(Trim(before + "= " + t + "\n" + "> ")) == ">"
  {
    var s := before + "= " + t + "\n" + "> ";
    var n := |s|;
    assert s[n - 1] == ' ' && s[n - 2] == '>' && s[n - 3] == '\n' && s[|before|] == '=';
    TrimBeforeSpace(s, |before|);
    var a := LeadEnd(s, 0);
    assert s[a..n - 1] == s[a..n - 3] + "\n" + ">";
    LastLineAfter(s[a..n - 3], ">");
  }

  /** trim() of a text that ends in one space after something else, with no
      white space at index m: the space goes and the text up to m stays. */
  lemma {:induction false} TrimBeforeSpace(s: string, m: nat)
    requires m < |s| - 2 && !IsJsSpace(s[m]) && s[|s| - 1] == ' ' && !IsJsSpace(s[|s| - 2])
    ensures LeadEnd(s, 0) <= m
    ensures Trim(s) == s[LeadEnd(s, 0)..|s| - 1]
  {
    var n := |s|;
    var a := LeadEnd(s, 0);
    assert a <= m by { LeadEndStops(s, 0); }
    var p, t, q := s[..a], s[a..n - 1], [s[n - 1]];
    assert a <= m && AllSpace(p) && Trimmed(t) && AllSpace(q) && s == p + t + q by {
      LeadEndStops(s, 0);
      assert t[0] == s[a] && t[|t| - 1] == s[n - 2];
      assert forall k :: 0 <= k < a ==> p[k] == s[k];
    }
    TrimUnique(s, p, t, q);
  }

  /** With the corrected extraction the engine's answer is read back, both
      in the steady state (nothing before it) and in the first exchange
      (the banner and a prompt before it): `earlier` is whole lines and
      `lead` the rest of the answer's line, holding no '='. */
  lemma {:induction false} AnswerReadBack(earlier: string, lead: string, v: real, show: real -> string)
    requires show(v) != [] && AllTokenChars(show(v))
    requires earlier == [] || earlier[|earlier| - 1] == '\n'
    requires '\n' !in lead && '=' !in lead
    requires earlier + lead == [] || !IsJsSpace((earlier + lead)[0])
    ensures ClassifyAnswer(earlier + lead + AnswerText(v, show), "") == Resolved(show(v))
  {
    var t := show(v);
    var x := earlier + lead + "= " + t;
    var s := earlier + lead + AnswerText(v, show);
    assert s == x + "\n" + "> ";
    assert x[0] == (if earlier + lead == [] then '=' else (earlier + lead)[0]);
    TrimAnswerText(x, s);
    PromptLineSkipped(x);
    LineOfAnswer(earlier, lead, t);
    LeadThenAnswer(lead, t);
    LastLineRead(x, t);
  }

  /** The corrected extraction passes over the prompt's line. */
  lemma {:induction false} PromptLineSkipped(x: string)
    ensures ExtractLast(x + "\n" + ">") == ExtractLast(x)
  {
    var s := x + "\n" + ">";
    assert LineStart(s, |s|) == |s| - 1;
    assert s[|s| - 1..] == ">";
    assert MatchAt(">", 0).None?;
    assert s[..|s| - 2] == x;
  }

  /** A last line that matches is what the corrected extraction reads. */
  lemma {:induction false} LastLineRead(x: string, t: string)
    requires Extract(LastLine(x)) == Some(t)
    ensures ExtractLast(x) == Some(t)
  {
  }

  /** trim() drops only the space after the prompt when the text starts
      with no white space. */
  lemma {:induction false} TrimAnswerText(x: string, s: string)
    requires s == x + "\n" + "> "
    requires x != [] && !IsJsSpace(x[0])
    ensures Trim(s) == x + "\n" + ">"
  {
    assert (x + "\n" + ">")[0] == x[0];
    assert s == [] + (x + "\n" + ">") + " ";
    assert AllSpace(" ");
    TrimUnique(s, [], x + "\n" + ">", " ");
  }

  /** The last line of the text before the trimmed prompt is the answer's line. */
  lemma {:induction false} LineOfAnswer(earlier: string, lead: string, t: string)
    requires earlier == [] || earlier[|earlier| - 1] == '\n'
    requires '\n' !in lead && AllTokenChars(t)
    ensures LastLine(earlier + lead + "= " + t) == lead + "= " + t
  {
    var w := "= " + t;
    assert '\n' !in w by {
      assert forall k :: 2 <= k < |w| ==> w[k] == t[k - 2];
    }
    assert earlier + lead + "= " + t == (earlier + lead) + w;
    LastLineOfAppend(earlier + lead, w);
    if earlier == [] {
      assert earlier + lead == lead;
      LastLineAfter([], lead);
    } else {
      assert earlier + lead == earlier[..|earlier| - 1] + "\n" + lead;
      LastLineAfter(earlier[..|earlier| - 1], lead);
    }
  }

  /** The pattern's leftmost match in the answer's line is the answer. */
  lemma {:induction false} LeadThenAnswer(lead: string, t: string)
    requires '=' !in lead && t != [] && AllTokenChars(t)
    ensures Extract(lead + "= " + t) == Some(t)
  {
    var line := lead + "= " + t;
    var m := |lead|;
    assert line[m] == '=' && line[m + 1] == ' ' && line[m + 2] == t[0];
    assert AllSpace(line[m + 1..m + 2]);
    MatchAtIff(line, m, m + 2, t);
    assert line[m + 2..m + 2 + |t|] == t;
    assert forall k :: 0 <= k < m ==> line[k] == lead[k];
    MatchFromLeftmost(line, 0);
  }
}
