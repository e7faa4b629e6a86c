/**
 * The engine's read-eval-print loop (main): a banner, then for every line
 * read a "> " prompt and a reply. "exit" and "quit" say goodbye and end the
 * loop, an empty line is skipped, and every other line is evaluated: a value
 * goes to standard output as "= v", a failure to standard error as
 * "Error: " and the exception's message.
 *
 * The input is the finite sequence of lines the loop gets to read; the
 * formatting of a double by operator<< is the parameter `show`.
 */
module Repl {
  import opened Outcomes
  import opened Engine
  import Decimal
  import EngineProperties

  const Banner := "=== Expression Calculator ===\n"
                + "Enter mathematical expressions:\n"
                + "Examples: 2+3, 5+6, 10*5-2, 100/4, 2^3, 10%3\n"
                + "Supports: + - * / % ^ (power)\n"
                + "Type 'exit' to quit\n\n"

  const Prompt := "> "

  const Goodbye := "Goodbye!\n"

  /** What the loop does with a line it has read. */
  datatype Action = Quit | Skip | Compute

  function ActionOf(line: string): (a: Action)
  {
    if line == "exit" || line == "quit" then Quit
    else if line == [] then Skip
    else Compute
  }

  /** Text written to standard output and to standard error. */
  datatype Streams = Streams(out: string, err: string)

  function Then(a: Streams, b: Streams): Streams {
    Streams(a.out + b.out, a.err + b.err)
  }

  /** The calculator's evaluate, as main calls it: the engine's value of the line. */
  function Calculator(pow: (real, real) -> real): string -> Result<real, Failure> {
    line => Value(line, pow)
  }

  /** What the loop writes for an evaluated line, given what evaluate returned or threw. */
  function Answer(r: Result<real, Failure>, show: real -> string): Streams {
    match r
    case Ok(v) => Streams("= " + show(v) + "\n", "")
    case Err(f) => Streams("", "Error: " + Message(f) + "\n")
  }

  /** What the loop writes after reading `line`, the prompt aside. */
  function Reply(line: string, eval: string -> Result<real, Failure>, show: real -> string): Streams {
    match ActionOf(line)
    case Quit => Streams(Goodbye, "")
    case Skip => Streams("", "")
    case Compute => Answer(eval(line), show)
  }

  /** The loop over the lines still to be read: a prompt and the reply to the
      first line, then the rest unless that line ended the loop. */
  function Replies(lines: seq<string>, eval: string -> Result<real, Failure>, show: real -> string): Streams
    decreases |lines|
  {
    if lines == [] then Streams("", "")
    else
      var first := Then(Streams(Prompt, ""), Reply(lines[0], eval, show));
      if ActionOf(lines[0]) == Quit then first else Then(first, Replies(lines[1..], eval, show))
  }

  /** Everything main writes over the given input. */
  function Session(lines: seq<string>, eval: string -> Result<real, Failure>, show: real -> string): Streams {
    Then(Streams(Banner, ""), Replies(lines, eval, show))
  }

  /** How many lines the loop reads. */
  function LinesRead(lines: seq<string>): nat
    decreases |lines|
  {
    if lines == [] then 0
    else if ActionOf(lines[0]) == Quit then 1
    else 1 + LinesRead(lines[1..])
  }

  lemma ThenAssociates(a: Streams, b: Streams, c: Streams)
    ensures Then(Then(a, b), c) == Then(a, Then(b, c))
  {
    assert (a.out + b.out) + c.out == a.out + (b.out + c.out);
    assert (a.err + b.err) + c.err == a.err + (b.err + c.err);
  }

  /** What the loop still writes once it has read i lines. */
  function Pending(lines: seq<string>, i: nat, eval: string -> Result<real, Failure>, show: real -> string): Streams
    requires i <= |lines|
  {
    Replies(lines[i..], eval, show)
  }

  /** The loop still to run after i lines: a prompt, the reply to line i, and
      the rest unless line i ends it. */
  lemma PendingStep(lines: seq<string>, i: nat, eval: string -> Result<real, Failure>, show: real -> string)
    requires i < |lines|
    ensures Pending(lines, i, eval, show) ==
            if ActionOf(lines[i]) == Quit then Then(Streams(Prompt, ""), Reply(lines[i], eval, show))
            else Then(Then(Streams(Prompt, ""), Reply(lines[i], eval, show)), Pending(lines, i + 1, eval, show))
    ensures LinesRead(lines[i..]) == if ActionOf(lines[i]) == Quit then 1 else 1 + LinesRead(lines[i + 1..])
  {
    assert lines[i..][0] == lines[i];
    assert lines[i..][1..] == lines[i + 1..];
  }

  /** Writing a prompt and then a reply extends what was written by both. */
  lemma Writes(before: Streams, reply: Streams)
    ensures Streams(before.out + Prompt + reply.out, before.err + reply.err)
         == Then(before, Then(Streams(Prompt, ""), reply))
  {
    assert before.out + Prompt + reply.out == before.out + (Prompt + reply.out);
  }

  /** After line i is answered, the loop still owes what follows it. */
  lemma Advances(lines: seq<string>, i: nat, before: Streams, eval: string -> Result<real, Failure>, show: real -> string)
    requires i < |lines| && ActionOf(lines[i]) != Quit
    requires Then(before, Pending(lines, i, eval, show)) == Replies(lines, eval, show)
    requires i + LinesRead(lines[i..]) == LinesRead(lines)
    ensures Then(Then(before, Then(Streams(Prompt, ""), Reply(lines[i], eval, show))), Pending(lines, i + 1, eval, show))
         == Replies(lines, eval, show)
    ensures i + 1 + LinesRead(lines[i + 1..]) == LinesRead(lines)
  {
    PendingStep(lines, i, eval, show);
    ThenAssociates(before, Then(Streams(Prompt, ""), Reply(lines[i], eval, show)), Pending(lines, i + 1, eval, show));
  }

  /** After a quitting line i is answered, the loop owes nothing more. */
  lemma Finishes(lines: seq<string>, i: nat, before: Streams, eval: string -> Result<real, Failure>, show: real -> string)
    requires i < |lines| && ActionOf(lines[i]) == Quit
    requires Then(before, Pending(lines, i, eval, show)) == Replies(lines, eval, show)
    requires i + LinesRead(lines[i..]) == LinesRead(lines)
    ensures Then(before, Then(Streams(Prompt, ""), Reply(lines[i], eval, show))) == Replies(lines, eval, show)
    ensures i + 1 == LinesRead(lines)
  {
    PendingStep(lines, i, eval, show);
  }

  /**
   * main's loop. `eval` is the calculator's evaluate (Calculator(pow) for the
   * engine of this model); a result stands for a returned value, a failure
   * for the exception it throws.
   */
  method Loop(lines: seq<string>, eval: string -> Result<real, Failure>, show: real -> string)
    returns (out: string, err: string, read: nat)
    ensures Streams(out, err) == Replies(lines, eval, show)
    ensures read == LinesRead(lines)
  {
    out := "";
    err := "";
    read := 0;
    assert lines[0..] == lines;
    while read < |lines|
      invariant read <= |lines|
      invariant Then(Streams(out, err), Pending(lines, read, eval, show)) == Replies(lines, eval, show)
      invariant read + LinesRead(lines[read..]) == LinesRead(lines)
      decreases |lines| - read
    {
      ghost var before := Streams(out, err);
      ghost var i := read;
      out := out + Prompt;
      var input := lines[read];
      read := read + 1;
      if input == "exit" || input == "quit" {
        out := out + Goodbye;
        Writes(before, Streams(Goodbye, ""));
        Finishes(lines, i, before, eval, show);
        break;
      }
      if input == [] {
        assert Reply(input, eval, show) == Streams("", "");
        assert Streams(out, err) == Streams(before.out + Prompt + "", before.err + "");
        Writes(before, Streams("", ""));
        Advances(lines, i, before, eval, show);
        continue;
      }
      var result := eval(input);
      if result.Ok? {
        out := out + ("= " + show(result.value) + "\n");
      } else {
        err := err + ("Error: " + Message(result.error) + "\n");
      }
      assert Reply(input, eval, show) == Answer(result, show);
      assert Streams(out, err) == Streams(before.out + Prompt + Answer(result, show).out, before.err + Answer(result, show).err);
      Writes(before, Answer(result, show));
      Advances(lines, i, before, eval, show);
    }
  }

  /** main: the banner, then the loop. */
  method Run(lines: seq<string>, eval: string -> Result<real, Failure>, show: real -> string)
    returns (out: string, err: string, read: nat)
    ensures Streams(out, err) == Session(lines, eval, show)
    ensures read == LinesRead(lines)
  {
    var loopOut, loopErr;
    loopOut, loopErr, read := Loop(lines, eval, show);
    out := Banner + loopOut;
    err := loopErr;
    assert err == "" + loopErr;
  }

  // ---------------------------------------------------------------------------
  // Properties of the loop

  /** Nothing after the first "exit" or "quit" is read or answered. */
  lemma {:induction false} QuitEndsLoop(lines: seq<string>, more: seq<string>, eval: string -> Result<real, Failure>, show: real -> string)
    requires exists k :: 0 <= k < |lines| && ActionOf(lines[k]) == Quit
    ensures Replies(lines + more, eval, show) == Replies(lines, eval, show)
    ensures LinesRead(lines + more) == LinesRead(lines)
    decreases |lines|
  {
    assert (lines + more)[0] == lines[0];
    if ActionOf(lines[0]) != Quit {
      var k :| 0 <= k < |lines| && ActionOf(lines[k]) == Quit;
      assert ActionOf(lines[1..][k - 1]) == Quit;
      assert (lines + more)[1..] == lines[1..] + more;
      QuitEndsLoop(lines[1..], more, eval, show);
    }
  }

  /** The loop reads every line up to and including the first "exit" or
      "quit", and all of them when there is none: a failed evaluation does
      not end it. */
  lemma {:induction false} ReadsUntilQuit(lines: seq<string>)
    ensures 0 < |lines| ==> 0 < LinesRead(lines)
    ensures LinesRead(lines) <= |lines|
    ensures forall k :: 0 <= k < LinesRead(lines) - 1 ==> ActionOf(lines[k]) != Quit
    ensures LinesRead(lines) < |lines| ==> ActionOf(lines[LinesRead(lines) - 1]) == Quit
    ensures (forall k :: 0 <= k < |lines| ==> ActionOf(lines[k]) != Quit) ==> LinesRead(lines) == |lines|
    decreases |lines|
  {
    if lines != [] && ActionOf(lines[0]) != Quit {
      ReadsUntilQuit(lines[1..]);
      forall k | 0 <= k < LinesRead(lines) - 1
        ensures ActionOf(lines[k]) != Quit
      {
        if k > 0 {
          assert lines[k] == lines[1..][k - 1];
        }
      }
      if forall k :: 0 <= k < |lines| ==> ActionOf(lines[k]) != Quit {
        assert forall k :: 0 <= k < |lines[1..]| ==> ActionOf(lines[1..][k]) != Quit by {
          forall k | 0 <= k < |lines[1..]| ensures ActionOf(lines[1..][k]) != Quit {
            assert lines[1..][k] == lines[k + 1];
          }
        }
      }
    }
  }

  /** Exactly "exit" and "quit" end the loop: no other spelling, case or padding. */
  lemma QuitWordsOnly(line: string)
    ensures ActionOf(line) == Quit <==> line == "exit" || line == "quit"
    ensures ActionOf("Exit") != Quit && ActionOf("exit ") != Quit && ActionOf(" quit") != Quit
  {
  }

  /** A failure message is a single line. */
  lemma MessageOneLine(f: Failure)
    ensures '\n' !in Message(f)
  {
    if f.ExpectedNumberAt? {
      Decimal.ValueOfRender(f.pos);
      var r := Decimal.Render(f.pos);
      assert forall k :: 0 <= k < |r| ==> Decimal.IsDigit(r[k]);
      assert Message(f) == ExpectedNumber + r;
      assert '\n' !in ExpectedNumber;
    }
  }

  /** An evaluated line is answered with exactly one line, on exactly one of
      the two streams: "= " and the value on standard output when evaluate
      returns, "Error: " and its message on standard error when it throws. */
  lemma EvaluatedLineAnswered(line: string, eval: string -> Result<real, Failure>, show: real -> string)
    requires ActionOf(line) == Compute
    requires forall v :: '\n' !in show(v)
    ensures var r := Reply(line, eval, show);
      (r.out == [] <==> r.err != []) &&
      (r.out != [] ==> r.out[..2] == "= " && r.out[|r.out| - 1] == '\n' && '\n' !in r.out[..|r.out| - 1]) &&
      (r.err != [] ==> r.err[..7] == "Error: " && r.err[|r.err| - 1] == '\n' && '\n' !in r.err[..|r.err| - 1])
    ensures eval(line).Ok? <==> Reply(line, eval, show).out != []
  {
    var r := Reply(line, eval, show);
    match eval(line)
    case Ok(v) =>
      assert r.out[..|r.out| - 1] == "= " + show(v);
    case Err(f) =>
      MessageOneLine(f);
      assert r.err[..|r.err| - 1] == "Error: " + Message(f);
  }

  /** A line of spaces is neither a command nor an empty line. */
  lemma SpacesLineEvaluated(line: string)
    requires line != [] && forall k :: 0 <= k < |line| ==> IsSpace(line[k])
    ensures ActionOf(line) == Compute
  {
    assert IsSpace(line[0]);
  }

  /** A line of spaces is evaluated, and the engine finds no number after
      the spaces: the loop reports the position just past them. */
  lemma SpacesLineRejected(line: string, pow: (real, real) -> real, show: real -> string)
    requires line != [] && forall k :: 0 <= k < |line| ==> IsSpace(line[k])
    ensures Value(line, pow) == Err(ExpectedNumberAt(|line|))
    ensures Reply(line, Calculator(pow), show) == Streams("", "Error: " + Message(ExpectedNumberAt(|line|)) + "\n")
  {
    SpacesLineEvaluated(line);
    SkipSpacesStops(line, 0);
    EngineProperties.LeadingNonNumberRejected(line, pow);
  }
}
