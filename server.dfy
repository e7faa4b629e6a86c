/**
 * The web server's side of the exchange with the engine process: what it
 * makes of the text the engine wrote to standard output and standard error
 * in answer to one expression, the collectors it attaches to the child's
 * streams for the exchange, and the POST /calculate handler.
 *
 * The child process, its pipes and the response window are modelled by the
 * text each stream delivers during the window (a sequence of chunks) and
 * by whether writing to standard input fails.
 */
module Server {
  import opened Outcomes
  import opened JsText

  // ---------------------------------------------------------------------------
  // The result pattern /=\s*([\d\-+.eE]+)/

  /** The character class [\d\-+.eE]. */
  predicate IsTokenChar(c: char) {
    '0' <= c <= '9' || c == '-' || c == '+' || c == '.' || c == 'e' || c == 'E'
  }

  predicate AllTokenChars(t: string) {
    forall k :: 0 <= k < |t| ==> IsTokenChar(t[k])
  }

  /** The end of the run of class characters starting at j. */
  function TokenEnd(line: string, j: nat): (k: nat)
    requires j <= |line|
    ensures j <= k <= |line|
    decreases |line| - j
  {
    if j < |line| && IsTokenChar(line[j]) then TokenEnd(line, j + 1) else j
  }

  lemma {:induction false} TokenEndStops(line: string, j: nat)
    requires j <= |line|
    ensures forall k :: j <= k < TokenEnd(line, j) ==> IsTokenChar(line[k])
    ensures TokenEnd(line, j) < |line| ==> !IsTokenChar(line[TokenEnd(line, j)])
    decreases |line| - j
  {
    if j < |line| && IsTokenChar(line[j]) {
      TokenEndStops(line, j + 1);
    }
  }

  /** The capture of a match starting at index i, if the pattern matches
      there: '=', white space as far as it goes (\s* gives back nothing that
      could help, since the class holds no white space), then the longest
      non-empty run of class characters. */
  function MatchAt(line: string, i: nat): Option<string>
    requires i < |line|
  {
    if line[i] != '=' then None
    else
      var j := LeadEnd(line, i + 1);
      if j < |line| && IsTokenChar(line[j]) then Some(line[j..TokenEnd(line, j)]) else None
  }

  /** The first match at or after index i. */
  function MatchFrom(line: string, i: nat): Option<string>
    requires i <= |line|
    decreases |line| - i
  {
    if i == |line| then None
    else if MatchAt(line, i).Some? then MatchAt(line, i)
    else MatchFrom(line, i + 1)
  }

  /** line.match(pattern)[1] for the pattern without the g flag: the capture
      of the leftmost match, or None when match returns null. */
  function Extract(line: string): Option<string> {
    MatchFrom(line, 0)
  }

  /** With '=' at index i and white space from there up to j, the match at
      i captures exactly the non-empty run of class characters that starts
      at j and that no class character follows. */
  lemma {:induction false} MatchAtIff(line: string, i: nat, j: nat, t: string)
    requires i < j <= |line|
    requires line[i] == '=' && AllSpace(line[i + 1..j]) && (j < |line| ==> !IsJsSpace(line[j]))
    ensures MatchAt(line, i) == Some(t) <==>
            t != [] && j + |t| <= |line| && line[j..j + |t|] == t && AllTokenChars(t)
            && (j + |t| == |line| || !IsTokenChar(line[j + |t|]))
  {
    assert LeadEnd(line, i + 1) == j by {
      LeadEndStops(line, i + 1);
      assert forall k :: i + 1 <= k < j ==> line[i + 1..j][k - i - 1] == line[k];
    }
    RunIff(line, j, t);
  }

  /** The maximal run of class characters at j, when it is not empty, is
      exactly the non-empty run that starts at j and that no class character
      follows. */
  lemma {:induction false} RunIff(line: string, j: nat, t: string)
    requires j <= |line|
    ensures (j < |line| && IsTokenChar(line[j]) && line[j..TokenEnd(line, j)] == t) <==>
            t != [] && j + |t| <= |line| && line[j..j + |t|] == t && AllTokenChars(t)
            && (j + |t| == |line| || !IsTokenChar(line[j + |t|]))
  {
    TokenEndStops(line, j);
    var k := TokenEnd(line, j);
    if t != [] && j + |t| <= |line| && line[j..j + |t|] == t && AllTokenChars(t)
       && (j + |t| == |line| || !IsTokenChar(line[j + |t|])) {
      assert forall m :: j <= m < j + |t| ==> line[m] == t[m - j];
      assert k == j + |t|;
    }
    if j < |line| && IsTokenChar(line[j]) && line[j..k] == t {
      assert forall m :: 0 <= m < |t| ==> t[m] == line[j + m];
    }
  }

  /** Extract finds the leftmost index where the pattern matches, and
      nothing when it matches nowhere. */
  lemma {:induction false} MatchFromLeftmost(line: string, i: nat)
    requires i <= |line|
    ensures MatchFrom(line, i).None? <==> forall m :: i <= m < |line| ==> MatchAt(line, m).None?
    ensures MatchFrom(line, i).Some? ==>
            exists m :: i <= m < |line| && MatchAt(line, m) == MatchFrom(line, i)
                        && forall n :: i <= n < m ==> MatchAt(line, n).None?
    decreases |line| - i
  {
    if i < |line| && MatchAt(line, i).None? {
      MatchFromLeftmost(line, i + 1);
      if MatchFrom(line, i).Some? {
        var m :| i + 1 <= m < |line| && MatchAt(line, m) == MatchFrom(line, i + 1)
                 && forall n :: i + 1 <= n < m ==> MatchAt(line, n).None?;
        assert forall n :: i <= n < m ==> MatchAt(line, n).None?;
      }
    }
  }

  // ---------------------------------------------------------------------------
  // Classifying the exchange (the timeout callback)

  /** How one exchange with the engine ends: the promise resolves with the
      captured token (parseFloat of it is not modelled) or rejects with a
      message. */
  datatype Exchange = Resolved(token: string) | Rejected(message: string)

  const NotRunning := "Calculator process not running"
  const Unparsed := "Could not parse result"
  const NoResponse := "No response from calculator"

  /** The timeout callback as written: standard error wins; otherwise the
      last line of the trimmed standard output must match the pattern. */
  function Classify(output: string, errorOutput: string): (e: Exchange)
  {
    if errorOutput != "" then Rejected(Trim(errorOutput))
    else if output != "" then
      match Extract(LastLine(Trim(output)))
      case Some(t) => Resolved(t)
      case None => Rejected(Unparsed)
    else Rejected(NoResponse)
  }

  /** Any text on standard error rejects the exchange with that text trimmed,
      whatever standard output holds; a resolved exchange had none. */
  lemma {:induction false} StderrWins(output: string, errorOutput: string)
    ensures errorOutput != "" ==> Classify(output, errorOutput) == Rejected(Trim(errorOutput))
    ensures Classify(output, errorOutput).Resolved? ==> errorOutput == "" && output != ""
    ensures Classify(output, errorOutput).Resolved? ==>
            exists m :: 0 <= m < |LastLine(Trim(output))|
                        && MatchAt(LastLine(Trim(output)), m) == Some(Classify(output, errorOutput).token)
  {
    if Classify(output, errorOutput).Resolved? {
      MatchFromLeftmost(LastLine(Trim(output)), 0);
    }
  }

  /** Standard output of white space alone is no answer that can be parsed. */
  lemma {:induction false} BlankOutputUnparsed(output: string)
    requires output != "" && AllSpace(output)
    ensures Classify(output, "") == Rejected(Unparsed)
  {
    TrimEmpty(output);
    assert LastLine([]) == [];
  }

  /** Silence on both streams is reported as no response. */
  lemma {:induction false} SilenceIsNoResponse(output: string, errorOutput: string)
    ensures Classify(output, errorOutput) == Rejected(NoResponse) <==>
            (output == "" && errorOutput == "") || (errorOutput != "" && Trim(errorOutput) == NoResponse)
  {
    if errorOutput == "" && output != "" && Classify(output, errorOutput).Rejected? {
      assert Classify(output, errorOutput).message == Unparsed;
    }
  }

  /** trim() of a text that ends in something other than white space only
      cuts at the front. */
  lemma {:induction false} TrimFrontOnly(s: string)
    requires s != [] && !IsJsSpace(s[|s| - 1])
    ensures Trim(s) == s[LeadEnd(s, 0)..]
  {
    var a := LeadEnd(s, 0);
    LeadEndStops(s, 0);
    assert AllSpace(s[..a]) by {
      assert forall k :: 0 <= k < a ==> s[..a][k] == s[k];
    }
    assert s == s[..a] + s[a..] + [];
    TrimUnique(s, s[..a], s[a..], []);
  }

  /** trim() leaves a last line that has no white space at its ends alone. */
  lemma {:induction false} TrimKeepsLastLine(before: string, last: string)
    requires last != [] && '\n' !in last && Trimmed(last)
    ensures LastLine(Trim(before + "\n" + last)) == last
    ensures LastLine(Trim(last)) == last
  {
    var s := before + "\n" + last;
    var n := |before| + 1;
    var a := LeadEnd(s, 0);
    assert Trim(s) == s[a..] && a <= n by {
      assert s[n] == last[0] && s[|s| - 1] == last[|last| - 1];
      TrimFrontOnly(s);
      LeadEndStops(s, 0);
    }
    assert LastLine(s[a..]) == last by {
      if a < n {
        assert s[a..] == s[a..|before|] + "\n" + last;
        LastLineAfter(s[a..|before|], last);
      } else {
        assert s[a..] == last;
        LastLineAfter([], last);
      }
    }
    assert Trim(last) == last by {
      assert last == [] + last + [];
      TrimUnique(last, [], last, []);
    }
    LastLineAfter([], last);
  }

  /** Only the last line counts: lines before it are ignored whatever they hold. */
  lemma {:induction false} EarlierLinesIgnored(before: string, last: string)
    requires last != [] && '\n' !in last && Trimmed(last)
    ensures Classify(before + "\n" + last, "") == Classify(last, "")
  {
    TrimKeepsLastLine(before, last);
  }

  /** A line "= " and a number, as the engine prints one, is read back. */
  lemma {:induction false} AnswerLineRead(t: string)
    requires t != [] && AllTokenChars(t)
    ensures Extract("= " + t) == Some(t)
    ensures Classify("= " + t + "\n", "") == Resolved(t)
  {
    var line := "= " + t;
    ExtractAnswer(line, t);
    TrimmedAnswer(line, t);
  }

  /** The match in an answer line. */
  lemma {:induction false} ExtractAnswer(line: string, t: string)
    requires t != [] && AllTokenChars(t) && line == "= " + t
    ensures Extract(line) == Some(t)
  {
    assert line[0] == '=' && line[1] == ' ' && line[2] == t[0];
    assert AllSpace(line[1..2]);
    MatchAtIff(line, 0, 2, t);
    assert line[2..2 + |t|] == t;
  }

  /** trim() removes the line feed after an answer line. */
  lemma {:induction false} TrimmedAnswer(line: string, t: string)
    requires t != [] && AllTokenChars(t) && line == "= " + t
    ensures LastLine(Trim(line + "\n")) == line
  {
    var s := line + "\n";
    assert Trim(s) == line by {
      assert line[0] == '=' && line[|line| - 1] == t[|t| - 1];
      assert s == [] + line + "\n" && AllSpace("\n");
      TrimUnique(s, [], line, "\n");
    }
    assert '\n' !in line by {
      assert forall k :: 2 <= k < |line| ==> line[k] == t[k - 2];
    }
    LastLineAfter([], line);
  }

  /** The capture of the last line that matches the pattern, scanning the
      lines from the end. */
  function ExtractLast(s: string): Option<string>
    decreases |s|
  {
    var i := LineStart(s, |s|);
    match Extract(s[i..])
    case Some(t) => Some(t)
    case None => if i == 0 then None else ExtractLast(s[..i - 1])
  }

  /** The classification with the extraction corrected to read the last line
      that holds an answer rather than the last line: the engine's prompt
      follows every answer (see Bridge). */
  function ClassifyAnswer(output: string, errorOutput: string): (e: Exchange)
  {
    if errorOutput != "" then Rejected(Trim(errorOutput))
    else if output != "" then
      match ExtractLast(Trim(output))
      case Some(t) => Resolved(t)
      case None => Rejected(Unparsed)
    else Rejected(NoResponse)
  }

  /** The correction changes nothing where the last line holds an answer or
      where anything was written to standard error. */
  lemma {:induction false} ClassifyAnswerRefines(output: string, errorOutput: string)
    requires errorOutput != "" || output == "" || Extract(LastLine(Trim(output))).Some?
    ensures ClassifyAnswer(output, errorOutput) == Classify(output, errorOutput)
  {
  }

  // ---------------------------------------------------------------------------
  // The exchange itself

  /** The data listeners one exchange attaches, named by the exchange. */
  datatype Listener = DataHandler(exchange: nat) | ErrorHandler(exchange: nat)

  /** EventEmitter.prototype.removeListener: removes the most recently added
      registration of l, if there is one. */
  function RemoveListener(ls: seq<Listener>, l: Listener): (r: seq<Listener>)
    decreases |ls|
  {
    if ls == [] then []
    else if ls[|ls| - 1] == l then ls[..|ls| - 1]
    else RemoveListener(ls[..|ls| - 1], l) + [ls[|ls| - 1]]
  }

  /** Removing a listener undoes adding it, and removing one that was never
      added changes nothing. */
  lemma {:induction false} RemoveListenerUndoes(ls: seq<Listener>, l: Listener)
    ensures RemoveListener(ls + [l], l) == ls
    ensures l !in ls ==> RemoveListener(ls, l) == ls
    decreases |ls|
  {
    assert (ls + [l])[..|ls|] == ls;
    if ls != [] && l !in ls {
      RemoveListenerUndoes(ls[..|ls| - 1], l);
      assert ls[..|ls| - 1] + [ls[|ls| - 1]] == ls;
    }
  }

  /** The text a stream delivers in chunks, joined. */
  function Concat(chunks: seq<string>): string
    decreases |chunks|
  {
    if chunks == [] then "" else Concat(chunks[..|chunks| - 1]) + chunks[|chunks| - 1]
  }

  /** The engine process as the server holds it: the listeners on its
      standard output and standard error, and what has been written to its
      standard input. */
  class ChildProcess {
    var stdoutListeners: seq<Listener>
    var stderrListeners: seq<Listener>
    var stdin: seq<string>

    constructor ()
      ensures stdoutListeners == [] && stderrListeners == [] && stdin == []
    {
      stdoutListeners := [];
      stderrListeners := [];
      stdin := [];
    }
  }

  /** The body of POST /calculate after express.json(). */
  datatype Json =
    | JNull
    | JBool(b: bool)
    | JNumber(n: real)
    | JString(s: string)
    | JArray(items: seq<Json>)
    | JObject(fields: map<string, Json>)

  /** `const { expression } = req.body`: the property, if the body has one. */
  function ExpressionOf(body: Json): Option<Json> {
    if body.JObject? && "expression" in body.fields then Some(body.fields["expression"]) else None
  }

  /** `!expression || typeof expression !== 'string'` is false: a string,
      and not the empty one (the only falsy string). */
  predicate AcceptedExpression(v: Option<Json>) {
    v.Some? && v.value.JString? && v.value.s != ""
  }

  /** The body check accepts exactly the non-empty strings; white space
      alone passes. */
  lemma {:induction false} AcceptedExpressionIff(body: Json)
    ensures AcceptedExpression(ExpressionOf(body)) <==>
            body.JObject? && "expression" in body.fields
            && body.fields["expression"].JString? && |body.fields["expression"].s| > 0
    ensures AcceptedExpression(Some(JString(" ")))
    ensures !AcceptedExpression(Some(JString(""))) && !AcceptedExpression(None)
    ensures !AcceptedExpression(Some(JNumber(1.0)))
  {
  }

  /** The JSON a response carries. */
  datatype Payload = ErrorPayload(error: string) | ResultPayload(expression: string, result: string)

  datatype Response = Response(status: nat, payload: Payload)

  const InvalidExpression := "Invalid expression"

  /** The server's module state: the child process handle, null when none
      was spawned, and how many exchanges have created collectors. */
  class App {
    var calculatorProcess: ChildProcess?
    var exchanges: nat

    constructor (process: ChildProcess?)
      ensures calculatorProcess == process && exchanges == 0
    {
      calculatorProcess := process;
      exchanges := 0;
    }

    /**
     * evaluateExpression. With no process the exchange is rejected and
     * nothing is written. Otherwise a collector is attached to each output
     * stream, the expression and a line feed are written; on a write error
     * both collectors are removed and the error rejects the exchange;
     * otherwise the collectors gather what the streams deliver during the
     * response window, are removed, and the gathered text is classified.
     */
    method EvaluateExpression(expression: string, writeError: Option<string>,
                              outChunks: seq<string>, errChunks: seq<string>)
      returns (e: Exchange)
      modifies this, calculatorProcess
      ensures calculatorProcess == old(calculatorProcess)
      ensures old(calculatorProcess) == null ==> e == Rejected(NotRunning) && exchanges == old(exchanges)
      ensures calculatorProcess != null ==>
              calculatorProcess.stdin == old(calculatorProcess.stdin) + [expression + "\n"]
              && calculatorProcess.stdoutListeners == old(calculatorProcess.stdoutListeners)
              && calculatorProcess.stderrListeners == old(calculatorProcess.stderrListeners)
              && e == (if writeError.Some? then Rejected(writeError.value)
                       else Classify(Concat(outChunks), Concat(errChunks)))
    {
      if calculatorProcess == null {
        return Rejected(NotRunning);
      }
      var process := calculatorProcess;
      var output := "";
      var errorOutput := "";
      var dataHandler := DataHandler(exchanges);
      var errorHandler := ErrorHandler(exchanges);
      exchanges := exchanges + 1;

      process.stdoutListeners := process.stdoutListeners + [dataHandler];
      process.stderrListeners := process.stderrListeners + [errorHandler];
      process.stdin := process.stdin + [expression + "\n"];
      RemoveListenerUndoes(old(process.stdoutListeners), dataHandler);
      RemoveListenerUndoes(old(process.stderrListeners), errorHandler);

      if writeError.Some? {
        process.stdoutListeners := RemoveListener(process.stdoutListeners, dataHandler);
        process.stderrListeners := RemoveListener(process.stderrListeners, errorHandler);
        return Rejected(writeError.value);
      }

      var k := 0;
      while k < |outChunks|
        invariant k <= |outChunks|
        invariant output == Concat(outChunks[..k])
      {
        assert outChunks[..k + 1][..k] == outChunks[..k];
        output := output + outChunks[k];
        k := k + 1;
      }
      assert outChunks[..k] == outChunks;
      k := 0;
      while k < |errChunks|
        invariant k <= |errChunks|
        invariant errorOutput == Concat(errChunks[..k])
      {
        assert errChunks[..k + 1][..k] == errChunks[..k];
        errorOutput := errorOutput + errChunks[k];
        k := k + 1;
      }
      assert errChunks[..k] == errChunks;

      process.stdoutListeners := RemoveListener(process.stdoutListeners, dataHandler);
      process.stderrListeners := RemoveListener(process.stderrListeners, errorHandler);
      e := Classify(output, errorOutput);
    }

    /**
     * The POST /calculate handler: 400 with "Invalid expression" unless the
     * body's expression is a non-empty string, in which case nothing reaches
     * the engine; otherwise the exchange decides: 200 with the expression
     * and the result, or 400 with the rejection's message.
     */
    method HandleCalculate(body: Json, writeError: Option<string>,
                           outChunks: seq<string>, errChunks: seq<string>)
      returns (response: Response)
      modifies this, calculatorProcess
      ensures calculatorProcess == old(calculatorProcess)
      ensures !AcceptedExpression(ExpressionOf(body)) ==>
              response == Response(400, ErrorPayload(InvalidExpression))
              && (calculatorProcess != null ==>
                    calculatorProcess.stdin == old(calculatorProcess.stdin)
                    && calculatorProcess.stdoutListeners == old(calculatorProcess.stdoutListeners)
                    && calculatorProcess.stderrListeners == old(calculatorProcess.stderrListeners))
      ensures AcceptedExpression(ExpressionOf(body)) && calculatorProcess != null ==>
              calculatorProcess.stdin == old(calculatorProcess.stdin) + [ExpressionOf(body).value.s + "\n"]
              && calculatorProcess.stdoutListeners == old(calculatorProcess.stdoutListeners)
              && calculatorProcess.stderrListeners == old(calculatorProcess.stderrListeners)
      ensures AcceptedExpression(ExpressionOf(body)) ==>
              var expression := ExpressionOf(body).value.s;
              var e := if calculatorProcess == null then Rejected(NotRunning)
                       else if writeError.Some? then Rejected(writeError.value)
                       else Classify(Concat(outChunks), Concat(errChunks));
              response == (if e.Resolved? then Response(200, ResultPayload(expression, e.token))
                           else Response(400, ErrorPayload(e.message)))
    {
      var expression := ExpressionOf(body);
      if !AcceptedExpression(expression) {
        return Response(400, ErrorPayload(InvalidExpression));
      }
      var e := EvaluateExpression(expression.value.s, writeError, outChunks, errChunks);
      match e
      case Resolved(token) =>
        response := Response(200, ResultPayload(expression.value.s, token));
      case Rejected(message) =>
        response := Response(400, ErrorPayload(message));
    }
  }
}
