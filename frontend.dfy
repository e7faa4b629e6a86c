/**
 * The calculator page's controller: the expression being edited, the
 * most-recent-first history of at most 50 results, the dark-mode flag, the
 * result display and the status line; key and button dispatch; the
 * calculation with its fallback from the server to local evaluation; and
 * the HTML escaping of the expression column of the PDF export.
 *
 * The server is the parameter `backend` (what the request came to), the
 * Function constructor that runs the rewritten expression is `run`, the
 * rounding parseFloat(result.toFixed(10)) is `round`, and the clock's
 * toLocaleTimeString() is `timestamp`.
 */
module Frontend {
  import opened Outcomes
  import opened JsText

  // ---------------------------------------------------------------------------
  // History

  datatype HistoryItem = HistoryItem(expression: string, result: real, timestamp: string)

  const HistoryLimit := 50

  /** The history after addToHistory: unshift the item, then pop the last
      item once the list is longer than the limit. */
  function Unshifted(history: seq<HistoryItem>, item: HistoryItem): (h: seq<HistoryItem>)
    ensures h != [] && h[0] == item
    ensures |h| == if |history| < HistoryLimit then |history| + 1 else |history|
    ensures h[1..] == history[..|h| - 1]
  {
    var longer := [item] + history;
    assert longer[1..] == history;
    if |longer| > HistoryLimit then longer[..|longer| - 1] else longer
  }

  /** A history within the limit stays within it, reaching it after enough
      additions and never passing it. */
  lemma {:induction false} UnshiftedBounded(history: seq<HistoryItem>, item: HistoryItem)
    requires |history| <= HistoryLimit
    ensures |Unshifted(history, item)| <= HistoryLimit
    ensures |Unshifted(history, item)| == if |history| == HistoryLimit then HistoryLimit else |history| + 1
  {
  }

  /** The history after several additions, the last addition first. */
  function AddedAll(history: seq<HistoryItem>, items: seq<HistoryItem>): seq<HistoryItem>
    decreases |items|
  {
    if items == [] then history else Unshifted(AddedAll(history, items[..|items| - 1]), items[|items| - 1])
  }

  function Reversed(items: seq<HistoryItem>): (r: seq<HistoryItem>)
    ensures |r| == |items|
    decreases |items|
  {
    if items == [] then [] else [items[|items| - 1]] + Reversed(items[..|items| - 1])
  }

  /** Most recent first: after adding items to an empty history, the history
      holds the last 50 of them, newest first. */
  lemma {:induction false} AddedAllNewestFirst(items: seq<HistoryItem>)
    ensures |AddedAll([], items)| == if |items| < HistoryLimit then |items| else HistoryLimit
    ensures AddedAll([], items) == Reversed(items)[..|AddedAll([], items)|]
    decreases |items|
  {
    if items != [] {
      var init := items[..|items| - 1];
      AddedAllNewestFirst(init);
      var before := AddedAll([], init);
      var after := Unshifted(before, items[|items| - 1]);
      assert after[1..] == Reversed(init)[..|after| - 1];
      assert after == [items[|items| - 1]] + after[1..];
      assert Reversed(items) == [items[|items| - 1]] + Reversed(init);
    }
  }

  // ---------------------------------------------------------------------------
  // Editing the expression

  /** expression.slice(0, -1): the last character goes; nothing stays nothing. */
  function Dropped(expression: string): (r: string)
    ensures |r| == if expression == [] then 0 else |expression| - 1
    ensures r == expression[..|r|]
  {
    if expression == [] then [] else expression[..|expression| - 1]
  }

  /** Deleting undoes appending one character. */
  lemma {:induction false} DroppedUndoesAppend(expression: string, c: char)
    ensures Dropped(expression + [c]) == expression
  {
    assert (expression + [c])[..|expression|] == expression;
  }

  // ---------------------------------------------------------------------------
  // Key and button dispatch

  /** What a key or a button asks the controller to do. */
  datatype Command = Calculate | Delete | Clear | Append(text: string) | Nothing

  /** The class [0-9+\-*\/.%^] the key test uses. */
  predicate IsKeyChar(c: char) {
    '0' <= c <= '9' || c == '+' || c == '-' || c == '*' || c == '/' || c == '.' || c == '%' || c == '^'
  }

  /** The regular-expression test: some character of the key's name is in the class. */
  predicate HasKeyChar(key: string) {
    exists i :: 0 <= i < |key| && IsKeyChar(key[i])
  }

  /** handleKeyboard's decision on event.key. */
  function KeyCommand(key: string): Command {
    if key == "Enter" then Calculate
    else if key == "Backspace" then Delete
    else if key == "Escape" then Clear
    else if HasKeyChar(key) then Append(key)
    else Nothing
  }

  /** Enter, Backspace and Escape are the three named keys; any other key
      whose name holds a class character is appended whole; the rest do
      nothing. */
  lemma {:induction false} KeyCommandIff(key: string)
    ensures KeyCommand(key) == Calculate <==> key == "Enter"
    ensures KeyCommand(key) == Delete <==> key == "Backspace"
    ensures KeyCommand(key) == Clear <==> key == "Escape"
    ensures KeyCommand(key).Append? <==> HasKeyChar(key) && KeyCommand(key) == Append(key)
    ensures KeyCommand(key) == Nothing <==> !HasKeyChar(key) && key != "Enter" && key != "Backspace" && key != "Escape"
  {
    assert !HasKeyChar("Enter") by { assert !IsKeyChar("Enter"[0]); }
    assert !HasKeyChar("Backspace");
    assert !HasKeyChar("Escape");
  }

  /** A function key is appended by name, a letter is ignored. */
  lemma {:induction false} KeyExamples()
    ensures KeyCommand("F5") == Append("F5")
    ensures KeyCommand("7") == Append("7")
    ensures KeyCommand("a") == Nothing
  {
    assert IsKeyChar("F5"[1]);
    assert IsKeyChar("7"[0]);
  }

  /** What a click finds on the button it lands in. */
  datatype Button = Button(action: Option<string>, isEquals: bool, value: Option<string>)

  /** handleButtonClick's decision: no button, then clear, delete, equals and
      a non-empty value, in that order. */
  function ButtonCommand(button: Option<Button>): Command {
    if button.None? then Nothing
    else
      var b := button.value;
      if b.action == Some("clear") then Clear
      else if b.action == Some("delete") then Delete
      else if b.isEquals then Calculate
      else if b.value.Some? && b.value.value != "" then Append(b.value.value)
      else Nothing
  }

  /** The action attribute overrides the equals class and the value, and the
      equals class overrides the value. */
  lemma {:induction false} ButtonCommandPriority(b: Button)
    ensures b.action == Some("clear") ==> ButtonCommand(Some(b)) == Clear
    ensures b.action == Some("delete") ==> ButtonCommand(Some(b)) == Delete
    ensures ButtonCommand(Some(b)) == Calculate <==>
            b.isEquals && b.action != Some("clear") && b.action != Some("delete")
    ensures ButtonCommand(Some(b)).Append? <==>
            !b.isEquals && b.action != Some("clear") && b.action != Some("delete")
            && b.value.Some? && b.value.value != ""
    ensures ButtonCommand(Some(b)).Append? ==> ButtonCommand(Some(b)).text == b.value.value
  {
  }

  // ---------------------------------------------------------------------------
  // Local evaluation

  /** expression.replace(/\^/g, '**'). */
  function Rewrite(s: string): (r: string)
    ensures '^' !in r
    decreases |s|
  {
    if s == [] then []
    else (if s[0] == '^' then "**" else [s[0]]) + Rewrite(s[1..])
  }

  /** The rewrite works character by character: it distributes over
      concatenation, and a text without '^' is left as it is. */
  lemma {:induction false} RewriteAppend(a: string, b: string)
    ensures Rewrite(a + b) == Rewrite(a) + Rewrite(b)
    decreases |a|
  {
    if a != [] {
      assert (a + b)[0] == a[0];
      assert (a + b)[1..] == a[1..] + b;
      RewriteAppend(a[1..], b);
    } else {
      assert a + b == b;
    }
  }

  lemma {:induction false} RewriteKeeps(s: string)
    requires '^' !in s
    ensures Rewrite(s) == s
    decreases |s|
  {
    if s != [] {
      assert s[0] in s;
      assert forall k :: 0 <= k < |s| - 1 ==> s[1..][k] == s[k + 1];
      RewriteKeeps(s[1..]);
    }
  }

  /** Each '^' becomes two characters and nothing else changes length. */
  lemma {:induction false} RewriteLength(s: string)
    ensures |Rewrite(s)| == |s| + multiset(s)['^']
    decreases |s|
  {
    if s != [] {
      RewriteLength(s[1..]);
      assert s == [s[0]] + s[1..];
      assert multiset(s) == multiset([s[0]]) + multiset(s[1..]);
    }
  }

  /** The text handed to the Function constructor. */
  function LocalSource(expression: string): string {
    "'use strict'; return (" + Rewrite(expression) + ")"
  }

  /** What running the generated function does. */
  datatype JsRun = Threw | Returned(value: real, finite: bool)

  const InvalidExpression := "Invalid expression"

  /** evaluateLocally: a throw, or a value isFinite rejects (whose "Invalid
      calculation" the catch replaces), is "Invalid expression"; a finite
      value is rounded. */
  function EvaluateLocally(expression: string, run: string -> JsRun, round: real -> real): Result<real, string> {
    var r := run(LocalSource(expression));
    if r.Threw? || !r.finite then Err(InvalidExpression) else Ok(round(r.value))
  }

  /** Local evaluation only ever fails with "Invalid expression", runs text
      without '^', and succeeds exactly when the run returns a finite value. */
  lemma {:induction false} EvaluateLocallyNormalises(expression: string, run: string -> JsRun, round: real -> real)
    ensures EvaluateLocally(expression, run, round).Err? ==> EvaluateLocally(expression, run, round).error == InvalidExpression
    ensures EvaluateLocally(expression, run, round).Ok? <==>
            run(LocalSource(expression)).Returned? && run(LocalSource(expression)).finite
    ensures '^' !in LocalSource(expression)
  {
    var r := Rewrite(expression);
    assert '^' !in "'use strict'; return (";
    assert LocalSource(expression) == "'use strict'; return (" + r + ")";
  }

  /** What the request to the server came to: an answer from a response
      with an OK status, or anything else (a failed fetch, a status that is
      not OK, a body that is not JSON). */
  datatype Backend = Answered(result: real) | Failed

  /** sendToBackend: the server's answer, or local evaluation on any failure. */
  function SendToBackend(expression: string, backend: Backend, run: string -> JsRun, round: real -> real): Result<real, string> {
    if backend.Answered? then Ok(backend.result) else EvaluateLocally(expression, run, round)
  }

  /** The result calculate works with: None when the expression is blank
      and nothing is sent. */
  function CalculateOutcome(expression: string, backend: Backend, run: string -> JsRun, round: real -> real): Option<Result<real, string>> {
    if Trim(expression) == "" then None else Some(SendToBackend(expression, backend, run, round))
  }

  /** A blank expression, white space alone included, is never sent; any
      other is answered by the server or else locally, and then fails only
      with "Invalid expression". */
  lemma {:induction false} CalculateOutcomeCases(expression: string, backend: Backend, run: string -> JsRun, round: real -> real)
    ensures CalculateOutcome(expression, backend, run, round).None? <==> AllSpace(expression)
    ensures backend.Answered? && !AllSpace(expression) ==> CalculateOutcome(expression, backend, run, round) == Some(Ok(backend.result))
    ensures CalculateOutcome(expression, backend, run, round).Some? && CalculateOutcome(expression, backend, run, round).value.Err? ==>
            backend.Failed? && CalculateOutcome(expression, backend, run, round).value.error == InvalidExpression
    ensures CalculateOutcome(expression, backend, run, round).Some? && backend.Failed? ==>
            CalculateOutcome(expression, backend, run, round).value == EvaluateLocally(expression, run, round)
  {
    TrimEmpty(expression);
    EvaluateLocallyNormalises(expression, run, round);
  }

  // ---------------------------------------------------------------------------
  // Escaping history entries

  function EscapeChar(c: char): string {
    match c
    case '&' => "&amp;"
    case '<' => "&lt;"
    case '>' => "&gt;"
    case '"' => "&quot;"
    case '\'' => "&#039;"
    case _ => [c]
  }

  /** escapeHtml: each of & < > " ' becomes its entity. */
  function EscapeHtml(text: string): string
    decreases |text|
  {
    if text == [] then [] else EscapeChar(text[0]) + EscapeHtml(text[1..])
  }

  /** The output holds none of < > " ' . */
  lemma {:induction false} EscapeHtmlSafe(text: string)
    ensures forall k :: 0 <= k < |EscapeHtml(text)| ==> EscapeHtml(text)[k] !in "<>\"'"
    decreases |text|
  {
    if text != [] {
      EscapeHtmlSafe(text[1..]);
      var e := EscapeChar(text[0]);
      assert forall k :: 0 <= k < |e| ==> e[k] !in "<>\"'";
    }
  }

  /** Reading the entities back: the inverse of escapeHtml. */
  function Unescape(s: string): string
    decreases |s|
  {
    if s == [] then []
    else if |s| >= 5 && s[..5] == "&amp;" then "&" + Unescape(s[5..])
    else if |s| >= 4 && s[..4] == "&lt;" then "<" + Unescape(s[4..])
    else if |s| >= 4 && s[..4] == "&gt;" then ">" + Unescape(s[4..])
    else if |s| >= 6 && s[..6] == "&quot;" then "\"" + Unescape(s[6..])
    else if |s| >= 6 && s[..6] == "&#039;" then "'" + Unescape(s[6..])
    else [s[0]] + Unescape(s[1..])
  }

  /** Each entity reads back as its character. */
  lemma {:induction false} UnescapeEntity(c: char, rest: string)
    requires c in "&<>\"'"
    ensures Unescape(EscapeChar(c) + rest) == [c] + Unescape(rest)
  {
    var e := EscapeChar(c);
    var s := e + rest;
    assert s[..|e|] == e && s[|e|..] == rest;
    assert s[1] == e[1];
  }

  /** Any other character is read back as itself. */
  lemma {:induction false} UnescapePlain(c: char, rest: string)
    requires c !in "&<>\"'"
    ensures Unescape([c] + rest) == [c] + Unescape(rest)
  {
    var s := [c] + rest;
    assert s[0] == c && s[1..] == rest;
    assert forall n :: 1 <= n <= |s| ==> s[..n][0] == c;
  }

  /** Nothing is lost: every other character is left unchanged. */
  lemma {:induction false} EscapeHtmlRoundTrip(text: string)
    ensures Unescape(EscapeHtml(text)) == text
    decreases |text|
  {
    if text != [] {
      EscapeHtmlRoundTrip(text[1..]);
      var c, rest := text[0], EscapeHtml(text[1..]);
      assert EscapeHtml(text) == EscapeChar(c) + rest;
      assert Unescape(EscapeChar(c) + rest) == [c] + Unescape(rest) by {
        if c in "&<>\"'" {
          UnescapeEntity(c, rest);
        } else {
          assert EscapeChar(c) == [c];
          UnescapePlain(c, rest);
        }
      }
      assert text == [c] + text[1..];
    }
  }

  // ---------------------------------------------------------------------------
  // The controller

  /** What the result field shows. */
  datatype Display = Shown(value: real) | Text(text: string)

  const Ready := "Ready"
  const EmptyExpression := "Empty expression"
  const Success := "Success"

  class Calculator {
    var expression: string
    var history: seq<HistoryItem>
    var darkMode: bool
    var display: Display
    var status: string

    /** The state after loading the saved history and dark-mode preference. */
    constructor (savedHistory: seq<HistoryItem>, savedDarkMode: bool)
      ensures expression == "" && history == savedHistory && darkMode == savedDarkMode
      ensures display == Text("") && status == Ready
    {
      expression := "";
      history := savedHistory;
      darkMode := savedDarkMode;
      display := Text("");
      status := Ready;
    }

    twostate predicate Kept()
      reads this
    {
      history == old(history) && darkMode == old(darkMode)
    }

    /** toggleDarkMode: the flag flips, so two toggles restore it. */
    method ToggleDarkMode()
      modifies this
      ensures darkMode == !old(darkMode)
      ensures expression == old(expression) && history == old(history)
      ensures display == old(display) && status == old(status)
    {
      darkMode := !darkMode;
    }

    /** addToHistory. */
    method AddToHistory(expr: string, result: real, timestamp: string)
      modifies this
      ensures history == Unshifted(old(history), HistoryItem(expr, result, timestamp))
      ensures expression == old(expression) && darkMode == old(darkMode)
      ensures display == old(display) && status == old(status)
    {
      var item := HistoryItem(expr, result, timestamp);
      history := [item] + history;
      if |history| > HistoryLimit {
        history := history[..|history| - 1];
      }
    }

    twostate predicate Appended(text: string)
      reads this
    {
      expression == old(expression) + text && display == old(display) && status == Ready && Kept()
    }

    /** addToExpression: the text is appended unchanged. */
    method AddToExpression(text: string)
      modifies this
      ensures Appended(text)
    {
      expression := expression + text;
      status := Ready;
    }

    twostate predicate Deleted()
      reads this
    {
      expression == Dropped(old(expression)) && display == Text("") && status == Ready && Kept()
    }

    /** deleteLastChar. */
    method DeleteLastChar()
      modifies this
      ensures Deleted()
    {
      if expression != [] {
        expression := expression[..|expression| - 1];
      }
      display := Text("");
      status := Ready;
    }

    twostate predicate Cleared()
      reads this
    {
      expression == "" && display == Text("") && status == Ready && Kept()
    }

    /** clearExpression. */
    method ClearExpression()
      modifies this
      ensures Cleared()
    {
      expression := "";
      display := Text("");
      status := Ready;
    }

    twostate predicate Calculated(backend: Backend, run: string -> JsRun, round: real -> real, timestamp: string)
      reads this
    {
      expression == old(expression) && darkMode == old(darkMode)
      && match CalculateOutcome(old(expression), backend, run, round)
         case None =>
           history == old(history) && display == old(display) && status == EmptyExpression
         case Some(Ok(v)) =>
           history == Unshifted(old(history), HistoryItem(old(expression), v, timestamp))
           && display == Shown(v) && status == Success
         case Some(Err(m)) =>
           history == old(history) && display == Text("Error") && status == "Error: " + m
    }

    /** calculate: a blank expression is refused before anything is sent; a
        result is shown and added to the history; a failure shows "Error"
        and leaves the history alone. */
    method Calculate(backend: Backend, run: string -> JsRun, round: real -> real, timestamp: string)
      modifies this
      ensures Calculated(backend, run, round, timestamp)
    {
      if Trim(expression) == "" {
        status := EmptyExpression;
        return;
      }
      status := "Calculating...";
      var result := SendToBackend(expression, backend, run, round);
      match result
      case Ok(v) =>
        display := Shown(v);
        AddToHistory(expression, v, timestamp);
        status := Success;
      case Err(m) =>
        status := "Error: " + m;
        display := Text("Error");
    }

    twostate predicate Performed(command: Command, backend: Backend, run: string -> JsRun, round: real -> real, timestamp: string)
      reads this
    {
      match command
      case Calculate => Calculated(backend, run, round, timestamp)
      case Delete => Deleted()
      case Clear => Cleared()
      case Append(text) => Appended(text)
      case Nothing =>
        expression == old(expression) && display == old(display) && status == old(status) && Kept()
    }

    method Perform(command: Command, backend: Backend, run: string -> JsRun, round: real -> real, timestamp: string)
      modifies this
      ensures Performed(command, backend, run, round, timestamp)
    {
      match command
      case Calculate => Calculate(backend, run, round, timestamp);
      case Delete => DeleteLastChar();
      case Clear => ClearExpression();
      case Append(text) => AddToExpression(text);
      case Nothing =>
    }

    /** handleKeyboard. */
    method HandleKeyboard(key: string, backend: Backend, run: string -> JsRun, round: real -> real, timestamp: string)
      modifies this
      ensures Performed(KeyCommand(key), backend, run, round, timestamp)
    {
      Perform(KeyCommand(key), backend, run, round, timestamp);
    }

    /** handleButtonClick; `button` is the .btn element the click landed in, if any. */
    method HandleButtonClick(button: Option<Button>, backend: Backend, run: string -> JsRun, round: real -> real, timestamp: string)
      modifies this
      ensures Performed(ButtonCommand(button), backend, run, round, timestamp)
    {
      Perform(ButtonCommand(button), backend, run, round, timestamp);
    }
  }
}
