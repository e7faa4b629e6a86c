# Expression calculator: engine, server bridge and page controller

This project models the evaluation path of a small web calculator in Dafny. It has three parts:

- **The engine.** A C++ command-line program that reads one expression per line. Its recursive-descent parser supports `+ - * / % ^`. It prints `= value` on standard output, or `Error: message` on standard error.
- **The Node server.** It keeps one engine process alive. For `POST /calculate` it writes the expression to the engine's standard input, collects both output streams for a fixed window, and turns what it collected into a result or an error.
- **The browser controller.** It edits the expression, dispatches keys and buttons, and asks the server for a value. When the server fails it evaluates the expression locally. It keeps a most-recent-first history capped at 50 entries, and escapes the expression column of the PDF export for HTML.

The files, module by module:

- `outcomes.dfy` (`Outcomes`): `Result` and `Option`.
- `decimal.dfy` (`Decimal`): digit strings, their values, and the digits `std::to_string` prints for a natural number.
- `calculator.dfy` (`Engine`): the engine, `backend/src/calculator.cpp`.
  - Specification functions `NumberAt`, `TermAt`, `ExpressionAt` and `Value` give the result of each parse over the text. Each returns the value and the position reached, or the exception the C++ code throws.
  - The methods `ParseNumber`, `ParseTerm`, `ParseExpression` and `Evaluate` keep the source's loops and are proved equal to those functions.
- `calculator_properties.dfy` (`EngineProperties`):
  - what a parse may consume, and where it stops;
  - where "Expected number at position N" is thrown;
  - what `std::stod` accepts.
- `calculator_reference.dfy` (`EngineReference`): an independent reading of the grammar. An expression tree's value is the left fold of each precedence level. The parser is proved to compute exactly that fold over the tree's text, errors included.
- `calculator_examples.dfy` (`EngineExamples`): concrete evaluations, such as left-associative `^` and trailing text that is ignored.
- `repl.dfy` (`Repl`): the engine's `main` loop, `backend/src/main.cpp`.
  - `Session` is everything the program writes for a given input.
  - `Run` and `Loop` keep the source's loop and are proved to write exactly that.
- `jstext.dfy` (`JsText`): JavaScript `trim()`, the white space it removes, and the last element of `split('\n')`.
- `server.dfy` (`Server`), `server.js`:
  - the result pattern `/=\s*([\d\-+.eE]+)/`;
  - the classification of the collected output;
  - listener attach and detach on the child process;
  - the `/calculate` body check and handler.
- `bridge.dfy` (`Bridge`): the engine's output seen through the server's classification. This is where the finding below is proved.
- `frontend.dfy` (`Frontend`): the `Calculator` class of `frontend/app.js`.

The engine's arithmetic is modelled on `real`. `std::pow` is a parameter `pow`, and the text `operator<<` prints for a `double` is a parameter `show`. The evaluator the engine's loop calls is a parameter `eval`; `Repl.Calculator(pow)` instantiates it with the engine. On the page, the server reply is the parameter `backend`, running the generated `Function` is `run`, the rounding `parseFloat(x.toFixed(10))` is `round`, and the clock's text is `timestamp`.

Notes on what the code does:

- **No validator.** The local evaluator runs no validation and no character whitelist before handing the rewritten text to `Function`. Parentheses work there only because JavaScript evaluates them.
- **One local error.** A non-finite local result is not reported as a separate "invalid calculation" error. The catch around it replaces that message with "Invalid expression" (`Frontend.EvaluateLocallyNormalises`).
- **No parentheses in the engine.** The engine does not accept parentheses. `(1)` is rejected with "Expected number at position 0", and a `)` after a number ends the parse (`EngineProperties.ParenthesesNeverConsumed`, `EngineExamples.TrailingTextIgnored`).

## Model

| member | source | states |
|---|---|---|
| Engine.Message | backend/src/calculator.cpp:60-62 | The "expected number" exception's text is "Expected number at position " followed by the decimal digits of the position. |
| Engine.Divide | backend/src/calculator.cpp:23-28 | Division fails exactly when the divisor is zero, and then with the division-by-zero exception. |
| Engine.DivideInverts | backend/src/calculator.cpp:23-28 | A successful quotient multiplied by the divisor gives back the dividend. |
| Engine.Modulo | backend/src/calculator.cpp:30-35 | The remainder fails exactly when the divisor is zero, and then with the modulo-by-zero exception. |
| Engine.ModuloIsRemainder | backend/src/calculator.cpp:30-35 | A successful `fmod` result r has three properties. (a - r) / b is a whole number. r is strictly smaller in magnitude than b. r has the sign of a. |
| Engine.FModIsRemainder | backend/src/calculator.cpp:34 | The truncating-quotient definition of `fmod` meets those three remainder properties. |
| Engine.Apply | backend/src/calculator.cpp:83-91 | Applying an operator fails exactly for `/` or `%` with a zero right operand. |
| Engine.SkipWhitespace | backend/src/calculator.cpp:47-49 | The white-space loop stops at the index `SkipSpaces` gives. That index is the first non-space at or after the start, or the end of the text. |
| Engine.NumberAt | backend/src/calculator.cpp:46-65 | A number that parses ends past the skipped white space, at the end of the lexeme: an optional sign and then the longest run of digits and dots. |
| Engine.Stod | backend/src/calculator.cpp:64 | `std::stod` fails only with invalid_argument. |
| Engine.ParseNumber | backend/src/calculator.cpp:46-65 | parseNumber, with its two loops, returns exactly `NumberAt`: value and new position, or the exception. |
| Engine.ParseTerm | backend/src/calculator.cpp:67-95 | parseTerm, with its loop, returns exactly `TermAt`. |
| Engine.ParseExpression | backend/src/calculator.cpp:97-121 | parseExpression, with its loop, returns exactly `ExpressionAt`. |
| Engine.Evaluate | backend/src/calculator.cpp:41-44 | evaluate returns exactly `Value`: the expression parse from position 0, whatever follows the part it consumed. |
| Decimal.ValueOfRender | backend/src/calculator.cpp:61 | The digits `std::to_string` prints for a position are all decimal digits, and they read back as that position. |
| EngineProperties.NumberMunch | backend/src/calculator.cpp:46-65 | A parsed number consumed only characters the engine knows. No digit or dot follows it. |
| EngineProperties.ExpectedNumberWhere | backend/src/calculator.cpp:60-62 | "Expected number" is thrown exactly when the character after the white space is missing or is neither a sign, a digit nor a dot. The position reported is the index after the white space. |
| EngineProperties.StodNeedsDigit | backend/src/calculator.cpp:64 | A lexeme `std::stod` accepts holds at least one digit. |
| EngineProperties.StodFailsIff | backend/src/calculator.cpp:64 | `std::stod` fails, with "stod", exactly when after the optional sign there is neither a digit nor a `.` followed by a digit. |
| EngineProperties.StodOfDigits | backend/src/calculator.cpp:64 | A run of digits converts to its decimal value. |
| EngineProperties.TermEnds | backend/src/calculator.cpp:67-95 | A parsed term consumed only engine characters. It stops at the end, or at a character that is neither white space nor a term operator (`* / % ^`). |
| EngineProperties.ExpressionEnds | backend/src/calculator.cpp:97-121 | A parsed expression consumed only engine characters. It stops at the end, or at a character that is neither white space nor an operator (`+ - * / % ^`). |
| EngineProperties.ParenthesesNeverConsumed | backend/src/calculator.cpp:97-121 | No parenthesis is ever consumed. |
| EngineProperties.LeadingNonNumberRejected | backend/src/calculator.cpp:41-64 | Text whose first non-space character cannot start a number is rejected with the index of that character. |
| EngineProperties.MessageIdentifies | backend/src/calculator.cpp:23-62 | Different exceptions have different messages. |
| EngineReference.TermParse | backend/src/calculator.cpp:67-95 | Over the text of a term tree followed by a valid term ending, parseTerm gives the left fold of the tree's operators and stops after its text. |
| EngineReference.SumParse | backend/src/calculator.cpp:97-121 | Over the text of an expression tree followed by a valid ending, parseExpression gives the left fold of terms joined by `+`/`-`. |
| EngineReference.EvaluatesTree | backend/src/calculator.cpp:41-121 | For any expression tree followed by text the engine cannot consume, evaluate equals the tree's value. Multiplicative operators bind tighter than `+ -`, both levels associate to the left, and the first failure wins. |
| EngineExamples.PowerFoldsLeft | backend/src/calculator.cpp:67-95 | `2^3^2` is `pow(pow(2,3),2)`: `^` associates to the left. |
| EngineExamples.PowerAfterProduct | backend/src/calculator.cpp:67-95 | `2*3^2` is `pow(6,2)`: `^` has the precedence of `*`. |
| EngineExamples.ProductBeforeSum | backend/src/calculator.cpp:97-121 | `1+2*3` is 7. |
| EngineExamples.DifferenceFoldsLeft | backend/src/calculator.cpp:97-121 | `8-2-1` is 5. |
| EngineExamples.TrailingTextIgnored | backend/src/calculator.cpp:41-44 | `5)` is 5: text after the parse is ignored. |
| EngineExamples.DivisionByZeroFails | backend/src/calculator.cpp:23-28 | `7+1/0` throws "Division by zero". |
| EngineExamples.NoNumberAtStart | backend/src/calculator.cpp:60-62 | "", `(1)` and `  (1)` are rejected at positions 0, 0 and 2. |
| EngineExamples.SpaceThenNumber | backend/src/calculator.cpp:97-121 | `2 3` is 2: a number after white space is not an operator. |
| EngineExamples.SignedOperand | backend/src/calculator.cpp:52-54 | `2*-3` is -6: an operand may carry a sign. |
| EngineExamples.SubtractNegative | backend/src/calculator.cpp:97-121 | `2--3` is 5. |
| EngineExamples.DoubleSignRejected | backend/src/calculator.cpp:64 | `--3` reaches `std::stod` as "-" and fails with "stod". |
| EngineExamples.DigitAt | backend/src/calculator.cpp:46-65 | A single digit followed by no digit or dot parses to its value. |
| Repl.Loop | backend/src/main.cpp:17-34 | The loop writes exactly `Replies` for its input and reads exactly `LinesRead` lines: a prompt before every read, then the reply to the line. |
| Repl.Run | backend/src/main.cpp:7-37 | main writes the banner and then the loop's output, which is `Session`. |
| Repl.QuitEndsLoop | backend/src/main.cpp:21-24 | Once "exit" or "quit" has been read, later input changes nothing that is written or read. |
| Repl.ReadsUntilQuit | backend/src/main.cpp:17-34 | The loop reads up to and including the first quit line, and every line when there is none. |
| Repl.QuitWordsOnly | backend/src/main.cpp:21 | Only the exact lines "exit" and "quit" end the loop. "Exit", "exit " and " quit" do not. |
| Repl.MessageOneLine | backend/src/main.cpp:32 | No exception message holds a line feed. |
| Repl.EvaluatedLineAnswered | backend/src/main.cpp:28-33 | An evaluated line gets exactly one line: "= value" on standard output if evaluate returned, or "Error: message" on standard error if it threw. |
| Repl.SpacesLineEvaluated | backend/src/main.cpp:26 | A line of spaces is not empty, so it is evaluated. |
| Repl.SpacesLineRejected | backend/src/main.cpp:26-33 | A line of spaces is answered on standard error with "Expected number at position" and its length. |
| JsText.TrimShape | server.js:72 | `trim()` leaves no white space at either end, and it removes only white space. |
| JsText.TrimUnique | server.js:72 | Whatever splits a text into white space, a trimmed core and white space, that core is its `trim()`. |
| JsText.TrimIdempotent | server.js:74 | Trimming twice is trimming once. |
| JsText.TrimEmpty | frontend/app.js:141 | `trim()` gives "" exactly when the text is all white space. |
| JsText.LastLineShape | server.js:74-75 | The last element of `split('\n')` holds no line feed, and what precedes it is empty or ends with one. |
| JsText.LastLineAfter | server.js:74-75 | The last line of `a + "\n" + b` is `b` when `b` has no line feed. |
| Server.MatchAtIff | server.js:78 | With `=` at i and white space up to j, the pattern matches at i with capture t exactly when t is the maximal non-empty run of `[\d\-+.eE]` at j. |
| Server.MatchFromLeftmost | server.js:78 | `match` returns the capture of the leftmost index where the pattern matches, and null when it matches nowhere. |
| Server.StderrWins | server.js:71-83 | Any standard-error text rejects with that text trimmed. A resolved exchange had no standard-error text and some standard output, and its token is a match on the last line. |
| Server.BlankOutputUnparsed | server.js:73-83 | Standard output of white space alone is rejected with "Could not parse result". |
| Server.SilenceIsNoResponse | server.js:84-86 | "No response from calculator" comes exactly from two silent streams, or from standard-error text that trims to those words. |
| Server.EarlierLinesIgnored | server.js:74-75 | Only the last line of the trimmed output is examined. Lines before it are ignored whatever they hold. |
| Server.AnswerLineRead | server.js:74-80 | Output that is exactly one "= value" line resolves with the value's text. |
| Server.ClassifyAnswerRefines | server.js:66-87 | The corrected classification agrees with the written one when there is standard-error text, when there is no output, and when the last line matches. |
| Server.RemoveListenerUndoes | server.js:54-69 | Removing a listener undoes adding it, and removing one that is absent changes nothing. |
| Server.AcceptedExpressionIff | server.js:94-98 | The body check accepts exactly a non-empty string `expression`. A string of spaces is accepted; "", a missing property and a number are refused. |
| Server.App.EvaluateExpression | server.js:36-90 | With no process: rejected with "Calculator process not running", nothing written. Otherwise: the expression and a line feed are written; both stream listener lists are back as they were; a write error rejects with that error; else the collected text is classified with `Server.Classify`, the extraction as written. |
| Server.App.HandleCalculate | server.js:93-111 | A refused body gives 400 with "Invalid expression", writes nothing to the engine and leaves its listener lists as they were. An accepted body with a process writes the expression and a line feed to its standard input and leaves both listener lists as they were. The response is 200 with the expression and the token when the exchange resolves, 400 with its message when it rejects. |
| Bridge.PromptHidesAnswer | server.js:73-83 | As written, every successful engine answer ("= v", a line feed, then the next prompt "> ") is classified "Could not parse result", whatever came before it. |
| Bridge.AnswerReadBack | server.js:73-83 | With the corrected extraction, the engine's answer text resolves to the printed value. This holds in the steady state and after the banner. |
| Frontend.Unshifted | frontend/app.js:199-213 | The new item comes first and the old items follow in order. The length grows by one below 50 and stays the same at 50 or more, dropping the oldest. |
| Frontend.UnshiftedBounded | frontend/app.js:206-209 | A history of at most 50 stays at most 50: it grows by one until it reaches 50, then stays there. |
| Frontend.AddedAllNewestFirst | frontend/app.js:199-213 | After any number of additions to an empty history, it holds the last 50 items, newest first. |
| Frontend.Calculator.AddToHistory | frontend/app.js:199-213 | addToHistory leaves the history as `Unshifted` of the old one and changes nothing else. |
| Frontend.Dropped | frontend/app.js:127 | `slice(0, -1)` drops the last character and is a prefix. The empty expression stays empty. |
| Frontend.DroppedUndoesAppend | frontend/app.js:120-131 | Deleting after appending one character restores the expression. |
| Frontend.Calculator.AddToExpression | frontend/app.js:120-124 | The text is appended, the status becomes "Ready", and nothing else changes. |
| Frontend.Calculator.DeleteLastChar | frontend/app.js:126-131 | The last character goes, the result is cleared and the status becomes "Ready". History and dark mode are unchanged. |
| Frontend.Calculator.ClearExpression | frontend/app.js:133-138 | The expression and result become empty and the status "Ready". History and dark mode are unchanged. |
| Frontend.Calculator.ToggleDarkMode | frontend/app.js:53-57 | The flag flips and nothing else changes. |
| Frontend.Calculator.constructor | frontend/app.js:2-15 | The page starts with an empty expression, the saved history and dark-mode preference, and the status "Ready". |
| Frontend.KeyCommandIff | frontend/app.js:104-118 | Enter calculates, Backspace deletes and Escape clears, each exactly. Any other key whose name has a character of `[0-9+\-*/.%^]` is appended whole. All other keys do nothing. |
| Frontend.KeyExamples | frontend/app.js:116 | "F5" is appended as "F5", "7" is appended, and "a" does nothing. |
| Frontend.ButtonCommandPriority | frontend/app.js:86-102 | The clear and delete actions win over the equals class, and the equals class wins over the value. A value is appended only when it is non-empty. |
| Frontend.Calculator.HandleKeyboard | frontend/app.js:104-118 | A key has exactly the effect of the command `KeyCommand` picks for it. |
| Frontend.Calculator.HandleButtonClick | frontend/app.js:86-102 | A click has exactly the effect of the command `ButtonCommand` picks for its button. |
| Frontend.Calculator.Calculate | frontend/app.js:140-157 | A blank expression only sets "Empty expression". A result is shown, added to the history, and reported as "Success". A failure shows "Error", reports "Error: " and its message, and leaves the history alone. |
| Frontend.CalculateOutcomeCases | frontend/app.js:140-181 | Nothing is sent exactly when the expression is all white space. A server answer is used as it is. On any server failure the local evaluation decides, and a failure there is always "Invalid expression". |
| Frontend.Rewrite | frontend/app.js:186 | The rewritten text has no `^`. |
| Frontend.RewriteAppend | frontend/app.js:186 | The rewrite distributes over concatenation: it works one character at a time. |
| Frontend.RewriteKeeps | frontend/app.js:186 | Text without `^` is unchanged. |
| Frontend.RewriteLength | frontend/app.js:186 | The text grows by one character per `^`. |
| Frontend.EvaluateLocallyNormalises | frontend/app.js:183-197 | Local evaluation fails only with "Invalid expression". It succeeds exactly when the generated function returns a finite value, and the source it runs holds no `^`. |
| Frontend.EscapeHtmlSafe | frontend/app.js:367-376 | The escaped text holds none of `< > " '`. |
| Frontend.EscapeHtmlRoundTrip | frontend/app.js:367-376 | Decoding the five entities gives back the original text, so escaping loses nothing. |

## Findings

| source | as written | input that shows it | evidently intended | confidence | as-written member | corrected member |
|---|---|---|---|---|---|---|
| server.js:73-83 | The server reads the result from the last line of the trimmed standard output. After answering, the engine immediately writes the next prompt "> " (backend/src/main.cpp:17-19,30). `std::cin` is tied to `std::cout`, so that prompt is flushed before the engine waits. The last line is therefore ">", the pattern never matches, and every successful evaluation is rejected with "Could not parse result". | The expression `2+3`: the engine writes "= 5\n> ", whose last trimmed line is ">". | Read the value from the "= v" line: the last line that matches the pattern. | not executed | Bridge.PromptHidesAnswer (about Server.Classify) | Bridge.AnswerReadBack (about Server.ClassifyAnswer) |

With the code as written, the page never gets a value from the server. Every request ends with a status 400, so the page always falls back to local evaluation.

`Server.App.EvaluateExpression` and `Server.App.HandleCalculate` model the code as written and classify with `Server.Classify`. So, by `Bridge.PromptHidesAnswer`, the handler answers every successful engine reply with 400 and "Could not parse result". The corrected `Server.ClassifyAnswer` stands beside it. `Server.ClassifyAnswerRefines` shows it agrees with the written classification everywhere except when the last line has no match.

## Left out

- Floating point: all arithmetic is on exact reals. `double` rounding, overflow to infinity and NaN are not modelled.
  - `std::stod` is modelled as the exact decimal value of the longest valid prefix of the lexeme. Its rounding and its out_of_range error are not modelled.
  - `std::fmod` is the exact truncated remainder.
  - `std::pow` is the parameter `pow`.
- Engine.Stod: exponents and hexadecimal forms cannot occur. The lexeme holds only a sign, digits and dots, so only decimal forms are modelled.
- Number formatting is not modelled: the text `operator<<` prints for a `double` is the parameter `show`.
- Repl.Loop: end of input is modelled as the end of the line sequence, where the model stops. The source never stops at end of input. When the input ends with a line feed, the next `std::getline` erases `input` and extracts nothing, so the line is empty and skipped. Every later call fails and leaves it empty, so the source prints "> " without end and evaluates nothing more. When the last line has no line feed, `input` keeps that line, and the source re-evaluates it without end.
- The calculator.h header and the object's constructor and destructor hold no logic and are not modelled.
- The server's process supervision is not modelled: `spawn`, the start-up delay of `startCalculator` and the shutdown handler are left out. `spawn` assigns the handle before any error event, and the server listens only after start-up, so requests see a non-null handle even when the process failed. The `null` branch is modelled as the source writes it. A failed process reaches the exchange as a write error on standard input (`writeError`) or as silence on both streams ("No response from calculator").
- Server.App.EvaluateExpression: the 200 ms response window and concurrent exchanges sharing one process are not modelled. The window is modelled as the chunks each stream delivers during it.
- `parseFloat` of the captured token is not modelled: the result payload carries the token text.
- `/health`, express, CORS and static file serving are outside the model.
- The page's DOM work is not modelled: rendering, `localStorage` persistence, the status colours, `preventDefault`, the history click handler and the PDF export.
- The on-page history is rendered into `innerHTML` without escaping (frontend/app.js:229-231). Only the expression column of the PDF export goes through `escapeHtml` (frontend/app.js:266). The result and timestamp columns do not. Both are DOM work and are not modelled.
  - `loadHistory` and `loadDarkModePreference` become the constructor's parameters.
- Frontend.Calculator.Calculate: the fetch and the JSON decoding are one parameter `backend`. It is either an answer or a failure; a failure covers a network error, a status that is not OK, and a body that is not JSON.
- Frontend.Calculator.Calculate: runs without interleaving. Across the real `await`, other handlers could change the expression before it is stored in the history.
- Frontend.Calculator.Calculate: an exception thrown by saving or rendering the history would turn a success into "Error". This is not modelled.
- Frontend.EvaluateLocally: JavaScript evaluation of the generated function is the parameter `run`, which returns a value with its finiteness or throws. `toFixed(10)` and `parseFloat` are the parameter `round`.
- Strings are sequences of whole characters, not UTF-16 code units.
