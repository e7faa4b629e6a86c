/**
 * The JavaScript string operations the server and the page rely on: the
 * white space that String.prototype.trim and the regular-expression class
 * \s recognise (WhiteSpace and LineTerminator of ECMAScript), trim(), and
 * the last piece of split('\n').
 */
module JsText {

  /** WhiteSpace or LineTerminator: what trim() removes and \s matches. */
  predicate IsJsSpace(c: char) {
    c == '\t' || c == '\n' || c == '\U{000B}' || c == '\U{000C}' || c == '\r' || c == ' '
    || c == '\U{00A0}' || c == '\U{1680}' || ('\U{2000}' <= c <= '\U{200A}')
    || c == '\U{2028}' || c == '\U{2029}' || c == '\U{202F}' || c == '\U{205F}'
    || c == '\U{3000}' || c == '\U{FEFF}'
  }

  predicate AllSpace(s: string) {
    forall k :: 0 <= k < |s| ==> IsJsSpace(s[k])
  }

  /** The first index at or after i that holds no white space (|s| if none). */
  function LeadEnd(s: string, i: nat): (j: nat)
    requires i <= |s|
    ensures i <= j <= |s|
    decreases |s| - i
  {
    if i < |s| && IsJsSpace(s[i]) then LeadEnd(s, i + 1) else i
  }

  /** The end of s once the white space after index lo is cut off. */
  function TailStart(s: string, lo: nat, j: nat): (k: nat)
    requires lo <= j <= |s|
    ensures lo <= k <= j
    decreases j
  {
    if lo < j && IsJsSpace(s[j - 1]) then TailStart(s, lo, j - 1) else j
  }

  /** String.prototype.trim. */
  function Trim(s: string): string {
    var a := LeadEnd(s, 0);
    s[a..TailStart(s, a, |s|)]
  }

  lemma {:induction false} LeadEndStops(s: string, i: nat)
    requires i <= |s|
    ensures forall k :: i <= k < LeadEnd(s, i) ==> IsJsSpace(s[k])
    ensures LeadEnd(s, i) < |s| ==> !IsJsSpace(s[LeadEnd(s, i)])
    decreases |s| - i
  {
    if i < |s| && IsJsSpace(s[i]) {
      LeadEndStops(s, i + 1);
    }
  }

  lemma {:induction false} TailStartStops(s: string, lo: nat, j: nat)
    requires lo <= j <= |s|
    ensures forall k :: TailStart(s, lo, j) <= k < j ==> IsJsSpace(s[k])
    ensures lo < TailStart(s, lo, j) ==> !IsJsSpace(s[TailStart(s, lo, j) - 1])
    decreases j
  {
    if lo < j && IsJsSpace(s[j - 1]) {
      TailStartStops(s, lo, j - 1);
    }
  }

  /** A text with no white space at either end: what trim() produces. */
  predicate Trimmed(t: string) {
    t == [] || (!IsJsSpace(t[0]) && !IsJsSpace(t[|t| - 1]))
  }

  /** trim() cuts white space off both ends and nothing else. */
  lemma {:induction false} TrimShape(s: string)
    ensures Trimmed(Trim(s))
    ensures exists p, q :: AllSpace(p) && AllSpace(q) && s == p + Trim(s) + q
  {
    var a := LeadEnd(s, 0);
    var b := TailStart(s, a, |s|);
    LeadEndStops(s, 0);
    TailStartStops(s, a, |s|);
    assert s == s[..a] + s[a..b] + s[b..];
    assert AllSpace(s[..a]) && AllSpace(s[b..]) by {
      assert forall k :: 0 <= k < a ==> s[..a][k] == s[k];
      assert forall k :: 0 <= k < |s| - b ==> s[b..][k] == s[b + k];
    }
  }

  /** The white space at either end is all trim() removes: whatever splits s
      into space, a trimmed core and space, that core is trim(s). */
  lemma {:induction false} TrimUnique(s: string, p: string, t: string, q: string)
    requires s == p + t + q && AllSpace(p) && AllSpace(q) && Trimmed(t)
    ensures Trim(s) == t
  {
    var a := LeadEnd(s, 0);
    LeadEndStops(s, 0);
    assert forall k :: 0 <= k < |p| ==> s[k] == p[k];
    assert forall k :: |p| + |t| <= k < |s| ==> s[k] == q[k - |p| - |t|];
    if t == [] {
      assert a == |s|;
    } else {
      assert s[|p|] == t[0];
      assert a == |p|;
      var b := TailStart(s, a, |s|);
      TailStartStops(s, a, |s|);
      var e := |p| + |t|;
      assert s[e - 1] == t[|t| - 1];
      assert b == e;
      assert s[a..b] == t;
    }
  }

  /** trim() is idempotent. */
  lemma {:induction false} TrimIdempotent(s: string)
    ensures Trim(Trim(s)) == Trim(s)
  {
    TrimShape(s);
    var t := Trim(s);
    assert t == [] + t + [];
    TrimUnique(t, [], t, []);
  }

  /** trim() leaves nothing exactly when the text is all white space. */
  lemma {:induction false} TrimEmpty(s: string)
    ensures Trim(s) == [] <==> AllSpace(s)
  {
    TrimShape(s);
    if AllSpace(s) {
      assert s == s + [] + [];
      TrimUnique(s, s, [], []);
    }
    if Trim(s) == [] {
      var p, q :| AllSpace(p) && AllSpace(q) && s == p + Trim(s) + q;
      forall k | 0 <= k < |s| ensures IsJsSpace(s[k]) {
        if k < |p| { assert s[k] == p[k]; } else { assert s[k] == q[k - |p|]; }
      }
    }
  }

  /** Where the line holding index j starts: just after the last '\n' before j. */
  function LineStart(s: string, j: nat): (i: nat)
    requires j <= |s|
    ensures i <= j
    decreases j
  {
    if j == 0 || s[j - 1] == '\n' then j else LineStart(s, j - 1)
  }

  /** The last element of s.split('\n'). */
  function LastLine(s: string): string {
    s[LineStart(s, |s|)..]
  }

  lemma {:induction false} LineStartStops(s: string, j: nat)
    requires j <= |s|
    ensures forall k :: LineStart(s, j) <= k < j ==> s[k] != '\n'
    ensures LineStart(s, j) == 0 || s[LineStart(s, j) - 1] == '\n'
    decreases j
  {
    if !(j == 0 || s[j - 1] == '\n') {
      LineStartStops(s, j - 1);
    }
  }

  /** The last line holds no line feed, and what comes before it is empty or
      ends with one. */
  lemma {:induction false} LastLineShape(s: string)
    ensures '\n' !in LastLine(s)
    ensures exists before :: s == before + LastLine(s) && (before == [] || before[|before| - 1] == '\n')
  {
    LineStartStops(s, |s|);
    var i := LineStart(s, |s|);
    var before, last := s[..i], s[i..];
    assert '\n' !in last by {
      assert forall k :: 0 <= k < |last| ==> last[k] == s[i + k];
    }
    assert s == before + last && (before == [] || before[|before| - 1] == '\n');
  }

  /** The last line is the text after the last line feed, whatever precedes it. */
  lemma {:induction false} LastLineAfter(a: string, b: string)
    requires '\n' !in b
    ensures LastLine(a + "\n" + b) == b
    ensures LastLine(b) == b
  {
    var s := a + "\n" + b;
    LineStartStops(s, |s|);
    var i := LineStart(s, |s|);
    assert s[|a|] == '\n';
    assert forall m :: |a| + 1 <= m < |s| ==> s[m] == b[m - |a| - 1];
    assert forall k :: 0 <= k < |b| ==> b[k] != '\n';
    assert i == |a| + 1;
    assert s[i..] == b;
    LineStartStops(b, |b|);
  }

  lemma {:induction false} LineStartOfPrefix(s: string, u: string, j: nat)
    requires j <= |u| <= |s| && s[..|u|] == u
    ensures LineStart(s, j) == LineStart(u, j)
    decreases j
  {
    if j > 0 {
      assert s[j - 1] == s[..|u|][j - 1];
      LineStartOfPrefix(s, u, j - 1);
    }
  }

  lemma {:induction false} LineStartPastText(s: string, n: nat, j: nat)
    requires n <= j <= |s|
    requires forall k :: n <= k < |s| ==> s[k] != '\n'
    ensures LineStart(s, j) == LineStart(s, n)
    decreases j
  {
    if j > n {
      LineStartPastText(s, n, j - 1);
    }
  }

  /** Text without a line feed extends the last line. */
  lemma {:induction false} LastLineOfAppend(u: string, w: string)
    requires '\n' !in w
    ensures LastLine(u + w) == LastLine(u) + w
  {
    var s := u + w;
    assert s[..|u|] == u;
    assert forall k :: |u| <= k < |s| ==> s[k] == w[k - |u|];
    LineStartPastText(s, |u|, |s|);
    LineStartOfPrefix(s, u, |u|);
    var i := LineStart(u, |u|);
    assert s[i..] == u[i..] + w;
  }
}
