/**
 * Small definitions shared by the whole model: an Option/Result pair for the
 * source's `null` returns and thrown errors, JavaScript's notion of white
 * space (used by `String.prototype.trim` and the regular-expression class
 * `\s`), ASCII character classes, and "first failing check" validators.
 */
module Common {

  datatype Option<+T> = None | Some(value: T) {
    function GetOr(default: T): T {
      match this
      case Some(v) => v
      case None => default
    }
  }

  datatype Result<+T, +E> = Ok(value: T) | Err(error: E)

  /** A JavaScript string is truthy exactly when it is not empty. */
  predicate Truthy(s: string) {
    s != ""
  }

  /** An optional string that is present and truthy (`if (x)` on `string | undefined`). */
  predicate SomeTruthy(o: Option<string>) {
    o.Some? && o.value != ""
  }

  /** `a || b` on optional strings: the first one that is present and non-empty, else `b`. */
  function OrElse(a: Option<string>, b: string): (r: string)
    ensures SomeTruthy(a) ==> r == a.value
    ensures !SomeTruthy(a) ==> r == b
  {
    if a.Some? && a.value != "" then a.value else b
  }

  // ---------------------------------------------------------------------
  // Character classes

  /**
   * The white-space and line-terminator code points of ECMAScript: the set
   * stripped by `trim()` and matched by `\s`.
   */
  predicate IsSpace(c: char) {
    var n := c as int;
    n == 0x09 || n == 0x0A || n == 0x0B || n == 0x0C || n == 0x0D || n == 0x20 ||
    n == 0xA0 || n == 0x1680 || (0x2000 <= n <= 0x200A) || n == 0x2028 || n == 0x2029 ||
    n == 0x202F || n == 0x205F || n == 0x3000 || n == 0xFEFF
  }

  predicate IsAsciiLower(c: char) { 'a' <= c <= 'z' }
  predicate IsAsciiUpper(c: char) { 'A' <= c <= 'Z' }
  predicate IsAsciiDigit(c: char) { '0' <= c <= '9' }
  predicate IsAsciiAlnum(c: char) { IsAsciiLower(c) || IsAsciiUpper(c) || IsAsciiDigit(c) }

  predicate AllSpace(s: string) {
    forall i :: 0 <= i < |s| ==> IsSpace(s[i])
  }

  predicate HasSpace(s: string) {
    exists i :: 0 <= i < |s| && IsSpace(s[i])
  }

  // ---------------------------------------------------------------------
  // trim()

  function TrimStart(s: string): (r: string)
    ensures |r| <= |s|
  {
    if |s| > 0 && IsSpace(s[0]) then TrimStart(s[1..]) else s
  }

  function TrimEnd(s: string): (r: string)
    ensures |r| <= |s|
  {
    if |s| > 0 && IsSpace(s[|s| - 1]) then TrimEnd(s[..|s| - 1]) else s
  }

  /** `s.trim()`: the string without its leading and trailing white space. */
  function Trim(s: string): (r: string)
    ensures |r| <= |s|
    ensures r != [] ==> !IsSpace(r[0]) && !IsSpace(r[|r| - 1])
  {
    TrimStartShape(s);
    TrimEndShape(TrimStart(s));
    TrimEnd(TrimStart(s))
  }

  /** Trimming a trimmed string changes nothing. */
  lemma TrimIdempotent(s: string)
    ensures Trim(Trim(s)) == Trim(s)
  {
    var r := Trim(s);
    if r != [] {
      assert TrimStart(r) == r;
      assert TrimEnd(r) == r;
    }
  }

  /** trimStart removes a prefix of white space and stops at the first other character. */
  lemma {:induction false} TrimStartShape(s: string)
    ensures var r := TrimStart(s);
      r == s[|s| - |r|..] && AllSpace(s[..|s| - |r|]) && (r == [] || !IsSpace(r[0]))
  {
    if |s| > 0 && IsSpace(s[0]) {
      TrimStartShape(s[1..]);
      var r := TrimStart(s);
      assert s[1..][|s| - 1 - |r|..] == s[|s| - |r|..];
      forall i | 0 <= i < |s| - |r| ensures IsSpace(s[i]) {
        if i > 0 { assert s[i] == s[1..][..|s| - 1 - |r|][i - 1]; }
      }
    }
  }

  /** trimEnd removes a suffix of white space and stops at the last other character. */
  lemma {:induction false} TrimEndShape(s: string)
    ensures var r := TrimEnd(s);
      r == s[..|r|] && AllSpace(s[|r|..]) && (r == [] || !IsSpace(r[|r| - 1]))
  {
    if |s| > 0 && IsSpace(s[|s| - 1]) {
      var p := s[..|s| - 1];
      TrimEndShape(p);
      var r := TrimEnd(s);
      assert p[..|r|] == s[..|r|];
      forall i | |r| <= i < |s| ensures IsSpace(s[i]) {
        if i < |s| - 1 { assert s[i] == p[|r|..][i - |r|]; }
      }
    }
  }

  /** A string is blank (`!s.trim()`) exactly when it is made of white space only. */
  lemma {:induction false} TrimEmptyIffAllSpace(s: string)
    ensures Trim(s) == [] <==> AllSpace(s)
  {
    if |s| > 0 && IsSpace(s[0]) {
      TrimEmptyIffAllSpace(s[1..]);
      assert AllSpace(s) <==> AllSpace(s[1..]) by {
        if AllSpace(s[1..]) {
          forall i | 0 <= i < |s| ensures IsSpace(s[i]) {
            if i > 0 { assert s[i] == s[1..][i - 1]; }
          }
        }
      }
    } else if |s| > 0 {
      assert TrimStart(s) == s;
      TrimEndShape(s);
      assert !AllSpace(s);
      assert s[0..] == s;
    }
  }

  lemma {:induction false} TrimStartPadded(ws: string, s: string)
    requires AllSpace(ws)
    ensures TrimStart(ws + s) == TrimStart(s)
  {
    if ws != [] {
      assert (ws + s)[1..] == ws[1..] + s;
      TrimStartPadded(ws[1..], s);
    } else {
      assert ws + s == s;
    }
  }

  lemma {:induction false} TrimEndPadded(s: string, ws: string)
    requires AllSpace(ws)
    ensures TrimEnd(s + ws) == TrimEnd(s)
  {
    if ws != [] {
      assert (s + ws)[..|s + ws| - 1] == s + ws[..|ws| - 1];
      TrimEndPadded(s, ws[..|ws| - 1]);
    } else {
      assert s + ws == s;
    }
  }

  lemma {:induction false} TrimStartKeepsTail(s: string, ws: string)
    requires !AllSpace(s)
    ensures TrimStart(s + ws) == TrimStart(s) + ws
  {
    assert |s| > 0;
    if IsSpace(s[0]) {
      assert (s + ws)[1..] == s[1..] + ws;
      assert !AllSpace(s[1..]) by {
        var i :| 0 <= i < |s| && !IsSpace(s[i]);
        assert s[1..][i - 1] == s[i];
      }
      TrimStartKeepsTail(s[1..], ws);
    }
  }

  lemma AllSpaceConcat(a: string, b: string)
    requires AllSpace(a) && AllSpace(b)
    ensures AllSpace(a + b)
  {
    forall i | 0 <= i < |a + b| ensures IsSpace((a + b)[i]) {
      if i < |a| { assert (a + b)[i] == a[i]; } else { assert (a + b)[i] == b[i - |a|]; }
    }
  }

  /** White space around a string never changes what trim returns. */
  lemma TrimIgnoresPadding(ws: string, s: string, ws': string)
    requires AllSpace(ws) && AllSpace(ws')
    ensures Trim(ws + s + ws') == Trim(s)
  {
    assert ws + s + ws' == ws + (s + ws');
    TrimStartPadded(ws, s + ws');
    if AllSpace(s) {
      AllSpaceConcat(s, ws');
      TrimEmptyIffAllSpace(s + ws');
      TrimEmptyIffAllSpace(s);
    } else {
      TrimStartKeepsTail(s, ws');
      TrimEndPadded(TrimStart(s), ws');
    }
  }

  // ---------------------------------------------------------------------
  // First-failing-check validators

  /** One validation step: whether it passes, and the message returned when it does not. */
  datatype Check = Check(passes: bool, message: string)

  /** The message of the first check that fails, or None when all of them pass. */
  function FirstFailure(checks: seq<Check>): (r: Option<string>)
    ensures r == None <==> forall i :: 0 <= i < |checks| ==> checks[i].passes
    ensures r.Some? ==> exists k :: 0 <= k < |checks| && !checks[k].passes && r.value == checks[k].message &&
                                    forall j :: 0 <= j < k ==> checks[j].passes
  {
    if checks == [] then None
    else if !checks[0].passes then Some(checks[0].message)
    else
      var rest := FirstFailure(checks[1..]);
      assert forall i :: 1 <= i < |checks| ==> checks[i] == checks[1..][i - 1];
      rest
  }

  /** If the checks before k pass and check k fails, the validator reports check k. */
  lemma {:induction false} FirstFailureAt(checks: seq<Check>, k: nat)
    requires k < |checks| && !checks[k].passes
    requires forall j :: 0 <= j < k ==> checks[j].passes
    ensures FirstFailure(checks) == Some(checks[k].message)
  {
    if k > 0 {
      assert forall j :: 0 <= j < k - 1 ==> checks[1..][j] == checks[j + 1];
      FirstFailureAt(checks[1..], k - 1);
    }
  }

  /** One step of the scan: the head check, then the rest. */
  lemma FirstFailureCons(c: Check, rest: seq<Check>)
    ensures FirstFailure([c] + rest) == if !c.passes then Some(c.message) else FirstFailure(rest)
  {
    assert ([c] + rest)[1..] == rest;
  }

  /** Five checks in a row: the first failing one, by cases. */
  lemma FirstFailureOfFive(a: Check, b: Check, c: Check, d: Check, e: Check)
    ensures FirstFailure([a, b, c, d, e]) ==
      if !a.passes then Some(a.message) else if !b.passes then Some(b.message)
      else if !c.passes then Some(c.message) else if !d.passes then Some(d.message)
      else if !e.passes then Some(e.message) else None
  {
    FirstFailureCons(a, [b, c, d, e]);
    FirstFailureCons(b, [c, d, e]);
    FirstFailureCons(c, [d, e]);
    FirstFailureCons(d, [e]);
    FirstFailureCons(e, []);
    assert [a] + [b, c, d, e] == [a, b, c, d, e];
    assert [b] + [c, d, e] == [b, c, d, e];
    assert [c] + [d, e] == [c, d, e];
    assert [d] + [e] == [d, e];
    assert [e] + [] == [e];
  }

  /** Seven checks in a row: the first two, then the remaining five. */
  lemma FirstFailureOfSeven(a: Check, b: Check, c: Check, d: Check, e: Check, f: Check, g: Check)
    ensures FirstFailure([a, b, c, d, e, f, g]) ==
      if !a.passes then Some(a.message) else if !b.passes then Some(b.message)
      else FirstFailure([c, d, e, f, g])
  {
    FirstFailureCons(a, [b, c, d, e, f, g]);
    FirstFailureCons(b, [c, d, e, f, g]);
    assert [a] + [b, c, d, e, f, g] == [a, b, c, d, e, f, g];
    assert [b] + [c, d, e, f, g] == [b, c, d, e, f, g];
  }

  // ---------------------------------------------------------------------
  // Sequences

  /** A non-empty sequence is its prefix followed by its last element. */
  lemma SplitLast<T>(s: seq<T>)
    requires s != []
    ensures s[..|s| - 1] + [s[|s| - 1]] == s
  {
  }

  function Min(a: nat, b: nat): nat { if a <= b then a else b }

  predicate Distinct<T(==)>(s: seq<T>) {
    forall i, j :: 0 <= i < j < |s| ==> s[i] != s[j]
  }

  /** A sequence has at least as many elements as the set of its elements. */
  lemma {:induction false} SetOfSeqSize<T>(s: seq<T>)
    ensures |set x | x in s| <= |s|
    ensures Distinct(s) ==> |set x | x in s| == |s|
  {
    if s != [] {
      var init := s[..|s| - 1];
      SetOfSeqSize(init);
      var last := s[|s| - 1];
      assert (set x | x in s) == (set x | x in init) + {last} by {
        assert s == init + [last];
      }
      if Distinct(s) {
        assert Distinct(init);
        forall i | 0 <= i < |init| ensures init[i] != last {
          assert init[i] == s[i];
        }
      }
    }
  }

  // ---------------------------------------------------------------------
  // Client forms

  /** How the `onSubmit` promise a form awaits settled: resolved, or rejected with an axios-style error. */
  datatype SubmitOutcome = Saved | Rejected(responseError: Option<string>, message: Option<string>)

  /** `err.response?.data?.error || err.message || fallback` */
  function RejectionText(responseError: Option<string>, message: Option<string>, fallback: string): (t: string)
    ensures SomeTruthy(responseError) ==> t == responseError.value
    ensures !SomeTruthy(responseError) && SomeTruthy(message) ==> t == message.value
    ensures !SomeTruthy(responseError) && !SomeTruthy(message) ==> t == fallback
  {
    OrElse(responseError, OrElse(message, fallback))
  }
}
