/**
 * The few pieces of JavaScript string behaviour the application relies on:
 * `trim`, the `\s` class, `startsWith`/`endsWith`, `includes`, `indexOf`,
 * `split` and `join` on a one-character separator.
 */
module Strings {

  /** The characters JavaScript's `trim()` strips and `\s` matches (WhiteSpace and LineTerminator). */
  predicate IsWhitespace(c: char)
  {
    c == '\t' || c == '\n' || c == '\U{000B}' || c == '\U{000C}' || c == '\r' || c == ' '
    || c == '\U{00A0}' || c == '\U{1680}' || ('\U{2000}' <= c <= '\U{200A}')
    || c == '\U{2028}' || c == '\U{2029}' || c == '\U{202F}' || c == '\U{205F}'
    || c == '\U{3000}' || c == '\U{FEFF}'
  }

  predicate NoWhitespace(s: string)
  {
    forall i | 0 <= i < |s| :: !IsWhitespace(s[i])
  }

  predicate AllWhitespace(s: string)
  {
    forall i | 0 <= i < |s| :: IsWhitespace(s[i])
  }

  /** `s` with its leading whitespace removed. */
  function TrimStart(s: string): (r: string)
    ensures |r| <= |s|
  {
    if s != [] && IsWhitespace(s[0]) then TrimStart(s[1..]) else s
  }

  /** `TrimStart` keeps the longest suffix that does not start with whitespace. */
  lemma {:induction false} TrimStartSpec(s: string)
    ensures TrimStart(s) == s[|s| - |TrimStart(s)|..]
    ensures AllWhitespace(s[..|s| - |TrimStart(s)|])
    ensures TrimStart(s) != [] ==> !IsWhitespace(TrimStart(s)[0])
  {
    if s != [] && IsWhitespace(s[0]) {
      var r := TrimStart(s[1..]);
      TrimStartSpec(s[1..]);
      assert s[1..][..|s| - 1 - |r|] == s[1..|s| - |r|];
      assert forall i | 0 <= i < |s| - |r| :: s[..|s| - |r|][i] == s[i];
      assert forall i | 1 <= i < |s| - |r| :: s[i] == s[1..|s| - |r|][i - 1];
    }
  }

  /** `s` with its trailing whitespace removed. */
  function TrimEnd(s: string): (r: string)
    ensures |r| <= |s|
  {
    if s != [] && IsWhitespace(s[|s| - 1]) then TrimEnd(s[..|s| - 1]) else s
  }

  /** `TrimEnd` keeps the longest prefix that does not end with whitespace. */
  lemma {:induction false} TrimEndSpec(s: string)
    ensures TrimEnd(s) == s[..|TrimEnd(s)|]
    ensures AllWhitespace(s[|TrimEnd(s)|..])
    ensures TrimEnd(s) != [] ==> !IsWhitespace(TrimEnd(s)[|TrimEnd(s)| - 1])
  {
    if s != [] && IsWhitespace(s[|s| - 1]) {
      var p := s[..|s| - 1];
      var r := TrimEnd(p);
      TrimEndSpec(p);
      assert r == s[..|r|] by { assert p[..|r|] == s[..|r|]; }
      forall i | 0 <= i < |s| - |r| ensures IsWhitespace(s[|r|..][i]) {
        if i < |s| - 1 - |r| { assert s[|r|..][i] == p[|r|..][i]; }
      }
    }
  }

  /** JavaScript's `s.trim()`. */
  function Trim(s: string): string
  {
    TrimEnd(TrimStart(s))
  }

  /** Where the trimmed string starts inside `s`. */
  function TrimOffset(s: string): nat
  {
    |s| - |TrimStart(s)|
  }

  /** The trimmed string is the infix of `s` left once whitespace is cut from both ends. */
  lemma TrimIsInfix(s: string)
    ensures TrimOffset(s) + |Trim(s)| <= |s|
    ensures Trim(s) == s[TrimOffset(s)..TrimOffset(s) + |Trim(s)|]
    ensures AllWhitespace(s[..TrimOffset(s)])
    ensures AllWhitespace(s[TrimOffset(s) + |Trim(s)|..])
    ensures Trim(s) != [] ==> !IsWhitespace(Trim(s)[0]) && !IsWhitespace(Trim(s)[|Trim(s)| - 1])
  {
    var t := TrimStart(s);
    var r := TrimEnd(t);
    TrimStartSpec(s);
    TrimEndSpec(t);
    var a := |s| - |t|;
    var b := a + |r|;
    assert r == s[a..b] by {
      assert t == s[a..];
      assert r == t[..|r|];
    }
    assert AllWhitespace(s[b..]) by {
      assert t == s[a..];
      assert t[|r|..] == s[b..];
    }
    assert r != [] ==> r[0] == t[0];
  }

  /** A string trims to "" exactly when all its characters are whitespace. */
  lemma TrimEmptyIff(s: string)
    ensures Trim(s) == [] <==> AllWhitespace(s)
  {
    var t := TrimStart(s);
    TrimStartSpec(s);
    TrimEndSpec(t);
    if Trim(s) == [] {
      assert t[0..] == t;
      assert s[..|s| - |t|] == s;
    } else {
      TrimIsInfix(s);
      var a := TrimOffset(s);
      assert s[a] == Trim(s)[0];
    }
  }

  /** Trimming twice is trimming once. */
  lemma TrimIdempotent(s: string)
    ensures Trim(Trim(s)) == Trim(s)
  {
    var r := Trim(s);
    TrimIsInfix(s);
    assert r != [] ==> !IsWhitespace(r[0]);
    assert TrimStart(r) == r;
    TrimEndSpec(r);
    assert r != [] ==> !IsWhitespace(r[|r| - 1]);
  }

  predicate StartsWith(s: string, prefix: string)
  {
    |prefix| <= |s| && s[..|prefix|] == prefix
  }

  predicate EndsWith(s: string, suffix: string)
  {
    |suffix| <= |s| && s[|s| - |suffix|..] == suffix
  }

  /** `pat` occurs in `s` starting at index `k`. */
  predicate OccursAt(s: string, pat: string, k: int)
  {
    0 <= k && k + |pat| <= |s| && s[k..k + |pat|] == pat
  }

  /** The first index at or after `from` where `pat` occurs, or -1. */
  function IndexFrom(s: string, pat: string, from: nat): (r: int)
    requires from <= |s|
    ensures r == -1 || (from <= r && OccursAt(s, pat, r))
    ensures forall k | from <= k && (r == -1 || k < r) :: !OccursAt(s, pat, k)
    decreases |s| - from
  {
    if from + |pat| > |s| then -1
    else if s[from..from + |pat|] == pat then from
    else IndexFrom(s, pat, from + 1)
  }

  /** JavaScript's `s.indexOf(pat)`. */
  function IndexOf(s: string, pat: string): int
  {
    IndexFrom(s, pat, 0)
  }

  /** JavaScript's `s.includes(pat)`. */
  predicate Contains(s: string, pat: string)
  {
    IndexOf(s, pat) >= 0
  }

  lemma ContainsIff(s: string, pat: string)
    ensures Contains(s, pat) <==> exists k :: OccursAt(s, pat, k)
  {
  }

  /** `s.replace(pat, repl)` with `repl` taken literally: the first occurrence of `pat` replaced. */
  function ReplaceFirst(s: string, pat: string, repl: string): (r: string)
    ensures IndexOf(s, pat) == -1 ==> r == s
    ensures IndexOf(s, pat) >= 0 ==> r == s[..IndexOf(s, pat)] + repl + s[IndexOf(s, pat) + |pat|..]
  {
    var i := IndexOf(s, pat);
    if i < 0 then s else s[..i] + repl + s[i + |pat|..]
  }

  /**
   * The text JavaScript's `String.prototype.replace` inserts for a match of a
   * plain-string pattern: in `repl`, `$$` stands for `$`, `$&` for the matched
   * text, `` $` `` for the text before the match and `$'` for the text after it;
   * every other character (a `$` included) stands for itself.
   */
  function ExpandReplacement(repl: string, s: string, pos: nat, matched: string): (r: string)
    requires pos + |matched| <= |s|
    ensures '$' !in repl ==> r == repl
  {
    if repl == [] then []
    else if |repl| >= 2 && repl[0] == '$' && repl[1] == '$' then
      "$" + ExpandReplacement(repl[2..], s, pos, matched)
    else if |repl| >= 2 && repl[0] == '$' && repl[1] == '&' then
      matched + ExpandReplacement(repl[2..], s, pos, matched)
    else if |repl| >= 2 && repl[0] == '$' && repl[1] == '`' then
      s[..pos] + ExpandReplacement(repl[2..], s, pos, matched)
    else if |repl| >= 2 && repl[0] == '$' && repl[1] == '\'' then
      s[pos + |matched|..] + ExpandReplacement(repl[2..], s, pos, matched)
    else
      assert '$' !in repl ==> '$' !in repl[1..] by {
        if '$' in repl[1..] {
          var k :| 0 <= k < |repl[1..]| && repl[1..][k] == '$';
          assert repl[k + 1] == '$';
        }
      }
      [repl[0]] + ExpandReplacement(repl[1..], s, pos, matched)
  }

  /** Plain text followed by `$&` expands to that text followed by the matched text. */
  lemma {:induction false} ExpandMatchAfterText(a: string, s: string, pos: nat, matched: string)
    requires pos + |matched| <= |s|
    requires '$' !in a
    ensures ExpandReplacement(a + "$&", s, pos, matched) == a + matched
  {
    if a == [] {
      assert ExpandReplacement("$&", s, pos, matched) == matched + ExpandReplacement([], s, pos, matched);
    } else {
      assert (a + "$&")[1..] == a[1..] + "$&";
      ExpandMatchAfterText(a[1..], s, pos, matched);
    }
  }

  /** JavaScript's `s.replace(pat, repl)` for a string pattern, replacement patterns expanded. */
  function JsReplaceFirst(s: string, pat: string, repl: string): (r: string)
    ensures '$' !in repl ==> r == ReplaceFirst(s, pat, repl)
  {
    var i := IndexOf(s, pat);
    if i < 0 then s else s[..i] + ExpandReplacement(repl, s, i, pat) + s[i + |pat|..]
  }

  /** `indexOf` finds the first occurrence. */
  lemma IndexOfIs(s: string, pat: string, i: int)
    requires OccursAt(s, pat, i)
    requires forall k | 0 <= k < i :: !OccursAt(s, pat, k)
    ensures IndexOf(s, pat) == i
  {
  }

  /** `indexOf` reports -1 when nothing matches. */
  lemma IndexOfNone(s: string, pat: string)
    requires forall k | 0 <= k <= |s| :: !OccursAt(s, pat, k)
    ensures IndexOf(s, pat) == -1
  {
  }

  /** JavaScript's `s.split(sep)` for a one-character separator. */
  function Split(s: string, sep: char): (parts: seq<string>)
    ensures |parts| >= 1
    ensures forall k | 0 <= k < |parts| :: sep !in parts[k]
  {
    if s == [] then [[]]
    else if s[0] == sep then [[]] + Split(s[1..], sep)
    else
      var rest := Split(s[1..], sep);
      [[s[0]] + rest[0]] + rest[1..]
  }

  /** JavaScript's `parts.join(sep)` for a one-character separator. */
  function Join(parts: seq<string>, sep: char): string
  {
    if parts == [] then []
    else if |parts| == 1 then parts[0]
    else parts[0] + [sep] + Join(parts[1..], sep)
  }

  /** Splitting on a separator and joining with it gives back the string. */
  lemma {:induction false} JoinSplit(s: string, sep: char)
    ensures Join(Split(s, sep), sep) == s
  {
    if s == [] {
    } else if s[0] == sep {
      JoinSplit(s[1..], sep);
      assert Split(s, sep)[1..] == Split(s[1..], sep);
    } else {
      var rest := Split(s[1..], sep);
      JoinSplit(s[1..], sep);
      var parts := Split(s, sep);
      assert parts[1..] == rest[1..];
      if |rest| == 1 {
        assert Join(parts, sep) == [s[0]] + rest[0];
      } else {
        assert Join(parts, sep) == [s[0]] + rest[0] + [sep] + Join(rest[1..], sep);
      }
    }
  }

  /** Joining a list equals joining its first `n` parts, the separator, then the rest. */
  lemma {:induction false} JoinSplitAt(parts: seq<string>, sep: char, n: nat)
    requires 1 <= n < |parts|
    ensures Join(parts, sep) == Join(parts[..n], sep) + [sep] + Join(parts[n..], sep)
  {
    if n > 1 {
      JoinSplitAt(parts[1..], sep, n - 1);
      assert parts[1..][..n - 1] == parts[..n][1..];
      assert parts[1..][n - 1..] == parts[n..];
    }
  }

  /** Splitting text that starts with a separator-free part and a separator. */
  lemma {:induction false} SplitAfterFirstPart(a: string, b: string, sep: char)
    requires sep !in a
    ensures Split(a + [sep] + b, sep) == [a] + Split(b, sep)
  {
    var s := a + [sep] + b;
    if a == [] {
      assert s[1..] == b;
    } else {
      assert s[1..] == a[1..] + [sep] + b;
      SplitAfterFirstPart(a[1..], b, sep);
      assert [a[0]] + a[1..] == a;
    }
  }

  /** Splitting a string without the separator gives the string as the only part. */
  lemma {:induction false} SplitNoSeparator(s: string, sep: char)
    requires sep !in s
    ensures Split(s, sep) == [s]
  {
    if s != [] {
      SplitNoSeparator(s[1..], sep);
      assert [s[0]] + s[1..] == s;
    }
  }
}
