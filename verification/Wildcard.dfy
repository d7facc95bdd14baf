/** Host patterns of the proxy bypass list, compiled to regular expressions. */
module Wildcard {
  import opened WideText

  // ---- What a pattern means ----

  predicate SameChar(a: char, b: char) {
    Lower(a) == Lower(b)
  }

  /** `*` stands for any characters; letter case does not count. */
  predicate Matches(pattern: string, s: string)
    decreases |pattern|, |s|
  {
    if pattern == "" then s == ""
    else if pattern[0] == '*' then Matches(pattern[1..], s) || (s != "" && Matches(pattern, s[1..]))
    else s != "" && SameChar(pattern[0], s[0]) && Matches(pattern[1..], s[1..])
  }

  // ---- What a regular expression means (ECMAScript, the part that is needed) ----

  datatype Term = Literal(c: char) | AnyRun

  /** Characters with a meaning of their own in an expression. */
  predicate IsSyntax(c: char) {
    c in "^$\\.*+?()[]{}|"
  }

  /** Escaped, these are classes, references and the like, not characters. */
  predicate IsWordChar(c: char) {
    'a' <= c <= 'z' || 'A' <= c <= 'Z' || '0' <= c <= '9' || c == '_'
  }

  /** Reads literals, escaped literals and `.*`; any other use of a syntax character is not read. */
  function Parse(regex: string): Option<seq<Term>> {
    if regex == "" then Some([])
    else if regex[0] == '\\' then
      if |regex| == 1 || IsWordChar(regex[1]) then None else Prefixed(Literal(regex[1]), Parse(regex[2..]))
    else if regex[0] == '.' then
      if |regex| >= 2 && regex[1] == '*' then Prefixed(AnyRun, Parse(regex[2..])) else None
    else if IsSyntax(regex[0]) && regex[0] != ']' && regex[0] != '}' then None
    else Prefixed(Literal(regex[0]), Parse(regex[1..]))
  }

  function Prefixed(t: Term, rest: Option<seq<Term>>): Option<seq<Term>> {
    if rest.None? then None else Some([t] + rest.value)
  }

  predicate IsNewline(c: char) {
    c == '\n' || c == '\r'
  }

  /** Whether the terms match the whole string, letter case not counting; `.` matches no newline. */
  ghost predicate Accepts(terms: seq<Term>, s: string)
    decreases |terms|
  {
    if terms == [] then s == ""
    else
      match terms[0]
      case Literal(c) => s != "" && SameChar(c, s[0]) && Accepts(terms[1..], s[1..])
      case AnyRun => exists k :: 0 <= k <= |s| && (forall i :: 0 <= i < k ==> !IsNewline(s[i])) && Accepts(terms[1..], s[k..])
  }

  // ---- The compiler ----

  /** The characters that are escaped. */
  predicate IsSpecial(c: char) {
    c in "*#$()+.?[\\^{|"
  }

  function EscapedChar(c: char): string {
    if c == '*' then ".*" else if IsSpecial(c) then ['\\', c] else [c]
  }

  function Escaped(s: string): string {
    if s == "" then "" else Escaped(s[..|s| - 1]) + EscapedChar(s[|s| - 1])
  }

  function FindSpecial(s: string, from: nat): (r: nat)
    requires from <= |s|
    ensures from <= r <= |s| && (r < |s| ==> IsSpecial(s[r]))
    ensures forall k :: from <= k < r ==> !IsSpecial(s[k])
    decreases |s| - from
  {
    if from == |s| || IsSpecial(s[from]) then from else FindSpecial(s, from + 1)
  }

  method RegexEscape(str: string) returns (ret: string)
    ensures ret == Escaped(str)
  {
    hide IsSpecial, EscapedChar, Escaped;
    NothingEscaped(str);
    ret := "";
    var startpos := 0;
    while true
      invariant 0 <= startpos <= |str|
      invariant ret == Escaped(str[..startpos])
      decreases |str| - startpos
    {
      var pos := FindSpecial(str, startpos);
      EscapedPlain(str, startpos, pos);
      if pos == |str| {
        break;
      }
      ret := ret + str[startpos..pos];
      EscapedLast(str, pos + 1);
      EscapeSpecial(ret, str[pos]);
      ret := ret + [if str[pos] == '*' then '.' else '\\'];
      ret := ret + [str[pos]];
      startpos := pos + 1;
    }
    ret := ret + str[startpos..];
  }

  lemma NothingEscaped(s: string)
    ensures Escaped(s[..0]) == "" && s[..|s|] == s
  {
  }

  lemma EscapeSpecial(before: string, c: char)
    requires IsSpecial(c)
    ensures (before + [if c == '*' then '.' else '\\']) + [c] == before + EscapedChar(c)
  {
  }

  /** Characters that are not special are copied. */
  lemma {:induction false} EscapedPlain(s: string, from: nat, end: nat)
    requires from <= end <= |s| && forall k :: from <= k < end ==> !IsSpecial(s[k])
    ensures Escaped(s[..end]) == Escaped(s[..from]) + s[from..end]
    decreases end
  {
    hide IsSpecial, EscapedChar;
    if from == end {
      assert s[from..end] == "";
    } else {
      EscapedPlain(s, from, end - 1);
      PlainChar(s[end - 1]);
      EscapedLast(s, end);
      Assoc(Escaped(s[..from]), s[from..end - 1], [s[end - 1]]);
      assert s[from..end] == s[from..end - 1] + [s[end - 1]];
    }
  }

  lemma PlainChar(c: char)
    requires !IsSpecial(c)
    ensures EscapedChar(c) == [c]
  {
  }

  lemma EscapedLast(s: string, n: nat)
    requires 0 < n <= |s|
    ensures Escaped(s[..n]) == Escaped(s[..n - 1]) + EscapedChar(s[n - 1])
  {
    assert s[..n][..n - 1] == s[..n - 1];
  }

  // ---- The compiled expression means what the pattern means ----

  function TermsOf(pattern: string): seq<Term> {
    if pattern == "" then []
    else [if pattern[0] == '*' then AnyRun else Literal(pattern[0])] + TermsOf(pattern[1..])
  }

  lemma {:induction false} EscapedFirst(s: string)
    requires s != ""
    ensures Escaped(s) == EscapedChar(s[0]) + Escaped(s[1..])
  {
    hide IsSpecial, EscapedChar;
    var front, last := s[..|s| - 1], s[|s| - 1];
    if front == "" {
      assert s == [s[0]] && s[1..] == "";
      assert Escaped("") == "";
    } else {
      EscapedFirst(front);
      assert s[1..] == front[1..] + [last];
      EscapedLast(s[1..], |s| - 1);
      assert s[1..][..|s| - 1] == s[1..] && s[1..][..|s| - 2] == front[1..];
      Assoc(EscapedChar(s[0]), Escaped(front[1..]), EscapedChar(last));
    }
  }

  /** The expression is read back as the pattern's own terms. */
  lemma {:induction false} ParseEscaped(pattern: string)
    ensures Parse(Escaped(pattern)) == Some(TermsOf(pattern))
  {
    if pattern != "" {
      ParseEscaped(pattern[1..]);
      EscapedFirst(pattern);
      ParseChar(pattern[0], Escaped(pattern[1..]));
    }
  }

  lemma ParseChar(c: char, rest: string)
    ensures Parse(EscapedChar(c) + rest) == Prefixed(if c == '*' then AnyRun else Literal(c), Parse(rest))
  {
    var e := EscapedChar(c) + rest;
    if IsSpecial(c) {
      assert e[2..] == rest;
    } else {
      assert e[1..] == rest;
      assert e[0] == c;
    }
  }

  predicate NoNewline(s: string) {
    forall i :: 0 <= i < |s| ==> !IsNewline(s[i])
  }

  /** On strings without a newline, terms accept what the pattern matches. */
  lemma {:induction false} TermsAgree(pattern: string, s: string)
    requires NoNewline(s)
    ensures Accepts(TermsOf(pattern), s) <==> Matches(pattern, s)
    decreases |pattern|, |s|
  {
    if pattern != "" {
      var rest := TermsOf(pattern[1..]);
      assert TermsOf(pattern)[1..] == rest;
      if pattern[0] == '*' {
        TermsAgree(pattern[1..], s);
        if s != "" {
          TermsAgree(pattern, s[1..]);
          RunLonger(TermsOf(pattern), s);
        } else {
          assert s[0..] == s;
        }
      } else if s != "" {
        TermsAgree(pattern[1..], s[1..]);
      }
    }
  }

  /** A run is empty or takes one more character. */
  lemma RunLonger(terms: seq<Term>, s: string)
    requires terms != [] && terms[0] == AnyRun && s != "" && NoNewline(s)
    ensures Accepts(terms, s) <==> Accepts(terms[1..], s) || Accepts(terms, s[1..])
  {
    var rest, tail := terms[1..], s[1..];
    assert s[0..] == s;
    if Accepts(terms, s) {
      var k :| 0 <= k <= |s| && Accepts(rest, s[k..]);
      if k > 0 {
        assert tail[k - 1..] == s[k..];
      }
    }
    if Accepts(terms, tail) {
      var k :| 0 <= k <= |tail| && Accepts(rest, tail[k..]);
      assert tail[k..] == s[k + 1..];
    }
  }

  /** For every pattern and every string without a newline, the compiled expression matches what the pattern matches. */
  lemma CompiledAgrees(pattern: string, s: string)
    requires NoNewline(s)
    ensures Parse(Escaped(pattern)).Some?
    ensures Accepts(Parse(Escaped(pattern)).value, s) <==> Matches(pattern, s)
  {
    ParseEscaped(pattern);
    TermsAgree(pattern, s);
  }
}
