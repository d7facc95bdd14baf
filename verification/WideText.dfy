/** Characters and strings as the adapter sees them: a `char` stands for one code unit. */
module WideText {

  datatype Option<+T> = None | Some(value: T)

  /** What `iswspace` accepts. */
  predicate IsSpace(c: char) {
    var n := c as int;
    || n == 0x20 || 0x09 <= n <= 0x0D || n == 0x85 || n == 0xA0 || n == 0x1680
    || 0x2000 <= n <= 0x200A || n == 0x2028 || n == 0x2029 || n == 0x202F || n == 0x205F || n == 0x3000
  }

  predicate AllSpaces(s: string) {
    forall i :: 0 <= i < |s| ==> IsSpace(s[i])
  }

  /** ASCII lower case, the only folding the adapter does. */
  function Lower(c: char): char {
    if 'A' <= c <= 'Z' then (c as int + 32) as char else c
  }

  predicate EqualsIgnoreCase(a: string, b: string) {
    |a| == |b| && forall i :: 0 <= i < |a| ==> Lower(a[i]) == Lower(b[i])
  }

  /** True when neither angle bracket occurs in `s`. */
  predicate NoAngles(s: string) {
    forall i :: 0 <= i < |s| ==> s[i] != '<' && s[i] != '>'
  }

  /** Index of the first `c` in `s` at or after `from`, or `|s|`. */
  function Find(s: string, c: char, from: nat): (r: nat)
    requires from <= |s|
    ensures from <= r <= |s|
    ensures r < |s| ==> s[r] == c
    ensures forall k :: from <= k < r ==> s[k] != c
    decreases |s| - from
  {
    if from == |s| || s[from] == c then from else Find(s, c, from + 1)
  }

  lemma FindIs(s: string, c: char, from: nat, pos: nat)
    requires from <= pos <= |s| && (pos < |s| ==> s[pos] == c) && forall k :: from <= k < pos ==> s[k] != c
    ensures Find(s, c, from) == pos
  {
  }

  /** Index of the first whitespace of `s` at or after `from`, or `|s|`. */
  function FindSpace(s: string, from: nat): (r: nat)
    requires from <= |s|
    ensures from <= r <= |s|
    ensures r < |s| ==> IsSpace(s[r])
    ensures forall k :: from <= k < r ==> !IsSpace(s[k])
    decreases |s| - from
  {
    if from == |s| || IsSpace(s[from]) then from else FindSpace(s, from + 1)
  }

  /** Index of the first non-whitespace of `s` at or after `from`, or `|s|`. */
  function SkipSpaces(s: string, from: nat): (r: nat)
    requires from <= |s|
    ensures from <= r <= |s|
    ensures r < |s| ==> !IsSpace(s[r])
    ensures forall k :: from <= k < r ==> IsSpace(s[k])
    decreases |s| - from
  {
    if from == |s| || !IsSpace(s[from]) then from else SkipSpaces(s, from + 1)
  }

  /** The end of `s` once the whitespace at its right end is dropped. */
  function TrimmedEnd(s: string): (r: nat)
    ensures r <= |s|
    ensures r > 0 ==> !IsSpace(s[r - 1])
    ensures forall k :: r <= k < |s| ==> IsSpace(s[k])
  {
    if s == "" then 0
    else if !IsSpace(s[|s| - 1]) then |s|
    else TrimmedEnd(s[..|s| - 1])
  }

  /** The part of a C string before its first NUL. */
  function UpToNul(s: string): (r: string)
    ensures r <= s && (r == s || s[|r|] == 0 as char)
    ensures forall i :: 0 <= i < |r| ==> r[i] != 0 as char
  {
    s[..Find(s, 0 as char, 0)]
  }

  function Concat(ss: seq<string>): string {
    if ss == [] then "" else Concat(ss[..|ss| - 1]) + ss[|ss| - 1]
  }

  /** Decimal digits of an integer, as `std::to_wstring` prints them. */
  function Decimal(n: int): (s: string)
    ensures s != "" && NoAngles(s)
    decreases n < 0, if n < 0 then -n else n
  {
    if n < 0 then "-" + Decimal(-n)
    else if n < 10 then ["0123456789"[n]]
    else Decimal(n / 10) + ["0123456789"[n % 10]]
  }

  // ---- XML 1.0 section 4.6: the five predefined entities ----

  predicate NeedsEscape(c: char) {
    c == '<' || c == '>' || c == '&' || c == '"' || c == '\''
  }

  function EscapeChar(c: char): (s: string)
    ensures |s| >= 1 && NoAngles(s)
    ensures NeedsEscape(c) <==> |s| > 1
  {
    match c
    case '<' => "&lt;"
    case '>' => "&gt;"
    case '&' => "&amp;"
    case '"' => "&quot;"
    case '\'' => "&apos;"
    case _ => [c]
  }

  function Escape(s: string): (e: string)
    ensures |e| >= |s| && NoAngles(e)
  {
    if s == "" then "" else Escape(s[..|s| - 1]) + EscapeChar(s[|s| - 1])
  }

  lemma {:induction false} EscapeConcat(a: string, b: string)
    ensures Escape(a + b) == Escape(a) + Escape(b)
  {
    if b == "" {
      assert a + b == a;
    } else {
      EscapeConcat(a, b[..|b| - 1]);
      EscapeConcatStep(a, b[..|b| - 1], b[|b| - 1]);
      assert b == b[..|b| - 1] + [b[|b| - 1]];
    }
  }

  lemma EscapeConcatStep(a: string, p: string, c: char)
    requires Escape(a + p) == Escape(a) + Escape(p)
    ensures Escape(a + (p + [c])) == Escape(a) + Escape(p + [c])
  {
    hide *;
    calc {
      Escape(a + (p + [c]));
      { assert a + (p + [c]) == (a + p) + [c]; EscapeAppend(a + p, c); }
      (Escape(a) + Escape(p)) + EscapeChar(c);
      { Assoc(Escape(a), Escape(p), EscapeChar(c)); }
      Escape(a) + (Escape(p) + EscapeChar(c));
      { EscapeAppend(p, c); }
      Escape(a) + Escape(p + [c]);
    }
  }

  lemma EscapeAppend(s: string, c: char)
    ensures Escape(s + [c]) == Escape(s) + EscapeChar(c)
  {
    assert (s + [c])[..|s|] == s;
  }

  lemma Assoc(a: string, b: string, c: string)
    ensures (a + b) + c == a + (b + c)
  {
  }

  lemma {:induction false} ConcatAppend(ss: seq<string>, s: string)
    ensures Concat(ss + [s]) == Concat(ss) + s
  {
    assert (ss + [s])[..|ss|] == ss;
  }
}
