/** Iterating over the parts of a string between delimiters, forwards and backwards. */
module Tokenizer {
  import opened WideText
  import opened WordFinder

  /** The parts of `s` from position `from` on. */
  function Tokens(s: string, delim: string, from: nat): (r: seq<string>)
    requires delim != "" && from <= |s|
    ensures r != []
    decreases |s| - from
  {
    match FindString(s, delim, from)
    case None => [s[from..]]
    case Some(pos) => [s[from..pos]] + Tokens(s, delim, pos + |delim|)
  }

  function Join(parts: seq<string>, delim: string): string
    requires parts != []
  {
    if |parts| == 1 then parts[0] else parts[0] + delim + Join(parts[1..], delim)
  }

  /** Joined again, the parts give back the string. */
  lemma {:induction false} JoinTokens(s: string, delim: string, from: nat)
    requires delim != "" && from <= |s|
    ensures Join(Tokens(s, delim, from), delim) == s[from..]
    decreases |s| - from
  {
    hide FindString, Join;
    var found := FindString(s, delim, from);
    if found.Some? {
      var pos := found.value;
      JoinTokens(s, delim, pos + |delim|);
      JoinFirst(s[from..pos], Tokens(s, delim, pos + |delim|), delim);
      Pieces(s, from, pos, pos + |delim|);
    } else {
      JoinOne(s[from..], delim);
    }
  }

  lemma JoinOne(part: string, delim: string)
    ensures Join([part], delim) == part
  {
  }

  lemma JoinFirst(part: string, parts: seq<string>, delim: string)
    requires parts != []
    ensures Join([part] + parts, delim) == part + delim + Join(parts, delim)
  {
    assert ([part] + parts)[1..] == parts;
  }

  lemma Pieces(s: string, a: nat, b: nat, c: nat)
    requires a <= b <= c <= |s|
    ensures s[a..b] + s[b..c] + s[c..] == s[a..]
  {
  }

  /** No part holds the delimiter, and behind every part but the last it does not begin any earlier. */
  lemma {:induction false} TokensClean(s: string, delim: string, from: nat)
    requires delim != "" && from <= |s|
    ensures forall t :: t in Tokens(s, delim, from) ==> forall p: nat :: !Occurs(t, delim, p)
    ensures forall i, p: nat :: 0 <= i < |Tokens(s, delim, from)| - 1 && p < |Tokens(s, delim, from)[i]| ==>
              !Occurs(Tokens(s, delim, from)[i] + delim, delim, p)
    decreases |s| - from
  {
    var found := FindString(s, delim, from);
    if found.None? {
      PartClean(s, delim, from, |s|);
      assert s[from..|s|] == s[from..];
    } else {
      PartClean(s, delim, from, found.value);
      PartFirst(s, delim, from, found.value);
      TokensClean(s, delim, found.value + |delim|);
    }
  }

  lemma PartFirst(s: string, delim: string, from: nat, end: nat)
    requires delim != "" && from <= end && Occurs(s, delim, end) && forall p: nat :: from <= p < end ==> !Occurs(s, delim, p)
    ensures forall p: nat :: p < end - from ==> !Occurs(s[from..end] + delim, delim, p)
  {
    var t := s[from..end] + delim;
    assert t == s[from..end + |delim|];
    forall p: nat | Occurs(t, delim, p) ensures Occurs(s, delim, from + p) {
      var here := s[from + p..from + p + |delim|];
      assert forall k :: 0 <= k < |delim| ==> here[k] == t[p..p + |delim|][k];
      assert here == delim;
    }
  }

  lemma PartClean(s: string, delim: string, from: nat, end: nat)
    requires delim != "" && from <= end <= |s| && forall p: nat :: from <= p < end ==> !Occurs(s, delim, p)
    ensures forall p: nat :: !Occurs(s[from..end], delim, p)
  {
    forall p: nat | Occurs(s[from..end], delim, p) ensures from + p < end && Occurs(s, delim, from + p) {
      var here := s[from + p..from + p + |delim|];
      assert forall k :: 0 <= k < |delim| ==> here[k] == s[from..end][p..p + |delim|][k];
      assert here == delim;
    }
  }

  // ---- Backwards, for a delimiter of one character ----

  /** The last `c` before position `end`, as `rfind` finds it. */
  function FindLast(s: string, c: char, end: nat): (r: Option<nat>)
    requires end <= |s|
    ensures r.Some? ==> r.value < end && s[r.value] == c
    ensures forall k :: (if r.Some? then r.value + 1 else 0) <= k < end ==> s[k] != c
  {
    if end == 0 then None else if s[end - 1] == c then Some(end - 1) else FindLast(s, c, end - 1)
  }

  /** The parts of `s` up to position `end`, last first. */
  function BackTokens(s: string, c: char, end: nat): (r: seq<string>)
    requires end <= |s|
    ensures r != []
    decreases end
  {
    match FindLast(s, c, end)
    case None => [s[..end]]
    case Some(pos) => [s[pos + 1..end]] + BackTokens(s, c, pos)
  }

  function Reversed(parts: seq<string>): seq<string> {
    if parts == [] then [] else [parts[|parts| - 1]] + Reversed(parts[..|parts| - 1])
  }

  /** Finding a string of one character is finding that character. */
  lemma FindSingle(s: string, c: char, from: nat)
    requires from <= |s|
    ensures FindString(s, [c], from) == if Find(s, c, from) < |s| then Some(Find(s, c, from)) else None
  {
    assert forall p: nat :: p < |s| ==> (Occurs(s, [c], p) <==> s[p] == c);
    var found := FindString(s, [c], from);
    assert Find(s, c, from) < |s| ==> Occurs(s, [c], Find(s, c, from));
    assert found.Some? ==> Occurs(s, [c], found.value);
    hide Find, FindString;
  }

  /** Tokenising around one character. */
  lemma TokensSingle(s: string, c: char, from: nat)
    requires from <= |s|
    ensures var pos := Find(s, c, from);
      Tokens(s, [c], from) == if pos < |s| then [s[from..pos]] + Tokens(s, [c], pos + 1) else [s[from..]]
  {
    FindSingle(s, c, from);
    hide Find, FindString;
  }

  /** The last delimiter splits off the last part. */
  lemma {:induction false} LastPart(s: string, c: char, from: nat, last: nat)
    requires from <= last < |s| && s[last] == c && forall k :: last < k < |s| ==> s[k] != c
    ensures Tokens(s, [c], from) == Tokens(s[..last], [c], from) + [s[last + 1..]]
    decreases last - from
  {
    hide Tokens, Find;
    var front := s[..last];
    var pos := Find(s, c, from);
    TokensSingle(s, c, from);
    TokensSingle(front, c, from);
    if pos == last {
      FindIs(front, c, from, last);
      TokensSingle(s, c, last + 1);
      FindIs(s, c, last + 1, |s|);
      assert front[from..] == s[from..last];
    } else {
      FindIs(front, c, from, pos);
      LastPart(s, c, pos + 1, last);
      assert front[from..pos] == s[from..pos];
    }
  }

  /** Backwards the same parts come in the opposite order. */
  lemma {:induction false} BackwardsIsReversed(s: string, c: char, end: nat)
    requires end <= |s|
    ensures BackTokens(s, c, end) == Reversed(Tokens(s[..end], [c], 0))
    decreases end
  {
    hide Tokens, Find, FindLast;
    var found := FindLast(s, c, end);
    if found.None? {
      TokensSingle(s[..end], c, 0);
      FindIs(s[..end], c, 0, end);
      assert s[..end][0..] == s[..end];
      assert Reversed([]) == [];
    } else {
      BackwardsIsReversed(s, c, found.value);
      LastPart(s[..end], c, 0, found.value);
      assert s[..end][..found.value] == s[..found.value];
      assert s[..end][found.value + 1..] == s[found.value + 1..end];
      ReversedLast(Tokens(s[..found.value], [c], 0), s[found.value + 1..end]);
    }
  }

  lemma ReversedLast(early: seq<string>, last: string)
    ensures Reversed(early + [last]) == [last] + Reversed(early)
  {
    assert (early + [last])[..|early|] == early;
  }

  // ---- The iterators ----

  /** A part by its place in the string. */
  datatype Part = Part(start: nat, size: nat)

  class TokenIterator {
    const str: string
    const delimiter: string
    var current: Option<Part>

    ghost predicate Valid()
      reads this
    {
      delimiter != "" && (current.Some? ==>
        var p := current.value;
        p.start + p.size <= |str| && FindString(str, delimiter, p.start) ==
          if p.start + p.size < |str| then Some(p.start + p.size) else None)
    }

    /** What iterating from here on yields. */
    ghost function Remaining(): seq<string>
      reads this
      requires Valid()
    {
      if current.None? then [] else Tokens(str, delimiter, current.value.start)
    }

    constructor (str: string, delimiter: string)
      requires delimiter != ""
      ensures this.str == str && this.delimiter == delimiter
      ensures Valid() && Remaining() == Tokens(str, delimiter, 0)
    {
      this.str, this.delimiter := str, delimiter;
      var pos := FindString(str, delimiter, 0);
      current := Some(Part(0, if pos.Some? then pos.value else |str|));
    }

    function Value(): string
      reads this
      requires Valid() && current.Some?
      ensures Remaining()[0] == Value()
    {
      str[current.value.start..current.value.start + current.value.size]
    }

    method Next()
      requires Valid()
      modifies this
      ensures Valid()
      ensures Remaining() == if old(current).None? then [] else old(Remaining())[1..]
    {
      if current.None? {
        return;
      }
      var startpos := current.value.start + current.value.size + |delimiter|;
      if startpos > |str| {
        current := None;
        return;
      }
      var nextpos := FindString(str, delimiter, startpos);
      current := Some(Part(startpos, (if nextpos.Some? then nextpos.value else |str|) - startpos));
    }
  }

  class BackwardIterator {
    const str: string
    const delimiter: char
    var current: Option<Part>

    ghost predicate Valid()
      reads this
    {
      current.Some? ==>
        var p := current.value;
        p.start + p.size <= |str| &&
        FindLast(str, delimiter, p.start + p.size) == if p.start == 0 then None else Some(p.start - 1)
    }

    ghost function Remaining(): seq<string>
      reads this
      requires Valid()
    {
      if current.None? then [] else BackTokens(str, delimiter, current.value.start + current.value.size)
    }

    constructor (str: string, delimiter: char)
      ensures this.str == str && this.delimiter == delimiter
      ensures Valid() && Remaining() == BackTokens(str, delimiter, |str|)
    {
      this.str, this.delimiter := str, delimiter;
      var pos := FindLast(str, delimiter, |str|);
      var start := if pos.Some? then pos.value + 1 else 0;
      current := Some(Part(start, |str| - start));
    }

    function Value(): string
      reads this
      requires Valid() && current.Some?
      ensures Remaining()[0] == Value()
    {
      str[current.value.start..current.value.start + current.value.size]
    }

    method Next()
      requires Valid()
      modifies this
      ensures Valid()
      ensures Remaining() == if old(current).None? then [] else old(Remaining())[1..]
    {
      if current.None? {
        return;
      }
      var startpos := current.value.start;
      if startpos == 1 {
        current := Some(Part(0, 0));
        return;
      }
      if startpos == 0 {
        current := None;
        return;
      }
      startpos := startpos - 2;
      var nextpos := FindLast(str, delimiter, startpos + 1);
      if nextpos.Some? {
        current := Some(Part(nextpos.value + 1, startpos - nextpos.value));
      } else {
        current := Some(Part(0, startpos + 1));
      }
    }
  }
}
