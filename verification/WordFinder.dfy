/** Locating the words of boundary events in the SSML text, outside its markup. */
module WordFinder {
  import opened WideText

  /** True when position `p` of `s` lies between a `<` and its `>`. */
  predicate InTag(s: string, p: nat)
    requires p <= |s|
  {
    p > 0 && if InTag(s, p - 1) then s[p - 1] != '>' else s[p - 1] == '<'
  }

  predicate Occurs(s: string, w: string, p: nat) {
    p + |w| <= |s| && s[p..p + |w|] == w
  }

  /** `w` stands at `p`, outside markup. */
  predicate Hit(s: string, w: string, p: nat) {
    Occurs(s, w, p) && !InTag(s, p)
  }

  /** The least hit at or after `from`. */
  function FirstHit(s: string, w: string, from: nat): (r: Option<nat>)
    ensures r.Some? ==> from <= r.value && Hit(s, w, r.value) && forall p :: from <= p < r.value ==> !Hit(s, w, p)
    ensures r.None? ==> forall p :: p >= from ==> !Hit(s, w, p)
    decreases |s| - from
  {
    if from > |s| then None else if Hit(s, w, from) then Some(from) else FirstHit(s, w, from + 1)
  }

  /** `std::wstring_view::find` for a string. */
  function FindString(s: string, w: string, from: nat): (r: Option<nat>)
    ensures r.Some? ==> from <= r.value && Occurs(s, w, r.value) && forall p :: from <= p < r.value ==> !Occurs(s, w, p)
    ensures r.None? ==> forall p :: p >= from ==> !Occurs(s, w, p)
    decreases |s| - from
  {
    if from > |s| then None else if Occurs(s, w, from) then Some(from) else FindString(s, w, from + 1)
  }

  lemma FirstHitIs(s: string, w: string, from: nat, p: nat)
    requires from <= p && Hit(s, w, p) && forall k :: from <= k < p ==> !Hit(s, w, k)
    ensures FirstHit(s, w, from) == Some(p)
  {
    hide Hit;
  }

  lemma NoHit(s: string, w: string, from: nat)
    requires forall p :: p >= from ==> !Hit(s, w, p)
    ensures FirstHit(s, w, from) == None
  {
    hide Hit;
  }

  // ---- Walking over text and tags ----

  lemma {:induction false} StaysOutside(s: string, q: nat, p: nat)
    requires q <= p <= |s| && !InTag(s, q)
    requires forall k :: q <= k < p ==> s[k] != '<'
    ensures !InTag(s, p)
  {
    if q < p {
      StaysOutside(s, q, p - 1);
    }
  }

  lemma {:induction false} StaysInside(s: string, q: nat, p: nat)
    requires q <= p <= |s| && InTag(s, q)
    requires forall k :: q <= k < p ==> s[k] != '>'
    ensures InTag(s, p)
  {
    if q < p {
      StaysInside(s, q, p - 1);
    }
  }

  /** Everything from an occurrence inside a tag up to the end of that tag is inside. */
  lemma WholeTagInside(s: string, w: string, p: nat, end: nat)
    requires Occurs(s, w, p) && NoAngles(w) && InTag(s, p) && p + |w| <= end <= |s|
    requires forall k :: p + |w| <= k < end ==> s[k] != '>'
    ensures forall k :: p <= k <= end ==> InTag(s, k)
  {
    assert forall k :: p <= k < p + |w| ==> s[k] == w[k - p];
    forall k | p <= k <= end ensures InTag(s, k) {
      StaysInside(s, p, k);
    }
  }

  /** An occurrence of a word without angle brackets outside a tag also ends outside it. */
  lemma EndsOutside(s: string, w: string, p: nat)
    requires Hit(s, w, p) && NoAngles(w)
    ensures !InTag(s, p + |w|)
  {
    assert forall k :: p <= k < p + |w| ==> s[k] == w[k - p];
    StaysOutside(s, p, p + |w|);
  }

  /** Scanning may go on at `q`: it is outside, or at the `>` that ends a tag. */
  predicate Clean(s: string, q: nat) {
    q <= |s| && (!InTag(s, q) || (q < |s| && s[q] == '>'))
  }

  lemma CleanToOutside(s: string, w: string, q: nat, p: nat)
    requires Clean(s, q) && q <= p && Occurs(s, w, p) && NoAngles(w) && (w == "" ==> !InTag(s, q))
    requires forall k :: q <= k < p ==> s[k] != '<'
    ensures !InTag(s, p)
  {
    assert w != "" ==> s[p] == w[0];
    if InTag(s, q) {
      assert !InTag(s, q + 1);
      StaysOutside(s, q + 1, p);
    } else {
      StaysOutside(s, q, p);
    }
  }

  lemma TagOpens(s: string, q: nat, t: nat)
    requires Clean(s, q) && q <= t < |s| && s[t] == '<'
    requires forall k :: q <= k < t ==> s[k] != '<'
    ensures InTag(s, t + 1)
  {
    if InTag(s, q) {
      assert q < t && !InTag(s, q + 1);
      StaysOutside(s, q + 1, t);
    } else {
      StaysOutside(s, q, t);
    }
  }

  /** Whether a word found at `wordPos` is outside markup, told by pairing brackets from `startpos` on. */
  method BracketsMatch(ssml: string, startpos: nat, wordPos: nat, ghost w: string) returns (matched: bool)
    requires Clean(ssml, startpos) && startpos <= wordPos && Occurs(ssml, w, wordPos) && NoAngles(w)
    requires w == "" ==> !InTag(ssml, startpos)
    ensures matched <==> !InTag(ssml, wordPos)
  {
    var before := startpos;
    while true
      invariant startpos <= before <= wordPos && Clean(ssml, before) && (w == "" ==> !InTag(ssml, before))
      decreases wordPos - before
    {
      var range := ssml[..wordPos];
      var tagStart := Find(range, '<', before);
      if tagStart == wordPos {
        CleanToOutside(ssml, w, before, wordPos);
        return true;
      }
      TagOpens(ssml, before, tagStart);
      var tagEnd := Find(range, '>', tagStart + 1);
      StaysInside(ssml, tagStart + 1, tagEnd);
      if tagEnd == wordPos {
        return false;
      }
      before := tagEnd + 1;
    }
  }

  /** Appends character by character, markup characters as entities. */
  method XmlEscape(str: string) returns (ret: string)
    ensures ret == Escape(str)
  {
    ret := "";
    for k := 0 to |str|
      invariant ret == Escape(str[..k])
    {
      ret := ret + EscapeChar(str[k]);
      EscapeAppend(str[..k], str[k]);
      assert str[..k + 1] == str[..k] + [str[k]];
    }
    assert str[..|str|] == str;
  }

  /**
   The search of the program: it returns the least position at or after `lastPos` where the escaped word
   stands outside markup, and leaves `lastPos` alone exactly when there is none.
   */
  method FindWord(ssml: string, word: string, lastPos: nat) returns (r: Option<nat>, newPos: nat)
    requires lastPos <= |ssml| && !InTag(ssml, lastPos)
    ensures r == FirstHit(ssml, Escape(word), lastPos)
    ensures newPos == if r.Some? then r.value + |Escape(word)| else lastPos
    ensures newPos <= |ssml| && !InTag(ssml, newPos)
  {
    var w := XmlEscape(word);
    newPos := lastPos;
    var startpos := lastPos;
    var wordPos := FindString(ssml, w, startpos);
    hide Escape, EscapeChar, InTag, FindString, FirstHit;
    while wordPos.Some?
      invariant lastPos <= startpos && Clean(ssml, startpos) && (w == "" ==> !InTag(ssml, startpos))
      invariant wordPos == FindString(ssml, w, startpos)
      invariant forall p :: lastPos <= p < startpos ==> !Hit(ssml, w, p)
      decreases |ssml| - startpos
    {
      var at := wordPos.value;
      var matched := BracketsMatch(ssml, startpos, at, w);
      if matched {
        FirstHitIs(ssml, w, lastPos, at);
        EndsOutside(ssml, w, at);
        return Some(at), at + |w|;
      }
      assert w != "" by { EmptyIsFirst(ssml, w, startpos, at); }
      var end := Find(ssml, '>', at + |w|);
      WholeTagInside(ssml, w, at, end);
      if end == |ssml| {
        assert forall p :: p > |ssml| ==> !Occurs(ssml, w, p) by { NothingBeyond(ssml, w); }
        NoHit(ssml, w, lastPos);
        return None, lastPos;
      }
      startpos := end;
      wordPos := FindString(ssml, w, startpos);
    }
    NoHit(ssml, w, lastPos);
    return None, lastPos;
  }

  lemma NothingBeyond(s: string, w: string)
    ensures forall p :: p > |s| ==> !Occurs(s, w, p)
  {
  }

  /** The empty word is found where the search starts. */
  lemma EmptyIsFirst(s: string, w: string, from: nat, at: nat)
    requires Clean(s, from) && (w == "" ==> !InTag(s, from)) && FindString(s, w, from) == Some(at) && InTag(s, at)
    ensures w != ""
  {
    assert Occurs(s, "", from);
  }

  // ---- Whole runs ----

  /** The results of successive calls, one for each escaped word. */
  function Locate(s: string, words: seq<string>, lastPos: nat): (r: seq<Option<nat>>)
    ensures |r| == |words|
  {
    if words == [] then []
    else
      var hit := FirstHit(s, words[0], lastPos);
      [hit] + Locate(s, words[1..], if hit.Some? then hit.value + |words[0]| else lastPos)
  }

  /** A placement of the words outside markup, in order and without overlap. */
  predicate Placed(s: string, words: seq<string>, places: seq<nat>, from: nat) {
    && |places| == |words|
    && (forall i :: 0 <= i < |words| ==> Hit(s, words[i], places[i]) && places[i] >= from)
    && (forall i, j :: 0 <= i < j < |words| ==> places[i] + |words[i]| <= places[j])
  }

  /** Greedy completeness: if the words can be placed at all, every call succeeds, no later than that placement. */
  lemma {:induction false} GreedyComplete(s: string, words: seq<string>, places: seq<nat>, lastPos: nat)
    requires Placed(s, words, places, lastPos)
    ensures forall i :: 0 <= i < |words| ==>
              Locate(s, words, lastPos)[i].Some? && Locate(s, words, lastPos)[i].value <= places[i]
  {
    hide Hit, FirstHit;
    if words != [] {
      var hit := FirstHit(s, words[0], lastPos);
      assert Hit(s, words[0], places[0]);
      assert hit.Some? && hit.value <= places[0];
      var next := hit.value + |words[0]|;
      forall i | 0 <= i < |words[1..]| ensures Hit(s, words[1..][i], places[1..][i]) && places[1..][i] >= next {
        assert places[0] + |words[0]| <= places[i + 1];
      }
      GreedyComplete(s, words[1..], places[1..], next);
      forall i | 0 <= i < |words|
        ensures Locate(s, words, lastPos)[i].Some? && Locate(s, words, lastPos)[i].value <= places[i]
      {
        if i > 0 {
          assert Locate(s, words, lastPos)[i] == Locate(s, words[1..], next)[i - 1];
        }
      }
    }
  }
}
