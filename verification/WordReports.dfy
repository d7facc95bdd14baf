/** What the application is told of the words a service reports. */
module WordReports {
  import opened Numbers
  import opened WideText
  import opened SsmlBuilder
  import opened OffsetMap
  import opened SsmlOffsets
  import opened SpokenWords
  import opened Bookmarks

  /** The service reports a word or a sentence at its place in the document, ending strictly inside its fragment. */
  predicate ReportsSpan(v: Voice, frags: seq<Fragment>, w: Word, c: Call) {
    && IsWord(frags, w) && w.first < w.last < |UpToNul(frags[w.frag].text)|
    && c.Bounds? && c.offset == Place(v, frags, w) && c.length == |Escape(Spelled(frags, w))|
  }

  predicate ReportsWord(v: Voice, frags: seq<Fragment>, w: Word, c: Call) {
    ReportsSpan(v, frags, w, c) && c.kind == WordBoundary
  }

  /** Where the word ends in the source. */
  function WordEnd(frags: seq<Fragment>, w: Word): nat
    requires IsWord(frags, w)
  {
    frags[w.frag].src + w.last
  }

  /** The application is told where the word or sentence is in its own text and how long it is there. */
  lemma SpanTold(v: Voice, frags: seq<Fragment>, w: Word, c: Call)
    requires Ordered(frags) && Fits(v, frags) && ReportsSpan(v, frags, w, c)
    ensures var maps := Translate(v, frags).maps;
      && MappedBoundary(maps, c) == Boundary(c.kind, c.bytes, frags[w.frag].src + w.first, w.last - w.first)
      && MappedEnd(maps, c) == WordEnd(frags, w)
  {
    hide Run, Translate, SpokenPos, UpToNul, Escape, MapOffset, Wrap;
    RoundTripInside(v, frags, w.frag, w.first, w.last);
    SrcBelowBound(frags, w.frag);
    WrapSmall(WordEnd(frags, w));
  }

  /** Every call reports the word of the same index. */
  predicate ReportsWords(v: Voice, frags: seq<Fragment>, words: seq<Word>, calls: seq<Call>) {
    |calls| == |words| && forall i :: 0 <= i < |words| ==> ReportsWord(v, frags, words[i], calls[i])
  }

  /** The furthest source offset at which one of the words ends. */
  function FurthestWord(frags: seq<Fragment>, words: seq<Word>): nat
    requires forall i :: 0 <= i < |words| ==> IsWord(frags, words[i])
  {
    if words == [] then 0 else Max(WordEnd(frags, words[|words| - 1]), FurthestWord(frags, words[..|words| - 1]))
  }

  lemma {:induction false} FurthestAgrees(v: Voice, frags: seq<Fragment>, words: seq<Word>, calls: seq<Call>)
    requires Ordered(frags) && Fits(v, frags) && ReportsWords(v, frags, words, calls)
    ensures FurthestEnd(Translate(v, frags).maps, calls) == FurthestWord(frags, words)
  {
    hide ReportsWord, Translate, MappedEnd, WordEnd, Ordered, Fits;
    if words != [] {
      var n := |words| - 1;
      FurthestAgrees(v, frags, words[..n], calls[..n]);
      assert ReportsWord(v, frags, words[n], calls[n]);
      WordCall(v, frags, words[n], calls[n]);
      SpanTold(v, frags, words[n], calls[n]);
    }
  }

  lemma WordCall(v: Voice, frags: seq<Fragment>, w: Word, c: Call)
    requires ReportsWord(v, frags, w, c)
    ensures ReportsSpan(v, frags, w, c) && c.Bounds? && c.kind == WordBoundary
  {
  }

  /** For an Edge voice the bookmarks told while words are spoken are exactly those before the furthest word's end in the text. */
  lemma BookmarksByWords(v: Voice, frags: seq<Fragment>, words: seq<Word>, calls: seq<Call>)
    requires v.isEdge && Ordered(frags) && Fits(v, frags) && ReportsWords(v, frags, words, calls)
    ensures var r := AfterCalls(true, Translate(v, frags).maps, Listed(frags), calls);
      forall k :: 0 <= k < |Listed(frags)| ==> (k < r.index <==> Listed(frags)[k].sapi < FurthestWord(frags, words))
  {
    hide Translate, AfterCalls, FurthestEnd, ReportsWord, Listed, Fits, Ordered;
    TranslationBookmarks(v, frags);
    FurthestAgrees(v, frags, words, calls);
    ReportedBeforeFlush(Translate(v, frags).maps, Listed(frags), calls);
  }
}
