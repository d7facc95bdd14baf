/** Spans over several spoken fragments: words cut by bookmarks or fragment boundaries. */
module FarSpans {
  import opened WideText
  import opened SsmlBuilder
  import opened SsmlNesting
  import opened OffsetMap
  import opened SsmlOffsets
  import opened SpanEnds

  /** Fragment `p` is the last one spoken before `n`. */
  predicate LastSpokenBefore(frags: seq<Fragment>, p: nat, n: nat)
    requires p < n < |frags|
  {
    Speakable(frags[p]) && Speakable(frags[n]) && forall i :: p < i < n ==> !Speakable(frags[i])
  }

  /** Copied whole, and not empty. */
  predicate Whole(f: Fragment) {
    UpToNul(f.text) == f.text && f.text != ""
  }

  /** An Edge voice has marked a bookmark between `p` and `m` at this SSML offset. */
  predicate MarkedAt(v: Voice, frags: seq<Fragment>, p: nat, m: nat, at: nat)
    requires p < m <= |frags|
  {
    v.isEdge && exists q :: p < q < m && frags[q].action == Bookmark && WritePos(v, frags, q) == at
  }

  /** Nothing is written between the copies of `p` and `n`, or none between an Edge voice's mark of a bookmark and `n`. */
  predicate Tied(v: Voice, frags: seq<Fragment>, p: nat, n: nat)
    requires p < n < |frags|
  {
    CopyEnd(v, frags, p) == SpokenPos(v, frags, n) || MarkedAt(v, frags, p, n, SpokenPos(v, frags, n))
  }

  // ---- What is mapped where a fragment is copied ----

  /** Since fragment `p` only bookmarks were marked, all with the source offset spoken so far, or inside what was written. */
  predicate MarksOnly(v: Voice, frags: seq<Fragment>, p: nat, m: nat)
    requires p < m <= |frags|
  {
    var b := Run(v, frags, m);
    && (forall i :: |Run(v, frags, p + 1).maps| <= i < |b.maps| ==>
          || b.maps[i].ssml < |b.ssml|
          || (MarkedAt(v, frags, p, m, b.maps[i].ssml) && b.maps[i].sapi == SrcEnd(frags[p])))
    && (v.isEdge ==> b.lastSapi == SrcEnd(frags[p]))
  }

  lemma MarkedMore(v: Voice, frags: seq<Fragment>, p: nat, m: nat)
    requires p < m < |frags|
    ensures forall at: nat :: MarkedAt(v, frags, p, m, at) ==> MarkedAt(v, frags, p, m + 1, at)
    ensures v.isEdge && frags[m].action == Bookmark ==> MarkedAt(v, frags, p, m + 1, WritePos(v, frags, m))
  {
    hide WritePos;
  }

  lemma {:induction false} RunMarksOnly(v: Voice, frags: seq<Fragment>, p: nat, m: nat)
    requires p < m <= |frags| && Speakable(frags[p]) && forall i :: p < i < m ==> !Speakable(frags[i])
    ensures MarksOnly(v, frags, p, m)
    decreases m
  {
    hide MarksOnly;
    if m == p + 1 {
      MarksStart(v, frags, p);
    } else {
      RunMarksOnly(v, frags, p, m - 1);
      MarksStep(v, frags, p, m - 1);
    }
  }

  lemma MarksStart(v: Voice, frags: seq<Fragment>, p: nat)
    requires p < |frags| && Speakable(frags[p])
    ensures MarksOnly(v, frags, p, p + 1)
  {
    hide Run, MarkedAt, SpanMaps, SpokenPos, UpToNul;
    SpokenAdds(v, frags, p);
  }

  lemma MarksStep(v: Voice, frags: seq<Fragment>, p: nat, m: nat)
    requires p < m < |frags| && !Speakable(frags[m]) && MarksOnly(v, frags, p, m)
    ensures MarksOnly(v, frags, p, m + 1)
  {
    hide Run, MarkedAt, WritePos, Speakable;
    OtherAdds(v, frags, m);
    MarkedMore(v, frags, p, m);
    RunGrows(v, frags, p + 1, m);
    var b, r := Run(v, frags, m), Run(v, frags, m + 1);
    forall i | |Run(v, frags, p + 1).maps| <= i < |r.maps|
      ensures r.maps[i].ssml < |r.ssml| || (MarkedAt(v, frags, p, m + 1, r.maps[i].ssml) && r.maps[i].sapi == SrcEnd(frags[p]))
    {
      assert i < |b.maps| ==> r.maps[i] == b.maps[i];
    }
  }

  /** What an Edge voice marked for a bookmark stays in the list. */
  lemma MarkKept(v: Voice, frags: seq<Fragment>, p: nat, n: nat, at: nat)
    requires p < n <= |frags| && MarkedAt(v, frags, p, n, at) && forall i :: p < i < n ==> !Speakable(frags[i])
    ensures exists i :: |Run(v, frags, p + 1).maps| <= i < |Run(v, frags, n).maps| && Run(v, frags, n).maps[i].ssml == at
  {
    hide Run, WritePos, Speakable;
    var q :| p < q < n && frags[q].action == Bookmark && WritePos(v, frags, q) == at;
    OtherAdds(v, frags, q);
    RunGrows(v, frags, p + 1, q);
    RunGrows(v, frags, q + 1, n);
    var i := |Run(v, frags, q).maps|;
    assert Run(v, frags, n).maps[i] == Run(v, frags, q + 1).maps[i];
  }

  /** All that is mapped right where `n` is copied, before it, has the source end of what was spoken last. */
  lemma TiesBefore(v: Voice, frags: seq<Fragment>, p: nat, n: nat)
    requires Ordered(frags) && p < n < |frags| && LastSpokenBefore(frags, p, n) && Whole(frags[p])
    ensures var maps, at := Translate(v, frags).maps, SpokenIndex(v, frags, n);
      && 0 < at < |maps|
      && (forall m :: 0 <= m < at && maps[m].ssml == SpokenPos(v, frags, n) ==> maps[m].sapi == SrcEnd(frags[p]))
      && (maps[at - 1].ssml == SpokenPos(v, frags, n) <==> Tied(v, frags, p, n))
  {
    hide Run, Translate, SpokenPos, Holds, SpanMaps, Escape, UpToNul, MarkedAt, WritePos;
    var maps, at, first, f := Translate(v, frags).maps, SpokenIndex(v, frags, n), |Run(v, frags, p + 1).maps|, frags[p];
    SpokenFound(v, frags, p);
    SpokenFound(v, frags, n);
    EndMapped(v, frags, p);
    TranslationSorted(v, frags);
    RunGrows(v, frags, p + 1, n);
    TranslateGrows(v, frags, n);
    RunMarksOnly(v, frags, p, n);
    TiesAtEnd(maps, SpokenIndex(v, frags, p), f.src, f.text, SpokenPos(v, frags, p));
    SpokenAdds(v, frags, n);
    SpanAt(maps, at, frags[n].src, frags[n].text, SpokenPos(v, frags, n));
    forall m | 0 <= m < at && maps[m].ssml == SpokenPos(v, frags, n)
      ensures maps[m].sapi == SrcEnd(f) && Tied(v, frags, p, n)
    {
      assert maps[m] == Run(v, frags, n).maps[m];
      if m < first {
        assert maps[m].ssml <= maps[first - 1].ssml == CopyEnd(v, frags, p);
      }
    }
    if MarkedAt(v, frags, p, n, SpokenPos(v, frags, n)) {
      MarkKept(v, frags, p, n, SpokenPos(v, frags, n));
      var i :| first <= i < at && Run(v, frags, n).maps[i].ssml == SpokenPos(v, frags, n);
      assert maps[i] == Run(v, frags, n).maps[i];
    }
  }

  // ---- Spans that end strictly inside a later fragment ----

  /** How long the image of a span from character `a` of `k` to character `b` of `n` is. */
  function Reach(v: Voice, frags: seq<Fragment>, k: nat, a: nat, n: nat, b: nat): int
    requires k < |frags| && n < |frags| && a <= |UpToNul(frags[k].text)| && b <= |UpToNul(frags[n].text)|
  {
    Image(UpToNul(frags[n].text), SpokenPos(v, frags, n), b) - Image(UpToNul(frags[k].text), SpokenPos(v, frags, k), a)
  }

  /** The span maps back to the source range between its ends. */
  predicate ExactTo(v: Voice, frags: seq<Fragment>, k: nat, a: nat, n: nat, b: nat)
    requires k < |frags| && n < |frags| && a <= |UpToNul(frags[k].text)| && b <= |UpToNul(frags[n].text)|
  {
    && Reach(v, frags, k, a, n, b) >= 0
    && MapOffset(Translate(v, frags).maps, Image(UpToNul(frags[k].text), SpokenPos(v, frags, k), a), Reach(v, frags, k, a, n, b))
       == (frags[k].src + a, frags[n].src + b - (frags[k].src + a))
  }

  /**
   A span from one spoken fragment to strictly inside any later one, where `p` is spoken last before that: it maps back to
   the source range between its ends if and only if a character of the later fragment inside it was escaped, or something
   is written right before that fragment, or the span's length in SSML reaches beyond the source end of `p`, or that is
   where the later fragment begins. Otherwise its end is measured from the source end of `p`.
   */
  lemma RoundTripFar(v: Voice, frags: seq<Fragment>, k: nat, p: nat, n: nat, a: nat, b: nat)
    requires Ordered(frags) && Fits(v, frags) && k <= p < n < |frags| && Speakable(frags[k]) && LastSpokenBefore(frags, p, n)
    requires a < |UpToNul(frags[k].text)| && Whole(frags[p]) && 0 < b < |UpToNul(frags[n].text)|
    ensures ExactTo(v, frags, k, a, n, b)
       <==> || !NoEscapes(UpToNul(frags[n].text)[..b])
            || !Tied(v, frags, p, n)
            || frags[k].src + a + Reach(v, frags, k, a, n, b) > SrcEnd(frags[p])
            || SrcEnd(frags[p]) == frags[n].src
    ensures !ExactTo(v, frags, k, a, n, b) ==>
      && Reach(v, frags, k, a, n, b) >= 0
      && MapOffset(Translate(v, frags).maps, Image(UpToNul(frags[k].text), SpokenPos(v, frags, k), a), Reach(v, frags, k, a, n, b))
         == (frags[k].src + a, SrcEnd(frags[p]) + b - (frags[k].src + a))
  {
    hide Run, Translate, SpokenPos, MapOffset, UpToNul, Escape, Image, Holds, Tied, NoEscapes, SpanMaps, Sorted;
    var maps, f, g := Translate(v, frags).maps, frags[k], frags[n];
    SpokenFound(v, frags, k);
    SpokenFound(v, frags, n);
    TranslationSorted(v, frags);
    RunGrows(v, frags, k + 1, n);
    TiesBefore(v, frags, p, n);
    FarBounds(v, frags, k, n, a, b);
    EndsOrdered(frags, k, p, n);
    SpanFar(maps, SpokenIndex(v, frags, k), f.src, f.text, SpokenPos(v, frags, k), a,
            SpokenIndex(v, frags, n), g.src, g.text, SpokenPos(v, frags, n), b, SrcEnd(frags[p]));
  }

  lemma EndsOrdered(frags: seq<Fragment>, k: nat, p: nat, n: nat)
    requires Ordered(frags) && k <= p < n < |frags|
    ensures SrcEnd(frags[k]) <= SrcEnd(frags[p]) <= frags[n].src
  {
    assert SrcEnd(frags[p]) <= frags[n].src;
    assert k < p ==> SrcEnd(frags[k]) <= frags[p].src;
  }

  lemma FarBounds(v: Voice, frags: seq<Fragment>, k: nat, n: nat, a: nat, b: nat)
    requires Ordered(frags) && Fits(v, frags) && k < |frags| && n < |frags| && Speakable(frags[k]) && Speakable(frags[n])
    requires a <= |UpToNul(frags[k].text)| && b <= |UpToNul(frags[n].text)|
    ensures var from := Image(UpToNul(frags[k].text), SpokenPos(v, frags, k), a);
      var stop := Image(UpToNul(frags[n].text), SpokenPos(v, frags, n), b);
      stop < ULONG && (from <= stop ==> frags[k].src + a + (stop - from) < ULONG) && frags[n].src + b < ULONG
  {
    hide Run, Translate, SpokenPos, UpToNul, Escape, Image, Holds, SpanMaps;
    var t := UpToNul(frags[n].text);
    SpokenFound(v, frags, n);
    SrcBelowBound(frags, k);
    SrcBelowBound(frags, n);
    ImageAdd(t, SpokenPos(v, frags, n), b, |t|);
    ImageIs(t, SpokenPos(v, frags, n));
  }

  /**
   A word cut once, by bookmarks or a fragment boundary: any span from one spoken fragment to strictly inside the next one
   maps back to the source range from its first to its last character.
   */
  lemma RoundTripAcross(v: Voice, frags: seq<Fragment>, k: nat, n: nat, a: nat, b: nat)
    requires Ordered(frags) && Fits(v, frags) && k < n < |frags| && LastSpokenBefore(frags, k, n)
    requires UpToNul(frags[k].text) == frags[k].text && a < |frags[k].text| && 0 < b < |UpToNul(frags[n].text)|
    ensures ExactTo(v, frags, k, a, n, b)
  {
    hide Run, Translate, SpokenPos, MapOffset, UpToNul, Escape, Image, Holds, Tied, NoEscapes, SpanMaps, Sorted, ExactTo;
    RoundTripFar(v, frags, k, k, n, a, b);
    ReachesPast(v, frags, k, n, a, b);
  }

  /** It reaches beyond the end of the first fragment in SSML, so also in the source. */
  lemma ReachesPast(v: Voice, frags: seq<Fragment>, k: nat, n: nat, a: nat, b: nat)
    requires k < n < |frags| && Speakable(frags[k]) && Speakable(frags[n])
    requires UpToNul(frags[k].text) == frags[k].text && a < |frags[k].text| && 0 < b < |UpToNul(frags[n].text)|
    ensures frags[k].src + a + Reach(v, frags, k, a, n, b) > SrcEnd(frags[k])
  {
    hide Run, SpokenPos, UpToNul, Escape, Image, Holds, SpanMaps, Translate;
    var t1, t2, pos1, pos2 := frags[k].text, UpToNul(frags[n].text), SpokenPos(v, frags, k), SpokenPos(v, frags, n);
    SpokenFound(v, frags, k);
    SpokenFound(v, frags, n);
    RunGrows(v, frags, k + 1, n);
    ImageAdd(t1, pos1, a, |t1|);
    ImageIs(t1, pos1);
    ImageAdd(t2, pos2, 0, b);
    ImageOfNothing(t2, pos2);
    assert t1[a..|t1|] == t1[a..];
  }

  // ---- Spans that end with a later fragment ----

  /**
   A span from one spoken fragment to the end of the same or any later one maps back to the source range between its
   ends if and only if that range is at least as long as its image, or no later fragment from further on in the
   source is copied right behind it.
   */
  lemma RoundTripToLaterEnd(v: Voice, frags: seq<Fragment>, k: nat, n: nat, a: nat)
    requires Ordered(frags) && Fits(v, frags) && k <= n < |frags| && Speakable(frags[k]) && Speakable(frags[n])
    requires UpToNul(frags[k].text) == frags[k].text && a < |frags[k].text| && Whole(frags[n])
    ensures ExactTo(v, frags, k, a, n, |frags[n].text|)
       <==> SrcEnd(frags[n]) - (frags[k].src + a) >= Reach(v, frags, k, a, n, |frags[n].text|) || !AnyOnTop(v, frags, n, |frags|)
  {
    hide Run, Translate, SpokenPos, MapOffset, UpToNul, Escape, Image, Holds, AnyOnTop, SpanMaps, Sorted, LastNotAbove;
    var maps, f, g := Translate(v, frags).maps, frags[k], frags[n];
    SpokenFound(v, frags, k);
    SpokenFound(v, frags, n);
    TranslationSorted(v, frags);
    SrcBelowBound(frags, n);
    AllInRange(maps, |Translate(v, frags).ssml|, SrcBound(frags, |frags|));
    FarBounds(v, frags, k, n, a, |g.text|);
    ImageIs(g.text, SpokenPos(v, frags, n));
    LastAtEnd(v, frags, n);
    ReachesEnd(v, frags, k, n, a);
    SpanToLaterEnd(maps, SpokenIndex(v, frags, k), f.src, f.text, SpokenPos(v, frags, k), a,
                   SpokenIndex(v, frags, n), g.src, g.text, SpokenPos(v, frags, n));
  }

  lemma ReachesEnd(v: Voice, frags: seq<Fragment>, k: nat, n: nat, a: nat)
    requires Ordered(frags) && k <= n < |frags| && Speakable(frags[k]) && Speakable(frags[n])
    requires UpToNul(frags[k].text) == frags[k].text && a < |frags[k].text| && Whole(frags[n])
    ensures Reach(v, frags, k, a, n, |frags[n].text|) > 0 && frags[k].src + a < SrcEnd(frags[n])
  {
    hide Run, SpokenPos, UpToNul, Escape, Image, Holds, SpanMaps, Translate;
    var t1, t2, pos1, pos2 := frags[k].text, frags[n].text, SpokenPos(v, frags, k), SpokenPos(v, frags, n);
    ImageAdd(t1, pos1, a, |t1|);
    ImageIs(t1, pos1);
    ImageAdd(t2, pos2, 0, |t2|);
    ImageOfNothing(t2, pos2);
    if k < n {
      SpokenFound(v, frags, k);
      SpokenFound(v, frags, n);
      RunGrows(v, frags, k + 1, n);
      EndsOrdered(frags, k, k, n);
    }
  }
}
