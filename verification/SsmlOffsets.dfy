/** The mapping list a translation records, and the round trip of source spans through it. */
module SsmlOffsets {
  import opened WideText
  import opened XmlReader
  import opened SsmlBuilder
  import opened SsmlNesting
  import opened OffsetMap

  /** Fragments come in source order with disjoint source ranges. */
  predicate Ordered(frags: seq<Fragment>) {
    forall i, j :: 0 <= i < j < |frags| ==> SrcEnd(frags[i]) <= frags[j].src
  }

  /** Where the source text of the first `n` fragments ends. */
  function SrcBound(frags: seq<Fragment>, n: nat): nat
    requires n <= |frags|
  {
    if n == 0 then 0 else SrcEnd(frags[n - 1])
  }

  // ---- Text and mappings are only ever appended ----

  predicate Grows(a: Build, b: Build) {
    a.ssml <= b.ssml && a.maps <= b.maps
  }

  lemma OpenTagsGrow(v: Voice, f: Fragment, b: Build)
    ensures var r := OpenTags(v, f, b); Grows(b, r) && r.maps == b.maps && r.lastSapi == b.lastSapi
  {
    var b0 := b.(hasText := b.hasText || (f.action != Bookmark && f.text != ""));
    var b1 := OpenProsody(v, f, b0);
    OpenOneGrows(v, f, b0);
    var b2 := OpenEmphasis(v, f, b1);
    OpenOneGrows(v, f, b1);
    OpenOneGrows(v, f, b2);
    OpenOneGrows(v, f, ReopenCustom(b2));
    hide OpenProsody, OpenEmphasis, ReopenCustom, OpenSayAs;
  }

  lemma OpenOneGrows(v: Voice, f: Fragment, b: Build)
    ensures var r := OpenProsody(v, f, b); Grows(b, r) && r.maps == b.maps && r.lastSapi == b.lastSapi
    ensures var r := OpenEmphasis(v, f, b); Grows(b, r) && r.maps == b.maps && r.lastSapi == b.lastSapi
    ensures var r := ReopenCustom(b); Grows(b, r) && r.maps == b.maps && r.lastSapi == b.lastSapi
    ensures var r := OpenSayAs(v, f, b); Grows(b, r) && r.maps == b.maps && r.lastSapi == b.lastSapi
  {
    hide ProsodyOf, StartTag, ProsodyAttributes, Interpretation, Concat, AllTagEvents, Attribute;
  }

  lemma CloseTagsGrow(level: nat, b: Build)
    ensures var r := CloseTags(level, b); Grows(b, r) && r.maps == b.maps && r.lastSapi == b.lastSapi
  {
    var b1 := CloseSayAs(level, b);
    var b2 := CloseCustom(level, b1);
    var b3 := CloseEmphasis(level, b2);
    CloseOneGrows(level, b);
    CloseOneGrows(level, b1);
    CloseOneGrows(level, b2);
    CloseOneGrows(level, b3);
    hide CloseSayAs, CloseCustom, CloseEmphasis, CloseProsody;
  }

  lemma CloseOneGrows(level: nat, b: Build)
    ensures var r := CloseSayAs(level, b); Grows(b, r) && r.maps == b.maps && r.lastSapi == b.lastSapi
    ensures var r := CloseCustom(level, b); Grows(b, r) && r.maps == b.maps && r.lastSapi == b.lastSapi
    ensures var r := CloseEmphasis(level, b); Grows(b, r) && r.maps == b.maps && r.lastSapi == b.lastSapi
    ensures var r := CloseProsody(level, b); Grows(b, r) && r.maps == b.maps && r.lastSapi == b.lastSapi
  {
    hide EndTag, ClosingTags, AllCloseEvents;
  }

  /** The SSML offset at which the text of a spoken fragment is copied. */
  function TextPos(v: Voice, f: Fragment, b: Build): nat {
    |b.ssml| + |Lead(v, f, b.ssml)|
  }

  lemma EmitSpokenGrows(v: Voice, f: Fragment, b: Build)
    ensures var r, pos, t := EmitSpoken(v, f, b), TextPos(v, f, b), UpToNul(f.text);
      && Grows(b, r)
      && r.maps == b.maps + SpanMaps(f.src, f.text, pos)
      && pos + |Escape(t)| <= |r.ssml| && r.ssml[pos..pos + |Escape(t)|] == Escape(t)
      && r.lastSapi == if v.isEdge then SrcEnd(f) else b.lastSapi
  {
    hide Lead, LeadEvents, Tail, TailEvents, UpToNul, Escape, EscapeMaps, Chars;
    var r, pos, t := EmitSpoken(v, f, b), TextPos(v, f, b), UpToNul(f.text);
    var before := b.ssml + Lead(v, f, b.ssml);
    assert r.ssml == (before + Escape(t)) + Tail(v, f);
    assert ((b.maps + [Mapping(f.src, pos)]) + EscapeMaps(f.src, t, pos)) + [Mapping(SrcEnd(f), pos + |Escape(t)|)]
        == b.maps + SpanMaps(f.src, f.text, pos);
  }

  /** Where the mark of a bookmark element is copied. */
  function MarkPos(b: Build): nat {
    |b.ssml| + |"<bookmark mark='"|
  }

  lemma EmitBookmarkGrows(v: Voice, f: Fragment, b: Build)
    ensures var r := EmitBookmark(v, f, b);
      && Grows(b, r) && r.lastSapi == b.lastSapi
      && r.maps == b.maps + (if v.isEdge then [Mapping(b.lastSapi, |b.ssml|)]
                             else EscapeMaps(f.src, UpToNul(f.text), MarkPos(b)))
      && (!v.isEdge ==> MarkPos(b) + |Escape(UpToNul(f.text))| < |r.ssml|)
  {
    hide UpToNul, Escape, EscapeMaps;
    if !v.isEdge {
      var mark := Escape(UpToNul(f.text));
      MarkLength(mark);
    }
  }

  lemma MarkLength(mark: string)
    ensures |EmptyTag("bookmark", Attribute("mark", mark))| == |"<bookmark mark='"| + |mark| + 3
  {
    assert |"bookmark"| == 8 && |"mark"| == 4 && |"<bookmark mark='"| == 16;
  }

  lemma EmitTagGrows(f: Fragment, b: Build)
    ensures var r := EmitTag(f, b); Grows(b, r) && r.maps == b.maps && r.lastSapi == b.lastSapi
  {
    hide TagEvents, MatchingTag, TrimTag, IsXMLClosingTag, IsXMLSelfClosingTag, CloseThrough, OpenStored;
    forall k | 0 <= k < |b.customTags|
      ensures var r := CloseThrough(b, k, f.text); Grows(b, r) && r.maps == b.maps && r.lastSapi == b.lastSapi
    {
      CloseThroughGrows(b, k, f.text);
    }
    if |f.text| >= 3 {
      OpenStoredGrows(b, f.text);
    }
  }

  lemma CloseThroughGrows(b: Build, k: nat, text: string)
    requires k < |b.customTags|
    ensures var r := CloseThrough(b, k, text); Grows(b, r) && r.maps == b.maps && r.lastSapi == b.lastSapi
  {
    hide ClosingTags, AllCloseEvents, TagEvents;
  }

  lemma OpenStoredGrows(b: Build, text: StoredTag)
    ensures var r := OpenStored(b, text); Grows(b, r) && r.maps == b.maps && r.lastSapi == b.lastSapi
  {
    hide TagEvents;
  }

  lemma EmitOtherGrows(v: Voice, f: Fragment, b: Build)
    requires !Speakable(f) && f.action != Bookmark
    ensures var r := EmitFragment(v, f, b); Grows(b, r) && r.maps == b.maps && r.lastSapi == b.lastSapi
  {
    EmitTagGrows(f, b);
    hide EmitTag, EmptyTag, Attribute;
  }

  lemma EmitFragmentGrows(v: Voice, f: Fragment, b: Build)
    ensures Grows(b, EmitFragment(v, f, b))
  {
    EmitSpokenGrows(v, f, b);
    EmitBookmarkGrows(v, f, b);
    if !Speakable(f) && f.action != Bookmark {
      EmitOtherGrows(v, f, b);
    } else {
      hide EmitSpoken, EmitBookmark;
    }
  }

  lemma GrowsTransitive(a: Build, b: Build, c: Build)
    requires Grows(a, b) && Grows(b, c)
    ensures Grows(a, c)
  {
  }

  lemma StepGrows(v: Voice, frags: seq<Fragment>, i: nat)
    requires i < |frags|
    ensures Grows(Run(v, frags, i), Written(v, frags, i)) && Grows(Written(v, frags, i), Run(v, frags, i + 1))
    ensures Grows(Run(v, frags, i), Run(v, frags, i + 1))
    ensures Run(v, frags, i + 1).maps == Written(v, frags, i).maps
    ensures Run(v, frags, i + 1).lastSapi == Written(v, frags, i).lastSapi
  {
    hide Run, OpenTags, EmitFragment, CloseTags, LevelAfter, Grows;
    var f, b := frags[i], Run(v, frags, i);
    var ready, written := OpenTags(v, f, b), Written(v, frags, i);
    RunNext(v, frags, i);
    OpenTagsGrow(v, f, b);
    EmitFragmentGrows(v, f, ready);
    GrowsTransitive(b, ready, written);
    CloseTagsGrow(LevelAfter(v, frags, i, written.prosodyCount), written);
    GrowsTransitive(b, written, Run(v, frags, i + 1));
  }

  lemma {:induction false} RunGrows(v: Voice, frags: seq<Fragment>, i: nat, j: nat)
    requires i <= j <= |frags|
    ensures Grows(Run(v, frags, i), Run(v, frags, j))
    decreases j
  {
    hide *;
    if i == j {
      GrowsSelf(Run(v, frags, i));
    } else {
      RunGrows(v, frags, i, j - 1);
      RunGrowsStep(v, frags, i, j - 1, j);
    }
  }

  lemma RunGrowsStep(v: Voice, frags: seq<Fragment>, i: nat, k: nat, j: nat)
    requires i <= k < |frags| && j == k + 1 && Grows(Run(v, frags, i), Run(v, frags, k))
    ensures Grows(Run(v, frags, i), Run(v, frags, j))
  {
    hide *;
    StepGrows(v, frags, k);
    GrowsTransitive(Run(v, frags, i), Run(v, frags, k), Run(v, frags, j));
  }

  lemma GrowsSelf(b: Build)
    ensures Grows(b, b)
  {
  }

  lemma TranslateGrows(v: Voice, frags: seq<Fragment>, i: nat)
    requires i <= |frags|
    ensures Grows(Run(v, frags, i), Translate(v, frags)) && Translate(v, frags).maps == Run(v, frags, |frags|).maps
  {
    RunGrows(v, frags, i, |frags|);
    hide Run, EndTag;
  }

  // ---- The list is sorted ----

  /** Sorted, and nothing beyond the text written or the source read so far. */
  predicate Bounded(maps: seq<Mapping>, ssml: nat, sapi: nat) {
    Sorted(maps) && forall m :: m in maps ==> m.ssml <= ssml && m.sapi <= sapi
  }

  lemma AppendBounded(maps: seq<Mapping>, more: seq<Mapping>, ssml: nat, sapi: nat, ssml': nat, sapi': nat)
    requires Bounded(maps, ssml, sapi) && Bounded(more, ssml', sapi') && ssml <= ssml' && sapi <= sapi'
    requires forall m :: m in more ==> m.ssml >= ssml && m.sapi >= sapi
    ensures Bounded(maps + more, ssml', sapi')
  {
    var all := maps + more;
    forall i, j | 0 <= i <= j < |all| ensures all[i].ssml <= all[j].ssml && all[i].sapi <= all[j].sapi {
      if i < |maps| <= j {
        assert all[i] in maps && all[j] in more;
      }
    }
  }

  lemma EscapeMapsBounded(src: nat, t: string, pos: nat)
    ensures Bounded(EscapeMaps(src, t, pos), pos + |Escape(t)|, src + |t|)
    ensures forall m :: m in EscapeMaps(src, t, pos) ==> m.ssml > pos && m.sapi > src
  {
    assert t[..|t|] == t;
    EscapeMapsBelow(src, t, pos, |t|);
    EscapeMapsRise(src, t, pos, |t|);
    hide EscapeMaps, Escape;
  }

  lemma SpanMapsBounded(src: nat, text: string, pos: nat)
    ensures Bounded(SpanMaps(src, text, pos), pos + |Escape(UpToNul(text))|, src + |text|)
    ensures forall m :: m in SpanMaps(src, text, pos) ==> m.ssml >= pos && m.sapi >= src
  {
    hide EscapeMaps, Escape, UpToNul;
    var t := UpToNul(text);
    EscapeMapsBounded(src, t, pos);
    AppendBounded([Mapping(src, pos)], EscapeMaps(src, t, pos), pos, src, pos + |Escape(t)|, src + |t|);
    AppendBounded([Mapping(src, pos)] + EscapeMaps(src, t, pos), [Mapping(src + |text|, pos + |Escape(t)|)],
      pos + |Escape(t)|, src + |t|, pos + |Escape(t)|, src + |text|);
  }

  lemma WrittenBounded(v: Voice, f: Fragment, b: Build, bound: nat)
    requires Bounded(b.maps, |b.ssml|, bound) && bound <= f.src && b.lastSapi <= bound
    requires v.isEdge ==> forall m :: m in b.maps ==> m.sapi <= b.lastSapi
    ensures var r := EmitFragment(v, f, b);
      && Bounded(r.maps, |r.ssml|, SrcEnd(f)) && r.lastSapi <= SrcEnd(f)
      && (v.isEdge ==> forall m :: m in r.maps ==> m.sapi <= r.lastSapi)
  {
    hide EmitSpoken, EmitBookmark, SpanMaps, EscapeMaps, Escape, UpToNul, Lead, Sorted;
    var r := EmitFragment(v, f, b);
    if Speakable(f) {
      EmitSpokenGrows(v, f, b);
      var pos := TextPos(v, f, b);
      SpanMapsBounded(f.src, f.text, pos);
      AppendBounded(b.maps, SpanMaps(f.src, f.text, pos), |b.ssml|, bound, pos + |Escape(UpToNul(f.text))|, SrcEnd(f));
    } else if f.action == Bookmark {
      EmitBookmarkGrows(v, f, b);
      if v.isEdge {
        SortedOne(Mapping(b.lastSapi, |b.ssml|));
        AppendBounded(b.maps, [Mapping(b.lastSapi, |b.ssml|)], |b.ssml|, b.lastSapi, |b.ssml|, b.lastSapi);
      } else {
        EscapeMapsBounded(f.src, UpToNul(f.text), MarkPos(b));
        AppendBounded(b.maps, EscapeMaps(f.src, UpToNul(f.text), MarkPos(b)), |b.ssml|, bound,
          MarkPos(b) + |Escape(UpToNul(f.text))|, SrcEnd(f));
      }
    } else {
      EmitOtherGrows(v, f, b);
    }
  }

  lemma SortedOne(m: Mapping)
    ensures Sorted([m])
  {
  }

  /** The mapping list built for ordered fragments never decreases in either component. */
  lemma {:induction false} RunBounded(v: Voice, frags: seq<Fragment>, n: nat)
    requires n <= |frags| && Ordered(frags)
    ensures var b := Run(v, frags, n);
      && Bounded(b.maps, |b.ssml|, SrcBound(frags, n)) && b.lastSapi <= SrcBound(frags, n)
      && (v.isEdge ==> forall m :: m in b.maps ==> m.sapi <= b.lastSapi)
  {
    hide Run, OpenTags, EmitFragment, Sorted;
    if n == 0 {
      MapsStart(v, frags);
    } else {
      RunBounded(v, frags, n - 1);
      var f, b := frags[n - 1], Run(v, frags, n - 1);
      OpenTagsGrow(v, f, b);
      assert n > 1 ==> SrcEnd(frags[n - 2]) <= f.src;
      WrittenBounded(v, f, OpenTags(v, f, b), SrcBound(frags, n - 1));
      StepGrows(v, frags, n - 1);
    }
  }

  lemma MapsStart(v: Voice, frags: seq<Fragment>)
    ensures Run(v, frags, 0).maps == [] && Run(v, frags, 0).lastSapi == 0 && Bounded([], |Run(v, frags, 0).ssml|, 0)
  {
    hide StartTag, SpeakAttributes;
  }

  lemma TranslationSorted(v: Voice, frags: seq<Fragment>)
    requires Ordered(frags)
    ensures Bounded(Translate(v, frags).maps, |Translate(v, frags).ssml|, SrcBound(frags, |frags|))
  {
    RunBounded(v, frags, |frags|);
    TranslateGrows(v, frags, |frags|);
    hide Run, Translate;
  }

  // ---- Where a spoken fragment's text and mappings are ----

  function SpokenPos(v: Voice, frags: seq<Fragment>, k: nat): nat
    requires k < |frags|
  {
    TextPos(v, frags[k], OpenTags(v, frags[k], Run(v, frags, k)))
  }

  function SpokenIndex(v: Voice, frags: seq<Fragment>, k: nat): nat
    requires k < |frags|
  {
    |Run(v, frags, k).maps|
  }

  /** The escaped text of every spoken fragment stands in the document, and its mappings in the list. */
  lemma SpokenFound(v: Voice, frags: seq<Fragment>, k: nat)
    requires k < |frags| && Speakable(frags[k])
    ensures var r, pos, t := Translate(v, frags), SpokenPos(v, frags, k), UpToNul(frags[k].text);
      && Holds(r.maps, SpokenIndex(v, frags, k), frags[k].src, frags[k].text, pos)
      && pos + |Escape(t)| <= |r.ssml| && r.ssml[pos..pos + |Escape(t)|] == Escape(t)
      && |Run(v, frags, k).ssml| <= pos && pos + |Escape(t)| <= |Run(v, frags, k + 1).ssml|
      && SpokenIndex(v, frags, k) + |SpanMaps(frags[k].src, frags[k].text, pos)| == |Run(v, frags, k + 1).maps|
      && (v.isEdge ==> Run(v, frags, k + 1).lastSapi == SrcEnd(frags[k]))
  {
    hide Run, OpenTags, EmitSpoken, Translate, Lead, SpanMaps, UpToNul, Escape;
    var f, b := frags[k], OpenTags(v, frags[k], Run(v, frags, k));
    OpenTagsGrow(v, f, Run(v, frags, k));
    EmitSpokenGrows(v, f, b);
    StepGrows(v, frags, k);
    TranslateGrows(v, frags, k + 1);
    var w, r, span := Written(v, frags, k), Translate(v, frags), SpanMaps(f.src, f.text, TextPos(v, f, b));
    assert w == EmitSpoken(v, f, b);
    assert w.maps == b.maps + span;
    PrefixSlice(w.maps, r.maps, |b.maps|, |b.maps| + |span|);
    PrefixSlice(w.ssml, r.ssml, TextPos(v, f, b), TextPos(v, f, b) + |Escape(UpToNul(f.text))|);
  }

  /** The beginning and the end of the source range are mapped to those of the copy, which may end at a NUL before. */
  lemma EndsMapped(v: Voice, frags: seq<Fragment>, k: nat)
    requires k < |frags| && Speakable(frags[k])
    ensures var f, pos, maps := frags[k], SpokenPos(v, frags, k), Translate(v, frags).maps;
      Mapping(f.src, pos) in maps && Mapping(f.src + |f.text|, pos + |Escape(UpToNul(f.text))|) in maps
  {
    hide Run, Translate, SpokenPos, SpokenIndex, UpToNul, Escape, EscapeMaps;
    SpokenFound(v, frags, k);
    var f, pos, maps, at := frags[k], SpokenPos(v, frags, k), Translate(v, frags).maps, SpokenIndex(v, frags, k);
    var span := SpanMaps(f.src, f.text, pos);
    assert maps[at..at + |span|][0] == maps[at] && maps[at..at + |span|][|span| - 1] == maps[at + |span| - 1];
  }

  lemma PrefixSlice<T>(a: seq<T>, b: seq<T>, lo: nat, hi: nat)
    requires lo <= hi <= |a| && a <= b
    ensures b[lo..hi] == a[lo..hi]
  {
  }

  // ---- Round trips of source spans ----

  /** Every offset the engine computes stays below 2^32. */
  predicate Fits(v: Voice, frags: seq<Fragment>) {
    SrcBound(frags, |frags|) + |Translate(v, frags).ssml| < 0x1_0000_0000
  }

  lemma SrcBelowBound(frags: seq<Fragment>, k: nat)
    requires k < |frags| && Ordered(frags)
    ensures SrcEnd(frags[k]) <= SrcBound(frags, |frags|)
  {
    if k + 1 < |frags| {
      assert SrcEnd(frags[k]) <= frags[|frags| - 1].src;
    }
  }

  /**
   Any non-empty span of copied characters that ends strictly inside its spoken fragment:
   its SSML image maps back to exactly its source offset and length.
   */
  lemma RoundTripInside(v: Voice, frags: seq<Fragment>, k: nat, a: nat, b: nat)
    requires Ordered(frags) && Fits(v, frags) && k < |frags| && Speakable(frags[k])
    requires a < b < |UpToNul(frags[k].text)|
    ensures var t, pos := UpToNul(frags[k].text), SpokenPos(v, frags, k);
      MapOffset(Translate(v, frags).maps, Image(t, pos, a), |Escape(t[a..b])|) == (frags[k].src + a, b - a)
  {
    hide Run, Translate, SpokenPos, SpokenIndex, MapOffset, UpToNul, Escape, Image, Holds;
    var f, t, pos, r := frags[k], UpToNul(frags[k].text), SpokenPos(v, frags, k), Translate(v, frags);
    SpokenFound(v, frags, k);
    TranslationSorted(v, frags);
    SrcBelowBound(frags, k);
    ImageAdd(t, pos, a, b);
    ImageAdd(t, pos, b, |t|);
    ImageIs(t, pos);
    ImageAtLeast(t, pos, a);
    SpanInside(r.maps, SpokenIndex(v, frags, k), f.src, f.text, pos, a, b);
  }

  lemma ImageAtLeast(text: string, pos: nat, k: nat)
    requires k <= |text|
    ensures Image(text, pos, k) >= pos + k
  {
  }

  /**
   A span that ends with its fragment: exact if and only if it has no escaped character, or no later
   mapping at the SSML offset of its end has another source offset.
   */
  lemma SpanToEndByMappings(v: Voice, frags: seq<Fragment>, k: nat, a: nat)
    requires Ordered(frags) && Fits(v, frags) && k < |frags| && Speakable(frags[k])
    requires UpToNul(frags[k].text) == frags[k].text && a < |frags[k].text|
    ensures var t, pos, maps := frags[k].text, SpokenPos(v, frags, k), Translate(v, frags).maps;
      && maps != []
      && (MapOffset(maps, Image(t, pos, a), |Escape(t[a..])|) == (frags[k].src + a, |t| - a)
          <==> NoEscapes(t[a..]) || maps[LastNotAbove(maps, Image(t, pos, |t|))].sapi == SrcEnd(frags[k]))
  {
    hide Run, Translate, SpokenPos, SpokenIndex, MapOffset, UpToNul, Escape, Image, NoEscapes, SpanMaps;
    var f, t, pos, r := frags[k], frags[k].text, SpokenPos(v, frags, k), Translate(v, frags);
    SpokenFound(v, frags, k);
    TranslationSorted(v, frags);
    SrcBelowBound(frags, k);
    ImageAdd(t, pos, a, |t|);
    assert t[a..|t|] == t[a..];
    ImageIs(t, pos);
    ImageAtLeast(t, pos, a);
    SpanAt(r.maps, SpokenIndex(v, frags, k), f.src, f.text, pos);
    AllInRange(r.maps, |r.ssml|, SrcBound(frags, |frags|));
    SpanToEnd(r.maps, SpokenIndex(v, frags, k), f.src, t, pos, a);
  }

  lemma AllInRange(maps: seq<Mapping>, ssml: nat, sapi: nat)
    requires Bounded(maps, ssml, sapi) && ssml < ULONG && sapi < ULONG
    ensures InRange(maps)
  {
    assert forall i :: 0 <= i < |maps| ==> maps[i] in maps;
  }

  // ---- What fragments add to the mappings ----

  /** What a spoken fragment adds to the mappings, and where. */
  lemma SpokenAdds(v: Voice, frags: seq<Fragment>, m: nat)
    requires m < |frags| && Speakable(frags[m])
    ensures var f, b, r, pos := frags[m], Run(v, frags, m), Run(v, frags, m + 1), SpokenPos(v, frags, m);
      && r.maps == b.maps + SpanMaps(f.src, f.text, pos)
      && |b.ssml| <= pos <= |r.ssml| && (|r.ssml| == pos ==> UpToNul(f.text) == "")
      && (v.isEdge ==> r.lastSapi == SrcEnd(f))
  {
    hide Run, OpenTags, EmitSpoken, Translate, Holds, SpanMaps, UpToNul, Escape, Lead;
    var f, b := frags[m], Run(v, frags, m);
    SpokenFound(v, frags, m);
    OpenTagsGrow(v, f, b);
    EmitSpokenGrows(v, f, OpenTags(v, f, b));
    StepGrows(v, frags, m);
    assert Written(v, frags, m) == EmitSpoken(v, f, OpenTags(v, f, b));
  }

  /** The SSML offset at which fragment `q` begins to be written. */
  function WritePos(v: Voice, frags: seq<Fragment>, q: nat): nat
    requires q < |frags|
  {
    |OpenTags(v, frags[q], Run(v, frags, q)).ssml|
  }

  /** What another fragment adds: an Edge voice's mark of a bookmark, or offsets inside what it writes. */
  lemma OtherAdds(v: Voice, frags: seq<Fragment>, m: nat)
    requires m < |frags| && !Speakable(frags[m])
    ensures var b, r := Run(v, frags, m), Run(v, frags, m + 1);
      && b.maps <= r.maps && |b.ssml| <= WritePos(v, frags, m) <= |r.ssml| && r.lastSapi == b.lastSapi
      && (v.isEdge && frags[m].action == Bookmark ==> r.maps == b.maps + [Mapping(b.lastSapi, WritePos(v, frags, m))])
      && (v.isEdge && frags[m].action != Bookmark ==> r.maps == b.maps)
      && (!v.isEdge ==> forall i :: |b.maps| <= i < |r.maps| ==> |b.ssml| < r.maps[i].ssml < |r.ssml|)
  {
    hide Run, OpenTags, EmitFragment, EmitBookmark, EscapeMaps, Escape, UpToNul, Speakable;
    var f, b := frags[m], Run(v, frags, m);
    var ready, r := OpenTags(v, f, b), Run(v, frags, m + 1);
    OpenTagsGrow(v, f, b);
    StepGrows(v, frags, m);
    if f.action == Bookmark {
      WrittenBookmark(v, f, ready);
      EmitBookmarkGrows(v, f, ready);
      var t := UpToNul(f.text);
      EscapeMapsBounded(f.src, t, MarkPos(ready));
      forall i | |b.maps| <= i < |r.maps| && !v.isEdge ensures |b.ssml| < r.maps[i].ssml < |r.ssml| {
        assert r.maps[i] == EscapeMaps(f.src, t, MarkPos(ready))[i - |b.maps|];
        assert r.maps[i] in EscapeMaps(f.src, t, MarkPos(ready));
      }
    } else {
      EmitOtherGrows(v, f, ready);
    }
  }

  lemma WrittenBookmark(v: Voice, f: Fragment, b: Build)
    requires f.action == Bookmark
    ensures EmitFragment(v, f, b) == EmitBookmark(v, f, b)
  {
  }

  /** The escaped name of every bookmark stands in its element, and what follows each entity of it is mapped. */
  lemma MarkFound(v: Voice, frags: seq<Fragment>, k: nat)
    requires k < |frags| && frags[k].action == Bookmark && !v.isEdge
    ensures var r, at, t := Translate(v, frags), WritePos(v, frags, k), UpToNul(frags[k].text);
      var pos := at + |"<bookmark mark='"|;
      && pos + |Escape(t)| <= |r.ssml| && r.ssml[at..pos] == "<bookmark mark='" && r.ssml[pos..pos + |Escape(t)|] == Escape(t)
      && SpokenIndex(v, frags, k) <= |Run(v, frags, k + 1).maps| <= |r.maps|
      && r.maps[SpokenIndex(v, frags, k)..|Run(v, frags, k + 1).maps|] == EscapeMaps(frags[k].src, t, pos)
  {
    hide Run, OpenTags, EmitBookmark, EmitFragment, Translate, EscapeMaps, UpToNul, Escape;
    var f, b := frags[k], Run(v, frags, k);
    var ready, w, r, t := OpenTags(v, f, b), Written(v, frags, k), Translate(v, frags), UpToNul(f.text);
    WrittenBookmark(v, f, ready);
    EmitBookmarkGrows(v, f, ready);
    MarkWritten(v, f, ready);
    OpenTagsGrow(v, f, b);
    StepGrows(v, frags, k);
    TranslateGrows(v, frags, k + 1);
    var pos := |ready.ssml| + |"<bookmark mark='"|;
    PrefixSlice(w.ssml, r.ssml, |ready.ssml|, pos);
    PrefixSlice(w.ssml, r.ssml, pos, pos + |Escape(t)|);
    PrefixSlice(w.maps, r.maps, |b.maps|, |w.maps|);
    assert w.maps[|b.maps|..] == EscapeMaps(f.src, t, pos);
  }

  lemma MarkWritten(v: Voice, f: Fragment, b: Build)
    requires !v.isEdge
    ensures var r, t := EmitBookmark(v, f, b), UpToNul(f.text);
      var at, pos := |b.ssml|, |b.ssml| + |"<bookmark mark='"|;
      pos + |Escape(t)| <= |r.ssml| && r.ssml[at..pos] == "<bookmark mark='" && r.ssml[pos..pos + |Escape(t)|] == Escape(t)
  {
    hide UpToNul, Escape, EscapeMaps;
    var mark := Escape(UpToNul(f.text));
    assert EmptyTag("bookmark", Attribute("mark", mark)) == ("<bookmark mark='" + mark) + "'/>";
    assert EmitBookmark(v, f, b).ssml == ((b.ssml + "<bookmark mark='") + mark) + "'/>";
  }
}
