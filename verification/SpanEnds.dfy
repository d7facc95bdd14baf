/** Spans that end with their fragment: exactly when their images map back exactly. */
module SpanEnds {
  import opened WideText
  import opened SsmlBuilder
  import opened SsmlNesting
  import opened OffsetMap
  import opened SsmlOffsets
  import opened SsmlStyle
  import opened EdgeLimits

  /** The SSML offset at which the copy of a spoken fragment ends. */
  function CopyEnd(v: Voice, frags: seq<Fragment>, k: nat): nat
    requires k < |frags|
  {
    SpokenPos(v, frags, k) + |Escape(UpToNul(frags[k].text))|
  }

  /**
   Fragment `n` is spoken and copied right where the copy of `k` ends, with nothing written between, and its source
   lies beyond that of `k`; when nothing of it is copied, its end beyond it is enough.
   */
  predicate OnTop(v: Voice, frags: seq<Fragment>, k: nat, n: nat)
    requires k < n < |frags|
  {
    var f := frags[n];
    && Speakable(f) && SpokenPos(v, frags, n) == CopyEnd(v, frags, k)
    && (f.src > SrcEnd(frags[k]) || (UpToNul(f.text) == "" && SrcEnd(f) > SrcEnd(frags[k])))
  }

  predicate AnyOnTop(v: Voice, frags: seq<Fragment>, k: nat, m: nat)
    requires m <= |frags|
  {
    exists n :: k < n < m && OnTop(v, frags, k, n)
  }

  /** A mapping at the end of the fragment's copy whose source lies beyond it. */
  predicate BeyondEnd(v: Voice, frags: seq<Fragment>, k: nat, m: Mapping)
    requires k < |frags|
  {
    m.ssml == CopyEnd(v, frags, k) && m.sapi > SrcEnd(frags[k])
  }

  /** Since fragment `k`, only such fragments have put a mapping beyond it at the end of its copy. */
  predicate Explained(v: Voice, frags: seq<Fragment>, k: nat, m: nat)
    requires k < m <= |frags|
  {
    var b := Run(v, frags, m);
    && (forall i :: |Run(v, frags, k + 1).maps| <= i < |b.maps| && BeyondEnd(v, frags, k, b.maps[i]) ==>
          AnyOnTop(v, frags, k, m))
    && (v.isEdge && |b.ssml| == CopyEnd(v, frags, k) && b.lastSapi > SrcEnd(frags[k]) ==> AnyOnTop(v, frags, k, m))
  }

  lemma {:induction false} RunExplained(v: Voice, frags: seq<Fragment>, k: nat, m: nat)
    requires k < m <= |frags| && Speakable(frags[k])
    ensures Explained(v, frags, k, m)
    decreases m
  {
    hide Run, Explained;
    if m == k + 1 {
      ExplainedStart(v, frags, k);
    } else {
      RunExplained(v, frags, k, m - 1);
      ExplainedStep(v, frags, k, m - 1);
    }
  }

  lemma ExplainedStart(v: Voice, frags: seq<Fragment>, k: nat)
    requires k < |frags| && Speakable(frags[k])
    ensures Explained(v, frags, k, k + 1)
  {
    hide Run, Holds, SpanMaps, Translate, SpokenPos;
    SpokenFound(v, frags, k);
  }

  lemma AnyOnTopMore(v: Voice, frags: seq<Fragment>, k: nat, m: nat)
    requires k < m < |frags|
    ensures AnyOnTop(v, frags, k, m + 1) <==> AnyOnTop(v, frags, k, m) || OnTop(v, frags, k, m)
  {
    hide OnTop;
  }

  lemma ExplainedStep(v: Voice, frags: seq<Fragment>, k: nat, m: nat)
    requires k < m < |frags| && Speakable(frags[k]) && Explained(v, frags, k, m)
    ensures Explained(v, frags, k, m + 1)
  {
    hide Run, OpenTags, EmitFragment, SpokenPos, AnyOnTop, OnTop, EscapeMaps, Escape, UpToNul, Translate, Holds, SpanMaps;
    SpokenFound(v, frags, k);
    RunGrows(v, frags, k + 1, m);
    StepGrows(v, frags, m);
    AnyOnTopMore(v, frags, k, m);
    if Speakable(frags[m]) {
      SpokenExplained(v, frags, k, m);
    } else {
      OtherExplained(v, frags, k, m);
    }
  }

  /** A spoken fragment's mappings are its start, its end, and others beyond its start. */
  lemma SpanKinds(src: nat, text: string, pos: nat)
    ensures forall m :: m in SpanMaps(src, text, pos) ==>
              || m == Mapping(src, pos)
              || m.ssml > pos
              || (m == Mapping(src + |text|, pos) && UpToNul(text) == "")
  {
    hide EscapeMaps, Escape, UpToNul;
    EscapeMapsBounded(src, UpToNul(text), pos);
  }

  lemma SpokenExplained(v: Voice, frags: seq<Fragment>, k: nat, m: nat)
    requires k < m < |frags| && Speakable(frags[m]) && Explained(v, frags, k, m)
    requires CopyEnd(v, frags, k) <= |Run(v, frags, m).ssml|
    requires AnyOnTop(v, frags, k, m + 1) <==> AnyOnTop(v, frags, k, m) || OnTop(v, frags, k, m)
    ensures Explained(v, frags, k, m + 1)
  {
    hide Run, OpenTags, SpokenPos, AnyOnTop, EscapeMaps, Escape, UpToNul, Translate, Holds, SpanMaps, CopyEnd;
    var f, b, r := frags[m], Run(v, frags, m), Run(v, frags, m + 1);
    SpokenAdds(v, frags, m);
    RunGrows(v, frags, k + 1, m);
    SpanKinds(f.src, f.text, SpokenPos(v, frags, m));
    forall i | |b.maps| <= i < |r.maps| && BeyondEnd(v, frags, k, r.maps[i]) ensures OnTop(v, frags, k, m) {
      assert r.maps[i] == SpanMaps(f.src, f.text, SpokenPos(v, frags, m))[i - |b.maps|];
    }
  }

  lemma OtherExplained(v: Voice, frags: seq<Fragment>, k: nat, m: nat)
    requires k < m < |frags| && !Speakable(frags[m]) && Explained(v, frags, k, m)
    requires CopyEnd(v, frags, k) <= |Run(v, frags, m).ssml|
    requires AnyOnTop(v, frags, k, m) ==> AnyOnTop(v, frags, k, m + 1)
    ensures Explained(v, frags, k, m + 1)
  {
    hide Run, AnyOnTop, CopyEnd, Speakable, WritePos;
    OtherAdds(v, frags, m);
    RunGrows(v, frags, k + 1, m);
  }

  // ---- The exact condition ----

  /** The last mapping at the end of the copy lies beyond the fragment exactly when another fragment is copied on top. */
  lemma LastAtEnd(v: Voice, frags: seq<Fragment>, k: nat)
    requires Ordered(frags) && k < |frags| && Speakable(frags[k])
    ensures var maps := Translate(v, frags).maps;
      maps != [] && (maps[LastNotAbove(maps, CopyEnd(v, frags, k))].sapi == SrcEnd(frags[k]) <==> !AnyOnTop(v, frags, k, |frags|))
  {
    hide Run, Translate, SpokenPos, UpToNul, Escape, EscapeMaps, OnTop, SpanMaps;
    var maps, end := Translate(v, frags).maps, CopyEnd(v, frags, k);
    EndMapped(v, frags, k);
    TranslationSorted(v, frags);
    RunExplained(v, frags, k, |frags|);
    TranslateGrows(v, frags, k + 1);
    var at := |Run(v, frags, k + 1).maps| - 1;
    var j := LastNotAbove(maps, end);
    assert maps[at] == Mapping(SrcEnd(frags[k]), end);
    assert at <= j && maps[j].ssml == end && maps[j].sapi >= SrcEnd(frags[k]);
    if maps[j].sapi != SrcEnd(frags[k]) {
      assert j != at && BeyondEnd(v, frags, k, maps[j]);
    }
    if n :| k < n < |frags| && OnTop(v, frags, k, n) {
      OnTopMapped(v, frags, k, n);
    }
  }

  /** The mapping that ends a spoken fragment is the last one so far. */
  lemma EndMapped(v: Voice, frags: seq<Fragment>, k: nat)
    requires k < |frags| && Speakable(frags[k])
    ensures var maps, b := Translate(v, frags).maps, Run(v, frags, k + 1);
      && b.maps != [] && b.maps <= maps
      && maps[|b.maps| - 1] == Mapping(SrcEnd(frags[k]), CopyEnd(v, frags, k))
  {
    hide Run, Translate, SpokenPos, UpToNul, Escape, EscapeMaps;
    var f, pos := frags[k], SpokenPos(v, frags, k);
    SpokenAdds(v, frags, k);
    TranslateGrows(v, frags, k + 1);
    var span := SpanMaps(f.src, f.text, pos);
    assert span[|span| - 1] == Mapping(SrcEnd(f), CopyEnd(v, frags, k));
  }

  lemma OnTopMapped(v: Voice, frags: seq<Fragment>, k: nat, n: nat)
    requires Ordered(frags) && k < n < |frags| && Speakable(frags[k]) && OnTop(v, frags, k, n)
    ensures var maps := Translate(v, frags).maps;
      maps != [] && maps[LastNotAbove(maps, CopyEnd(v, frags, k))].sapi > SrcEnd(frags[k])
  {
    hide Run, Translate, SpokenPos, UpToNul, Escape, EscapeMaps;
    var f, maps, at := frags[n], Translate(v, frags).maps, |Run(v, frags, n).maps|;
    SpokenAdds(v, frags, n);
    EndMapped(v, frags, n);
    TranslationSorted(v, frags);
    assert Run(v, frags, n + 1).maps[at] == Mapping(f.src, SpokenPos(v, frags, n));
    assert maps[at] == Mapping(f.src, SpokenPos(v, frags, n));
    EscapeNothing();
  }

  lemma EscapeNothing()
    ensures Escape("") == ""
  {
  }

  /**
   A span that ends with its fragment maps back exactly if and only if none of its characters was escaped, or no
   later fragment from further on in the source is copied right behind it.
   */
  lemma RoundTripToEnd(v: Voice, frags: seq<Fragment>, k: nat, a: nat)
    requires Ordered(frags) && Fits(v, frags) && k < |frags| && Speakable(frags[k])
    requires UpToNul(frags[k].text) == frags[k].text && a < |frags[k].text|
    ensures var t, pos := frags[k].text, SpokenPos(v, frags, k);
      MapOffset(Translate(v, frags).maps, Image(t, pos, a), |Escape(t[a..])|) == (frags[k].src + a, |t| - a)
      <==> NoEscapes(t[a..]) || !AnyOnTop(v, frags, k, |frags|)
  {
    hide Run, Translate, SpokenPos, UpToNul, Escape, MapOffset, NoEscapes, AnyOnTop;
    SpanToEndByMappings(v, frags, k, a);
    LastAtEnd(v, frags, k);
    ImageIs(frags[k].text, SpokenPos(v, frags, k));
  }

  // ---- Neighbours in one style ----

  /**
   Two spoken fragments with nothing to be opened or closed between them: for Edge voices in one prosody, perhaps with
   unspoken fragments in that prosody between; for others next to each other and of the same prosody, emphasis and context.
   */
  predicate InOneStyle(v: Voice, frags: seq<Fragment>, k: nat, n: nat)
    requires k < n < |frags|
  {
    var f, g := frags[k], frags[n];
    if v.isEdge then
      && Speakable(f) && Speakable(g)
      && (forall i :: k <= i < n ==> SameProsody(frags[i], g))
      && (forall i :: k < i < n ==> !Speakable(frags[i]))
    else n == k + 1 && f.action == Speak && g.action == Speak && SameProsody(f, g) && f.emphAdj == g.emphAdj && SameContext(f, g)
  }

  /** Whether a space is needed depends on the last character before. */
  lemma SpaceAfter(a: string, b: string, after: string, script: char -> set<Script>)
    requires a != "" && b != "" && a[|a| - 1] == b[|b| - 1]
    ensures NeedAddingSpace(a, after, script) == NeedAddingSpace(b, after, script)
  {
    hide IsSpace;
  }

  /** Between two fragments in one style the document has at most a space. */
  lemma Neighbours(v: Voice, frags: seq<Fragment>, k: nat, n: nat)
    requires k < n < |frags| && InOneStyle(v, frags, k, n) && UpToNul(frags[k].text) != ""
    ensures var space := NeedAddingSpace(Escape(UpToNul(frags[k].text)), frags[n].text, v.script);
      SpokenPos(v, frags, n) == CopyEnd(v, frags, k) + if space then 1 else 0
  {
    hide Run, OpenTags, Written, UpToNul, Escape, NeedAddingSpace, SameProsody, SameContext;
    var ready := OpenTags(v, frags[n], Run(v, frags, n));
    EndsWithCopy(v, frags, k);
    if v.isEdge {
      EdgeUnchanged(v, frags, k, n, n);
      EdgeReady(v, frags, k, n);
    } else {
      OtherUnchanged(v, frags, k);
    }
    SpaceAfter(ready.ssml, Escape(UpToNul(frags[k].text)), frags[n].text, v.script);
  }

  lemma EscapeSome(t: string)
    requires t != ""
    ensures Escape(t) != ""
  {
  }

  /** What has been written ends with the copy, which no tag surrounds. */
  lemma EndsWithCopy(v: Voice, frags: seq<Fragment>, k: nat)
    requires k < |frags| && Speakable(frags[k]) && UpToNul(frags[k].text) != "" && (v.isEdge || frags[k].action == Speak)
    ensures var s, e := Written(v, frags, k).ssml, Escape(UpToNul(frags[k].text));
      && |s| == CopyEnd(v, frags, k)
      && s != "" && e != "" && s[|s| - 1] == e[|e| - 1]
  {
    hide Run, OpenTags, UpToNul, Escape, NeedAddingSpace, EscapeMaps;
    EscapeSome(UpToNul(frags[k].text));
    var b, e := OpenTags(v, frags[k], Run(v, frags, k)), Escape(UpToNul(frags[k].text));
    assert Written(v, frags, k).ssml == ((b.ssml + Lead(v, frags[k], b.ssml)) + e) + "";
  }

  // ---- Edge voices ----

  /** Up to the next spoken fragment of the same prosody nothing is written, and prosody is left as it is. */
  lemma {:induction false} EdgeUnchanged(v: Voice, frags: seq<Fragment>, k: nat, n: nat, m: nat)
    requires v.isEdge && k < m <= n < |frags| && InOneStyle(v, frags, k, n)
    ensures var w, r := Written(v, frags, k), Run(v, frags, m);
      r.ssml == w.ssml && r.inProsody == w.inProsody && EdgeState(r)
    decreases m
  {
    hide Run, OpenTags, EmitFragment, CloseTags, SameProsody;
    var w := Written(v, frags, m - 1);
    if m == k + 1 {
      EdgeFlags(v, frags, k);
    } else {
      EdgeUnchanged(v, frags, k, n, m - 1);
      EdgeSkips(v, frags[m - 1], Run(v, frags, m - 1));
    }
    var level := LevelAfter(v, frags, m - 1, w.prosodyCount);
    assert NextIndex(v, frags, m) == n;
    assert level >= 1;
    RunNext(v, frags, m - 1);
    CloseTagsFlags(level, w);
    EdgeClosesNothing(level, w);
  }

  /** A fragment an Edge voice does not speak leaves no trace in the document. */
  lemma EdgeSkips(v: Voice, f: Fragment, b: Build)
    requires v.isEdge && !Speakable(f) && EdgeState(b)
    ensures var w := EmitFragment(v, f, OpenTags(v, f, b)); w.ssml == b.ssml && w.inProsody == b.inProsody && EdgeState(w)
  {
    hide OpenTags, EmitFragment;
    var ready := OpenTags(v, f, b);
    EdgeOpensNothing(v, f, b);
    EdgeOpen(v, f, b);
    EdgeWrite(v, f, ready);
    OpensOnlySpoken(v, f, b);
    EdgeWritesNothing(v, f, ready);
  }

  lemma OpensOnlySpoken(v: Voice, f: Fragment, b: Build)
    requires v.isEdge && !Speakable(f)
    ensures !OpensProsody(v, f, b)
  {
  }

  lemma EdgeWritesNothing(v: Voice, f: Fragment, b: Build)
    requires v.isEdge && !Speakable(f)
    ensures EmitFragment(v, f, b).ssml == b.ssml
  {
    hide Speakable;
  }

  lemma EdgeFlags(v: Voice, frags: seq<Fragment>, k: nat)
    requires v.isEdge && k < |frags|
    ensures EdgeState(Written(v, frags, k))
  {
    hide Run, OpenTags, EmitFragment, WithinLimit;
    RunWithinLimit(v, frags, k);
    LimitState(v, frags, k);
    EdgeOpen(v, frags[k], Run(v, frags, k));
    EdgeWrite(v, frags[k], OpenTags(v, frags[k], Run(v, frags, k)));
  }

  lemma LimitState(v: Voice, frags: seq<Fragment>, n: nat)
    requires n <= |frags| && WithinLimit(v, frags, n, Run(v, frags, n))
    ensures EdgeState(Run(v, frags, n))
  {
    hide Run;
  }

  lemma EdgeClosesNothing(level: nat, b: Build)
    requires EdgeState(b) && level >= 1
    ensures CloseTags(level, b).ssml == b.ssml
  {
    hide EndTag;
    assert ClosingTags([]) == "" && b.ssml + "" == b.ssml;
  }

  /** Before a fragment that needs no prosody opened nothing is written. */
  lemma EdgeOpensNothing(v: Voice, f: Fragment, b: Build)
    requires v.isEdge && EdgeState(b) && !OpensProsody(v, f, b)
    ensures OpenTags(v, f, b).ssml == b.ssml
  {
    hide OpensProsody, ProsodyAttributes, StartTag, Attribute, Interpretation;
    NotedOpens(v, f, b, b.hasText || (f.action != Bookmark && f.text != ""));
    assert Concat([]) == "" && b.ssml + "" == b.ssml;
  }

  lemma EdgeReady(v: Voice, frags: seq<Fragment>, k: nat, n: nat)
    requires v.isEdge && k < n < |frags| && InOneStyle(v, frags, k, n)
    requires var w, r := Written(v, frags, k), Run(v, frags, n); r.ssml == w.ssml && r.inProsody == w.inProsody && EdgeState(r)
    ensures OpenTags(v, frags[n], Run(v, frags, n)).ssml == Written(v, frags, k).ssml
  {
    hide Run, OpenTags, Written, ProsodyOf, Speakable;
    WrittenStyle(v, frags, k);
    assert SameProsody(frags[k], frags[n]);
    SameProsodyOf(v, frags[k], frags[n]);
    EdgeOpensNothing(v, frags[n], Run(v, frags, n));
  }

  // ---- Other voices ----

  lemma OtherUnchanged(v: Voice, frags: seq<Fragment>, k: nat)
    requires !v.isEdge && k + 1 < |frags| && InOneStyle(v, frags, k, k + 1)
    ensures OpenTags(v, frags[k + 1], Run(v, frags, k + 1)).ssml == Written(v, frags, k).ssml
  {
    hide Run, OpenTags, EmitFragment, CloseTags, SameProsody, SameContext, ProsodyOf;
    var w, r, g := Written(v, frags, k), Run(v, frags, k + 1), frags[k + 1];
    RunNext(v, frags, k);
    assert LevelAfter(v, frags, k, w.prosodyCount) == 3;
    ClosesNothing(w);
    CloseTagsFlags(3, w);
    InOwnStyle(v, frags, k);
    SameProsodyOf(v, frags[k], g);
    ContextAlike(frags[k], g);
    WrittenInCustom(v, frags, k);
    OpensNothing(v, g, r);
  }

  lemma WrittenInCustom(v: Voice, frags: seq<Fragment>, k: nat)
    requires k < |frags|
    ensures Written(v, frags, k).inCustom
  {
    hide Run, OpenTags, EmitFragment;
    OpenTagsFlags(v, frags[k], Run(v, frags, k));
    EmitFragmentFlags(v, frags[k], OpenTags(v, frags[k], Run(v, frags, k)));
  }

  lemma ClosesNothing(b: Build)
    ensures CloseTags(3, b).ssml == b.ssml
  {
    hide EndTag, ClosingTags;
  }

  /** With everything open that a fragment asks for nothing is written before it. */
  lemma OpensNothing(v: Voice, f: Fragment, b: Build)
    requires !OpensProsody(v, f, b) && (b.inEmphasis || f.emphAdj == 0) && b.inCustom && (b.inSayAs || f.category.None?)
    ensures OpenTags(v, f, b).ssml == b.ssml
  {
    hide OpensProsody, ProsodyAttributes, StartTag, Attribute, Interpretation, Concat;
    NotedOpens(v, f, b, b.hasText || (f.action != Bookmark && f.text != ""));
  }

  /**
   Told from the fragments alone, for neighbours in one style with something unspoken between them in the source:
   a span that ends with the first maps back exactly if and only if it has no escapes or a space is put between.
   */
  lemma EndBeforeNeighbour(v: Voice, frags: seq<Fragment>, k: nat, n: nat, a: nat)
    requires Ordered(frags) && Fits(v, frags) && k < n < |frags| && InOneStyle(v, frags, k, n)
    requires UpToNul(frags[k].text) == frags[k].text && a < |frags[k].text| && SrcEnd(frags[k]) < frags[n].src
    ensures var t, pos := frags[k].text, SpokenPos(v, frags, k);
      MapOffset(Translate(v, frags).maps, Image(t, pos, a), |Escape(t[a..])|) == (frags[k].src + a, |t| - a)
      <==> NoEscapes(t[a..]) || NeedAddingSpace(Escape(t), frags[n].text, v.script)
  {
    StyleSpoken(v, frags, k, n);
    OnlyNeighbour(v, frags, k, n);
    hide *;
    RoundTripToEnd(v, frags, k, a);
  }

  /** Only the neighbour can be copied on top. */
  lemma OnlyNeighbour(v: Voice, frags: seq<Fragment>, k: nat, n: nat)
    requires k < n < |frags| && InOneStyle(v, frags, k, n) && UpToNul(frags[k].text) != "" && SrcEnd(frags[k]) < frags[n].src
    ensures AnyOnTop(v, frags, k, |frags|) <==> !NeedAddingSpace(Escape(UpToNul(frags[k].text)), frags[n].text, v.script)
  {
    StyleSpoken(v, frags, k, n);
    Neighbours(v, frags, k, n);
    hide Run, SpokenPos, UpToNul, Escape, NeedAddingSpace, InOneStyle, CopyEnd;
    if NeedAddingSpace(Escape(UpToNul(frags[k].text)), frags[n].text, v.script) {
      forall i | k < i < |frags| ensures !OnTop(v, frags, k, i) {
        if i >= n && Speakable(frags[i]) {
          CopiedInOrder(v, frags, n, i);
        }
      }
    } else {
      assert OnTop(v, frags, k, n);
    }
  }

  lemma CopiedInOrder(v: Voice, frags: seq<Fragment>, n: nat, i: nat)
    requires n <= i < |frags| && Speakable(frags[n]) && Speakable(frags[i])
    ensures SpokenPos(v, frags, n) <= SpokenPos(v, frags, i)
  {
    hide *;
    if n < i {
      SpokenAdds(v, frags, n);
      SpokenAdds(v, frags, i);
      RunGrows(v, frags, n + 1, i);
      GrownLength(Run(v, frags, n + 1), Run(v, frags, i));
    }
  }

  lemma GrownLength(a: Build, b: Build)
    requires Grows(a, b)
    ensures |a.ssml| <= |b.ssml|
  {
  }

  lemma StyleSpoken(v: Voice, frags: seq<Fragment>, k: nat, n: nat)
    requires k < n < |frags| && InOneStyle(v, frags, k, n)
    ensures Speakable(frags[k]) && Speakable(frags[n]) && forall i :: k < i < n ==> !Speakable(frags[i])
  {
  }
}
