/** Inputs on which the translation falls short of the stricter reading of its promises. */
module SsmlExamples {
  import opened WideText
  import opened XmlReader
  import opened SsmlBuilder
  import opened SsmlReading
  import opened SsmlNesting
  import opened SsmlText
  import opened SsmlSloppy
  import opened OffsetMap
  import opened SsmlOffsets
  import opened SpanEnds
  import opened FarSpans

  function TagFragment(text: string, src: nat): Fragment {
    Fragment(ParseUnknownTag, text, src, 100, 0, 0, 0, None, 0, "")
  }

  lemma BareOpens(c: char, trail: string)
    requires c in "Bb" && (trail == "" || trail == " ")
    ensures var text := "<" + [c] + ">" + trail;
      OpeningTag(text) && ElementName(text) == [c] && Inner(text) == [c] && Trail(text) == trail
  {
    var text := "<" + [c] + ">" + trail;
    assert text[0] == '<' && text[1] == c && text[2] == '>';
    assert Find(text, '>', 0) == 2;
    assert text[1..2] == [c] && text[3..] == trail;
    assert FindSpace([c], 0) == 1;
    assert TrimmedEnd([c]) == 1;
  }

  lemma BareCloses()
    ensures OneTag("</b>") && ReadTag(Inner("</b>")) == Some(Close("b")) && Trail("</b>") == ""
  {
    var text := "</b>";
    assert Find(text, '>', 0) == 3;
    assert Inner(text) == "/b";
    ReadClose("b");
    assert "/" + "b" == "/b";
  }

  /** Names are matched ignoring case: `<B>` closed by `</b>` is balanced only for a reader that ignores case too. */
  lemma CaseMatters(v: Voice)
    requires !v.isEdge && NoAngles(v.locale) && NoAngles(v.name)
    ensures var evs := Read(Translate(v, [TagFragment("<B>", 0), TagFragment("</b>", 3)]).ssml).events;
      Balanced(false, "speak", evs) && !Balanced(true, "speak", evs)
  {
    BareOpens('B', "");
    assert "<" + ['B'] + ">" + "" == "<B>";
    BareCloses();
    hide Sloppy, OneTag, OpeningTag, ElementName, Inner, Trail, Translate, Feed, Balanced, MisCased, Run;
    var frags := [TagFragment("<B>", 0), TagFragment("</b>", 3)];
    OpeningIsOne("<B>");
    assert Sound(v, frags);
    FirstStored(v, frags);
    MisMatch(v, frags);
    TranslationBalanced(false, v, frags);
    TranslationBalanced(true, v, frags);
  }

  lemma OpeningIsOne(text: string)
    requires OpeningTag(text)
    ensures OneTag(text)
  {
  }

  /** An opening tag in the first fragment is stored. */
  lemma FirstStored(v: Voice, frags: seq<Fragment>)
    requires !v.isEdge && frags != [] && frags[0].action == ParseUnknownTag && OpeningTag(frags[0].text)
    ensures Run(v, frags, 1).customTags == [frags[0].text]
  {
    hide Run, OpenTags, CloseTags, LevelAfter, EmitFragment, ProsodyOf, Speakable, TagEvents;
    var f, b := frags[0], Run(v, frags, 0);
    RunStart(v, frags);
    OpenTagsFlags(v, f, b);
    OpeningStored(v, f, OpenTags(v, f, b));
    var w := EmitFragment(v, f, OpenTags(v, f, b));
    RunNext(v, frags, 0);
    CloseTagsFlags(LevelAfter(v, frags, 0, w.prosodyCount), w);
  }

  lemma OpeningStored(v: Voice, f: Fragment, b: Build)
    requires !v.isEdge && f.action == ParseUnknownTag && OpeningTag(f.text)
    ensures EmitFragment(v, f, b).customTags == b.customTags + [f.text]
  {
    TagKinds(f.text);
    hide TrimTag, ReadTag, IsXMLSelfClosingTag, IsXMLClosingTag, TagEvents, NoAngles, Find, AllSpaces;
  }

  /** An end tag that differs in letter case from the tag stored. */
  lemma MisMatch(v: Voice, frags: seq<Fragment>)
    requires !v.isEdge && |frags| == 2 && frags[1].action == ParseUnknownTag && Run(v, frags, 1).customTags == [frags[0].text]
    requires OpeningTag(frags[0].text) && ElementName(frags[0].text) == "B" && Trail(frags[0].text) == ""
    requires OneTag(frags[1].text) && ReadTag(Inner(frags[1].text)) == Some(Close("b"))
    ensures MisCased(v, frags, 2)
  {
    TagKinds(frags[1].text);
    StoredName(frags[0].text);
    hide Run, TrimTag, ReadTag, IsXMLSelfClosingTag, IsXMLClosingTag, GetXMLTagName, GetXMLClosingTagName, ElementName,
      Inner, Trail, OneTag, OpeningTag;
    assert EqualsIgnoreCase("B", "b");
    assert "B" + "" == "B";
    assert MatchingTag([frags[0].text], "b") == Some(0);
    RunTags(v, frags, 1);
    assert MisCasedAt(v, frags[1], OpenAfter(v, frags, 1));
  }

  /** `<b>` followed by a space is closed as `</b>>`, and a `>` is spoken that no fragment holds. */
  lemma GtIsSpoken(v: Voice)
    requires !v.isEdge && NoAngles(v.locale) && NoAngles(v.name)
    ensures var frags := [TagFragment("<b> ", 0)];
      Squeeze(TextOf(Read(Translate(v, frags).ssml).events)) != "" && SpokenTexts(frags) == []
  {
    BareOpens('b', " ");
    assert "<" + ['b'] + ">" + " " == "<b> ";
    hide OneTag, OpeningTag, ElementName, Inner, Trail, Translate, Feed, TextOf;
    var frags := [TagFragment("<b> ", 0)];
    OpeningIsOne("<b> ");
    assert OpensSloppy(v, frags[0]);
    assert Sound(v, frags);
    assert SpokenTexts(frags) == [] by { assert frags[..0] == []; }
    hide OpensSloppy, Sound, Sloppy;
    TextSurvives(v, frags);
    assert Squeeze(Concat([])) == "";
  }

  function TextFragment(text: string, src: nat): Fragment {
    Fragment(Speak, text, src, 100, 0, 0, 0, None, 0, "")
  }

  lemma EscapedAmp()
    ensures Escape("& ") == "&amp; " && Escape("b") == "b"
    ensures EscapeMaps(0, "& ", 0) == [Mapping(1, 5)] && EscapeMaps(10, "b", 0) == []
    ensures UpToNul("& ") == "& " && UpToNul("b") == "b"
  {
    NoNuls();
    var amp: string := "&";
    assert "& "[..1] == amp && amp[..0] == "" && "b"[..0] == "";
    assert Escape(amp) == "&amp;" && EscapeMaps(0, amp, 0) == [Mapping(1, 5)];
    hide UpToNul;
  }

  lemma NoNuls()
    ensures UpToNul("& ") == "& " && UpToNul("b") == "b"
  {
  }

  lemma {:induction false} EscapeMapsMoved(src: nat, text: string, pos: nat)
    ensures |EscapeMaps(src, text, pos)| == |EscapeMaps(src, text, 0)|
    ensures forall i :: 0 <= i < |EscapeMaps(src, text, 0)| ==>
      EscapeMaps(src, text, pos)[i] == Mapping(EscapeMaps(src, text, 0)[i].sapi, pos + EscapeMaps(src, text, 0)[i].ssml)
  {
    if text != "" {
      EscapeMapsMoved(src, text[..|text| - 1], pos);
    }
  }

  /** An escaped character, and a gap in the source behind it. */
  function GapFragments(): seq<Fragment> {
    [TextFragment("& ", 0), TextFragment("b", 10)]
  }

  lemma GapFacts(v: Voice)
    ensures var frags := GapFragments();
      && |frags| == 2 && Ordered(frags) && SrcBound(frags, 2) == 11
      && frags[0].text == "& " && frags[0].src == 0 && Speakable(frags[0])
      && frags[1].text == "b" && frags[1].src == 10 && Speakable(frags[1]) && SameProsody(frags[0], frags[1])
    ensures !NeedAddingSpace("&amp; ", "b", v.script)
  {
  }

  /** The word `& ` at 0 is told to be ten characters long instead of two, because what follows it is copied right behind it. */
  lemma GapIsSwallowed(v: Voice)
    requires v.isEdge && Fits(v, GapFragments())
    ensures |GapFragments()| == 2
    ensures var pos, text := SpokenPos(v, GapFragments(), 0), GapFragments()[0].text;
      && Image(text, pos, 0) == pos && |Escape(text)| == 6 && |text| == 2
      && MapOffset(Translate(v, GapFragments()).maps, pos, 6) == (0, 10)
  {
    EscapedAmp();
    GapFacts(v);
    assert "& "[..0] == "" && Escape("") == "";
    hide GapFragments, Run, Translate, SpokenPos, Escape, UpToNul, Ordered, Holds, SpanMaps;
    var pos, maps := SpokenPos(v, GapFragments(), 0), Translate(v, GapFragments()).maps;
    GapMappings(v, GapFragments(), pos);
    TranslationSorted(v, GapFragments());
    SpokenFound(v, GapFragments(), 0);
    FiveMappings(maps, pos);
  }

  lemma GapMappings(v: Voice, frags: seq<Fragment>, pos: nat)
    requires v.isEdge && |frags| == 2 && pos == SpokenPos(v, frags, 0)
    requires frags[0].text == "& " && frags[0].src == 0 && Speakable(frags[0])
    requires frags[1].text == "b" && frags[1].src == 10 && Speakable(frags[1]) && SameProsody(frags[0], frags[1])
    ensures Translate(v, frags).maps
         == [Mapping(0, pos), Mapping(1, pos + 5), Mapping(2, pos + 6), Mapping(10, pos + 6), Mapping(11, pos + 7)]
  {
    hide Run, Translate, SpokenPos, Escape, EscapeMaps, UpToNul, NeedAddingSpace, SpanMaps, SameProsody, Speakable, Ordered;
    GapPlaces(v, frags, pos);
    TwoSpans(pos);
    SpokenAdds(v, frags, 0);
    SpokenAdds(v, frags, 1);
    NoMapsYet(v, frags);
    TranslateGrows(v, frags, 2);
  }

  lemma GapPlaces(v: Voice, frags: seq<Fragment>, pos: nat)
    requires v.isEdge && |frags| == 2 && pos == SpokenPos(v, frags, 0) && SameProsody(frags[0], frags[1])
    requires frags[0].text == "& " && Speakable(frags[0]) && frags[1].text == "b" && Speakable(frags[1])
    ensures SpokenPos(v, frags, 1) == pos + 6
  {
    EscapedAmp();
    NoSpaceNeeded(v);
    assert InOneStyle(v, frags, 0, 1);
    hide *;
    Neighbours(v, frags, 0, 1);
    CopyEndIs(v, frags, 0);
  }

  lemma NoSpaceNeeded(v: Voice)
    ensures !NeedAddingSpace("&amp; ", "b", v.script) && |"&amp; "| == 6
  {
  }

  lemma CopyEndIs(v: Voice, frags: seq<Fragment>, k: nat)
    requires k < |frags|
    ensures CopyEnd(v, frags, k) == SpokenPos(v, frags, k) + |Escape(UpToNul(frags[k].text))|
  {
    hide SpokenPos, Escape, UpToNul;
  }

  lemma TwoSpans(pos: nat)
    ensures SpanMaps(0, "& ", pos) == [Mapping(0, pos), Mapping(1, pos + 5), Mapping(2, pos + 6)]
    ensures SpanMaps(10, "b", pos + 6) == [Mapping(10, pos + 6), Mapping(11, pos + 7)]
  {
    EscapedAmp();
    hide Escape, EscapeMaps, UpToNul;
    EscapeMapsMoved(0, "& ", pos);
    EscapeMapsMoved(10, "b", pos + 6);
  }

  lemma NoMapsYet(v: Voice, frags: seq<Fragment>)
    ensures Run(v, frags, 0).maps == []
  {
  }

  lemma FiveMappings(maps: seq<Mapping>, pos: nat)
    requires maps == [Mapping(0, pos), Mapping(1, pos + 5), Mapping(2, pos + 6), Mapping(10, pos + 6), Mapping(11, pos + 7)]
    requires Sorted(maps) && pos + 7 < ULONG
    ensures MapOffset(maps, pos, 6) == (0, 10)
  {
    hide Wrap, StepBack, LastNotAbove;
    LastIs(maps, pos, 0);
    LastIs(maps, pos + 6, 3);
    WrapSmall(0);
    WrapSmall(6);
    WrapSmall(10);
    WrapSmall(pos + 6);
    NoStepBack(maps, 3, 6);
  }

  lemma NoStepBack(maps: seq<Mapping>, index: nat, endSapi: nat)
    requires 0 < index < |maps| && maps[index - 1].sapi < endSapi
    ensures StepBack(maps, index, endSapi) == index
  {
  }

  const ONE := '\U{4E00}'

  /** A word of five ideographs, cut by two bookmarks. */
  function CutTwice(): seq<Fragment> {
    [TextFragment([ONE], 0), TextFragment("m", 5).(action := Bookmark), TextFragment([ONE], 20),
     TextFragment("m", 25).(action := Bookmark), TextFragment([ONE, ONE, ONE], 41)]
  }

  lemma CutFacts(v: Voice)
    requires v.isEdge && v.script(ONE) != {}
    ensures var frags := CutTwice();
      && |frags| == 5 && Ordered(frags) && InOneStyle(v, frags, 0, 2) && InOneStyle(v, frags, 2, 4)
      && LastSpokenBefore(frags, 2, 4) && Speakable(frags[0]) && Whole(frags[2])
      && UpToNul(frags[0].text) == [ONE] && UpToNul(frags[2].text) == [ONE] && UpToNul(frags[4].text) == [ONE, ONE, ONE]
      && frags[0].src == 0 && SrcEnd(frags[2]) == 21 && frags[4].src == 41
      && frags[2].text == [ONE] && frags[4].text == [ONE, ONE, ONE]
    ensures !NeedAddingSpace([ONE], [ONE], v.script) && !NeedAddingSpace([ONE], [ONE, ONE, ONE], v.script)
  {
  }

  lemma PlainOnes()
    ensures Escape([ONE]) == [ONE] && Escape("") == ""
    ensures [ONE, ONE, ONE][..1] == [ONE] && [ONE][..0] == "" && NoEscapes([ONE])
  {
    assert [ONE][..0] == "";
  }

  /** The first three ideographs, 42 characters of the source with the bookmarks, are told to be 22 characters long. */
  lemma SecondCutIsLost(v: Voice)
    requires v.isEdge && v.script(ONE) != {} && Fits(v, CutTwice())
    ensures |CutTwice()| == 5
    ensures MapOffset(Translate(v, CutTwice()).maps, SpokenPos(v, CutTwice(), 0), 3) == (0, 22)
  {
    hide *;
    CutFacts(v);
    CutMaps(v, CutTwice());
  }

  lemma CutMaps(v: Voice, frags: seq<Fragment>)
    requires v.isEdge && Fits(v, frags) && |frags| == 5 && Ordered(frags) && InOneStyle(v, frags, 0, 2) && InOneStyle(v, frags, 2, 4)
    requires LastSpokenBefore(frags, 2, 4) && Speakable(frags[0]) && Whole(frags[2])
    requires UpToNul(frags[0].text) == [ONE] && UpToNul(frags[2].text) == [ONE] && UpToNul(frags[4].text) == [ONE, ONE, ONE]
    requires frags[0].src == 0 && SrcEnd(frags[2]) == 21 && frags[4].src == 41
    requires frags[2].text == [ONE] && frags[4].text == [ONE, ONE, ONE]
    requires !NeedAddingSpace([ONE], [ONE], v.script) && !NeedAddingSpace([ONE], [ONE, ONE, ONE], v.script)
    ensures MapOffset(Translate(v, frags).maps, SpokenPos(v, frags, 0), 3) == (0, 22)
  {
    hide Run, Translate, SpokenPos, MapOffset, Escape, UpToNul, Ordered, InOneStyle, NeedAddingSpace, NoEscapes, Whole, Fits,
      CopyEnd, LastSpokenBefore, Speakable, Image, Reach, SrcEnd;
    PlainOnes();
    CutPlaces(v, frags);
    CutReach(v, frags);
    assert Tied(v, frags, 2, 4);
    RoundTripFar(v, frags, 0, 2, 4, 0, 1);
  }

  lemma CutPlaces(v: Voice, frags: seq<Fragment>)
    requires v.isEdge && |frags| == 5 && InOneStyle(v, frags, 0, 2) && InOneStyle(v, frags, 2, 4)
    requires UpToNul(frags[0].text) == [ONE] == UpToNul(frags[2].text)
    requires frags[2].text == [ONE] && frags[4].text == [ONE, ONE, ONE]
    requires !NeedAddingSpace([ONE], [ONE], v.script) && !NeedAddingSpace([ONE], [ONE, ONE, ONE], v.script)
    ensures SpokenPos(v, frags, 4) == CopyEnd(v, frags, 2) == SpokenPos(v, frags, 0) + 2
  {
    PlainOnes();
    hide SpokenPos, Escape, UpToNul, InOneStyle, NeedAddingSpace;
    Neighbours(v, frags, 0, 2);
    Neighbours(v, frags, 2, 4);
  }

  lemma CutReach(v: Voice, frags: seq<Fragment>)
    requires |frags| == 5 && UpToNul(frags[0].text) == [ONE] && UpToNul(frags[4].text) == [ONE, ONE, ONE]
    requires SpokenPos(v, frags, 4) == SpokenPos(v, frags, 0) + 2
    ensures Reach(v, frags, 0, 0, 4, 1) == 3 && Image([ONE], SpokenPos(v, frags, 0), 0) == SpokenPos(v, frags, 0)
  {
    PlainOnes();
    hide SpokenPos, Escape, UpToNul;
  }
}
