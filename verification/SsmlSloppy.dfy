/**
 Unknown tags with whitespace after them. The translator keeps such a tag untrimmed, and takes everything but its last
 character for the tag's name: when a name is all that stands between the brackets, the name it closes the tag with
 ends in `>`, and a `>` is spoken. This module says exactly when the spoken text survives.
 */
module SsmlSloppy {
  import opened WideText
  import opened XmlReader
  import opened SsmlBuilder
  import opened SsmlReading
  import opened SsmlNesting
  import opened SsmlText

  // ---- Text without its whitespace ----

  function Squeeze(s: string): string {
    if s == "" then "" else Squeeze(s[..|s| - 1]) + if IsSpace(s[|s| - 1]) then "" else [s[|s| - 1]]
  }

  /** How many `>` there are. */
  function Gts(s: string): nat {
    if s == "" then 0 else Gts(s[..|s| - 1]) + if s[|s| - 1] == '>' then 1 else 0
  }

  lemma {:induction false} SqueezeConcat(a: string, b: string)
    ensures Squeeze(a + b) == Squeeze(a) + Squeeze(b) && Gts(a + b) == Gts(a) + Gts(b)
  {
    if b == "" {
      assert a + b == a;
    } else {
      SqueezeConcat(a, b[..|b| - 1]);
      assert (a + b)[..|a + b| - 1] == a + b[..|b| - 1];
    }
  }

  lemma {:induction false} SpacesVanish(s: string)
    requires AllSpaces(s)
    ensures Squeeze(s) == "" && Gts(s) == 0
  {
    if s != "" {
      SpacesVanish(s[..|s| - 1]);
    }
  }

  lemma {:induction false} GtsSqueeze(s: string)
    ensures Gts(Squeeze(s)) == Gts(s)
  {
    if s != "" {
      GtsSqueeze(s[..|s| - 1]);
      SqueezeConcat(Squeeze(s[..|s| - 1]), if IsSpace(s[|s| - 1]) then "" else [s[|s| - 1]]);
    }
  }

  // ---- What stored tags add ----

  predicate HasSloppy(tags: seq<StoredTag>) {
    exists k :: 0 <= k < |tags| && Sloppy(tags[k])
  }

  /** Written again, they add whitespace only. */
  lemma {:induction false} ReopenSpaces(tags: seq<StoredTag>)
    requires Stored(tags)
    ensures AllSpaces(TextOf(AllTagEvents(tags)))
  {
    if tags != [] {
      var early, last := tags[..|tags| - 1], tags[|tags| - 1];
      ReopenSpaces(early);
      TextConcat(AllTagEvents(early), TagEvents(last));
      TagText(last);
      assert OneTag(last);
    }
  }

  /** Closed by the translator, they add a `>` for every sloppy one and nothing else. */
  lemma {:induction false} CloseGts(tags: seq<StoredTag>)
    ensures Gts(TextOf(AllCloseEvents(tags))) >= if HasSloppy(tags) then 1 else 0
    ensures !HasSloppy(tags) ==> TextOf(AllCloseEvents(tags)) == ""
  {
    if tags != [] {
      var early, last := tags[..|tags| - 1], tags[|tags| - 1];
      CloseGts(early);
      TextConcat(CloseEvents(last), AllCloseEvents(early));
      CloseOneGts(last);
      SqueezeConcat(TextOf(CloseEvents(last)), TextOf(AllCloseEvents(early)));
      LastSloppy(tags);
      hide Sloppy, CloseEvents, TextOf, Gts, Squeeze, HasSloppy;
    }
  }

  lemma LastSloppy(tags: seq<StoredTag>)
    requires tags != []
    ensures HasSloppy(tags) <==> HasSloppy(tags[..|tags| - 1]) || Sloppy(tags[|tags| - 1])
  {
    hide Sloppy;
    var early := tags[..|tags| - 1];
    assert forall k :: 0 <= k < |early| ==> early[k] == tags[k];
  }

  lemma CloseOneGts(text: string)
    ensures TextOf(CloseEvents(text)) == if Sloppy(text) then ">" else ""
    ensures Gts(">") == 1
  {
    assert ">"[..0] == "" && Gts("") == 0;
    OpenedText(ElementName(text));
    TextOfOne(Char('>'));
    TextConcat([Close(ElementName(text))], [Char('>')]);
    hide TextOf, Sloppy, ElementName;
    assert "" + ">" == ">";
  }

  // ---- What every step keeps ----

  /** `said` is what should have been spoken so far; `bad` tells whether a sloppy tag has been opened. */
  predicate Kept(b: Build, said: string, bad: bool) {
    var out := TextOf(b.events);
    && Gts(out) >= Gts(said)
    && if bad then Gts(out) > Gts(said) || (b.inCustom && HasSloppy(b.customTags))
       else Squeeze(out) == Squeeze(said) && !HasSloppy(b.customTags)
  }

  /** A step that adds whitespace only. */
  lemma AddsSpaces(b: Build, r: Build, said: string, bad: bool, d: string)
    requires Kept(b, said, bad) && TextOf(r.events) == TextOf(b.events) + d && AllSpaces(d)
    requires r.customTags == b.customTags && (b.inCustom ==> r.inCustom)
    ensures Kept(r, said, bad)
  {
    hide TextOf, Squeeze, Gts, HasSloppy, AllSpaces;
    SqueezeConcat(TextOf(b.events), d);
    SpacesVanish(d);
    assert Squeeze(TextOf(b.events)) + "" == Squeeze(TextOf(b.events));
  }

  lemma SpokenKept(v: Voice, f: Fragment, b: Build, said: string, bad: bool)
    requires Kept(b, said, bad) && Speakable(f)
    ensures Kept(EmitSpoken(v, f, b), said + UpToNul(f.text), bad)
  {
    hide TextOf, Squeeze, Gts, HasSloppy, EmitSpoken, UpToNul, Gap, AllSpaces, Speakable;
    EmitSpokenText(v, f, b);
    EmitSpokenFlags(v, f, b);
    GapVanishes(v, f, b.ssml, TextOf(b.events));
    SqueezeConcat(TextOf(b.events), Gap(v, f, b.ssml) + UpToNul(f.text));
    SqueezeConcat(said, UpToNul(f.text));
  }

  lemma GapVanishes(v: Voice, f: Fragment, before: string, out: string)
    ensures Squeeze(Gap(v, f, before) + UpToNul(f.text)) == Squeeze(UpToNul(f.text))
    ensures Gts(Gap(v, f, before) + UpToNul(f.text)) == Gts(UpToNul(f.text))
  {
    var gap := Gap(v, f, before);
    assert AllSpaces(gap);
    hide Squeeze, Gts, UpToNul, Gap, AllSpaces;
    SpacesVanish(gap);
    SqueezeConcat(gap, UpToNul(f.text));
    assert "" + Squeeze(UpToNul(f.text)) == Squeeze(UpToNul(f.text));
  }

  lemma StoredKept(b: Build, text: StoredTag, said: string, bad: bool)
    requires Kept(b, said, bad) && b.inCustom && OpeningTag(text)
    ensures Kept(OpenStored(b, text), said, bad || Sloppy(text))
  {
    hide TextOf, Squeeze, Gts, Sloppy, TagEvents, Trail, AllSpaces, HasSloppy;
    EmitText(b, text, TagEvents(text));
    TagText(text);
    SqueezeConcat(TextOf(b.events), Trail(text));
    SpacesVanish(Trail(text));
    assert Squeeze(TextOf(b.events)) + "" == Squeeze(TextOf(b.events));
    LastSloppy(b.customTags + [text]);
    assert (b.customTags + [text])[..|b.customTags|] == b.customTags;
  }

  lemma ThroughKept(b: Build, k: nat, text: string, said: string, bad: bool)
    requires Kept(b, said, bad) && b.inCustom && k < |b.customTags| && !Sloppy(b.customTags[k])
    requires OneTag(text)
    ensures Kept(CloseThrough(b, k, text), said, bad)
  {
    ThroughText(b, k, text);
    hide TextOf, Squeeze, Gts, HasSloppy, Sloppy, TagEvents, AllCloseEvents, ClosingTags, OneTag;
    SplitSloppy(b.customTags, k);
  }

  lemma ThroughText(b: Build, k: nat, text: string)
    requires k < |b.customTags| && OneTag(text)
    ensures var before, after := TextOf(b.events), TextOf(CloseThrough(b, k, text).events);
      && Gts(after) >= Gts(before) + (if HasSloppy(b.customTags[k + 1..]) then 1 else 0)
      && (!HasSloppy(b.customTags[k + 1..]) ==> Gts(after) == Gts(before) && Squeeze(after) == Squeeze(before))
  {
    var inner, out := b.customTags[k + 1..], TextOf(b.events);
    var closing := TextOf(AllCloseEvents(inner));
    TagText(text);
    assert AllSpaces(Trail(text));
    hide *;
    CloseThroughText(b, k, text);
    CloseGts(inner);
    AddsClosing(out, closing, Trail(text));
  }

  lemma CloseThroughText(b: Build, k: nat, text: string)
    requires k < |b.customTags|
    ensures TextOf(CloseThrough(b, k, text).events)
         == (TextOf(b.events) + TextOf(AllCloseEvents(b.customTags[k + 1..]))) + TextOf(TagEvents(text))
  {
    hide TextOf, TagEvents, AllCloseEvents, ClosingTags;
    var inner := b.customTags[k + 1..];
    EmitText(b, ClosingTags(inner), AllCloseEvents(inner));
    EmitText(Emit(b, ClosingTags(inner), AllCloseEvents(inner)), text, TagEvents(text));
  }

  lemma AddsClosing(out: string, closing: string, trail: string)
    requires AllSpaces(trail)
    ensures Gts((out + closing) + trail) == Gts(out) + Gts(closing)
    ensures closing == "" ==> Gts(closing) == 0 && Squeeze((out + closing) + trail) == Squeeze(out)
  {
    SqueezeConcat(out + closing, trail);
    SqueezeConcat(out, closing);
    SpacesVanish(trail);
    assert Squeeze("") == "" && Gts("") == 0;
    hide Gts, Squeeze, AllSpaces;
    assert Squeeze(out) + "" == Squeeze(out);
  }

  lemma SplitSloppy(tags: seq<StoredTag>, k: nat)
    requires k < |tags| && !Sloppy(tags[k])
    ensures HasSloppy(tags) <==> HasSloppy(tags[..k]) || HasSloppy(tags[k + 1..])
  {
    hide Sloppy;
    var outer, inner := tags[..k], tags[k + 1..];
    assert forall i :: 0 <= i < k ==> outer[i] == tags[i];
    assert forall i :: k < i < |tags| ==> tags[i] == inner[i - k - 1];
    assert forall i :: 0 <= i < |inner| ==> inner[i] == tags[i + k + 1];
  }

  lemma ClosedKept(level: nat, b: Build, said: string, bad: bool)
    requires Kept(b, said, bad)
    ensures Kept(CloseTags(level, b), said, bad)
  {
    CloseTagsText(level, b);
    CloseTagsFlags(level, b);
    CloseGts(b.customTags);
    SqueezeConcat(TextOf(b.events), CloseText(level, b));
    hide TextOf, Squeeze, Gts, HasSloppy, CloseTags, AllCloseEvents;
    assert TextOf(b.events) + "" == TextOf(b.events);
  }

  /** The fragment opens a sloppy tag. */
  predicate OpensSloppy(v: Voice, f: Fragment) {
    !v.isEdge && f.action == ParseUnknownTag && OpeningTag(f.text) && Sloppy(f.text)
  }

  lemma TagKept(v: Voice, f: Fragment, b: Build, said: string, bad: bool)
    requires Kept(b, said, bad) && b.inCustom && Stored(b.customTags)
    requires OneTag(f.text) && !v.isEdge && f.action == ParseUnknownTag
    ensures Kept(EmitTag(f, b), said, bad || OpensSloppy(v, f))
  {
    hide Kept, Sloppy, TrimTag, IsXMLSelfClosingTag, IsXMLClosingTag, ReadTag, CloseThrough, OpenStored, TagEvents, TextOf,
      NoAngles, Find, AllSpaces, Inner, GetXMLTagName, EqualsIgnoreCase;
    TagKinds(f.text);
    var tag := TrimTag(f.text);
    if IsXMLSelfClosingTag(tag) {
      CopiedKept(b, f.text, said, bad);
    } else if IsXMLClosingTag(tag) {
      var m := MatchingTag(b.customTags, GetXMLClosingTagName(tag));
      if m.Some? {
        MatchedName(b.customTags[m.value], f.text, GetXMLClosingTagName(tag));
        ThroughKept(b, m.value, f.text, said, bad);
      }
    } else {
      StoredKept(b, f.text, said, bad);
    }
  }

  lemma CopiedKept(b: Build, text: string, said: string, bad: bool)
    requires Kept(b, said, bad) && OneTag(text)
    ensures Kept(Emit(b, text, TagEvents(text)), said, bad)
  {
    hide Kept, TagEvents, TextOf, ReadTag, NoAngles, Find, Inner;
    EmitText(b, text, TagEvents(text));
    TagText(text);
    AddsSpaces(b, Emit(b, text, TagEvents(text)), said, bad, Trail(text));
  }

  lemma OtherKept(v: Voice, f: Fragment, b: Build, said: string, bad: bool)
    requires Kept(b, said, bad) && !Speakable(f) && (v.isEdge || f.action != ParseUnknownTag)
    ensures Kept(EmitFragment(v, f, b), said, bad)
  {
    EmitOtherNoText(v, f, b);
    EmitFragmentFlags(v, f, b);
    hide TextOf, Squeeze, Gts, HasSloppy, EmitFragment;
    assert TextOf(b.events) + "" == TextOf(b.events);
    AddsSpaces(b, EmitFragment(v, f, b), said, bad, "");
  }

  lemma OpenedKept(v: Voice, f: Fragment, b: Build, said: string, bad: bool)
    requires Kept(b, said, bad) && Stored(b.customTags) && Ready(v, f, b)
    ensures Kept(OpenTags(v, f, b), said, bad)
  {
    OpenTagsText(v, f, b);
    ReopenSpaces(b.customTags);
    OpenTagsFlags(v, f, b);
    hide TextOf, OpenTags, Kept, Ready, Stored;
    AddsSpaces(b, OpenTags(v, f, b), said, bad, ReopenText(b));
  }

  // ---- Whole translations ----

  predicate AnySloppy(v: Voice, frags: seq<Fragment>, n: nat)
    requires n <= |frags|
  {
    exists i :: 0 <= i < n && OpensSloppy(v, frags[i])
  }

  lemma StepKept(v: Voice, frags: seq<Fragment>, i: nat, said: string)
    requires i < |frags| && Sound(v, frags) && Kept(Run(v, frags, i), said, AnySloppy(v, frags, i))
    ensures Kept(Run(v, frags, i + 1), said + (if Speakable(frags[i]) then UpToNul(frags[i].text) else ""),
                 AnySloppy(v, frags, i + 1))
  {
    hide Run, Kept, OpenTags, EmitFragment, CloseTags, LevelAfter, OpensSloppy, Nested, UpToNul, Speakable;
    var f, b, bad := frags[i], Run(v, frags, i), AnySloppy(v, frags, i);
    assert f in frags;
    RunNests(false, v, frags, i);
    RunReads(v, frags, i);
    OpenedKept(v, f, b, said, bad);
    OpenTagsFlags(v, f, b);
    var ready := OpenTags(v, f, b);
    WrittenKept(v, f, ready, said, bad);
    var w := EmitFragment(v, f, ready);
    var now := said + if Speakable(f) then UpToNul(f.text) else "";
    ClosedKept(LevelAfter(v, frags, i, w.prosodyCount), w, now, bad || OpensSloppy(v, f));
    RunNext(v, frags, i);
    assert AnySloppy(v, frags, i + 1) <==> bad || OpensSloppy(v, f);
  }

  lemma WrittenKept(v: Voice, f: Fragment, b: Build, said: string, bad: bool)
    requires Kept(b, said, bad) && b.inCustom && Stored(b.customTags) && SoundFragment(v, f)
    ensures Kept(EmitFragment(v, f, b), said + (if Speakable(f) then UpToNul(f.text) else ""), bad || OpensSloppy(v, f))
  {
    hide Kept, UpToNul, EmitSpoken, EmitBookmark, EmitTag, EmptyTag, Attribute, Decimal, Sloppy, OneTag, OpeningTag;
    assert said + "" == said;
    if Speakable(f) {
      SpokenKept(v, f, b, said, bad);
    } else if !v.isEdge && f.action == ParseUnknownTag {
      TagKept(v, f, b, said, bad);
    } else {
      OtherKept(v, f, b, said, bad);
    }
  }

  lemma {:induction false} RunKept(v: Voice, frags: seq<Fragment>, n: nat)
    requires n <= |frags| && Sound(v, frags)
    ensures Kept(Run(v, frags, n), Concat(SpokenTexts(frags[..n])), AnySloppy(v, frags, n))
  {
    hide *;
    if n == 0 {
      StartKept(v, frags);
    } else {
      RunKept(v, frags, n - 1);
      StepKept(v, frags, n - 1, Concat(SpokenTexts(frags[..n - 1])));
      SaidNext(frags, n - 1);
    }
  }

  lemma StartKept(v: Voice, frags: seq<Fragment>)
    ensures Kept(Run(v, frags, 0), Concat(SpokenTexts(frags[..0])), AnySloppy(v, frags, 0))
  {
    OpenedText("voice");
    assert Begin(v).events == [] || Begin(v).events == [Open("voice")];
    assert TextOf([]) == "";
    var b := Begin(v);
    assert b.customTags == [];
    assert SpokenTexts(frags[..0]) == [] && Concat(SpokenTexts(frags[..0])) == "";
    hide Begin;
    assert !HasSloppy(b.customTags);
    assert TextOf(b.events) == "";
    assert Run(v, frags, 0) == b;
    assert !AnySloppy(v, frags, 0);
  }

  lemma SaidNext(frags: seq<Fragment>, i: nat)
    requires i < |frags|
    ensures Concat(SpokenTexts(frags[..i + 1]))
         == Concat(SpokenTexts(frags[..i])) + if Speakable(frags[i]) then UpToNul(frags[i].text) else ""
  {
    SpokenNext(frags, i);
    ConcatAppend(SpokenTexts(frags[..i]), UpToNul(frags[i].text));
    hide Concat, UpToNul, SpokenTexts;
    assert SpokenTexts(frags[..i]) + [] == SpokenTexts(frags[..i]);
    assert Concat(SpokenTexts(frags[..i])) + "" == Concat(SpokenTexts(frags[..i]));
  }

  /**
   Whitespace aside, what an XML reader finds in the document besides markup is exactly the spoken texts,
   if and only if no unknown tag that is a bare name in brackets has whitespace after it.
   */
  lemma TextSurvives(v: Voice, frags: seq<Fragment>)
    requires Sound(v, frags)
    ensures Squeeze(TextOf(Read(Translate(v, frags).ssml).events)) == Squeeze(Concat(SpokenTexts(frags)))
       <==> !AnySloppy(v, frags, |frags|)
  {
    SurvivesRun(v, frags);
    TranslationReads(v, frags);
    hide Kept, Run, TextOf, Sound, SpokenTexts, CloseVoice, EndTag, Feed, Concat, Squeeze, Gts, AnySloppy, Nested;
    CloseVoiceText(v, Run(v, frags, |frags|));
    RootText(Translate(v, frags).events, "speak");
  }

  lemma SurvivesRun(v: Voice, frags: seq<Fragment>)
    requires Sound(v, frags)
    ensures Squeeze(TextOf(Run(v, frags, |frags|).events)) == Squeeze(Concat(SpokenTexts(frags)))
       <==> !AnySloppy(v, frags, |frags|)
  {
    hide Run, TextOf, Sound, SpokenTexts, Concat, Squeeze, Gts, AnySloppy, Nested;
    RunNests(false, v, frags, |frags|);
    RunKept(v, frags, |frags|);
    assert frags[..|frags|] == frags;
    GtsSqueeze(TextOf(Run(v, frags, |frags|).events));
    GtsSqueeze(Concat(SpokenTexts(frags)));
  }

  // ---- Without sloppy tags a bracket always ends a tag ----

  /** What is appended ends in `>` only as the end of a tag. */
  predicate PieceClean(piece: string, evs: seq<Event>) {
    if piece == "" then evs == []
    else piece[|piece| - 1] == '>' ==> evs != [] && !evs[|evs| - 1].Char?
  }

  predicate EndsClean(b: Build) {
    b.ssml != "" && (b.ssml[|b.ssml| - 1] == '>' ==> b.events == [] || !b.events[|b.events| - 1].Char?)
  }

  lemma EmitClean(b: Build, piece: string, evs: seq<Event>)
    requires EndsClean(b) && PieceClean(piece, evs)
    ensures EndsClean(Emit(b, piece, evs))
  {
    if piece == "" {
      assert b.ssml + piece == b.ssml && b.events + evs == b.events;
    }
  }

  lemma PiecesClean(p: string, pe: seq<Event>, q: string, qe: seq<Event>)
    requires PieceClean(p, pe) && PieceClean(q, qe)
    ensures PieceClean(p + q, pe + qe)
  {
    if q == "" {
      assert p + q == p && pe + qe == pe;
    }
  }

  lemma MarkupClean(name: string, attributes: string)
    ensures PieceClean(StartTag(name, attributes), [Open(name)])
    ensures PieceClean(EndTag(name), [Close(name)])
    ensures PieceClean(EmptyTag(name, attributes), [Empty(name)])
  {
  }

  lemma TagClean(text: string)
    requires OneTag(text)
    ensures PieceClean(text, TagEvents(text))
  {
    TagSplit(text);
    var trail := Trail(text);
    if trail != "" {
      assert text[|text| - 1] == trail[|trail| - 1];
    }
    hide ReadTag, NoAngles;
  }

  lemma {:induction false} ReopenClean(tags: seq<StoredTag>)
    requires Stored(tags)
    ensures PieceClean(Concat(tags), AllTagEvents(tags))
  {
    if tags != [] {
      var early, last := tags[..|tags| - 1], tags[|tags| - 1];
      ReopenClean(early);
      assert OpeningTag(last);
      TagClean(last);
      PiecesClean(Concat(early), AllTagEvents(early), last, TagEvents(last));
      hide OpeningTag, TagEvents, PieceClean;
    }
  }

  lemma {:induction false} ClosingClean(tags: seq<StoredTag>)
    requires !HasSloppy(tags)
    ensures PieceClean(ClosingTags(tags), AllCloseEvents(tags))
  {
    hide Sloppy, GetXMLTagName, ElementName;
    if tags != [] {
      var early, last := tags[..|tags| - 1], tags[|tags| - 1];
      LastSloppy(tags);
      ClosingClean(early);
      PiecesClean(EndTag(GetXMLTagName(last)), CloseEvents(last), ClosingTags(early), AllCloseEvents(early));
    }
  }

  lemma OpenTagsClean(v: Voice, f: Fragment, b: Build)
    requires EndsClean(b) && Stored(b.customTags)
    ensures EndsClean(OpenTags(v, f, b))
  {
    hide OpenTags, OpenProsody, OpenEmphasis, ReopenCustom, OpenSayAs, EndsClean, Stored, ProsodyOf, Speakable;
    var b0 := b.(hasText := b.hasText || (f.action != Bookmark && f.text != ""));
    var b1 := OpenProsody(v, f, b0);
    var b2 := OpenEmphasis(v, f, b1);
    OpenTagsIs(v, f, b);
    NotedClean(b, b0.hasText);
    OpenProsodyChanges(v, f, b0);
    OpenEmphasisChanges(v, f, b1);
    OpenOneClean(v, f, b0);
    OpenOneClean(v, f, b1);
    ReopenCustomClean(b2);
    OpenOneClean(v, f, ReopenCustom(b2));
  }

  lemma NotedClean(b: Build, hasText: bool)
    requires EndsClean(b)
    ensures EndsClean(b.(hasText := hasText))
  {
  }

  lemma OpenOneClean(v: Voice, f: Fragment, b: Build)
    requires EndsClean(b)
    ensures EndsClean(OpenProsody(v, f, b)) && EndsClean(OpenEmphasis(v, f, b)) && EndsClean(OpenSayAs(v, f, b))
  {
    hide StartTag, ProsodyOf, ProsodyAttributes, Attribute, Interpretation, PieceClean, Speakable;
    MarkupClean("prosody", ProsodyAttributes(ProsodyOf(v, f)));
    EmitClean(b, StartTag("prosody", ProsodyAttributes(ProsodyOf(v, f))), [Open("prosody")]);
    MarkupClean("emphasis", "");
    EmitClean(b, StartTag("emphasis", ""), [Open("emphasis")]);
    if f.category.Some? {
      var a := Attribute("interpret-as", Interpretation(f.category.value));
      MarkupClean("say-as", a);
      EmitClean(b, StartTag("say-as", a), [Open("say-as")]);
    }
  }

  lemma ReopenCustomClean(b: Build)
    requires EndsClean(b) && Stored(b.customTags)
    ensures EndsClean(ReopenCustom(b))
  {
    hide PieceClean, Concat, AllTagEvents, Stored;
    ReopenClean(b.customTags);
    EmitClean(b, Concat(b.customTags), AllTagEvents(b.customTags));
  }

  lemma LeadClean(v: Voice, f: Fragment, before: string)
    ensures PieceClean(Lead(v, f, before), LeadEvents(v, f, before))
    ensures PieceClean(Tail(v, f), TailEvents(v, f))
  {
    hide NeedAddingSpace, Attribute, Escape;
  }

  lemma SpokenClean(v: Voice, f: Fragment, b: Build)
    requires EndsClean(b)
    ensures EndsClean(EmitSpoken(v, f, b))
  {
    hide Lead, LeadEvents, Tail, TailEvents, PieceClean, Escape, UpToNul, Chars, EscapeMaps;
    var t := UpToNul(f.text);
    var led := Emit(b, Lead(v, f, b.ssml), LeadEvents(v, f, b.ssml));
    LeadClean(v, f, b.ssml);
    EmitClean(b, Lead(v, f, b.ssml), LeadEvents(v, f, b.ssml));
    TextClean(t);
    EmitClean(led, Escape(t), Chars(t));
    EmitClean(Emit(led, Escape(t), Chars(t)), Tail(v, f), TailEvents(v, f));
  }

  lemma TextClean(t: string)
    ensures PieceClean(Escape(t), Chars(t))
  {
  }

  lemma EmitTagClean(f: Fragment, b: Build)
    requires EndsClean(b) && OneTag(f.text) && !HasSloppy(b.customTags)
    ensures EndsClean(EmitTag(f, b))
  {
    TagClean(f.text);
    hide PieceClean, TrimTag, IsXMLClosingTag, IsXMLSelfClosingTag, OneTag, TagEvents, EndsClean, HasSloppy, CloseThrough;
    EmitClean(b, f.text, TagEvents(f.text));
    var tag := TrimTag(f.text);
    if !IsXMLSelfClosingTag(tag) && IsXMLClosingTag(tag) {
      var m := MatchingTag(b.customTags, GetXMLClosingTagName(tag));
      if m.Some? {
        ThroughClean(b, m.value, f.text);
      }
    } else if |f.text| >= 3 {
      StoredClean(b, f.text);
    }
  }

  lemma StoredClean(b: Build, text: StoredTag)
    requires EndsClean(Emit(b, text, TagEvents(text)))
    ensures EndsClean(OpenStored(b, text))
  {
    hide TagEvents;
  }

  lemma ThroughClean(b: Build, k: nat, text: string)
    requires k < |b.customTags| && EndsClean(b) && PieceClean(text, TagEvents(text)) && !HasSloppy(b.customTags)
    ensures EndsClean(CloseThrough(b, k, text))
  {
    hide PieceClean, TagEvents, ClosingTags, AllCloseEvents, Sloppy;
    var inner := b.customTags[k + 1..];
    assert forall i :: 0 <= i < |inner| ==> inner[i] == b.customTags[i + k + 1];
    ClosingClean(inner);
    EmitClean(b, ClosingTags(inner), AllCloseEvents(inner));
    EmitClean(Emit(b, ClosingTags(inner), AllCloseEvents(inner)), text, TagEvents(text));
  }

  lemma EmitFragmentClean(v: Voice, f: Fragment, b: Build)
    requires EndsClean(b) && SoundFragment(v, f) && !HasSloppy(b.customTags)
    ensures EndsClean(EmitFragment(v, f, b))
  {
    hide EmitSpoken, EmitTag, HasSloppy, OneTag, EmptyTag, Attribute, Decimal, Escape, UpToNul, EscapeMaps, Speakable;
    if Speakable(f) {
      SpokenClean(v, f, b);
    } else if f.action == Bookmark {
      var mark := Attribute("mark", Escape(UpToNul(f.text)));
      MarkupClean("bookmark", mark);
      EmitClean(b, EmptyTag("bookmark", mark), [Empty("bookmark")]);
    } else if !v.isEdge && f.action == Silence {
      var time := Attribute("time", Decimal(f.silenceMs) + "ms");
      MarkupClean("break", time);
      EmitClean(b, EmptyTag("break", time), [Empty("break")]);
    } else if !v.isEdge && f.action == ParseUnknownTag {
      EmitTagClean(f, b);
    }
  }

  lemma CloseTagsClean(level: nat, b: Build)
    requires EndsClean(b) && !HasSloppy(b.customTags)
    ensures EndsClean(CloseTags(level, b))
  {
    hide EndsClean, HasSloppy, CloseSayAs, CloseCustom, CloseEmphasis, CloseProsody;
    CloseTagsFlags(level, b);
    var b1 := CloseSayAs(level, b);
    CloseOneClean(level, b);
    CloseCustomClean(level, b1);
    CloseOneClean(level, CloseCustom(level, b1));
    CloseOneClean(level, CloseEmphasis(level, CloseCustom(level, b1)));
  }

  lemma CloseOneClean(level: nat, b: Build)
    requires EndsClean(b)
    ensures EndsClean(CloseSayAs(level, b)) && EndsClean(CloseEmphasis(level, b)) && EndsClean(CloseProsody(level, b))
  {
    hide EndTag, PieceClean;
    MarkupClean("say-as", "");
    MarkupClean("emphasis", "");
    MarkupClean("prosody", "");
    EmitClean(b, EndTag("say-as"), [Close("say-as")]);
    EmitClean(b, EndTag("emphasis"), [Close("emphasis")]);
    EmitClean(b, EndTag("prosody"), [Close("prosody")]);
  }

  lemma CloseCustomClean(level: nat, b: Build)
    requires EndsClean(b) && !HasSloppy(b.customTags)
    ensures EndsClean(CloseCustom(level, b))
  {
    hide PieceClean, ClosingTags, AllCloseEvents, HasSloppy;
    ClosingClean(b.customTags);
    EmitClean(b, ClosingTags(b.customTags), AllCloseEvents(b.customTags));
  }

  /** As long as no sloppy tag was opened, what has been written ends in `>` only as the end of a tag. */
  lemma {:induction false} RunClean(v: Voice, frags: seq<Fragment>, n: nat)
    requires n <= |frags| && Sound(v, frags) && !AnySloppy(v, frags, n)
    ensures EndsClean(Run(v, frags, n)) && !HasSloppy(Run(v, frags, n).customTags)
  {
    hide Run, OpenTags, EmitFragment, CloseTags, LevelAfter, EndsClean, HasSloppy, OpensSloppy, SoundFragment;
    RunKept(v, frags, n);
    if n == 0 {
      BeginClean(v, frags);
    } else {
      RunClean(v, frags, n - 1);
      var f, b := frags[n - 1], Run(v, frags, n - 1);
      var ready, w := OpenTags(v, f, b), Written(v, frags, n - 1);
      SoundAt(v, frags, n - 1);
      RunReads(v, frags, n - 1);
      OpenTagsClean(v, f, b);
      OpenTagsFlags(v, f, b);
      EmitFragmentClean(v, f, ready);
      var level := LevelAfter(v, frags, n - 1, w.prosodyCount);
      RunNext(v, frags, n - 1);
      CloseTagsFlags(level, w);
      CloseTagsClean(level, w);
    }
  }

  lemma BeginClean(v: Voice, frags: seq<Fragment>)
    ensures EndsClean(Run(v, frags, 0))
  {
    hide SpeakAttributes, Attribute;
    assert Begin(v).events == [] || Begin(v).events == [Open("voice")];
  }
}
