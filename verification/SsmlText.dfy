/** What is spoken is preserved: markup removed and entities decoded, the SSML says the fragments' texts. */
module SsmlText {
  import opened WideText
  import opened XmlReader
  import opened SsmlBuilder
  import opened SsmlReading
  import opened SsmlNesting

  /** The texts to be spoken, in order; a fragment is copied up to its first NUL. */
  function SpokenTexts(frags: seq<Fragment>): seq<string> {
    if frags == [] then []
    else
      SpokenTexts(frags[..|frags| - 1])
      + match frags[|frags| - 1].action
        case Speak => [UpToNul(frags[|frags| - 1].text)]
        case SpellOut => [UpToNul(frags[|frags| - 1].text)]
        case Pronounce => [UpToNul(frags[|frags| - 1].text)]
        case _ => []
  }

  /** `out` is the texts in order, with at most one space added between two of them. */
  ghost predicate Spaced(texts: seq<string>, out: string) {
    if texts == [] then out == ""
    else exists k ::
        && 0 <= k <= |out|
        && Spaced(texts[..|texts| - 1], out[..k])
        && (out[k..] == texts[|texts| - 1] || (k > 0 && out[k..] == " " + texts[|texts| - 1]))
  }

  /** No unknown tag has whitespace after it. */
  predicate Trimmed(frags: seq<Fragment>) {
    forall f :: f in frags && f.action == ParseUnknownTag ==> Trail(f.text) == ""
  }

  predicate TrimmedTags(tags: seq<StoredTag>) {
    forall k :: 0 <= k < |tags| ==> Trail(tags[k]) == ""
  }

  // ---- The text each step adds ----

  lemma EmitText(b: Build, piece: string, evs: seq<Event>)
    ensures TextOf(Emit(b, piece, evs).events) == TextOf(b.events) + TextOf(evs)
  {
    TextConcat(b.events, evs);
  }

  lemma TextOfOne(e: Event)
    ensures TextOf([e]) == match e case Char(c) => [c] case _ => ""
  {
    assert [e][..0] == [];
    assert TextOf([]) == "";
  }

  lemma OpenedText(name: string)
    ensures TextOf([Open(name)]) == "" && TextOf([Close(name)]) == "" && TextOf([Empty(name)]) == ""
  {
    TextOfOne(Open(name));
    TextOfOne(Close(name));
    TextOfOne(Empty(name));
  }

  /** The text that reopening the stored tags adds. */
  function ReopenText(b: Build): string {
    if b.inCustom then "" else TextOf(AllTagEvents(b.customTags))
  }

  lemma OpenTagsText(v: Voice, f: Fragment, b: Build)
    ensures TextOf(OpenTags(v, f, b).events) == TextOf(b.events) + ReopenText(b)
  {
    var b0 := b.(hasText := b.hasText || (f.action != Bookmark && f.text != ""));
    var b1 := OpenProsody(v, f, b0);
    OpenProsodyText(v, f, b0);
    var b2 := OpenEmphasis(v, f, b1);
    OpenEmphasisText(v, f, b1);
    var b3 := ReopenCustom(b2);
    ReopenCustomText(b2);
    OpenSayAsText(v, f, b3);
    hide TextOf, OpenProsody, OpenEmphasis, OpenSayAs, ReopenCustom;
  }

  lemma OpenProsodyText(v: Voice, f: Fragment, b: Build)
    ensures var r := OpenProsody(v, f, b);
      TextOf(r.events) == TextOf(b.events) && r.customTags == b.customTags && r.inCustom == b.inCustom
  {
    OpenedText("prosody");
    hide TextOf, ProsodyOf, ProsodyAttributes;
    EmitText(b, "", [Open("prosody")]);
    assert TextOf(b.events) + "" == TextOf(b.events);
  }

  lemma OpenEmphasisText(v: Voice, f: Fragment, b: Build)
    ensures var r := OpenEmphasis(v, f, b);
      TextOf(r.events) == TextOf(b.events) && r.customTags == b.customTags && r.inCustom == b.inCustom
  {
    OpenedText("emphasis");
    hide TextOf;
    EmitText(b, "", [Open("emphasis")]);
    assert TextOf(b.events) + "" == TextOf(b.events);
  }

  lemma ReopenCustomText(b: Build)
    ensures TextOf(ReopenCustom(b).events) == TextOf(b.events) + ReopenText(b)
  {
    hide TextOf;
    EmitText(b, "", AllTagEvents(b.customTags));
    assert TextOf(b.events) + "" == TextOf(b.events);
  }

  lemma OpenSayAsText(v: Voice, f: Fragment, b: Build)
    ensures TextOf(OpenSayAs(v, f, b).events) == TextOf(b.events)
  {
    OpenedText("say-as");
    hide TextOf, Interpretation;
    EmitText(b, "", [Open("say-as")]);
    assert TextOf(b.events) + "" == TextOf(b.events);
  }

  /** The space written before a spoken text, if any. */
  function Gap(v: Voice, f: Fragment, before: string): string {
    if (v.isEdge || f.action == Speak) && NeedAddingSpace(before, f.text, v.script) then " " else ""
  }

  lemma SpokenEvents(v: Voice, f: Fragment, b: Build)
    ensures EmitSpoken(v, f, b).events == b.events + ((LeadEvents(v, f, b.ssml) + Chars(UpToNul(f.text))) + TailEvents(v, f))
  {
    hide LeadEvents, Lead, Tail, TailEvents, Chars, UpToNul, Escape, EscapeMaps;
  }

  lemma EmitSpokenText(v: Voice, f: Fragment, b: Build)
    requires Speakable(f)
    ensures TextOf(EmitSpoken(v, f, b).events) == TextOf(b.events) + (Gap(v, f, b.ssml) + UpToNul(f.text))
  {
    var lead, mid, tail := LeadEvents(v, f, b.ssml), Chars(UpToNul(f.text)), TailEvents(v, f);
    SpokenEvents(v, f, b);
    hide TextOf, EmitSpoken, LeadEvents, TailEvents, Gap, UpToNul, Chars;
    TextConcat(b.events, (lead + mid) + tail);
    TextConcat(lead + mid, tail);
    TextConcat(lead, mid);
    TextOfChars(UpToNul(f.text));
    LeadTailText(v, f, b.ssml);
    assert (Gap(v, f, b.ssml) + UpToNul(f.text)) + "" == Gap(v, f, b.ssml) + UpToNul(f.text);
  }

  lemma LeadTailText(v: Voice, f: Fragment, before: string)
    requires Speakable(f)
    ensures TextOf(LeadEvents(v, f, before)) == Gap(v, f, before) && TextOf(TailEvents(v, f)) == ""
  {
    OpenedText("say-as");
    OpenedText("phoneme");
    TextOfChars(Lead(v, f, before));
  }

  /** The text that closing the stored tags adds. */
  function CloseText(level: nat, b: Build): string {
    if b.inCustom && level < 2 then TextOf(AllCloseEvents(b.customTags)) else ""
  }

  lemma CloseTagsText(level: nat, b: Build)
    ensures TextOf(CloseTags(level, b).events) == TextOf(b.events) + CloseText(level, b)
  {
    CloseTagsFlags(level, b);
    var b1 := CloseSayAs(level, b);
    CloseOneText(level, b);
    var b2 := CloseCustom(level, b1);
    CloseCustomText(level, b1);
    var b3 := CloseEmphasis(level, b2);
    CloseOneText(level, b2);
    CloseOneText(level, b3);
    hide TextOf, CloseSayAs, CloseCustom, CloseEmphasis, CloseProsody, AllCloseEvents;
  }

  lemma CloseOneText(level: nat, b: Build)
    ensures TextOf(CloseSayAs(level, b).events) == TextOf(b.events)
    ensures TextOf(CloseEmphasis(level, b).events) == TextOf(b.events)
    ensures TextOf(CloseProsody(level, b).events) == TextOf(b.events)
  {
    OpenedText("say-as");
    OpenedText("emphasis");
    OpenedText("prosody");
    hide TextOf, EndTag;
    EmitText(b, "", [Close("say-as")]);
    EmitText(b, "", [Close("emphasis")]);
    EmitText(b, "", [Close("prosody")]);
    assert TextOf(b.events) + "" == TextOf(b.events);
  }

  lemma CloseCustomText(level: nat, b: Build)
    ensures TextOf(CloseCustom(level, b).events) == TextOf(b.events) + CloseText(level, b)
  {
    hide TextOf, ClosingTags;
    EmitText(b, "", AllCloseEvents(b.customTags));
    assert TextOf(b.events) + "" == TextOf(b.events);
  }

  // ---- Tags without whitespace after them add nothing ----

  lemma TagText(text: string)
    requires ReadTag(Inner(text)).Some?
    ensures TextOf(TagEvents(text)) == Trail(text)
  {
    var e := ReadTag(Inner(text)).value;
    TextConcat([e], Chars(Trail(text)));
    TextOfOne(e);
    TextOfChars(Trail(text));
    hide TextOf;
    assert "" + Trail(text) == Trail(text);
  }

  lemma {:induction false} ReopenNoText(tags: seq<StoredTag>)
    requires Stored(tags) && TrimmedTags(tags)
    ensures TextOf(AllTagEvents(tags)) == ""
  {
    if tags != [] {
      ReopenNoText(tags[..|tags| - 1]);
      TextConcat(AllTagEvents(tags[..|tags| - 1]), TagEvents(tags[|tags| - 1]));
      TagText(tags[|tags| - 1]);
    }
  }

  lemma {:induction false} CloseNoText(tags: seq<StoredTag>)
    requires TrimmedTags(tags)
    ensures TextOf(AllCloseEvents(tags)) == ""
  {
    if tags != [] {
      var last := tags[|tags| - 1];
      CloseNoText(tags[..|tags| - 1]);
      assert CloseEvents(last) == [Close(ElementName(last))];
      TextConcat(CloseEvents(last), AllCloseEvents(tags[..|tags| - 1]));
      OpenedText(ElementName(last));
    }
  }

  lemma CloseThroughNoText(b: Build, k: nat, text: string)
    requires k < |b.customTags| && TrimmedTags(b.customTags)
    requires TextOf(TagEvents(text)) == ""
    ensures TextOf(CloseThrough(b, k, text).events) == TextOf(b.events) && TrimmedTags(CloseThrough(b, k, text).customTags)
  {
    var inner := b.customTags[k + 1..];
    CloseNoText(inner);
    EmitText(b, ClosingTags(inner), AllCloseEvents(inner));
    EmitText(Emit(b, ClosingTags(inner), AllCloseEvents(inner)), text, TagEvents(text));
    hide TextOf, TagEvents, ClosingTags, AllCloseEvents;
    assert (TextOf(b.events) + "") + "" == TextOf(b.events);
  }

  lemma OpenStoredNoText(b: Build, text: StoredTag)
    requires TrimmedTags(b.customTags) && Trail(text) == "" && TextOf(TagEvents(text)) == ""
    ensures TextOf(OpenStored(b, text).events) == TextOf(b.events) && TrimmedTags(OpenStored(b, text).customTags)
  {
    EmitText(b, text, TagEvents(text));
    hide TextOf, TagEvents, Trail;
    assert TextOf(b.events) + "" == TextOf(b.events);
  }

  lemma EmitNoText(b: Build, text: string)
    requires TextOf(TagEvents(text)) == ""
    ensures TextOf(Emit(b, text, TagEvents(text)).events) == TextOf(b.events)
  {
    EmitText(b, text, TagEvents(text));
    hide TextOf, TagEvents;
    assert TextOf(b.events) + "" == TextOf(b.events);
  }

  lemma EmitTagNoText(f: Fragment, b: Build)
    requires OneTag(f.text) && Trail(f.text) == "" && TrimmedTags(b.customTags)
    ensures TextOf(EmitTag(f, b).events) == TextOf(b.events) && TrimmedTags(EmitTag(f, b).customTags)
  {
    TagText(f.text);
    hide TextOf, TagEvents, TrimTag, IsXMLClosingTag, IsXMLSelfClosingTag, OneTag, Trail, CloseThrough, OpenStored, TrimmedTags;
    var tag := TrimTag(f.text);
    if IsXMLSelfClosingTag(tag) {
      EmitNoText(b, f.text);
    } else if IsXMLClosingTag(tag) {
      var m := MatchingTag(b.customTags, GetXMLClosingTagName(tag));
      if m.Some? {
        CloseThroughNoText(b, m.value, f.text);
      }
    } else if |f.text| >= 3 {
      OpenStoredNoText(b, f.text);
    }
  }

  lemma EmitOtherNoText(v: Voice, f: Fragment, b: Build)
    requires !Speakable(f) && (v.isEdge || f.action != ParseUnknownTag)
    ensures TextOf(EmitFragment(v, f, b).events) == TextOf(b.events)
    ensures EmitFragment(v, f, b).customTags == b.customTags
  {
    EmptyNoText(b, "bookmark");
    EmptyNoText(b, "break");
    EmitBookmarkFlags(v, f, b);
    hide TextOf, EmitBookmark, EmitSpoken, EmitTag, EmptyTag, Attribute, Decimal;
    assert b.events + [] == b.events;
  }

  lemma EmptyNoText(b: Build, name: string)
    ensures TextOf(b.events + [Empty(name)]) == TextOf(b.events)
  {
    OpenedText(name);
    TextConcat(b.events, [Empty(name)]);
    hide TextOf;
    assert TextOf(b.events) + "" == TextOf(b.events);
  }

  // ---- Spacing ----

  lemma {:induction false} NoTextNoChars(evs: seq<Event>)
    requires TextOf(evs) == ""
    ensures forall i :: 0 <= i < |evs| ==> !evs[i].Char?
  {
    if evs != [] {
      NoTextNoChars(evs[..|evs| - 1]);
    }
  }

  /** A space is only added after some text. */
  lemma GapAfterText(v: Voice, f: Fragment, b: Build)
    requires Reads(b)
    ensures Gap(v, f, b.ssml) == "" || TextOf(b.events) != ""
  {
    if TextOf(b.events) == "" {
      NoTextNoChars(b.events);
      var evs := [Open("speak")] + b.events;
      assert Read(b.ssml) == Reader(Text, evs);
      assert !evs[|evs| - 1].Char?;
      EndsInTag(b.ssml);
    }
  }

  lemma SpacedNext(texts: seq<string>, out: string, gap: string, text: string)
    requires Spaced(texts, out) && (gap == "" || (gap == " " && out != ""))
    ensures Spaced(texts + [text], out + (gap + text))
  {
    var all, next := texts + [text], out + (gap + text);
    assert all[..|all| - 1] == texts;
    assert next[..|out|] == out && next[|out|..] == gap + text;
    assert "" + text == text;
  }

  /** After any number of fragments the text written is the spoken texts, spaced. */
  lemma {:induction false} RunText(v: Voice, frags: seq<Fragment>, n: nat)
    requires n <= |frags| && Sound(v, frags) && (v.isEdge || Trimmed(frags))
    ensures Spaced(SpokenTexts(frags[..n]), TextOf(Run(v, frags, n).events))
    ensures TrimmedTags(Run(v, frags, n).customTags)
  {
    hide Run, Spaced, SpokenTexts, TextOf, TrimmedTags, Sound, Trimmed;
    if n == 0 {
      TextStart(v, frags);
    } else {
      RunText(v, frags, n - 1);
      StepText(v, frags, n - 1);
    }
  }

  lemma TextStart(v: Voice, frags: seq<Fragment>)
    ensures Spaced(SpokenTexts(frags[..0]), TextOf(Run(v, frags, 0).events))
    ensures TrimmedTags(Run(v, frags, 0).customTags)
  {
    OpenedText("voice");
    assert Begin(v).events == [] || Begin(v).events == [Open("voice")];
    assert TextOf([]) == "";
  }

  lemma SpokenNext(frags: seq<Fragment>, i: nat)
    requires i < |frags|
    ensures SpokenTexts(frags[..i + 1]) == SpokenTexts(frags[..i]) + if Speakable(frags[i]) then [UpToNul(frags[i].text)] else []
  {
    assert frags[..i + 1][..i] == frags[..i];
  }

  lemma StepText(v: Voice, frags: seq<Fragment>, i: nat)
    requires i < |frags| && Sound(v, frags) && (v.isEdge || Trimmed(frags))
    requires Spaced(SpokenTexts(frags[..i]), TextOf(Run(v, frags, i).events)) && TrimmedTags(Run(v, frags, i).customTags)
    ensures Spaced(SpokenTexts(frags[..i + 1]), TextOf(Run(v, frags, i + 1).events))
    ensures TrimmedTags(Run(v, frags, i + 1).customTags)
  {
    RunReads(v, frags, i);
    SpokenNext(frags, i);
    assert frags[i] in frags;
    assert SoundFragment(v, frags[i]);
    StepTextFrom(v, frags, i, Run(v, frags, i), SpokenTexts(frags[..i]));
    RunNext(v, frags, i);
    hide *;
  }

  lemma StepTextFrom(v: Voice, frags: seq<Fragment>, i: nat, b: Build, spoken: seq<string>)
    requires i < |frags| && SoundFragment(v, frags[i]) && Reads(b) && Stored(b.customTags)
    requires v.isEdge || frags[i].action != ParseUnknownTag || Trail(frags[i].text) == ""
    requires Spaced(spoken, TextOf(b.events)) && TrimmedTags(b.customTags)
    ensures var r := Step(v, frags, i, b);
      && Spaced(spoken + if Speakable(frags[i]) then [UpToNul(frags[i].text)] else [], TextOf(r.events))
      && TrimmedTags(r.customTags)
  {
    var f := frags[i];
    hide OpenTags, EmitFragment, CloseTags, TextOf, AllTagEvents, AllCloseEvents, Spaced, UpToNul, LevelAfter,
      Reads, SoundFragment, TrimmedTags, Stored, Trail, Speakable;
    var ready := OpenTags(v, f, b);
    OpenTagsReads(v, f, b);
    OpenTagsText(v, f, b);
    ReopenNoText(b.customTags);
    assert TextOf(b.events) + "" == TextOf(b.events);
    assert TextOf(ready.events) == TextOf(b.events);
    var written := EmitFragment(v, f, ready);
    EmitStepText(v, f, ready, spoken);
    var level := LevelAfter(v, frags, i, written.prosodyCount);
    CloseTagsText(level, written);
    CloseTagsKeepTags(level, written);
    CloseNoText(written.customTags);
    assert TextOf(written.events) + "" == TextOf(written.events);
  }

  lemma CloseTagsKeepTags(level: nat, b: Build)
    ensures CloseTags(level, b).customTags == b.customTags
  {
    CloseTagsFlags(level, b);
  }

  lemma EmitStepText(v: Voice, f: Fragment, b: Build, spoken: seq<string>)
    requires Reads(b) && SoundFragment(v, f) && TrimmedTags(b.customTags)
    requires v.isEdge || f.action != ParseUnknownTag || Trail(f.text) == ""
    requires Spaced(spoken, TextOf(b.events))
    ensures var all := spoken + if Speakable(f) then [UpToNul(f.text)] else [];
      Spaced(all, TextOf(EmitFragment(v, f, b).events))
    ensures TrimmedTags(EmitFragment(v, f, b).customTags)
  {
    if Speakable(f) {
      EmitSpokenText(v, f, b);
      EmitSpokenFlags(v, f, b);
      GapAfterText(v, f, b);
      SpacedNext(spoken, TextOf(b.events), Gap(v, f, b.ssml), UpToNul(f.text));
    } else if v.isEdge || f.action != ParseUnknownTag {
      EmitOtherNoText(v, f, b);
      assert spoken + [] == spoken;
    } else {
      EmitTagNoText(f, b);
      assert spoken + [] == spoken;
    }
    hide Spaced, TextOf, Reads, SoundFragment, EmitSpoken, EmitBookmark, EmitTag, UpToNul, Gap, Trail, EmptyTag;
  }

  lemma RootText(evs: seq<Event>, name: string)
    ensures TextOf([Open(name)] + evs + [Close(name)]) == TextOf(evs)
  {
    OpenedText(name);
    TextConcat([Open(name)] + evs, [Close(name)]);
    TextConcat([Open(name)], evs);
    hide TextOf;
    assert ("" + TextOf(evs)) + "" == TextOf(evs);
  }

  lemma CloseVoiceText(v: Voice, b: Build)
    ensures TextOf(CloseVoice(v, b).events) == TextOf(b.events)
  {
    OpenedText("voice");
    hide TextOf, EndTag;
    EmitText(b, "", [Close("voice")]);
    assert TextOf(b.events) + "" == TextOf(b.events);
  }

  /**
   Meaning preserved: what an XML reader finds in the document besides markup is the texts of the
   spoken fragments in order, entities decoded, with at most one space added between neighbours.
   */
  lemma TranslationText(v: Voice, frags: seq<Fragment>)
    requires Sound(v, frags) && (v.isEdge || Trimmed(frags))
    ensures Spaced(SpokenTexts(frags), TextOf(Read(Translate(v, frags).ssml).events))
  {
    TranslationReads(v, frags);
    RunText(v, frags, |frags|);
    assert frags[..|frags|] == frags;
    hide Run, Spaced, TextOf, Sound, SpokenTexts, Trimmed, CloseVoice, EndTag, Feed;
    CloseVoiceText(v, Run(v, frags, |frags|));
    RootText(Translate(v, frags).events, "speak");
  }
}
