/** The empty elements of a document are the bookmarks, the silences and the empty unknown tags of the text, in order. */
module SsmlMarks {
  import opened WideText
  import opened XmlReader
  import opened SsmlBuilder
  import opened SsmlReading
  import opened SsmlNesting
  import opened SsmlTags
  import opened SsmlPlaces
  import opened SsmlAttributes
  import opened Bookmarks

  /** The bodies among `tags` of empty elements, of this name if one is given. */
  function Empties(tags: seq<string>, name: Option<string>): seq<string> {
    if tags == [] then []
    else Empties(tags[..|tags| - 1], name) + if IsEmpty(tags[|tags| - 1], name) then [tags[|tags| - 1]] else []
  }

  predicate IsEmpty(body: string, name: Option<string>) {
    match ReadTag(body)
    case Some(Empty(n)) => name.None? || name.value == n
    case _ => false
  }

  lemma {:induction false} EmptiesConcat(a: seq<string>, b: seq<string>, name: Option<string>)
    ensures Empties(a + b, name) == Empties(a, name) + Empties(b, name)
  {
    hide IsEmpty;
    if b == [] {
      assert a + b == a;
    } else {
      EmptiesConcat(a, b[..|b| - 1], name);
      assert (a + b)[..|a + b| - 1] == a + b[..|b| - 1];
    }
  }

  lemma EmptiesOne(tag: string, name: Option<string>)
    ensures Empties([tag], name) == if IsEmpty(tag, name) then [tag] else []
    ensures Empties([], name) == []
  {
    hide IsEmpty;
    assert [tag][..0] == [];
  }

  lemma {:induction false} NoEmpties(tags: seq<string>, name: Option<string>)
    requires AllOpen(tags) || AllClose(tags)
    ensures Empties(tags, name) == []
  {
    hide ReadTag;
    if tags != [] {
      assert ReadTag(tags[|tags| - 1]).Some?;
      NoEmpties(tags[..|tags| - 1], name);
    }
  }

  // ---- What a fragment should leave ----

  /** The empty element of a fragment, for a voice that is no Edge voice. */
  function OwnEmpty(f: Fragment): seq<string> {
    match f.action
    case Bookmark => [MarkBody(f.text)]
    case Silence => [BreakBody(f.silenceMs)]
    case ParseUnknownTag => [Inner(f.text)]
    case _ => []
  }

  function Expected(frags: seq<Fragment>, name: Option<string>): seq<string> {
    if frags == [] then []
    else Expected(frags[..|frags| - 1], name) + Empties(OwnEmpty(frags[|frags| - 1]), name)
  }

  lemma UnknownEmpties(f: Fragment, tags: seq<StoredTag>, name: Option<string>)
    requires OneTag(f.text) && Stored(tags)
    ensures Empties(UnknownTags(f, tags), name) == Empties([Inner(f.text)], name)
  {
    hide *;
    TagKinds(f.text);
    UnknownIs(f, tags);
    EmptiesOne(Inner(f.text), name);
    var tag := TrimTag(f.text);
    if !IsXMLSelfClosingTag(tag) && IsXMLClosingTag(tag) {
      CloseNotEmpty(Inner(f.text), name);
      var m := MatchingTag(tags, GetXMLClosingTagName(tag));
      if m.Some? {
        StoredRest(tags, m.value);
        ClosersClose(tags[m.value + 1..]);
        NoEmpties(Closers(tags[m.value + 1..]), name);
        EmptiesConcat(Closers(tags[m.value + 1..]), [Inner(f.text)], name);
      }
    }
  }

  lemma CloseNotEmpty(body: string, name: Option<string>)
    requires ReadTag(body).Some? && ReadTag(body).value.Close?
    ensures !IsEmpty(body, name)
  {
    hide ReadTag;
  }

  lemma StoredRest(tags: seq<StoredTag>, k: nat)
    requires Stored(tags) && k < |tags|
    ensures Stored(tags[k + 1..])
  {
    hide OpeningTag;
  }

  lemma SpokenEmpties(v: Voice, f: Fragment, name: Option<string>)
    requires Speakable(f)
    ensures Empties(OwnTags(v, f) + OwnEnds(v, f), name) == []
  {
    LeadMet(v, f, "");
    hide ReadTag, OwnName, OwnAttributes, Met, Empties;
    EmptiesConcat(OwnTags(v, f), OwnEnds(v, f), name);
    NoEmpties(OwnTags(v, f), name);
    NoEmpties(OwnEnds(v, f), name);
  }

  lemma PartEmpties(v: Voice, f: Fragment, tags: seq<StoredTag>, name: Option<string>)
    requires !v.isEdge && SoundFragment(v, f) && Stored(tags)
    ensures Empties(OwnPart(v, f, tags), name) == Empties(OwnEmpty(f), name)
  {
    hide Empties, OwnTags, OwnEnds, MarkBody, BreakBody, UnknownTags, OneTag, Stored, NoAngles, Inner;
    EmptiesOne("", name);
    if Speakable(f) {
      SpokenEmpties(v, f, name);
    } else if f.action == ParseUnknownTag {
      UnknownEmpties(f, tags, name);
    }
  }

  // ---- Every step ----

  lemma OpenedEmpties(v: Voice, f: Fragment, b: Build, name: Option<string>)
    requires Stored(b.customTags) && SoundFragment(v, f)
    ensures Empties(ProsodyTags(v, f, b) + EmphasisTags(v, f, b) + CustomTags(b) + SayAsTags(v, f, b), name) == []
  {
    hide *;
    SoundCategory(v, f);
    OpenedTags(v, f, b);
    var x := ProsodyTags(v, f, b) + EmphasisTags(v, f, b) + CustomTags(b);
    NoEmpties(ProsodyTags(v, f, b), name);
    NoEmpties(EmphasisTags(v, f, b), name);
    NoEmpties(CustomTags(b), name);
    NoEmpties(SayAsTags(v, f, b), name);
    EmptiesConcat(ProsodyTags(v, f, b), EmphasisTags(v, f, b), name);
    EmptiesConcat(ProsodyTags(v, f, b) + EmphasisTags(v, f, b), CustomTags(b), name);
    EmptiesConcat(x, SayAsTags(v, f, b), name);
  }

  lemma OpenedTags(v: Voice, f: Fragment, b: Build)
    requires Stored(b.customTags) && (!v.isEdge && f.category.Some? ==> NoAngles(f.category.value))
    ensures AllOpen(ProsodyTags(v, f, b)) && AllOpen(EmphasisTags(v, f, b)) && AllOpen(CustomTags(b)) && AllOpen(SayAsTags(v, f, b))
  {
    hide *;
    InnersOpen(b.customTags);
    var none := b.(ssml := "");
    NothingInside(none);
    OpenProsodyAdds(v, f, none);
    OpenEmphasisAdds(v, f, none);
    OpenSayAsAdds(v, f, none);
    EachOpen(v, f, b);
  }

  lemma EachOpen(v: Voice, f: Fragment, b: Build)
    requires ReadTag(ProsodyBody(v, f)) == Some(Open("prosody")) && ReadTag("emphasis") == Some(Open("emphasis"))
    requires !v.isEdge && f.category.Some? ==> ReadTag(SayAsBody(f.category)) == Some(Open("say-as"))
    requires AllOpen(Inners(b.customTags))
    ensures AllOpen(ProsodyTags(v, f, b)) && AllOpen(EmphasisTags(v, f, b)) && AllOpen(CustomTags(b)) && AllOpen(SayAsTags(v, f, b))
  {
    hide ReadTag, ProsodyBody, SayAsBody, Inners, OpensProsody;
  }

  lemma ClosedEmpties(level: nat, b: Build, name: Option<string>)
    requires Stored(b.customTags)
    ensures Empties(ClosedTags(level, b), name) == []
  {
    EndNames();
    ClosersClose(b.customTags);
    ClosedAll(level, b);
    hide Empties, ClosedTags, Closers, AllClose, Stored;
    NoEmpties(ClosedTags(level, b), name);
  }

  lemma EndNames()
    ensures AllClose(["/say-as"]) && AllClose(["/emphasis"]) && AllClose(["/prosody"])
  {
    EngineNames();
    EngineInnerNames();
    EndOf("say-as");
    EndOf("emphasis");
    EndOf("prosody");
    assert "/" + "say-as" == "/say-as" && "/" + "emphasis" == "/emphasis" && "/" + "prosody" == "/prosody";
    hide AllClose, IsName;
  }

  lemma ClosedAll(level: nat, b: Build)
    requires AllClose(["/say-as"]) && AllClose(["/emphasis"]) && AllClose(["/prosody"]) && AllClose(Closers(b.customTags))
    ensures AllClose(ClosedTags(level, b))
  {
    hide ReadTag, Closers;
    assert ReadTag(["/say-as"][0]).Some? && ReadTag(["/emphasis"][0]).Some? && ReadTag(["/prosody"][0]).Some?;
  }

  lemma AddsEmpties(b: Build, r: Build, tags: seq<string>, name: Option<string>)
    requires Adds(b, r, tags)
    ensures Empties(Tags(r.ssml), name) == Empties(Tags(b.ssml), name) + Empties(tags, name)
  {
    hide Tags, Feed, Empties;
    EmptiesConcat(Tags(b.ssml), tags, name);
  }

  lemma StepEmpties(v: Voice, frags: seq<Fragment>, i: nat, name: Option<string>)
    requires i < |frags| && Sound(v, frags) && !v.isEdge
    ensures Empties(Tags(Run(v, frags, i + 1).ssml), name)
         == Empties(Tags(Run(v, frags, i).ssml), name) + Empties(OwnEmpty(frags[i]), name)
  {
    hide *;
    var f, b := frags[i], Run(v, frags, i);
    var ready, w := OpenTags(v, f, b), Written(v, frags, i);
    SoundAt(v, frags, i);
    RunReads(v, frags, i);
    ReadsText(b);
    RunNext(v, frags, i);
    var level := LevelAfter(v, frags, i, w.prosodyCount);
    OpenTagsAdds(v, f, b);
    OpenTagsReads(v, f, b);
    ReadsText(ready);
    EmitFragmentReads(v, f, ready);
    ReadsText(w);
    FragmentAdds(v, f, ready);
    CloseTagsAdd(level, w);
    OpenedEmpties(v, f, b, name);
    PartEmpties(v, f, ready.customTags, name);
    ClosedEmpties(level, w, name);
    AddsEmpties(b, ready, ProsodyTags(v, f, b) + EmphasisTags(v, f, b) + CustomTags(b) + SayAsTags(v, f, b), name);
    AddsEmpties(ready, w, OwnPart(v, f, ready.customTags), name);
    AddsEmpties(w, Run(v, frags, i + 1), ClosedTags(level, w), name);
  }

  lemma ReadsText(b: Build)
    requires Reads(b)
    ensures Read(b.ssml).mode == Text
  {
    hide Feed;
  }

  lemma {:induction false} RunEmpties(v: Voice, frags: seq<Fragment>, n: nat, name: Option<string>)
    requires n <= |frags| && Sound(v, frags) && !v.isEdge
    ensures Empties(Tags(Run(v, frags, n).ssml), name) == Expected(frags[..n], name)
  {
    hide Run, Tags, Empties, OwnEmpty, Sound;
    if n == 0 {
      RunStart(v, frags);
      BeginEmpties(v, frags, name);
    } else {
      RunEmpties(v, frags, n - 1, name);
      StepEmpties(v, frags, n - 1, name);
      assert frags[..n][..n - 1] == frags[..n - 1];
    }
  }

  lemma BeginEmpties(v: Voice, frags: seq<Fragment>, name: Option<string>)
    requires Sound(v, frags)
    ensures Empties(Tags(Begin(v).ssml), name) == []
  {
    BeginReads(v);
    ReadsText(Begin(v));
    hide Empties, Feed, Tags, SpeakAttributes, Attribute;
    BeginTags(v);
    NoEmpties(Tags(Begin(v).ssml), name);
  }

  lemma BeginTags(v: Voice)
    requires NoAngles(v.locale) && NoAngles(v.name)
    ensures AllOpen(Tags(Begin(v).ssml))
  {
    hide *;
    EngineNames();
    SpeakAttributesSound(v);
    AttributeIs("name", v.name);
    BeginIs(v);
    var root, voice := "speak" + SpeakAttributes(v), "voice" + Attribute("name", v.name);
    MetStart("speak", SpeakAttributes(v));
    MetStart("voice", Attribute("name", v.name));
    MetConcat(StartTag("speak", SpeakAttributes(v)), [root], StartTag("voice", Attribute("name", v.name)), [voice]);
    assert StartTag("speak", SpeakAttributes(v)) + "" == StartTag("speak", SpeakAttributes(v));
    MetIs(Begin(v).ssml, if v.name != "" then [root] + [voice] else [root]);
    OpenTwo(root, voice);
  }

  lemma MetIs(s: string, tags: seq<string>)
    requires Met(s, tags)
    ensures Tags(s) == tags
  {
    hide Tags, Feed;
  }

  lemma OpenTwo(a: string, b: string)
    requires ReadTag(a) == Some(Open("speak")) && ReadTag(b) == Some(Open("voice"))
    ensures AllOpen([a]) && AllOpen([a] + [b])
  {
    hide ReadTag;
  }

  // ---- Whole translations ----

  lemma DocumentEmpties(v: Voice, frags: seq<Fragment>, name: Option<string>)
    requires Sound(v, frags) && !v.isEdge
    ensures Empties(Tags(Translate(v, frags).ssml), name) == Expected(frags, name)
  {
    hide *;
    var b := Run(v, frags, |frags|);
    RunEmpties(v, frags, |frags|, name);
    assert frags[..|frags|] == frags;
    RunReads(v, frags, |frags|);
    ReadsText(b);
    EngineNames();
    EndAdds(b, "voice");
    EndOf("voice");
    EndOf("speak");
    var voiced := Emit(b, EndTag("voice"), [Close("voice")]);
    var c := CloseVoice(v, b);
    AddsRead(b, voiced, ["/" + "voice"]);
    EndAdds(voiced, "speak");
    EndAdds(b, "speak");
    AddsEmpties(b, voiced, ["/" + "voice"], name);
    AddsEmpties(c, Emit(c, EndTag("speak"), [Close("speak")]), ["/" + "speak"], name) by { CloseVoiceIs(v, b); }
    NoEmpties(["/" + "voice"], name);
    NoEmpties(["/" + "speak"], name);
    CloseVoiceIs(v, b);
    TranslateIs(v, frags);
  }

  lemma CloseVoiceIs(v: Voice, b: Build)
    ensures CloseVoice(v, b) == if v.name != "" then Emit(b, EndTag("voice"), [Close("voice")]) else b
  {
  }

  lemma TranslateIs(v: Voice, frags: seq<Fragment>)
    ensures var c := CloseVoice(v, Run(v, frags, |frags|));
      Translate(v, frags).ssml == Emit(c, EndTag("speak"), [Close("speak")]).ssml
  {
    hide Run, EndTag;
  }

  /** The fragments that leave an empty element in the document. */
  function Markers(frags: seq<Fragment>): seq<Fragment> {
    if frags == [] then []
    else
      var f := frags[|frags| - 1];
      Markers(frags[..|frags| - 1])
      + if f.action == Bookmark || f.action == Silence || (f.action == ParseUnknownTag && IsEmpty(Inner(f.text), None)) then [f] else []
  }

  /** The element is the fragment's: a break of its length, a bookmark of its name, or its own tag as it stands. */
  predicate SaysMarker(f: Fragment, body: string) {
    match f.action
    case Silence =>
      && ReadTag(body) == Some(Empty("break"))
      && var a := AttributesOf(body);
         a.Some? && |a.value| == 1 && a.value[0].name == "time" && Measure(a.value[0].value, "ms") == Some(f.silenceMs)
    case Bookmark =>
      && ReadTag(body) == Some(Empty("bookmark"))
      && var a := AttributesOf(body);
         && a.Some? && |a.value| == 1 && a.value[0].name == "mark"
         && Read(a.value[0].value).mode == Text && TextOf(Read(a.value[0].value).events) == UpToNul(f.text)
    case _ => body == Inner(f.text)
  }

  lemma BreakReads(f: Fragment)
    requires f.action == Silence
    ensures SaysMarker(f, BreakBody(f.silenceMs))
  {
    hide *;
    var t := Decimal(f.silenceMs) + "ms";
    EngineInnerNames();
    TimeValue(f.silenceMs);
    AttributeIs("time", t);
    MeasureRead(f.silenceMs, "ms");
    MetEmpty("break", Attribute("time", t));
    AttributesAre("break", Attribute("time", t));
    PairsOne("time", t);
    BreakSays(f, t);
  }

  lemma TimeValue(ms: nat)
    ensures IsName("time") && Bare("time", '=') && NoAngles("time")
    ensures NoAngles(Decimal(ms) + "ms") && Bare(Decimal(ms) + "ms", '\'')
  {
    DecimalBare(ms);
    hide Decimal;
  }

  lemma BreakSays(f: Fragment, t: string)
    requires f.action == Silence && t == Decimal(f.silenceMs) + "ms" && Measure(t, "ms") == Some(f.silenceMs)
    requires ReadTag("break" + Attribute("time", t) + "/") == Some(Empty("break"))
    requires AttributesOf("break" + Attribute("time", t) + "/") == Some([Pair("time", t)])
    ensures SaysMarker(f, BreakBody(f.silenceMs))
  {
    hide ReadTag, Attribute, Decimal, AttributesOf, Measure;
  }

  lemma MarkReads(f: Fragment)
    requires f.action == Bookmark
    ensures SaysMarker(f, MarkBody(f.text))
  {
    hide *;
    var m := Escape(UpToNul(f.text));
    EngineInnerNames();
    AttributeIs("mark", m);
    MarkName();
    EscapeBare(UpToNul(f.text));
    MarkDecodes(f.text);
    MetEmpty("bookmark", Attribute("mark", m));
    AttributesAre("bookmark", Attribute("mark", m));
    PairsOne("mark", m);
    MarkSays(f, m);
  }

  lemma MarkName()
    ensures IsName("mark") && Bare("mark", '=') && NoAngles("mark")
  {
  }

  lemma MarkSays(f: Fragment, m: string)
    requires f.action == Bookmark && m == Escape(UpToNul(f.text))
    requires ReadTag("bookmark" + Attribute("mark", m) + "/") == Some(Empty("bookmark"))
    requires AttributesOf("bookmark" + Attribute("mark", m) + "/") == Some([Pair("mark", m)])
    requires Read(m).mode == Text && TextOf(Read(m).events) == UpToNul(f.text)
    ensures SaysMarker(f, MarkBody(f.text))
  {
    hide ReadTag, Attribute, Escape, UpToNul, AttributesOf, Feed, TextOf;
  }

  /** A bookmark's escaped name is read back as the name. */
  lemma MarkDecodes(name: string)
    ensures Read(Escape(UpToNul(name))).mode == Text
    ensures TextOf(Read(Escape(UpToNul(name))).events) == UpToNul(name)
  {
    hide Escape, UpToNul, TextOf, Chars;
    SaysEscaped(UpToNul(name));
    TextOfChars(UpToNul(name));
  }

  predicate MarkersAre(frags: seq<Fragment>, bodies: seq<string>) {
    |bodies| == |Markers(frags)| && forall i :: 0 <= i < |bodies| ==> SaysMarker(Markers(frags)[i], bodies[i])
  }

  lemma {:induction false} ExpectedMarkers(frags: seq<Fragment>)
    ensures MarkersAre(frags, Expected(frags, None))
  {
    hide SaysMarker, Empties, OwnEmpty, MarkBody, BreakBody, IsEmpty, Inner;
    if frags != [] {
      var f := frags[|frags| - 1];
      ExpectedMarkers(frags[..|frags| - 1]);
      OwnMarker(f);
    }
  }

  lemma OwnMarker(f: Fragment)
    ensures var own := Empties(OwnEmpty(f), None);
      if f.action == Bookmark || f.action == Silence || (f.action == ParseUnknownTag && IsEmpty(Inner(f.text), None)) then
        |own| == 1 && SaysMarker(f, own[0])
      else own == []
  {
    if f.action == Silence {
      BreakReads(f);
      EmptiesOne(BreakBody(f.silenceMs), None);
    } else if f.action == Bookmark {
      MarkReads(f);
      EmptiesOne(MarkBody(f.text), None);
    } else {
      EmptiesOne(Inner(f.text), None);
    }
    hide ReadTag, AttributesOf, MarkBody, BreakBody, Inner, Empties, Measure, TextOf, Feed, UpToNul;
  }

  /**
   Without Edge voices: the empty elements of the document, in order, are a break for every silence, a bookmark for every
   bookmark and every unknown tag that is an empty element, each saying what its fragment asks for.
   */
  lemma EmptyElements(v: Voice, frags: seq<Fragment>)
    requires Sound(v, frags) && !v.isEdge
    ensures MarkersAre(frags, Empties(Tags(Translate(v, frags).ssml), None))
  {
    hide *;
    DocumentEmpties(v, frags, None);
    ExpectedMarkers(frags);
  }

  // ---- Bookmarks alone ----

  /** What stands between the brackets of the bookmark elements in `s`, in order, as the reader meets them. */
  function Bodies(s: string): seq<string> {
    Empties(Tags(s), Some("bookmark"))
  }

  /** No unknown tag is a bookmark element. */
  predicate NoBookmarkTag(frags: seq<Fragment>) {
    forall f :: f in frags && f.action == ParseUnknownTag ==> ReadTag(Inner(f.text)) != Some(Empty("bookmark"))
  }

  function MarkBodies(bookmarks: seq<BookmarkInfo>): (r: seq<string>)
    ensures |r| == |bookmarks| && forall i :: 0 <= i < |r| ==> r[i] == MarkBody(bookmarks[i].name)
  {
    seq(|bookmarks|, i requires 0 <= i < |bookmarks| => MarkBody(bookmarks[i].name))
  }

  lemma {:induction false} ExpectedMarks(frags: seq<Fragment>)
    requires NoBookmarkTag(frags)
    ensures Expected(frags, Some("bookmark")) == MarkBodies(Listed(frags))
  {
    hide Empties, OwnEmpty, MarkBody, ReadTag, Inner;
    if frags != [] {
      ExpectedMarks(frags[..|frags| - 1]);
      assert frags[|frags| - 1] in frags;
      OwnMark(frags[|frags| - 1]);
    }
  }

  lemma OwnMark(f: Fragment)
    requires f.action == ParseUnknownTag ==> ReadTag(Inner(f.text)) != Some(Empty("bookmark"))
    ensures Empties(OwnEmpty(f), Some("bookmark")) == if f.action == Bookmark then [MarkBody(f.text)] else []
  {
    if f.action == Silence {
      BreakReads(f);
      EmptiesOne(BreakBody(f.silenceMs), Some("bookmark"));
    } else if f.action == Bookmark {
      MarkReads(f);
      EmptiesOne(MarkBody(f.text), Some("bookmark"));
    } else {
      EmptiesOne(Inner(f.text), Some("bookmark"));
    }
    hide ReadTag, AttributesOf, MarkBody, BreakBody, Inner, Empties, Measure, TextOf, Feed, UpToNul;
  }

  /**
   The bookmark elements of a document for a voice that knows them, in order, are those of the text's bookmarks, each
   with the name as its mark; MarkDecodes says that an XML reader finds the name there.
   */
  lemma BookmarkMarks(v: Voice, frags: seq<Fragment>)
    requires Sound(v, frags) && !v.isEdge && NoBookmarkTag(frags)
    ensures Bodies(Translate(v, frags).ssml) == MarkBodies(Listed(frags))
  {
    hide *;
    DocumentEmpties(v, frags, Some("bookmark"));
    ExpectedMarks(frags);
    BodiesAre(Translate(v, frags).ssml);
  }

  lemma BodiesAre(s: string)
    ensures Bodies(s) == Empties(Tags(s), Some("bookmark"))
  {
  }
}
