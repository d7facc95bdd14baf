/** The raw SSML string, read by an XML reader, says exactly what `Build.events` records. */
module SsmlReading {
  import opened WideText
  import opened XmlReader
  import opened SsmlBuilder

  // ---- What the translator relies on ----

  /** One XML tag, with nothing but whitespace after it. */
  predicate OneTag(text: string) {
    && |text| >= 3 && text[0] == '<'
    && Find(text, '>', 0) < |text|
    && NoAngles(Inner(text))
    && ReadTag(Inner(text)).Some?
    && AllSpaces(Trail(text))
  }

  predicate OpeningTag(text: string) {
    OneTag(text) && ReadTag(Inner(text)).value.Open?
  }

  /** Attribute values copied unescaped hold no angle bracket; unknown tags are tags. */
  predicate Sound(v: Voice, frags: seq<Fragment>) {
    && NoAngles(v.locale) && NoAngles(v.name)
    && (!v.isEdge ==> forall f :: f in frags ==>
          && (f.category.Some? ==> NoAngles(f.category.value))
          && (f.action == ParseUnknownTag ==> OneTag(f.text)))
  }

  predicate Stored(tags: seq<StoredTag>) {
    forall k :: 0 <= k < |tags| ==> OpeningTag(tags[k])
  }

  // ---- Pieces and what they say ----

  /** The piece adds these events and leaves the reader outside markup. */
  predicate Says(piece: string, evs: seq<Event>) {
    Read(piece) == Reader(Text, evs)
  }

  lemma SaysNothing()
    ensures Says("", [])
  {
  }

  lemma SaysConcat(p: string, pe: seq<Event>, q: string, qe: seq<Event>)
    requires Says(p, pe) && Says(q, qe)
    ensures Says(p + q, pe + qe)
  {
    FeedConcat(START, p, q);
    FeedAfter(pe, q);
  }

  lemma SaysTag(body: string, e: Event)
    requires NoAngles(body) && ReadTag(body) == Some(e)
    ensures Says("<" + body + ">", [e])
  {
    FeedTag(START, body);
  }

  lemma SaysEscaped(s: string)
    ensures Says(Escape(s), Chars(s))
  {
    FeedEscaped(START, s);
    assert [] + Chars(s) == Chars(s);
  }

  lemma SaysPlain(s: string)
    requires forall i :: 0 <= i < |s| ==> s[i] != '<' && s[i] != '&'
    ensures Says(s, Chars(s))
  {
    FeedPlain(START, s);
    assert [] + Chars(s) == Chars(s);
  }

  // ---- Tag bodies ----

  lemma TrimmedEndIs(s: string)
    requires s != "" && !IsSpace(s[|s| - 1])
    ensures TrimmedEnd(s) == |s|
  {
  }

  lemma FindSpaceIs(s: string, from: nat, at: nat)
    requires from <= at <= |s|
    requires forall k :: from <= k < at ==> !IsSpace(s[k])
    requires at < |s| ==> IsSpace(s[at])
    ensures FindSpace(s, from) == at
  {
  }

  lemma NameInIs(name: string, rest: string)
    requires IsName(name) && (rest != "" ==> IsSpace(rest[0]))
    ensures NameIn(name + rest) == name
  {
    FindSpaceIs(name + rest, 0, |name|);
  }

  lemma ReadOpen(name: string, rest: string)
    requires IsName(name)
    requires rest != "" ==> IsSpace(rest[0]) && rest[|rest| - 1] == '\''
    ensures ReadTag(name + rest) == Some(Open(name))
  {
    NameInIs(name, rest);
    var body := name + rest;
    assert body[|body| - 1] == if rest == "" then name[|name| - 1] else rest[|rest| - 1];
    TrimmedEndIs(body);
  }

  lemma ReadEmpty(name: string, rest: string)
    requires IsName(name) && (rest != "" ==> IsSpace(rest[0]))
    ensures ReadTag(name + rest + "/") == Some(Empty(name))
  {
    NameInIs(name, rest);
    var body := name + rest + "/";
    TrimmedEndIs(body);
    assert body[..|body| - 1] == name + rest;
  }

  lemma ReadClose(name: string)
    requires IsName(name)
    ensures ReadTag("/" + name) == Some(Close(name))
  {
    assert ("/" + name)[1..] == name == name + "";
    NameInIs(name, "");
  }

  /** Nothing, or something that starts with whitespace, ends in a quote and holds no angle bracket. */
  predicate IsAttributes(a: string) {
    a != "" ==> IsSpace(a[0]) && a[|a| - 1] == '\'' && NoAngles(a)
  }

  lemma AttributeIs(name: string, value: string)
    requires NoAngles(name) && NoAngles(value)
    ensures IsAttributes(Attribute(name, value)) && Attribute(name, value) != ""
  {
    var a := Attribute(name, value);
    assert a[0] == ' ' && a[|a| - 1] == '\'';
  }

  lemma AttributesJoin(a: string, b: string)
    requires IsAttributes(a) && IsAttributes(b)
    ensures IsAttributes(a + b)
  {
    if a == "" {
      assert a + b == b;
    } else if b == "" {
      assert a + b == a;
    }
  }

  lemma SaysStart(name: string, attributes: string)
    requires IsName(name) && IsAttributes(attributes)
    ensures Says(StartTag(name, attributes), [Open(name)])
  {
    ReadOpen(name, attributes);
    SaysTag(name + attributes, Open(name));
  }

  lemma SaysEnd(name: string)
    requires IsName(name)
    ensures Says(EndTag(name), [Close(name)])
  {
    ReadClose(name);
    SaysTag("/" + name, Close(name));
    assert "<" + ("/" + name) + ">" == "</" + name + ">";
  }

  lemma SaysEmpty(name: string, attributes: string)
    requires IsName(name) && IsAttributes(attributes)
    ensures Says(EmptyTag(name, attributes), [Empty(name)])
  {
    ReadEmpty(name, attributes);
    SaysTag(name + attributes + "/", Empty(name));
  }

  /** The element names the translator itself writes. */
  lemma EngineNames()
    ensures IsName("speak") && IsName("voice") && IsName("prosody") && IsName("emphasis")
  {
  }

  lemma EngineInnerNames()
    ensures IsName("say-as") && IsName("phoneme") && IsName("break") && IsName("bookmark")
  {
  }

  // ---- Tags from the source ----

  lemma TagSplit(text: string)
    requires OneTag(text)
    ensures text == "<" + Inner(text) + ">" + Trail(text)
  {
    var gt := Find(text, '>', 0);
    assert text[1..gt] + ">" + text[gt + 1..] == text[1..];
  }

  lemma TagTrimmed(text: string)
    requires OneTag(text)
    ensures TrimTag(text) == "<" + Inner(text) + ">"
  {
    var gt := Find(text, '>', 0);
    assert Find(text, '<', 0) == 0;
    AfterLastGtIs(text, gt + 1);
    assert text[0..gt + 1] == "<" + Inner(text) + ">";
  }

  lemma SaysWholeTag(text: string)
    requires OneTag(text)
    ensures Says(text, TagEvents(text))
  {
    TagSplit(text);
    var body, trail := Inner(text), Trail(text);
    SaysTag(body, ReadTag(body).value);
    SaysPlain(trail);
    SaysConcat("<" + body + ">", [ReadTag(body).value], trail, Chars(trail));
  }

  lemma {:induction false} AfterLastGtIs(s: string, end: nat)
    requires 0 < end <= |s| && s[end - 1] == '>'
    requires forall k :: end <= k < |s| ==> s[k] != '>'
    ensures AfterLastGt(s) == end
  {
    if end < |s| {
      AfterLastGtIs(s[..|s| - 1], end);
    }
  }

  lemma OpeningName(text: string)
    requires OpeningTag(text)
    ensures IsName(ElementName(text)) && ReadTag(Inner(text)) == Some(Open(ElementName(text)))
  {
  }

  /** The name the translator gives a stored tag: the element's name, with the `>` left on when sloppy. */
  lemma StoredName(text: string)
    requires OpeningTag(text)
    ensures GetXMLTagName(text) == ElementName(text) + if Sloppy(text) then ">" else ""
    ensures Sloppy(text) ==> '>' in GetXMLTagName(text)
  {
    OpeningName(text);
    TagSplit(text);
    StoredNameOf(text, Inner(text), Trail(text), ElementName(text));
    assert Sloppy(text) ==> GetXMLTagName(text)[|ElementName(text)|] == '>';
  }

  lemma StoredNameOf(text: string, inner: string, trail: string, name: string)
    requires text == "<" + inner + ">" + trail && AllSpaces(trail)
    requires IsName(name) && |name| <= |inner| && inner[..|name|] == name
    requires |name| < |inner| ==> IsSpace(inner[|name|])
    ensures GetXMLTagName(text) == name + if trail != "" && name == inner then ">" else ""
  {
    var range := text[..|text| - 1];
    var n := |name|;
    assert range[1] == name[0];
    assert forall k :: 0 <= k < n ==> range[1 + k] == name[k];
    assert SkipSpaces(range, 1) == 1;
    if trail != "" && name == inner {
      assert range[1 + n] == '>';
      assert |trail| > 1 ==> range[n + 2] == trail[0];
      FindSpaceIs(range, 1, n + 2);
      assert range[1..n + 2] == name + ">";
    } else {
      assert n < |inner| ==> range[1 + n] == inner[n];
      FindSpaceIs(range, 1, n + 1);
      assert range[1..n + 1] == name + "";
    }
  }

  lemma SaysStoredClose(text: string)
    requires OpeningTag(text)
    ensures Says(EndTag(GetXMLTagName(text)), CloseEvents(text))
  {
    StoredName(text);
    OpeningName(text);
    SaysLooseEnd(ElementName(text), Sloppy(text));
  }

  /** An end tag whose name has an extra `>` reads as the end tag and a character. */
  lemma SaysLooseEnd(name: string, loose: bool)
    requires IsName(name)
    ensures Says(EndTag(name + if loose then ">" else ""), [Close(name)] + if loose then [Char('>')] else [])
  {
    SaysEnd(name);
    if loose {
      SaysPlain(">");
      SaysConcat(EndTag(name), [Close(name)], ">", Chars(">"));
      assert ("</" + name + ">") + ">" == "</" + (name + ">") + ">";
      assert Chars(">") == [Char('>')];
    } else {
      assert [Close(name)] + [] == [Close(name)];
      assert name + "" == name;
    }
  }

  lemma {:induction false} SaysStoredCloses(tags: seq<StoredTag>)
    requires Stored(tags)
    ensures Says(ClosingTags(tags), AllCloseEvents(tags))
  {
    if tags == [] {
      SaysNothing();
    } else {
      var last, rest := tags[|tags| - 1], tags[..|tags| - 1];
      SaysStoredCloses(rest);
      SaysStoredClose(last);
      SaysConcat(EndTag(GetXMLTagName(last)), CloseEvents(last), ClosingTags(rest), AllCloseEvents(rest));
    }
  }

  lemma {:induction false} SaysStoredOpens(tags: seq<StoredTag>)
    requires Stored(tags)
    ensures Says(Concat(tags), AllTagEvents(tags))
  {
    if tags == [] {
      SaysNothing();
    } else {
      var last, rest := tags[|tags| - 1], tags[..|tags| - 1];
      SaysStoredOpens(rest);
      SaysWholeTag(last);
      SaysConcat(Concat(rest), AllTagEvents(rest), last, TagEvents(last));
    }
  }

  // ---- The translator's tag tests agree with the reader ----

  lemma SelfClosingAgrees(inner: string)
    requires NoAngles(inner) && ReadTag(inner).Some?
    ensures IsXMLSelfClosingTag("<" + inner + ">") <==> ReadTag(inner).value.Empty?
  {
    var tag := "<" + inner + ">";
    assert tag[1..|tag| - 1] == inner;
    if ReadTag(inner).value.Close? {
      CloseTagEnd(inner);
    }
  }

  /** An end tag does not end in a slash. */
  lemma CloseTagEnd(inner: string)
    requires ReadTag(inner).Some? && ReadTag(inner).value.Close?
    ensures TrimmedEnd(inner) > 0 && inner[TrimmedEnd(inner) - 1] != '/'
  {
    var name := NameIn(inner[1..]);
    assert forall k :: 0 <= k < |name| ==> inner[1 + k] == name[k];
    assert forall k :: 1 + |name| <= k < |inner| ==> IsSpace(inner[k]) by {
      var rest := inner[1 + |name|..];
      assert forall k :: 1 + |name| <= k < |inner| ==> inner[k] == rest[k - 1 - |name|];
    }
    assert !IsSpace(inner[|name|]) && inner[|name|] == name[|name| - 1];
  }

  lemma ClosingAgrees(inner: string)
    requires NoAngles(inner) && ReadTag(inner).Some?
    ensures IsXMLClosingTag("<" + inner + ">") <==> inner[0] == '/'
    ensures IsXMLClosingTag("<" + inner + ">") ==>
              ReadTag(inner) == Some(Close(GetXMLClosingTagName("<" + inner + ">")))
  {
    var tag := "<" + inner + ">";
    var range := tag[..|tag| - 1];
    assert range == "<" + inner;
    assert !IsSpace(inner[0]);
    assert SkipSpaces(range, 1) == 1;
    if inner[0] == '/' {
      var body := inner[1..];
      var name := NameIn(body);
      assert forall k :: 0 <= k < |body| ==> range[2 + k] == body[k];
      assert range[2] == name[0];
      assert Find(range, '/', 1) == 1;
      assert SkipSpaces(range, 2) == 2;
      FindSpaceIs(range, 2, 2 + |name|);
      assert range[2..2 + |name|] == name;
    }
  }

  // ---- Every step keeps the raw text and the recorded events together ----

  predicate Reads(b: Build) {
    Says(b.ssml, [Open("speak")] + b.events)
  }

  lemma EmitReads(b: Build, piece: string, evs: seq<Event>)
    requires Reads(b) && Says(piece, evs)
    ensures Reads(Emit(b, piece, evs))
  {
    SaysConcat(b.ssml, [Open("speak")] + b.events, piece, evs);
    assert ([Open("speak")] + b.events) + evs == [Open("speak")] + (b.events + evs);
  }

  lemma ProsodyAttributesSound(p: Prosody)
    ensures IsAttributes(ProsodyAttributes(p))
  {
    hide Attribute, Decimal, TruncDiv;
    var volume := if p.volume != 100 then Attribute("volume", Decimal(p.volume - 100) + "%") else "";
    var shift := if p.rate >= 0 then p.rate * 20 else TruncDiv(p.rate * 20, 3);
    var rate := if p.rate != 0 then Attribute("rate", Decimal(shift) + "%") else "";
    var pitch := if p.pitch != 0 then Attribute("pitch", Decimal(p.pitch * 5) + "%") else "";
    AttributeIs("volume", Decimal(p.volume - 100) + "%");
    AttributeIs("rate", Decimal(shift) + "%");
    AttributeIs("pitch", Decimal(p.pitch * 5) + "%");
    AttributesJoin(volume, rate);
    AttributesJoin(volume + rate, pitch);
  }

  lemma OpenProsodyReads(v: Voice, f: Fragment, b: Build)
    requires Reads(b)
    ensures Reads(OpenProsody(v, f, b)) && OpenProsody(v, f, b).customTags == b.customTags
  {
    var a := ProsodyAttributes(ProsodyOf(v, f));
    EngineNames();
    ProsodyAttributesSound(ProsodyOf(v, f));
    SaysStart("prosody", a);
    EmitReads(b, StartTag("prosody", a), [Open("prosody")]);
    hide Says, ProsodyAttributes, ProsodyOf, StartTag;
  }

  lemma OpenEmphasisReads(v: Voice, f: Fragment, b: Build)
    requires Reads(b)
    ensures Reads(OpenEmphasis(v, f, b)) && OpenEmphasis(v, f, b).customTags == b.customTags
  {
    EngineNames();
    SaysStart("emphasis", "");
    hide Says, StartTag;
    EmitReads(b, StartTag("emphasis", ""), [Open("emphasis")]);
  }

  lemma ReopenCustomReads(b: Build)
    requires Reads(b) && Stored(b.customTags)
    ensures Reads(ReopenCustom(b)) && ReopenCustom(b).customTags == b.customTags
  {
    SaysStoredOpens(b.customTags);
    hide Says;
    EmitReads(b, Concat(b.customTags), AllTagEvents(b.customTags));
  }

  lemma InterpretationSound(category: string)
    requires NoAngles(category)
    ensures NoAngles(Interpretation(category))
  {
    hide EqualsIgnoreCase;
  }

  lemma SaysSayAs(interpretation: string)
    requires NoAngles(interpretation)
    ensures Says(StartTag("say-as", Attribute("interpret-as", interpretation)), [Open("say-as")])
  {
    EngineInnerNames();
    AttributeIs("interpret-as", interpretation);
    SaysStart("say-as", Attribute("interpret-as", interpretation));
  }

  lemma OpenSayAsReads(v: Voice, f: Fragment, b: Build)
    requires Reads(b) && (!v.isEdge && f.category.Some? ==> NoAngles(f.category.value))
    ensures Reads(OpenSayAs(v, f, b)) && OpenSayAs(v, f, b).customTags == b.customTags
  {
    hide Says, Interpretation, StartTag;
    if !v.isEdge && f.category.Some? {
      var i := Interpretation(f.category.value);
      InterpretationSound(f.category.value);
      SaysSayAs(i);
      EmitReads(b, StartTag("say-as", Attribute("interpret-as", i)), [Open("say-as")]);
    }
  }

  lemma SaysPhoneme(ph: string)
    requires NoAngles(ph)
    ensures Says(StartTag("phoneme", Attribute("alphabet", "sapi") + Attribute("ph", ph)), [Open("phoneme")])
  {
    EngineInnerNames();
    AttributeIs("alphabet", "sapi");
    AttributeIs("ph", ph);
    AttributesJoin(Attribute("alphabet", "sapi"), Attribute("ph", ph));
    SaysStart("phoneme", Attribute("alphabet", "sapi") + Attribute("ph", ph));
  }

  lemma LeadSays(v: Voice, f: Fragment, before: string)
    ensures Says(Lead(v, f, before), LeadEvents(v, f, before))
  {
    hide Says, NeedAddingSpace, StartTag;
    if v.isEdge || f.action == Speak {
      SaysPlain(Lead(v, f, before));
    } else if f.action == SpellOut {
      SaysSayAs("characters");
    } else {
      SaysPhoneme(Escape(f.phonemes));
    }
  }

  lemma TailSays(v: Voice, f: Fragment)
    ensures Says(Tail(v, f), TailEvents(v, f))
  {
    hide Says, EndTag;
    EngineInnerNames();
    SaysEnd("say-as");
    SaysEnd("phoneme");
    SaysNothing();
  }

  lemma EmitSpokenReads(v: Voice, f: Fragment, b: Build)
    requires Reads(b)
    ensures Reads(EmitSpoken(v, f, b))
  {
    LeadSays(v, f, b.ssml);
    var led := Emit(b, Lead(v, f, b.ssml), LeadEvents(v, f, b.ssml));
    EmitReads(b, Lead(v, f, b.ssml), LeadEvents(v, f, b.ssml));
    var t := UpToNul(f.text);
    SaysEscaped(t);
    EmitReads(led, Escape(t), Chars(t));
    var copied := Emit(led, Escape(t), Chars(t));
    TailSays(v, f);
    EmitReads(copied, Tail(v, f), TailEvents(v, f));
  }

  lemma EmitBookmarkReads(v: Voice, f: Fragment, b: Build)
    requires Reads(b)
    ensures Reads(EmitBookmark(v, f, b)) && EmitBookmark(v, f, b).customTags == b.customTags
  {
    if !v.isEdge {
      var mark := Escape(UpToNul(f.text));
      EngineInnerNames();
      AttributeIs("mark", mark);
      SaysEmpty("bookmark", Attribute("mark", mark));
      hide Says, EmptyTag;
      EmitReads(b, EmptyTag("bookmark", Attribute("mark", mark)), [Empty("bookmark")]);
    }
  }

  lemma CloseThroughReads(b: Build, k: nat, text: string)
    requires Reads(b) && Stored(b.customTags) && k < |b.customTags| && OneTag(text)
    ensures Reads(CloseThrough(b, k, text))
  {
    var unclosed := b.customTags[k + 1..];
    SaysStoredCloses(unclosed);
    SaysWholeTag(text);
    hide Says, Stored, OneTag, ClosingTags, AllCloseEvents, TagEvents;
    EmitReads(b, ClosingTags(unclosed), AllCloseEvents(unclosed));
    EmitReads(Emit(b, ClosingTags(unclosed), AllCloseEvents(unclosed)), text, TagEvents(text));
  }

  lemma OpenStoredReads(b: Build, text: StoredTag)
    requires Reads(b) && OneTag(text)
    ensures Reads(OpenStored(b, text))
  {
    SaysWholeTag(text);
    hide Says, OneTag, TagEvents;
    EmitReads(b, text, TagEvents(text));
  }

  /** The three kinds of tag, as the translator tells them apart. */
  lemma TagKinds(text: string)
    requires OneTag(text)
    ensures IsXMLSelfClosingTag(TrimTag(text)) <==> ReadTag(Inner(text)).value.Empty?
    ensures !IsXMLSelfClosingTag(TrimTag(text)) ==>
              (IsXMLClosingTag(TrimTag(text)) <==> ReadTag(Inner(text)).value.Close?)
    ensures IsXMLClosingTag(TrimTag(text)) ==>
              ReadTag(Inner(text)) == Some(Close(GetXMLClosingTagName(TrimTag(text))))
  {
    TagTrimmed(text);
    SelfClosingAgrees(Inner(text));
    ClosingAgrees(Inner(text));
  }

  lemma EmitTagStores(f: Fragment, b: Build)
    requires Stored(b.customTags) && OneTag(f.text)
    ensures Stored(EmitTag(f, b).customTags)
  {
    TagKinds(f.text);
    hide TrimTag, IsXMLSelfClosingTag, IsXMLClosingTag, ReadTag, TagEvents, AllSpaces, NoAngles;
  }

  lemma EmitTagReads(f: Fragment, b: Build)
    requires Reads(b) && Stored(b.customTags) && OneTag(f.text)
    ensures Reads(EmitTag(f, b))
  {
    hide Reads, TrimTag, IsXMLSelfClosingTag, IsXMLClosingTag, TagEvents, OneTag, CloseThrough, OpenStored;
    SaysWholeTag(f.text);
    EmitReads(b, f.text, TagEvents(f.text));
    if |f.text| >= 3 {
      OpenStoredReads(b, f.text);
    }
    var tag := TrimTag(f.text);
    if IsXMLClosingTag(tag) {
      var m := MatchingTag(b.customTags, GetXMLClosingTagName(tag));
      if m.Some? {
        CloseThroughReads(b, m.value, f.text);
      }
    }
  }

  lemma SilenceReads(f: Fragment, b: Build)
    requires Reads(b)
    ensures Reads(Emit(b, EmptyTag("break", Attribute("time", Decimal(f.silenceMs) + "ms")), [Empty("break")]))
  {
    EngineInnerNames();
    AttributeIs("time", Decimal(f.silenceMs) + "ms");
    SaysEmpty("break", Attribute("time", Decimal(f.silenceMs) + "ms"));
    EmitReads(b, EmptyTag("break", Attribute("time", Decimal(f.silenceMs) + "ms")), [Empty("break")]);
  }

  /** The fragment's own part of `Sound`. */
  predicate SoundFragment(v: Voice, f: Fragment) {
    !v.isEdge ==>
      && (f.category.Some? ==> NoAngles(f.category.value))
      && (f.action == ParseUnknownTag ==> OneTag(f.text))
  }

  lemma SoundAt(v: Voice, frags: seq<Fragment>, i: nat)
    requires i < |frags| && Sound(v, frags)
    ensures SoundFragment(v, frags[i]) && NoAngles(v.locale) && NoAngles(v.name)
  {
    hide NoAngles, OneTag;
    assert frags[i] in frags;
  }

  lemma EmitFragmentReads(v: Voice, f: Fragment, b: Build)
    requires Reads(b) && Stored(b.customTags) && SoundFragment(v, f)
    ensures Reads(EmitFragment(v, f, b)) && Stored(EmitFragment(v, f, b).customTags)
  {
    if Speakable(f) {
      EmitSpokenReads(v, f, b);
    } else if f.action == Bookmark {
      EmitBookmarkReads(v, f, b);
    } else if !v.isEdge && f.action == Silence {
      SilenceReads(f, b);
    } else if !v.isEdge && f.action == ParseUnknownTag {
      EmitTagReads(f, b);
      EmitTagStores(f, b);
    }
  }

  lemma OpenTagsReads(v: Voice, f: Fragment, b: Build)
    requires Reads(b) && Stored(b.customTags) && SoundFragment(v, f)
    ensures Reads(OpenTags(v, f, b)) && OpenTags(v, f, b).customTags == b.customTags
  {
    hide Feed, OpenProsody, OpenEmphasis, ReopenCustom, OpenSayAs;
    var b0 := b.(hasText := b.hasText || (f.action != Bookmark && f.text != ""));
    var b1 := OpenProsody(v, f, b0);
    var b2 := OpenEmphasis(v, f, b1);
    var b3 := ReopenCustom(b2);
    OpenProsodyReads(v, f, b0);
    OpenEmphasisReads(v, f, b1);
    ReopenCustomReads(b2);
    OpenSayAsReads(v, f, b3);
  }

  lemma CloseSayAsReads(level: nat, b: Build)
    requires Reads(b)
    ensures Reads(CloseSayAs(level, b)) && CloseSayAs(level, b).customTags == b.customTags
  {
    EngineInnerNames();
    SaysEnd("say-as");
    hide Says, EndTag;
    EmitReads(b, EndTag("say-as"), [Close("say-as")]);
  }

  lemma CloseCustomReads(level: nat, b: Build)
    requires Reads(b) && Stored(b.customTags)
    ensures Reads(CloseCustom(level, b)) && CloseCustom(level, b).customTags == b.customTags
  {
    SaysStoredCloses(b.customTags);
    EmitReads(b, ClosingTags(b.customTags), AllCloseEvents(b.customTags));
  }

  lemma CloseEmphasisReads(level: nat, b: Build)
    requires Reads(b)
    ensures Reads(CloseEmphasis(level, b)) && CloseEmphasis(level, b).customTags == b.customTags
  {
    EngineNames();
    SaysEnd("emphasis");
    hide Says, EndTag;
    EmitReads(b, EndTag("emphasis"), [Close("emphasis")]);
  }

  lemma CloseProsodyReads(level: nat, b: Build)
    requires Reads(b)
    ensures Reads(CloseProsody(level, b)) && CloseProsody(level, b).customTags == b.customTags
  {
    EngineNames();
    SaysEnd("prosody");
    hide Says, EndTag;
    EmitReads(b, EndTag("prosody"), [Close("prosody")]);
  }

  lemma CloseTagsReads(level: nat, b: Build)
    requires Reads(b) && Stored(b.customTags)
    ensures Reads(CloseTags(level, b)) && CloseTags(level, b).customTags == b.customTags
  {
    hide Feed, CloseSayAs, CloseCustom, CloseEmphasis, CloseProsody;
    var b1 := CloseSayAs(level, b);
    var b2 := CloseCustom(level, b1);
    CloseSayAsReads(level, b);
    CloseCustomReads(level, b1);
    CloseEmphasisReads(level, b2);
    CloseProsodyReads(level, CloseEmphasis(level, b2));
  }

  lemma SpeakAttributesSound(v: Voice)
    requires NoAngles(v.locale)
    ensures IsAttributes(SpeakAttributes(v))
  {
    hide Attribute;
    var host := "http://www.w3.org";
    AttributeIs("version", "1.0");
    AttributeIs("xmlns", host + "/2001/10/synthesis");
    AttributeIs("xmlns:mstts", host + "/2001/mstts");
    AttributeIs("xml:lang", v.locale);
    var a, b := Attribute("version", "1.0"), Attribute("xmlns", host + "/2001/10/synthesis");
    AttributesJoin(a, b);
    AttributesJoin(a + b, Attribute("xmlns:mstts", host + "/2001/mstts"));
    AttributesJoin(a + b + Attribute("xmlns:mstts", host + "/2001/mstts"), Attribute("xml:lang", v.locale));
  }

  lemma BeginReads(v: Voice)
    requires NoAngles(v.locale) && NoAngles(v.name)
    ensures Reads(Begin(v)) && Begin(v).customTags == []
  {
    EngineNames();
    var a := SpeakAttributes(v);
    SpeakAttributesSound(v);
    SaysStart("speak", a);
    assert [Open("speak")] + [] == [Open("speak")];
    AttributeIs("name", v.name);
    SaysStart("voice", Attribute("name", v.name));
    hide Says, StartTag;
    var empty := Build(StartTag("speak", a), [], [], [], false, false, false, [], false, 0, false, 0);
    EmitReads(empty, StartTag("voice", Attribute("name", v.name)), [Open("voice")]);
  }

  /** After any number of fragments the raw text reads as the recorded events. */
  lemma {:induction false} RunReads(v: Voice, frags: seq<Fragment>, n: nat)
    requires n <= |frags| && Sound(v, frags)
    ensures Reads(Run(v, frags, n)) && Stored(Run(v, frags, n).customTags)
  {
    hide Feed, OpenTags, EmitFragment, CloseTags, Begin, LevelAfter;
    if n == 0 {
      BeginReads(v);
    } else {
      RunReads(v, frags, n - 1);
      var f, b := frags[n - 1], Run(v, frags, n - 1);
      assert f in frags;
      OpenTagsReads(v, f, b);
      EmitFragmentReads(v, f, OpenTags(v, f, b));
      var w := EmitFragment(v, f, OpenTags(v, f, b));
      CloseTagsReads(LevelAfter(v, frags, n - 1, w.prosodyCount), w);
    }
  }

  /** The finished document is the root element around the recorded events. */
  lemma TranslationReads(v: Voice, frags: seq<Fragment>)
    requires Sound(v, frags)
    ensures Says(Translate(v, frags).ssml, [Open("speak")] + Translate(v, frags).events + [Close("speak")])
  {
    RunReads(v, frags, |frags|);
    EngineNames();
    SaysEnd("voice");
    SaysEnd("speak");
    hide Says, Run, EndTag;
    var b := Run(v, frags, |frags|);
    EmitReads(b, EndTag("voice"), [Close("voice")]);
    var c := CloseVoice(v, b);
    SaysConcat(c.ssml, [Open("speak")] + c.events, EndTag("speak"), [Close("speak")]);
  }
}
