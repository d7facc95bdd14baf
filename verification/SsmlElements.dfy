/** The elements around every text say, read back from the document, what the text's fragment asks for. */
module SsmlElements {
  import opened WideText
  import opened XmlReader
  import opened SsmlBuilder
  import opened SsmlReading
  import opened SsmlNesting
  import opened SsmlOffsets
  import opened SsmlStyle
  import opened SsmlTags
  import opened SsmlPlaces
  import opened SsmlAttributes

  // ---- Prosody ----

  /** Main volume times the fragment's, in the 32 bits of the program; 10000 is full volume. */
  function Loudness(v: Voice, f: Fragment): nat {
    v.mainVolume * f.volume % 0x1_0000_0000
  }

  /** The volume is lowered, or the rate or the pitch changed. */
  predicate NeedsProsody(v: Voice, f: Fragment) {
    Loudness(v, f) < 10000 || v.mainRate + f.rateAdj != 0 || f.pitchAdj != 0
  }

  /** Left out at full volume, else the change against it in whole percent. */
  predicate SaysVolume(value: Option<string>, loudness: nat) {
    if loudness >= 10000 then value == None
    else
      && value.Some?
      && var change := Measure(value.value, "%");
         change.Some? && 100 * (100 + change.value) <= loudness < 100 * (101 + change.value)
  }

  /** Twenty percent a step faster, a third of that slower, at most ten steps, in whole percent towards zero. */
  predicate SaysRate(value: Option<string>, rate: int) {
    if rate == 0 then value == None
    else
      && value.Some?
      && var change := Measure(value.value, "%");
         change.Some?
         && (rate >= 10 ==> change.value == 200)
         && (0 < rate < 10 ==> change.value == 20 * rate)
         && (-10 < rate < 0 ==> 20 * rate <= 3 * change.value < 20 * rate + 3)
         && (rate <= -10 ==> change.value == -66)
  }

  /** Five percent a step, at most ten steps. */
  predicate SaysPitch(value: Option<string>, pitch: int) {
    if pitch == 0 then value == None
    else
      && value.Some?
      && var change := Measure(value.value, "%");
         change.Some?
         && (pitch >= 10 ==> change.value == 50)
         && (-10 < pitch < 10 ==> change.value == 5 * pitch)
         && (pitch <= -10 ==> change.value == -50)
  }

  /** The tag starts a prosody element for the fragment, with no attribute but these. */
  predicate SaysProsody(v: Voice, f: Fragment, body: string) {
    && ReadTag(body) == Some(Open("prosody"))
    && var a := AttributesOf(body);
       && a.Some?
       && SaysVolume(Named(a.value, "volume"), Loudness(v, f))
       && SaysRate(Named(a.value, "rate"), v.mainRate + f.rateAdj)
       && SaysPitch(Named(a.value, "pitch"), f.pitchAdj)
       && |a.value| == (if Loudness(v, f) < 10000 then 1 else 0) + (if v.mainRate + f.rateAdj != 0 then 1 else 0)
                     + (if f.pitchAdj != 0 then 1 else 0)
  }

  lemma PlainWhen(v: Voice, f: Fragment)
    ensures var p := ProsodyOf(v, f);
      && (p.volume != 100 <==> Loudness(v, f) < 10000) && (p.rate != 0 <==> v.mainRate + f.rateAdj != 0)
      && (p.pitch != 0 <==> f.pitchAdj != 0)
    ensures ProsodyOf(v, f) != PLAIN <==> NeedsProsody(v, f)
  {
  }

  function Optional(present: bool, name: string, value: string): seq<Pair> {
    if present then [Pair(name, value)] else []
  }

  lemma PairsOptional(present: bool, name: string, value: string, rest: string, pairs: seq<Pair>)
    requires IsName(name) && Bare(name, '=') && Bare(value, '\'') && Pairs(rest) == Some(pairs)
    ensures Pairs((if present then Attribute(name, value) else "") + rest) == Some(Optional(present, name, value) + pairs)
  {
    hide Pairs, Attribute, IsName, Bare;
    PairsMore(name, value, rest);
    assert "" + rest == rest && [] + pairs == pairs;
  }

  /** The change of rate that is written, in percent. */
  function RateChange(rate: int): int {
    if rate >= 0 then rate * 20 else TruncDiv(rate * 20, 3)
  }

  lemma PercentBare(n: int)
    ensures Bare(Decimal(n) + "%", '\'')
  {
    DecimalBare(n);
    hide Decimal;
  }

  lemma ProsodyPairs(p: Prosody)
    ensures Pairs(ProsodyAttributes(p)) == Some(
      Optional(p.volume != 100, "volume", Decimal(p.volume - 100) + "%")
      + (Optional(p.rate != 0, "rate", Decimal(RateChange(p.rate)) + "%")
         + Optional(p.pitch != 0, "pitch", Decimal(p.pitch * 5) + "%")))
  {
    hide Pairs, Attribute, Decimal, IsName, Bare, TruncDiv, Optional;
    PairsNone();
    ProsodyNames();
    var volume, rate, pitch := Decimal(p.volume - 100) + "%", Decimal(RateChange(p.rate)) + "%", Decimal(p.pitch * 5) + "%";
    PercentBare(p.volume - 100);
    PercentBare(RateChange(p.rate));
    PercentBare(p.pitch * 5);
    var third := if p.pitch != 0 then Attribute("pitch", pitch) else "";
    var second := if p.rate != 0 then Attribute("rate", rate) else "";
    var first := if p.volume != 100 then Attribute("volume", volume) else "";
    PairsOptional(p.pitch != 0, "pitch", pitch, "", []);
    assert third + "" == third && Optional(p.pitch != 0, "pitch", pitch) + [] == Optional(p.pitch != 0, "pitch", pitch);
    PairsOptional(p.rate != 0, "rate", rate, third, Optional(p.pitch != 0, "pitch", pitch));
    PairsOptional(p.volume != 100, "volume", volume, second + third,
      Optional(p.rate != 0, "rate", rate) + Optional(p.pitch != 0, "pitch", pitch));
    assert ProsodyAttributes(p) == (first + second) + third;
    Assoc(first, second, third);
  }

  lemma ProsodyNames()
    ensures IsName("volume") && Bare("volume", '=') && IsName("rate") && Bare("rate", '=') && IsName("pitch") && Bare("pitch", '=')
  {
  }

  lemma NamedFirst(p: Pair, rest: seq<Pair>, name: string)
    ensures Named([p] + rest, name) == if p.name == name then Some(p.value) else Named(rest, name)
    ensures Named([], name) == None
  {
    assert ([p] + rest)[1..] == rest;
  }

  lemma NamedOptional(present: bool, own: string, value: string, rest: seq<Pair>, name: string)
    ensures Named(Optional(present, own, value) + rest, name) == if present && own == name then Some(value) else Named(rest, name)
  {
    hide Named;
    NamedFirst(Pair(own, value), rest, name);
    assert [] + rest == rest;
  }

  lemma NamedThree(b1: bool, x: string, b2: bool, y: string, b3: bool, z: string, name: string)
    ensures Named(Optional(b1, "volume", x) + (Optional(b2, "rate", y) + Optional(b3, "pitch", z)), name)
         == if b1 && name == "volume" then Some(x) else if b2 && name == "rate" then Some(y)
            else if b3 && name == "pitch" then Some(z) else None
  {
    hide Named, Optional;
    NamedOptional(b1, "volume", x, Optional(b2, "rate", y) + Optional(b3, "pitch", z), name);
    NamedOptional(b2, "rate", y, Optional(b3, "pitch", z), name);
    NamedOptional(b3, "pitch", z, [], name);
    NamedFirst(Pair("", ""), [], name);
    assert Optional(b3, "pitch", z) + [] == Optional(b3, "pitch", z);
  }

  /** Nothing of the translator's own arithmetic is in what the tag says. */
  lemma ProsodyReads(v: Voice, f: Fragment)
    ensures SaysProsody(v, f, ProsodyBody(v, f))
  {
    hide *;
    var p := ProsodyOf(v, f);
    ProsodyBodyIs(v, f);
    EngineNames();
    ProsodyAttributesSound(p);
    MetStart("prosody", ProsodyAttributes(p));
    AttributesAre("prosody", ProsodyAttributes(p));
    ProsodyPairs(p);
    PlainWhen(v, f);
    var x, y, z := Decimal(p.volume - 100) + "%", Decimal(RateChange(p.rate)) + "%", Decimal(p.pitch * 5) + "%";
    NamedThree(p.volume != 100, x, p.rate != 0, y, p.pitch != 0, z, "volume");
    NamedThree(p.volume != 100, x, p.rate != 0, y, p.pitch != 0, z, "rate");
    NamedThree(p.volume != 100, x, p.rate != 0, y, p.pitch != 0, z, "pitch");
    MeasureRead(p.volume - 100, "%");
    MeasureRead(RateChange(p.rate), "%");
    MeasureRead(p.pitch * 5, "%");
    VolumeSaid(v, f, x);
    RateSaid(v, f, y);
    PitchSaid(v, f, z);
    Lengths(p.volume != 100, x, p.rate != 0, y, p.pitch != 0, z);
    SaysAll(v, f, ProsodyBody(v, f));
  }

  lemma ProsodyBodyIs(v: Voice, f: Fragment)
    ensures ProsodyBody(v, f) == "prosody" + ProsodyAttributes(ProsodyOf(v, f))
  {
    hide ProsodyAttributes, ProsodyOf;
  }

  lemma Lengths(b1: bool, x: string, b2: bool, y: string, b3: bool, z: string)
    ensures |Optional(b1, "volume", x) + (Optional(b2, "rate", y) + Optional(b3, "pitch", z))|
         == (if b1 then 1 else 0) + (if b2 then 1 else 0) + (if b3 then 1 else 0)
  {
  }

  lemma VolumeSaid(v: Voice, f: Fragment, x: string)
    requires Measure(x, "%") == Some(ProsodyOf(v, f).volume - 100)
    ensures SaysVolume(if ProsodyOf(v, f).volume != 100 then Some(x) else None, Loudness(v, f))
  {
    hide Measure;
  }

  lemma RateSaid(v: Voice, f: Fragment, y: string)
    requires Measure(y, "%") == Some(RateChange(ProsodyOf(v, f).rate))
    ensures SaysRate(if ProsodyOf(v, f).rate != 0 then Some(y) else None, v.mainRate + f.rateAdj)
  {
    hide Measure;
  }

  lemma PitchSaid(v: Voice, f: Fragment, z: string)
    requires Measure(z, "%") == Some(ProsodyOf(v, f).pitch * 5)
    ensures SaysPitch(if ProsodyOf(v, f).pitch != 0 then Some(z) else None, f.pitchAdj)
  {
    hide Measure;
  }

  lemma SaysAll(v: Voice, f: Fragment, body: string)
    requires ReadTag(body) == Some(Open("prosody")) && AttributesOf(body).Some?
    requires var a := AttributesOf(body).value;
      && SaysVolume(Named(a, "volume"), Loudness(v, f)) && SaysRate(Named(a, "rate"), v.mainRate + f.rateAdj)
      && SaysPitch(Named(a, "pitch"), f.pitchAdj)
      && |a| == (if Loudness(v, f) < 10000 then 1 else 0) + (if v.mainRate + f.rateAdj != 0 then 1 else 0)
              + (if f.pitchAdj != 0 then 1 else 0)
    ensures SaysProsody(v, f, body)
  {
    hide ReadTag, AttributesOf, SaysVolume, SaysRate, SaysPitch, Named, Loudness;
  }

  // ---- The other elements ----

  /** The attributes a context asks for; a format of years has a letter of its own, others are passed on. */
  function ContextPairs(category: string): seq<Pair> {
    if |category| > 4 && EqualsIgnoreCase(category[..4], "date") && category[4] in "_:" then
      [Pair("interpret-as", "date"), Pair("format", if EqualsIgnoreCase(category[5..], "year") then "y" else category[5..])]
    else
      [Pair("interpret-as",
         if EqualsIgnoreCase(category, "number_cardinal") then "cardinal"
         else if EqualsIgnoreCase(category, "number_fraction") then "fraction"
         else if EqualsIgnoreCase(category, "phone_number") then "telephone"
         else category)]
  }

  /** The tag starts a say-as element for the category; a quote in it would end the value, which is copied raw. */
  predicate SaysContext(category: string, body: string) {
    && ReadTag(body) == Some(Open("say-as"))
    && (Bare(category, '\'') ==> AttributesOf(body) == Some(ContextPairs(category)))
  }

  lemma InterpretationPairs(category: string)
    requires Bare(category, '\'')
    ensures Pairs(Attribute("interpret-as", Interpretation(category))) == Some(ContextPairs(category))
  {
    ContextNames();
    hide Pairs, EqualsIgnoreCase, Attribute, IsName;
    if |category| > 4 && EqualsIgnoreCase(category[..4], "date") && category[4] in "_:" {
      var format := if EqualsIgnoreCase(category[5..], "year") then "y" else category[5..];
      assert Interpretation(category) == "date' format='" + format;
      DatePairs(format);
    } else {
      PairsOne("interpret-as", Interpretation(category));
    }
  }

  lemma DatePairs(format: string)
    requires Bare(format, '\'')
    ensures Pairs(Attribute("interpret-as", "date' format='" + format))
         == Some([Pair("interpret-as", "date"), Pair("format", format)])
  {
    ContextNames();
    hide Pairs, Attribute, IsName;
    PairsOne("format", format);
    PairsMore("interpret-as", "date", Attribute("format", format));
    TwoAttributes("interpret-as", "date", "format", format);
    assert "date" + "' " + "format" + "='" + format == "date' format='" + format;
    assert [Pair("interpret-as", "date")] + [Pair("format", format)] == [Pair("interpret-as", "date"), Pair("format", format)];
  }

  lemma ContextNames()
    ensures IsName("interpret-as") && Bare("interpret-as", '=') && IsName("format") && Bare("format", '=')
  {
  }

  lemma TwoAttributes(a: string, x: string, b: string, y: string)
    ensures Attribute(a, x + "' " + b + "='" + y) == Attribute(a, x) + Attribute(b, y)
  {
  }

  lemma ContextReads(category: string)
    requires NoAngles(category)
    ensures SaysContext(category, SayAsBody(Some(category)))
  {
    InterpretationSound(category);
    AttributeIs("interpret-as", Interpretation(category));
    EngineInnerNames();
    hide ReadTag, Pairs, Attribute, Interpretation, IsName, IsAttributes, AttributesOf, Met, ContextPairs;
    var a := Attribute("interpret-as", Interpretation(category));
    MetStart("say-as", a);
    AttributesAre("say-as", a);
    if Bare(category, '\'') {
      InterpretationPairs(category);
    }
  }

  /** A text to be spelled, or one to be pronounced: the phonemes are those of the fragment once entities are decoded. */
  predicate SaysOwn(f: Fragment, body: string) {
    if f.action == SpellOut then
      ReadTag(body) == Some(Open("say-as")) && AttributesOf(body) == Some([Pair("interpret-as", "characters")])
    else
      && ReadTag(body) == Some(Open("phoneme"))
      && var a := AttributesOf(body);
         && a.Some? && |a.value| == 2 && a.value[0] == Pair("alphabet", "sapi") && a.value[1].name == "ph"
         && Read(a.value[1].value).mode == Text && TextOf(Read(a.value[1].value).events) == f.phonemes
  }

  lemma OwnReads(f: Fragment)
    requires f.action == SpellOut || f.action == Pronounce
    ensures SaysOwn(f, OwnName(f) + OwnAttributes(f))
  {
    OwnSound(f);
    OwnPairNames();
    EscapeBare(f.phonemes);
    SaysEscaped(f.phonemes);
    TextOfChars(f.phonemes);
    hide ReadTag, Pairs, Attribute, IsName, IsAttributes, AttributesOf, Met, Escape, Feed, Bare, TextOf;
    MetStart(OwnName(f), OwnAttributes(f));
    AttributesAre(OwnName(f), OwnAttributes(f));
    PairsOne("interpret-as", "characters");
    PairsOne("ph", Escape(f.phonemes));
    PairsMore("alphabet", "sapi", Attribute("ph", Escape(f.phonemes)));
  }

  lemma OwnPairNames()
    ensures IsName("interpret-as") && Bare("interpret-as", '=') && Bare("characters", '\'')
    ensures IsName("alphabet") && Bare("alphabet", '=') && Bare("sapi", '\'') && IsName("ph") && Bare("ph", '=')
  {
  }

  /** The root element, in the language of the voice. */
  predicate SaysRoot(v: Voice, body: string) {
    && ReadTag(body) == Some(Open("speak"))
    && (Bare(v.locale, '\'') ==>
          AttributesOf(body) == Some([
            Pair("version", "1.0"), Pair("xmlns", "http://www.w3.org" + "/2001/10/synthesis"),
            Pair("xmlns:mstts", "http://www.w3.org" + "/2001/mstts"), Pair("xml:lang", v.locale)]))
  }

  lemma RootReads(v: Voice)
    requires NoAngles(v.locale)
    ensures SaysRoot(v, "speak" + SpeakAttributes(v))
  {
    SpeakAttributesSound(v);
    EngineNames();
    hide ReadTag, Pairs, Attribute, IsName, IsAttributes, AttributesOf, Met, SpeakAttributes;
    MetStart("speak", SpeakAttributes(v));
    AttributesAre("speak", SpeakAttributes(v));
    if Bare(v.locale, '\'') {
      SpeakPairs(v);
    }
  }

  lemma SpeakPairs(v: Voice)
    requires Bare(v.locale, '\'')
    ensures Pairs(SpeakAttributes(v)) == Some([
      Pair("version", "1.0"), Pair("xmlns", "http://www.w3.org" + "/2001/10/synthesis"),
      Pair("xmlns:mstts", "http://www.w3.org" + "/2001/mstts"), Pair("xml:lang", v.locale)])
  {
    RootNames();
    hide Pairs, Attribute, IsName, Bare;
    var d, e := "http://www.w3.org" + "/2001/10/synthesis", "http://www.w3.org" + "/2001/mstts";
    RootValues(d, e);
    var fourth := Attribute("xml:lang", v.locale);
    var third := Attribute("xmlns:mstts", e) + fourth;
    var second := Attribute("xmlns", d) + third;
    PairsOne("xml:lang", v.locale);
    PairsMore("xmlns:mstts", e, fourth);
    PairsMore("xmlns", d, third);
    PairsMore("version", "1.0", second);
    assert SpeakAttributes(v) == Attribute("version", "1.0") + second;
    FourPairs(Pair("version", "1.0"), Pair("xmlns", d), Pair("xmlns:mstts", e), Pair("xml:lang", v.locale));
  }

  lemma FourPairs(a: Pair, b: Pair, c: Pair, d: Pair)
    ensures [a] + ([b] + ([c] + [d])) == [a, b, c, d]
  {
  }

  lemma RootNames()
    ensures IsName("version") && Bare("version", '=') && IsName("xmlns") && Bare("xmlns", '=')
    ensures IsName("xmlns:mstts") && Bare("xmlns:mstts", '=') && IsName("xml:lang") && Bare("xml:lang", '=') && Bare("1.0", '\'')
  {
  }

  lemma RootValues(d: string, e: string)
    requires d == "http://www.w3.org" + "/2001/10/synthesis" && e == "http://www.w3.org" + "/2001/mstts"
    ensures Bare(d, '\'') && Bare(e, '\'')
  {
  }

  predicate SaysVoice(v: Voice, body: string) {
    && ReadTag(body) == Some(Open("voice"))
    && (Bare(v.name, '\'') ==> AttributesOf(body) == Some([Pair("name", v.name)]))
  }

  lemma VoiceReads(v: Voice)
    requires NoAngles(v.name)
    ensures SaysVoice(v, "voice" + Attribute("name", v.name))
  {
    EngineNames();
    AttributeIs("name", v.name);
    assert IsName("name") && Bare("name", '=');
    hide ReadTag, Pairs, Attribute, IsName, IsAttributes, AttributesOf, Met;
    MetStart("voice", Attribute("name", v.name));
    AttributesAre("voice", Attribute("name", v.name));
    if Bare(v.name, '\'') {
      PairsOne("name", v.name);
    }
  }

  // ---- All elements around a text ----

  /** The start tags around a place, outermost first, sorted by what they are there for. */
  datatype Elements = Elements(
    root: string, voice: seq<string>, prosody: seq<string>, emphasis: seq<string>,
    unknown: seq<string>, context: seq<string>, own: seq<string>)

  function Listing(e: Elements): seq<string> {
    [e.root] + e.voice + e.prosody + e.emphasis + e.unknown + e.context + e.own
  }

  /**
   Each kind of element is there if and only if the voice or the fragment asks for it, and says what they ask for.
   `opener` is the fragment the context's element was written for, which may differ from `f` in letter case.
   */
  predicate Fitting(v: Voice, f: Fragment, opener: Fragment, tags: seq<StoredTag>, e: Elements) {
    && SaysRoot(v, e.root)
    && (if v.name == "" then e.voice == [] else |e.voice| == 1 && SaysVoice(v, e.voice[0]))
    && (if NeedsProsody(v, f) then |e.prosody| == 1 && SaysProsody(v, f, e.prosody[0]) else e.prosody == [])
    && e.emphasis == (if !v.isEdge && f.emphAdj != 0 then ["emphasis"] else [])
    && e.unknown == Inners(tags)
    && (if !v.isEdge && f.category.Some? && f.action == Speak then
          AlikeContext(opener, f) && |e.context| == 1 && SaysContext(opener.category.value, e.context[0])
        else e.context == [])
    && (if v.isEdge || f.action == Speak then e.own == [] else |e.own| == 1 && SaysOwn(f, e.own[0]))
  }

  /** The place is inside such elements. */
  ghost predicate Placed(v: Voice, f: Fragment, opener: Fragment, tags: seq<StoredTag>, open: seq<string>) {
    exists e :: open == Listing(e) && Fitting(v, f, opener, tags, e)
  }

  /** The elements the flags say are open while a spoken fragment is written. */
  function ElementsOf(v: Voice, f: Fragment, p: Fragment, s: Fragment, b: Build): Elements {
    Elements(
      "speak" + SpeakAttributes(v),
      if v.name != "" then ["voice" + Attribute("name", v.name)] else [],
      if b.inProsody then [ProsodyBody(v, p)] else [],
      if b.inEmphasis then ["emphasis"] else [],
      if b.inCustom then Inners(b.customTags) else [],
      if b.inSayAs then [SayAsBody(s.category)] else [],
      OwnTags(v, f))
  }

  lemma ListingIs(v: Voice, f: Fragment, p: Fragment, s: Fragment, b: Build)
    ensures Listing(ElementsOf(v, f, p, s, b)) == Around(v, p, s, b) + OwnTags(v, f)
  {
    hide SpeakAttributes, Attribute, ProsodyBody, Inners, SayAsBody, OwnTags;
  }

  lemma SamePlain(v: Voice, f: Fragment, p: Fragment)
    requires ProsodyOf(v, p) == ProsodyOf(v, f)
    ensures ProsodyBody(v, p) == ProsodyBody(v, f)
  {
    hide ProsodyOf, ProsodyAttributes;
  }

  /** Flags that are as the fragment asks make the elements fit. */
  lemma ElementsFit(v: Voice, f: Fragment, p: Fragment, s: Fragment, b: Build)
    requires Speakable(f) && NoAngles(v.locale) && NoAngles(v.name) && SoundFragment(v, f) && SoundFragment(v, s)
    requires b.inProsody <==> ProsodyOf(v, f) != PLAIN
    requires b.inProsody ==> ProsodyOf(v, p) == ProsodyOf(v, f)
    requires b.inEmphasis <==> !v.isEdge && f.emphAdj != 0
    requires b.inSayAs <==> !v.isEdge && f.category.Some? && f.action == Speak
    requires b.inSayAs ==> AlikeContext(s, f)
    requires b.inCustom
    ensures Fitting(v, f, s, b.customTags, ElementsOf(v, f, p, s, b))
  {
    hide *;
    RootReads(v);
    VoiceReads(v);
    ProsodyReads(v, f);
    PlainWhen(v, f);
    if b.inProsody {
      SamePlain(v, f, p);
    }
    if b.inSayAs {
      ContextOpener(s, f);
      SoundCategory(v, s);
      ContextReads(s.category.value);
    }
    OwnFits(v, f);
    AllFit(v, f, p, s, b);
  }

  lemma OwnFits(v: Voice, f: Fragment)
    requires Speakable(f)
    ensures if v.isEdge || f.action == Speak then OwnTags(v, f) == [] else |OwnTags(v, f)| == 1 && SaysOwn(f, OwnTags(v, f)[0])
  {
    if f.action != Speak {
      OwnReads(f);
    }
    hide SaysOwn, OwnName, OwnAttributes;
  }

  lemma AllFit(v: Voice, f: Fragment, p: Fragment, s: Fragment, b: Build)
    requires SaysRoot(v, "speak" + SpeakAttributes(v)) && SaysVoice(v, "voice" + Attribute("name", v.name))
    requires b.inProsody <==> NeedsProsody(v, f)
    requires b.inProsody ==> SaysProsody(v, f, ProsodyBody(v, p))
    requires b.inEmphasis <==> !v.isEdge && f.emphAdj != 0
    requires b.inSayAs <==> !v.isEdge && f.category.Some? && f.action == Speak
    requires b.inSayAs ==> AlikeContext(s, f) && s.category.Some? && SaysContext(s.category.value, SayAsBody(s.category))
    requires if v.isEdge || f.action == Speak then OwnTags(v, f) == [] else |OwnTags(v, f)| == 1 && SaysOwn(f, OwnTags(v, f)[0])
    requires b.inCustom
    ensures Fitting(v, f, s, b.customTags, ElementsOf(v, f, p, s, b))
  {
    hide SpeakAttributes, Attribute, ProsodyBody, Inners, SayAsBody, OwnTags, SaysRoot, SaysVoice, SaysProsody, SaysContext,
      SaysOwn, NeedsProsody, AlikeContext;
  }

  lemma ContextOpener(s: Fragment, f: Fragment)
    requires AlikeContext(s, f) && f.category.Some?
    ensures s.category.Some?
  {
  }

  /** The flags while a fragment is spoken. */
  lemma FlagsAsked(v: Voice, frags: seq<Fragment>, k: nat)
    requires k < |frags| && Speakable(frags[k]) && Sound(v, frags) && (v.isEdge ==> Run(v, frags, k).prosodyCount < 2)
    ensures var f, b := frags[k], OpenTags(v, frags[k], Run(v, frags, k));
      && (b.inProsody <==> ProsodyOf(v, f) != PLAIN)
      && (b.inProsody ==> ProsodyOf(v, frags[ProsodyOpener(v, frags, k)]) == ProsodyOf(v, f))
      && (b.inEmphasis <==> !v.isEdge && f.emphAdj != 0)
      && (b.inSayAs <==> !v.isEdge && f.category.Some? && f.action == Speak)
      && (b.inSayAs ==> AlikeContext(frags[SayAsOpener(v, frags, k)], f))
      && b.inCustom && b.customTags == OpenAfter(v, frags, k)
  {
    hide Run, OpenTags, EmitFragment, ProsodyOf, AlikeContext, OpenAfter, Ready, OneTag;
    var f, b := frags[k], Run(v, frags, k);
    OpenTagsFlags(v, f, b);
    EmitFragmentFlags(v, f, OpenTags(v, f, b));
    RunTags(v, frags, k);
    if v.isEdge {
      EdgeInOwnProsody(v, frags, k);
      RunNests(false, v, frags, k);
      EdgeBare(v, f, b);
    } else {
      InOwnStyle(v, frags, k);
    }
  }

  lemma EdgeBare(v: Voice, f: Fragment, b: Build)
    requires v.isEdge && Ready(v, f, b)
    ensures !b.inEmphasis && !b.inSayAs
  {
  }

  /** Prosody is open around a text if and only if its volume is lowered or its rate or pitch changed. */
  lemma ProsodyWhenAsked(v: Voice, frags: seq<Fragment>, i: nat)
    requires i < |frags| && v.mainVolume * frags[i].volume < 0x1_0000_0000
    requires v.isEdge ==> Speakable(frags[i]) && Run(v, frags, i).prosodyCount < 2
    ensures var f := frags[i];
      Written(v, frags, i).inProsody
      <==> v.mainVolume * f.volume < 10000 || v.mainRate + f.rateAdj != 0 || f.pitchAdj != 0
  {
    hide *;
    PlainWhen(v, frags[i]);
    AskedIs(v, frags[i]);
    OwnIs(v, frags, i);
    if v.isEdge {
      EdgeInOwnProsody(v, frags, i);
    } else {
      InOwnStyle(v, frags, i);
    }
  }

  lemma AskedIs(v: Voice, f: Fragment)
    requires v.mainVolume * f.volume < 0x1_0000_0000
    ensures NeedsProsody(v, f) <==> v.mainVolume * f.volume < 10000 || v.mainRate + f.rateAdj != 0 || f.pitchAdj != 0
  {
  }

  lemma OwnIs(v: Voice, frags: seq<Fragment>, i: nat)
    requires i < |frags|
    ensures EdgeOwn(v, frags, i) ==> (Written(v, frags, i).inProsody <==> ProsodyOf(v, frags[i]) != PLAIN)
  {
    hide Written, ProsodyOf;
  }

  lemma BeforeText(v: Voice, f: Fragment, b: Build, open: seq<string>)
    requires Speakable(f) && Inside(b, open)
    ensures Enclosing(b.ssml + Lead(v, f, b.ssml)) == open + OwnTags(v, f)
  {
    hide Inside, Lead, LeadEvents, OwnName, OwnAttributes, ReadTag, Feed, Met, Adds, AllOpen;
    InsideText(b, open);
    LeadMet(v, f, b.ssml);
    EmitAdds(b, Lead(v, f, b.ssml), LeadEvents(v, f, b.ssml), OwnTags(v, f));
    OwnOpen(v, f);
    InsideOpens(b, Emit(b, Lead(v, f, b.ssml), LeadEvents(v, f, b.ssml)), open, OwnTags(v, f));
    InsideIs(Emit(b, Lead(v, f, b.ssml), LeadEvents(v, f, b.ssml)), open + OwnTags(v, f));
  }

  lemma InsideIs(b: Build, open: seq<string>)
    requires Inside(b, open)
    ensures Enclosing(b.ssml) == open
  {
    hide Feed, Enclosing;
  }

  lemma OwnOpen(v: Voice, f: Fragment)
    requires Speakable(f)
    ensures AllOpen(OwnTags(v, f))
  {
    LeadMet(v, f, "");
    hide ReadTag, OwnName, OwnAttributes, Met;
  }

  /**
   Every text stands in the document inside exactly the elements its fragment asks for, one kind inside the other in a
   fixed order, each saying what is asked for; the unknown tags are those the texts before it leave open. For an Edge
   voice this holds as long as two prosody elements have not been opened before.
   */
  lemma TextPlaced(v: Voice, frags: seq<Fragment>, k: nat)
    requires k < |frags| && Speakable(frags[k]) && Sound(v, frags) && (v.isEdge ==> Run(v, frags, k).prosodyCount < 2)
    ensures SpokenPos(v, frags, k) <= |Translate(v, frags).ssml|
    ensures Placed(v, frags[k], frags[SayAsOpener(v, frags, k)], OpenAfter(v, frags, k),
      Enclosing(Translate(v, frags).ssml[..SpokenPos(v, frags, k)]))
  {
    hide *;
    var f, b := frags[k], OpenTags(v, frags[k], Run(v, frags, k));
    var p, s := frags[ProsodyOpener(v, frags, k)], frags[SayAsOpener(v, frags, k)];
    TextBefore(v, frags, k);
    WrittenInside(v, frags, k);
    BeforeText(v, f, b, Around(v, p, s, b));
    ListingIs(v, f, p, s, b);
    FlagsAsked(v, frags, k);
    SoundAt(v, frags, k);
    SoundAt(v, frags, SayAsOpener(v, frags, k));
    ElementsFit(v, f, p, s, b);
    PlacedIs(v, f, s, b.customTags, ElementsOf(v, f, p, s, b));
  }

  lemma PlacedIs(v: Voice, f: Fragment, opener: Fragment, tags: seq<StoredTag>, e: Elements)
    requires Fitting(v, f, opener, tags, e)
    ensures Placed(v, f, opener, tags, Listing(e))
  {
    hide Fitting;
  }

  /** What stands in the finished document before the text of a spoken fragment. */
  lemma TextBefore(v: Voice, frags: seq<Fragment>, k: nat)
    requires k < |frags| && Speakable(frags[k])
    ensures var b, pos := OpenTags(v, frags[k], Run(v, frags, k)), SpokenPos(v, frags, k);
      pos <= |Translate(v, frags).ssml| && Translate(v, frags).ssml[..pos] == b.ssml + Lead(v, frags[k], b.ssml)
  {
    hide Run, OpenTags, EmitSpoken, Translate, Lead, Escape, UpToNul;
    var f, b := frags[k], OpenTags(v, frags[k], Run(v, frags, k));
    SpokenParts(v, f, b);
    StepGrows(v, frags, k);
    TranslateGrows(v, frags, k + 1);
    assert Written(v, frags, k) == EmitSpoken(v, f, b);
  }

  lemma SpokenParts(v: Voice, f: Fragment, b: Build)
    ensures b.ssml + Lead(v, f, b.ssml) <= EmitSpoken(v, f, b).ssml
  {
    hide Lead, LeadEvents, Tail, TailEvents, UpToNul, Escape, EscapeMaps, Chars;
  }
}
