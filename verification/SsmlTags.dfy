/** The tags of a document as an XML reader meets them, and the elements that enclose a place in it. */
module SsmlTags {
  import opened WideText
  import opened XmlReader
  import opened SsmlBuilder
  import opened SsmlReading
  import opened SsmlNesting

  // ---- Reading tags ----

  /** The tag, if any, that the last character ends. */
  function LastTag(m: Mode, c: char): seq<string> {
    match m
    case Tag(body) => if c == '>' && ReadTag(body).Some? then [body] else []
    case _ => []
  }

  /** What stands between the brackets of the tags in `s`, in order. */
  function Tags(s: string): seq<string> {
    if s == "" then [] else Tags(s[..|s| - 1]) + LastTag(Read(s[..|s| - 1]).mode, s[|s| - 1])
  }

  lemma TagsLast(s: string)
    requires s != ""
    ensures Tags(s) == Tags(s[..|s| - 1]) + LastTag(Read(s[..|s| - 1]).mode, s[|s| - 1])
  {
    hide Feed, ReadTag;
  }

  lemma {:induction false} TagsConcat(a: string, b: string)
    requires Read(a).mode == Text
    ensures Tags(a + b) == Tags(a) + Tags(b)
  {
    if b == "" {
      assert a + b == a;
    } else {
      TagsConcat(a, b[..|b| - 1]);
      TagsNext(a, b);
    }
  }

  lemma TagsNext(a: string, b: string)
    requires Read(a).mode == Text && b != "" && Tags(a + b[..|b| - 1]) == Tags(a) + Tags(b[..|b| - 1])
    ensures Tags(a + b) == Tags(a) + Tags(b)
  {
    hide *;
    var front, c := b[..|b| - 1], b[|b| - 1];
    FrontOf(a, b);
    TagsLast(a + b);
    TagsLast(b);
    ModeOn(a, front);
    JoinTags(Tags(a), Tags(front), LastTag(Read(front).mode, c));
  }

  lemma FrontOf(a: string, b: string)
    requires b != ""
    ensures (a + b)[..|a + b| - 1] == a + b[..|b| - 1] && (a + b)[|a + b| - 1] == b[|b| - 1]
  {
  }

  /** Outside markup, what comes next is read as if nothing came before. */
  lemma ModeOn(a: string, b: string)
    requires Read(a).mode == Text
    ensures Read(a + b).mode == Read(b).mode
  {
    hide Feed;
    FeedConcat(START, a, b);
    FeedAfter(Read(a).events, b);
  }

  lemma JoinTags(a: seq<string>, b: seq<string>, c: seq<string>)
    ensures (a + b) + c == a + (b + c)
  {
  }

  predicate OnlyChars(evs: seq<Event>) {
    forall i :: 0 <= i < |evs| ==> evs[i].Char?
  }

  /** Where only characters are read there are no tags. */
  lemma {:induction false} NoTags(s: string)
    requires OnlyChars(Read(s).events)
    ensures Tags(s) == []
  {
    hide Tags, LastTag, OnlyChars, Advance;
    if s == "" {
      NothingRead();
    } else {
      var r := Read(s[..|s| - 1]);
      assert Read(s) == Advance(r, s[|s| - 1]);
      TagEnds(r, s[|s| - 1]);
      CharsBefore(r.events, Read(s).events);
      NoTags(s[..|s| - 1]);
      TagsLast(s);
    }
  }

  lemma NothingRead()
    ensures Tags("") == []
  {
  }

  lemma TagEnds(r: Reader, c: char)
    ensures r.events <= Advance(r, c).events
    ensures LastTag(r.mode, c) != [] ==> !OnlyChars(Advance(r, c).events)
  {
    if r.mode.Tag? && ReadTag(r.mode.body).Some? {
      var e := ReadTag(r.mode.body).value;
      assert (r.events + [e])[|r.events|] == e;
    }
    hide ReadTag, Predefined;
  }

  lemma CharsBefore(a: seq<Event>, b: seq<Event>)
    requires OnlyChars(b) && a <= b
    ensures OnlyChars(a)
  {
  }

  /** A tag is met as it stands. */
  lemma TagMet(body: string)
    requires NoAngles(body) && ReadTag(body).Some?
    ensures Tags("<" + body + ">") == [body] && Read("<" + body + ">").mode == Text
  {
    var s := "<" + body + ">";
    FeedTag(START, body);
    assert s[..|s| - 1] == "<" + body;
    TagOpened(body);
    NoTags("<" + body);
    hide ReadTag;
  }

  lemma TagOpened(body: string)
    requires NoAngles(body)
    ensures Read("<" + body) == Reader(Tag(body), [])
  {
    FeedConcat(START, "<", body);
    assert Feed(START, "<") == Reader(Tag(""), []);
    FeedBody(Reader(Tag(""), []), body);
  }

  // ---- Elements around a place ----

  /** The start tags still open after these tags, outermost first: each end tag closes the innermost. */
  function StillOpen(open: seq<string>, tags: seq<string>): seq<string> {
    if tags == [] then open
    else
      var now := StillOpen(open, tags[..|tags| - 1]);
      match ReadTag(tags[|tags| - 1])
      case Some(Open(_)) => now + [tags[|tags| - 1]]
      case Some(Close(_)) => if now == [] then [] else now[..|now| - 1]
      case _ => now
  }

  /** The start tags of the elements around the end of `s`, outermost first. */
  function Enclosing(s: string): seq<string> {
    StillOpen([], Tags(s))
  }

  lemma {:induction false} OpenConcat(open: seq<string>, a: seq<string>, b: seq<string>)
    ensures StillOpen(open, a + b) == StillOpen(StillOpen(open, a), b)
  {
    hide ReadTag;
    if b == [] {
      assert a + b == a;
    } else {
      OpenConcat(open, a, b[..|b| - 1]);
      assert (a + b)[..|a + b| - 1] == a + b[..|b| - 1];
    }
  }

  /** Each start tag opens one more element. */
  lemma {:induction false} AllPushed(open: seq<string>, bodies: seq<string>)
    requires forall i :: 0 <= i < |bodies| ==> ReadTag(bodies[i]).Some? && ReadTag(bodies[i]).value.Open?
    ensures StillOpen(open, bodies) == open + bodies
  {
    hide ReadTag;
    if bodies == [] {
      assert open + bodies == open;
    } else {
      AllPushed(open, bodies[..|bodies| - 1]);
      assert bodies == bodies[..|bodies| - 1] + [bodies[|bodies| - 1]];
    }
  }

  /** As many end tags close them again. */
  lemma {:induction false} AllPopped(open: seq<string>, inner: seq<string>, ends: seq<string>)
    requires |ends| == |inner| && forall i :: 0 <= i < |ends| ==> ReadTag(ends[i]).Some? && ReadTag(ends[i]).value.Close?
    ensures StillOpen(open + inner, ends) == open
    decreases |ends|
  {
    hide ReadTag;
    if ends == [] {
      assert open + inner == open;
    } else {
      var n := |ends| - 1;
      AllPopped(open + [inner[0]], inner[1..], ends[..n]);
      assert (open + [inner[0]]) + inner[1..] == open + inner;
    }
  }

  // ---- The tags in every piece that is written ----

  /** The piece holds these tags and leaves the reader outside markup. */
  predicate Met(piece: string, tags: seq<string>) {
    Read(piece).mode == Text && Tags(piece) == tags
  }

  lemma MetConcat(p: string, pt: seq<string>, q: string, qt: seq<string>)
    requires Met(p, pt) && Met(q, qt)
    ensures Met(p + q, pt + qt)
  {
    hide Feed, Tags;
    TagsConcat(p, q);
    ModeOn(p, q);
  }

  lemma MetStart(name: string, attributes: string)
    requires IsName(name) && IsAttributes(attributes)
    ensures ReadTag(name + attributes) == Some(Open(name)) && Met(StartTag(name, attributes), [name + attributes])
  {
    ReadOpen(name, attributes);
    TagMet(name + attributes);
    hide ReadTag, Feed, Tags;
  }

  lemma MetEmpty(name: string, attributes: string)
    requires IsName(name) && IsAttributes(attributes)
    ensures ReadTag(name + attributes + "/") == Some(Empty(name))
    ensures Met(EmptyTag(name, attributes), [name + attributes + "/"])
  {
    ReadEmpty(name, attributes);
    TagMet(name + attributes + "/");
    hide ReadTag, Feed, Tags;
  }

  lemma MetEnd(name: string)
    requires IsName(name)
    ensures ReadTag("/" + name) == Some(Close(name)) && Met(EndTag(name), ["/" + name])
  {
    ReadClose(name);
    TagMet("/" + name);
    assert "</" + name + ">" == "<" + ("/" + name) + ">";
    hide ReadTag, Feed, Tags;
  }

  lemma MetChars(s: string, evs: seq<Event>)
    requires Says(s, evs) && OnlyChars(evs)
    ensures Met(s, [])
  {
    NoTags(s);
  }

  lemma MetTag(text: string)
    requires OneTag(text)
    ensures Met(text, [Inner(text)])
  {
    TagSplit(text);
    TagMet(Inner(text));
    SaysPlain(Trail(text));
    MetChars(Trail(text), Chars(Trail(text)));
    hide ReadTag, Feed, Tags, NoAngles, Inner, Trail;
    MetConcat("<" + Inner(text) + ">", [Inner(text)], Trail(text), []);
    assert [Inner(text)] + [] == [Inner(text)];
  }

  /** The end tag the translator writes for a stored tag. */
  function Closer(text: string): string {
    "/" + ElementName(text)
  }

  lemma MetCloser(text: string)
    requires OpeningTag(text)
    ensures ReadTag(Closer(text)) == Some(Close(ElementName(text))) && Met(EndTag(GetXMLTagName(text)), [Closer(text)])
  {
    hide *;
    StoredName(text);
    OpeningName(text);
    CloserIs(text);
    MetEnd(ElementName(text));
    MetLooseEnd(ElementName(text), Sloppy(text));
  }

  lemma CloserIs(text: string)
    ensures Closer(text) == "/" + ElementName(text)
  {
    hide ElementName;
  }

  /** A `>` left on the name adds no tag. */
  lemma MetLooseEnd(name: string, loose: bool)
    requires IsName(name)
    ensures Met(EndTag(name + if loose then ">" else ""), ["/" + name])
  {
    MetEnd(name);
    hide ReadTag, Feed, Tags, Met, IsName;
    if loose {
      SaysPlain(">");
      MetChars(">", Chars(">"));
      MetConcat(EndTag(name), ["/" + name], ">", []);
      assert ("</" + name + ">") + ">" == "</" + (name + ">") + ">";
      assert ["/" + name] + [] == ["/" + name];
    } else {
      assert name + "" == name;
    }
  }

  /** What stands between the brackets of stored tags. */
  function Inners(tags: seq<StoredTag>): seq<string> {
    if tags == [] then [] else Inners(tags[..|tags| - 1]) + [Inner(tags[|tags| - 1])]
  }

  /** Innermost first. */
  function Closers(tags: seq<StoredTag>): seq<string> {
    if tags == [] then [] else [Closer(tags[|tags| - 1])] + Closers(tags[..|tags| - 1])
  }

  lemma {:induction false} MetReopen(tags: seq<StoredTag>)
    requires Stored(tags)
    ensures Met(Concat(tags), Inners(tags))
  {
    hide Met, Inner, OneTag;
    if tags == [] {
      MetNothing();
    } else {
      var early, last := tags[..|tags| - 1], tags[|tags| - 1];
      MetReopen(early);
      assert OpeningTag(last);
      MetTag(last);
      MetConcat(Concat(early), Inners(early), last, [Inner(last)]);
    }
  }

  lemma MetNothing()
    ensures Met("", [])
  {
  }

  lemma {:induction false} MetClosing(tags: seq<StoredTag>)
    requires Stored(tags)
    ensures Met(ClosingTags(tags), Closers(tags))
  {
    hide Met, Closer, OneTag, EndTag, GetXMLTagName;
    if tags == [] {
      MetNothing();
    } else {
      var early, last := tags[..|tags| - 1], tags[|tags| - 1];
      MetClosing(early);
      assert OpeningTag(last);
      MetCloser(last);
      MetConcat(EndTag(GetXMLTagName(last)), [Closer(last)], ClosingTags(early), Closers(early));
    }
  }

  // ---- The tags every step adds ----

  /** `r` has these tags more than `b`. */
  predicate Adds(b: Build, r: Build, tags: seq<string>) {
    Read(r.ssml).mode == Text && Tags(r.ssml) == Tags(b.ssml) + tags
  }

  lemma EmitAdds(b: Build, piece: string, evs: seq<Event>, tags: seq<string>)
    requires Read(b.ssml).mode == Text && Met(piece, tags)
    ensures Adds(b, Emit(b, piece, evs), tags)
  {
    hide Feed, Tags;
    MetConcat(b.ssml, Tags(b.ssml), piece, tags);
  }

  lemma AddsNothing(b: Build, r: Build)
    requires Read(b.ssml).mode == Text && r.ssml == b.ssml
    ensures Adds(b, r, [])
  {
    hide Feed, Tags;
    assert Tags(b.ssml) + [] == Tags(b.ssml);
  }

  lemma AddsChain(a: Build, b: Build, c: Build, x: seq<string>, y: seq<string>)
    requires Adds(a, b, x) && Adds(b, c, y)
    ensures Adds(a, c, x + y)
  {
    hide Feed, Tags;
    JoinTags(Tags(a.ssml), x, y);
  }

  function ProsodyBody(v: Voice, f: Fragment): string {
    "prosody" + ProsodyAttributes(ProsodyOf(v, f))
  }

  function SayAsBody(category: Option<string>): string {
    "say-as" + if category.Some? then Attribute("interpret-as", Interpretation(category.value)) else ""
  }

  function ProsodyTags(v: Voice, f: Fragment, b: Build): seq<string> {
    if OpensProsody(v, f, b) then [ProsodyBody(v, f)] else []
  }

  function EmphasisTags(v: Voice, f: Fragment, b: Build): seq<string> {
    if !b.inEmphasis && f.emphAdj != 0 && !v.isEdge then ["emphasis"] else []
  }

  function CustomTags(b: Build): seq<string> {
    if !b.inCustom then Inners(b.customTags) else []
  }

  function SayAsTags(v: Voice, f: Fragment, b: Build): seq<string> {
    if !b.inSayAs && f.category.Some? && f.action == Speak && !v.isEdge then [SayAsBody(f.category)] else []
  }

  lemma OpenProsodyAdds(v: Voice, f: Fragment, b: Build)
    requires Read(b.ssml).mode == Text
    ensures Adds(b, OpenProsody(v, f, b), ProsodyTags(v, f, b))
    ensures ReadTag(ProsodyBody(v, f)) == Some(Open("prosody"))
  {
    EngineNames();
    ProsodyAttributesSound(ProsodyOf(v, f));
    hide ProsodyAttributes, ProsodyOf, StartTag, Adds, Met, ReadTag, Feed, Speakable;
    MetStart("prosody", ProsodyAttributes(ProsodyOf(v, f)));
    EmitAdds(b, StartTag("prosody", ProsodyAttributes(ProsodyOf(v, f))), [Open("prosody")], [ProsodyBody(v, f)]);
    AddsNothing(b, b);
    if OpensProsody(v, f, b) {
      AddsSame(b, Emit(b, StartTag("prosody", ProsodyAttributes(ProsodyOf(v, f))), [Open("prosody")]), OpenProsody(v, f, b), [ProsodyBody(v, f)]);
    }
  }

  lemma AddsSame(b: Build, r: Build, q: Build, tags: seq<string>)
    requires Adds(b, r, tags) && q.ssml == r.ssml
    ensures Adds(b, q, tags)
  {
  }

  lemma OpenEmphasisAdds(v: Voice, f: Fragment, b: Build)
    requires Read(b.ssml).mode == Text
    ensures Adds(b, OpenEmphasis(v, f, b), EmphasisTags(v, f, b))
    ensures ReadTag("emphasis") == Some(Open("emphasis"))
  {
    EngineNames();
    hide StartTag, Adds, Met, ReadTag, Feed;
    MetStart("emphasis", "");
    assert "emphasis" + "" == "emphasis";
    EmitAdds(b, StartTag("emphasis", ""), [Open("emphasis")], ["emphasis"]);
    AddsNothing(b, b);
    AddsSame(b, Emit(b, StartTag("emphasis", ""), [Open("emphasis")]),
      Emit(b, StartTag("emphasis", ""), [Open("emphasis")]).(inEmphasis := true), ["emphasis"]);
  }

  lemma ReopenAdds(b: Build)
    requires Read(b.ssml).mode == Text && Stored(b.customTags)
    ensures Adds(b, ReopenCustom(b), CustomTags(b))
  {
    hide Adds, Met, Feed, Stored, Concat, AllTagEvents, Inners;
    MetReopen(b.customTags);
    EmitAdds(b, Concat(b.customTags), AllTagEvents(b.customTags), Inners(b.customTags));
    AddsNothing(b, b);
    AddsSame(b, Emit(b, Concat(b.customTags), AllTagEvents(b.customTags)),
      Emit(b, Concat(b.customTags), AllTagEvents(b.customTags)).(inCustom := true), Inners(b.customTags));
  }

  lemma OpenSayAsAdds(v: Voice, f: Fragment, b: Build)
    requires Read(b.ssml).mode == Text && (!v.isEdge && f.category.Some? ==> NoAngles(f.category.value))
    ensures Adds(b, OpenSayAs(v, f, b), SayAsTags(v, f, b))
    ensures !v.isEdge && f.category.Some? ==> ReadTag(SayAsBody(f.category)) == Some(Open("say-as"))
  {
    EngineInnerNames();
    hide StartTag, Adds, Met, ReadTag, Feed, Interpretation, Attribute;
    AddsNothing(b, b);
    if !v.isEdge && f.category.Some? {
      var a := Attribute("interpret-as", Interpretation(f.category.value));
      InterpretationSound(f.category.value);
      AttributeIs("interpret-as", Interpretation(f.category.value));
      MetStart("say-as", a);
      EmitAdds(b, StartTag("say-as", a), [Open("say-as")], [SayAsBody(f.category)]);
      AddsSame(b, Emit(b, StartTag("say-as", a), [Open("say-as")]),
        Emit(b, StartTag("say-as", a), [Open("say-as")]).(inSayAs := true), [SayAsBody(f.category)]);
    }
  }

  /** Opening the tags around a fragment adds these start tags. */
  lemma OpenTagsAdds(v: Voice, f: Fragment, b: Build)
    requires Read(b.ssml).mode == Text && Stored(b.customTags) && SoundFragment(v, f)
    ensures Adds(b, OpenTags(v, f, b), ProsodyTags(v, f, b) + EmphasisTags(v, f, b) + CustomTags(b) + SayAsTags(v, f, b))
  {
    hide *;
    var b0 := b.(hasText := b.hasText || (f.action != Bookmark && f.text != ""));
    var b1 := OpenProsody(v, f, b0);
    var b2 := OpenEmphasis(v, f, b1);
    var b3 := ReopenCustom(b2);
    OpenTagsIs(v, f, b);
    SoundCategory(v, f);
    OpenedChange(v, f, b, b0.hasText);
    OpenProsodyAdds(v, f, b0);
    AddsRead(b0, b1, ProsodyTags(v, f, b0));
    OpenEmphasisAdds(v, f, b1);
    AddsRead(b1, b2, EmphasisTags(v, f, b1));
    ReopenAdds(b2);
    AddsRead(b2, b3, CustomTags(b2));
    OpenSayAsAdds(v, f, b3);
    AddsChain(b0, b1, b2, ProsodyTags(v, f, b), EmphasisTags(v, f, b));
    AddsChain(b0, b2, b3, ProsodyTags(v, f, b) + EmphasisTags(v, f, b), CustomTags(b));
    AddsChain(b0, b3, OpenTags(v, f, b), ProsodyTags(v, f, b) + EmphasisTags(v, f, b) + CustomTags(b), SayAsTags(v, f, b));
    AddsFrom(b, b0, OpenTags(v, f, b), ProsodyTags(v, f, b) + EmphasisTags(v, f, b) + CustomTags(b) + SayAsTags(v, f, b));
  }

  lemma SoundCategory(v: Voice, f: Fragment)
    requires SoundFragment(v, f)
    ensures !v.isEdge && f.category.Some? ==> NoAngles(f.category.value)
  {
    hide NoAngles, OneTag;
  }

  lemma AddsRead(b: Build, r: Build, tags: seq<string>)
    requires Adds(b, r, tags)
    ensures Read(r.ssml).mode == Text
  {
    hide Feed, Tags;
  }

  lemma AddsFrom(b: Build, c: Build, r: Build, tags: seq<string>)
    requires Adds(c, r, tags) && c.ssml == b.ssml
    ensures Adds(b, r, tags)
  {
  }

  /** What each opening step adds does not depend on those before it. */
  lemma OpenedChange(v: Voice, f: Fragment, b: Build, hasText: bool)
    ensures var b0 := b.(hasText := hasText);
      var b1 := OpenProsody(v, f, b0);
      var b2 := OpenEmphasis(v, f, b1);
      var b3 := ReopenCustom(b2);
      && ProsodyTags(v, f, b0) == ProsodyTags(v, f, b) && EmphasisTags(v, f, b1) == EmphasisTags(v, f, b)
      && CustomTags(b2) == CustomTags(b) && SayAsTags(v, f, b3) == SayAsTags(v, f, b)
      && b2.customTags == b.customTags
  {
    var b0 := b.(hasText := hasText);
    var b1 := OpenProsody(v, f, b0);
    NotedOpens(v, f, b, hasText);
    OpenProsodyChanges(v, f, b0);
    OpenEmphasisChanges(v, f, b1);
    OpenCustomFlags(OpenEmphasis(v, f, b1));
    hide OpenProsody, OpenEmphasis, ReopenCustom, OpensProsody, ProsodyBody, SayAsBody, Inners;
  }

  // ---- The tags a fragment adds ----

  function OwnAttributes(f: Fragment): string {
    if f.action == SpellOut then Attribute("interpret-as", "characters")
    else Attribute("alphabet", "sapi") + Attribute("ph", Escape(f.phonemes))
  }

  function OwnName(f: Fragment): string {
    if f.action == SpellOut then "say-as" else "phoneme"
  }

  /** The tag written right before a text that is spelled or pronounced. */
  function OwnTags(v: Voice, f: Fragment): seq<string> {
    if v.isEdge || f.action == Speak then [] else [OwnName(f) + OwnAttributes(f)]
  }

  function OwnEnds(v: Voice, f: Fragment): seq<string> {
    if v.isEdge || f.action == Speak then [] else ["/" + OwnName(f)]
  }

  lemma OwnSound(f: Fragment)
    ensures IsName(OwnName(f)) && IsAttributes(OwnAttributes(f))
  {
    EngineInnerNames();
    AttributeIs("alphabet", "sapi");
    AttributeIs("ph", Escape(f.phonemes));
    AttributesJoin(Attribute("alphabet", "sapi"), Attribute("ph", Escape(f.phonemes)));
    AttributeIs("interpret-as", "characters");
    hide IsName, IsAttributes, Attribute, Escape;
  }

  lemma LeadMet(v: Voice, f: Fragment, before: string)
    ensures Met(Lead(v, f, before), OwnTags(v, f)) && Met(Tail(v, f), OwnEnds(v, f))
    ensures Speakable(f) && OwnTags(v, f) != [] ==> ReadTag(OwnName(f) + OwnAttributes(f)) == Some(Open(OwnName(f)))
    ensures Speakable(f) && OwnTags(v, f) != [] ==> ReadTag("/" + OwnName(f)) == Some(Close(OwnName(f)))
  {
    OwnSound(f);
    MetStart(OwnName(f), OwnAttributes(f));
    MetEnd(OwnName(f));
    LeadPlain(v, f, before);
    hide Met, ReadTag, IsName, IsAttributes, NeedAddingSpace, StartTag, EndTag, Escape, Attribute;
    MetNothing();
  }

  lemma LeadPlain(v: Voice, f: Fragment, before: string)
    ensures v.isEdge || f.action == Speak ==> Met(Lead(v, f, before), [])
  {
    hide NeedAddingSpace, Met, StartTag, Attribute, Escape;
    MetNothing();
    SaysPlain(" ");
    MetChars(" ", Chars(" "));
  }

  lemma SpokenAdds(v: Voice, f: Fragment, b: Build)
    requires Read(b.ssml).mode == Text
    ensures Adds(b, EmitSpoken(v, f, b), OwnTags(v, f) + OwnEnds(v, f))
  {
    hide *;
    var t := UpToNul(f.text);
    var led := Emit(b, Lead(v, f, b.ssml), LeadEvents(v, f, b.ssml));
    LeadMet(v, f, b.ssml);
    EmitAdds(b, Lead(v, f, b.ssml), LeadEvents(v, f, b.ssml), OwnTags(v, f));
    AddsRead(b, led, OwnTags(v, f));
    MetText(t);
    EmitAdds(led, Escape(t), Chars(t), []);
    var copied := Emit(led, Escape(t), Chars(t));
    AddsRead(led, copied, []);
    EmitAdds(copied, Tail(v, f), TailEvents(v, f), OwnEnds(v, f));
    AddsChain(b, led, copied, OwnTags(v, f), []);
    assert OwnTags(v, f) + [] == OwnTags(v, f);
    AddsChain(b, copied, Emit(copied, Tail(v, f), TailEvents(v, f)), OwnTags(v, f), OwnEnds(v, f));
    SpokenText(v, f, b);
    AddsSame(b, Emit(copied, Tail(v, f), TailEvents(v, f)), EmitSpoken(v, f, b), OwnTags(v, f) + OwnEnds(v, f));
  }

  lemma MetText(t: string)
    ensures Met(Escape(t), [])
  {
    hide Met, Escape, Chars;
    SaysEscaped(t);
    CharsOnly(t);
    MetChars(Escape(t), Chars(t));
  }

  lemma CharsOnly(t: string)
    ensures OnlyChars(Chars(t))
  {
  }

  lemma SpokenText(v: Voice, f: Fragment, b: Build)
    ensures var t := UpToNul(f.text);
      var led := Emit(b, Lead(v, f, b.ssml), LeadEvents(v, f, b.ssml));
      EmitSpoken(v, f, b).ssml == Emit(Emit(led, Escape(t), Chars(t)), Tail(v, f), TailEvents(v, f)).ssml
  {
    hide Lead, LeadEvents, Tail, TailEvents, Escape, EscapeMaps, UpToNul, Chars;
  }

  /** What stands between the brackets for a bookmark of this name. */
  function MarkBody(name: string): string {
    "bookmark" + Attribute("mark", Escape(UpToNul(name))) + "/"
  }

  function BreakBody(ms: nat): string {
    "break" + Attribute("time", Decimal(ms) + "ms") + "/"
  }

  lemma BookmarkAdds(v: Voice, f: Fragment, b: Build)
    requires Read(b.ssml).mode == Text && !v.isEdge
    ensures Adds(b, EmitBookmark(v, f, b), [MarkBody(f.text)]) && ReadTag(MarkBody(f.text)) == Some(Empty("bookmark"))
  {
    EngineInnerNames();
    var a := Attribute("mark", Escape(UpToNul(f.text)));
    AttributeIs("mark", Escape(UpToNul(f.text)));
    hide Adds, ReadTag, Feed, IsName, IsAttributes, Attribute, EmptyTag, Met, Escape, EscapeMaps, UpToNul;
    MetEmpty("bookmark", a);
    EmitAdds(b, EmptyTag("bookmark", a), [Empty("bookmark")], [MarkBody(f.text)]);
    AddsSame(b, Emit(b, EmptyTag("bookmark", a), [Empty("bookmark")]), EmitBookmark(v, f, b), [MarkBody(f.text)]);
  }

  lemma SilenceAdds(v: Voice, f: Fragment, b: Build)
    requires Read(b.ssml).mode == Text && !v.isEdge && f.action == Silence
    ensures Adds(b, EmitFragment(v, f, b), [BreakBody(f.silenceMs)])
    ensures ReadTag(BreakBody(f.silenceMs)) == Some(Empty("break"))
  {
    EngineInnerNames();
    var a := Attribute("time", Decimal(f.silenceMs) + "ms");
    AttributeIs("time", Decimal(f.silenceMs) + "ms");
    hide Adds, ReadTag, Feed, IsName, IsAttributes, Attribute, EmptyTag, Met, Decimal;
    MetEmpty("break", a);
    EmitAdds(b, EmptyTag("break", a), [Empty("break")], [BreakBody(f.silenceMs)]);
  }

  /** The tags an unknown tag adds: itself, and before an end tag those of the elements left open inside. */
  function UnknownTags(f: Fragment, tags: seq<StoredTag>): seq<string> {
    var tag := TrimTag(f.text);
    if IsXMLSelfClosingTag(tag) then [Inner(f.text)]
    else if IsXMLClosingTag(tag) then
      match MatchingTag(tags, GetXMLClosingTagName(tag))
      case None => []
      case Some(k) => Closers(tags[k + 1..]) + [Inner(f.text)]
    else [Inner(f.text)]
  }

  lemma ThroughAdds(b: Build, k: nat, text: string)
    requires Read(b.ssml).mode == Text && Stored(b.customTags) && k < |b.customTags| && OneTag(text)
    ensures Adds(b, CloseThrough(b, k, text), Closers(b.customTags[k + 1..]) + [Inner(text)])
  {
    var inner := b.customTags[k + 1..];
    assert Stored(inner);
    hide Met, Adds, Feed, Stored, OneTag, ClosingTags, AllCloseEvents, TagEvents, Inner, Closers;
    MetClosing(inner);
    MetTag(text);
    var closed := Emit(b, ClosingTags(inner), AllCloseEvents(inner));
    EmitAdds(b, ClosingTags(inner), AllCloseEvents(inner), Closers(inner));
    AddsRead(b, closed, Closers(inner));
    EmitAdds(closed, text, TagEvents(text), [Inner(text)]);
    AddsChain(b, closed, Emit(closed, text, TagEvents(text)), Closers(inner), [Inner(text)]);
    AddsSame(b, Emit(closed, text, TagEvents(text)), CloseThrough(b, k, text), Closers(inner) + [Inner(text)]);
  }

  lemma StoredAdds(b: Build, text: StoredTag)
    requires Read(b.ssml).mode == Text && OneTag(text)
    ensures Adds(b, Emit(b, text, TagEvents(text)), [Inner(text)]) && Adds(b, OpenStored(b, text), [Inner(text)])
  {
    hide Met, Adds, Feed, TagEvents, OneTag, Inner;
    MetTag(text);
    EmitAdds(b, text, TagEvents(text), [Inner(text)]);
    AddsSame(b, Emit(b, text, TagEvents(text)), OpenStored(b, text), [Inner(text)]);
  }

  lemma OneTagLong(text: string)
    requires OneTag(text)
    ensures |text| >= 3
  {
  }

  lemma UnknownAdds(f: Fragment, b: Build)
    requires Read(b.ssml).mode == Text && Stored(b.customTags) && OneTag(f.text)
    ensures Adds(b, EmitTag(f, b), UnknownTags(f, b.customTags))
  {
    hide *;
    OneTagLong(f.text);
    StoredAdds(b, f.text);
    AddsNothing(b, b);
    var tag := TrimTag(f.text);
    if IsXMLClosingTag(tag) {
      var m := MatchingTag(b.customTags, GetXMLClosingTagName(tag));
      if m.Some? {
        ThroughAdds(b, m.value, f.text);
      }
    }
    EmitTagIs(f, b);
    UnknownIs(f, b.customTags);
  }

  lemma EmitTagIs(f: Fragment, b: Build)
    requires |f.text| >= 3
    ensures var tag := TrimTag(f.text);
      if IsXMLSelfClosingTag(tag) then EmitTag(f, b) == Emit(b, f.text, TagEvents(f.text))
      else if IsXMLClosingTag(tag) then
        var m := MatchingTag(b.customTags, GetXMLClosingTagName(tag));
        EmitTag(f, b) == if m.None? then b else CloseThrough(b, m.value, f.text)
      else EmitTag(f, b) == OpenStored(b, f.text)
  {
    hide TrimTag, IsXMLSelfClosingTag, IsXMLClosingTag, TagEvents, CloseThrough, OpenStored, MatchingTag, GetXMLClosingTagName;
  }

  lemma UnknownIs(f: Fragment, tags: seq<StoredTag>)
    ensures var tag := TrimTag(f.text);
      if !IsXMLSelfClosingTag(tag) && IsXMLClosingTag(tag) then
        var m := MatchingTag(tags, GetXMLClosingTagName(tag));
        UnknownTags(f, tags) == if m.None? then [] else Closers(tags[m.value + 1..]) + [Inner(f.text)]
      else UnknownTags(f, tags) == [Inner(f.text)]
  {
    hide TrimTag, IsXMLSelfClosingTag, IsXMLClosingTag, Inner, Closers, MatchingTag, GetXMLClosingTagName;
  }

  /** The tags every fragment adds, apart from those opened around it and closed behind it. */
  function OwnPart(v: Voice, f: Fragment, tags: seq<StoredTag>): seq<string> {
    if Speakable(f) then OwnTags(v, f) + OwnEnds(v, f)
    else if v.isEdge then []
    else
      match f.action
      case Bookmark => [MarkBody(f.text)]
      case Silence => [BreakBody(f.silenceMs)]
      case ParseUnknownTag => UnknownTags(f, tags)
      case _ => []
  }

  lemma FragmentAdds(v: Voice, f: Fragment, b: Build)
    requires Read(b.ssml).mode == Text && Stored(b.customTags) && SoundFragment(v, f)
    ensures Adds(b, EmitFragment(v, f, b), OwnPart(v, f, b.customTags))
  {
    hide Adds, Feed, Stored, OneTag, EmitSpoken, EmitTag, OwnTags, OwnEnds, MarkBody, BreakBody, UnknownTags, NoAngles,
      EmptyTag, EscapeMaps, UpToNul, Escape, Attribute, Decimal;
    if Speakable(f) {
      SpokenAdds(v, f, b);
    } else if v.isEdge {
      AddsNothing(b, EmitFragment(v, f, b));
    } else if f.action == Bookmark {
      BookmarkAdds(v, f, b);
    } else if f.action == Silence {
      SilenceAdds(v, f, b);
    } else if f.action == ParseUnknownTag {
      UnknownAdds(f, b);
    } else {
      AddsNothing(b, b);
    }
  }

  // ---- The tags closed behind a fragment ----

  function ClosedTags(level: nat, b: Build): seq<string> {
    (if b.inSayAs && level < 3 then ["/say-as"] else [])
    + (if b.inCustom && level < 2 then Closers(b.customTags) else [])
    + (if b.inEmphasis && level < 2 then ["/emphasis"] else [])
    + (if b.inProsody && level < 1 then ["/prosody"] else [])
  }

  lemma EndAdds(b: Build, name: string)
    requires Read(b.ssml).mode == Text && IsName(name)
    ensures Adds(b, Emit(b, EndTag(name), [Close(name)]), ["/" + name]) && Adds(b, b, [])
  {
    hide Adds, Feed, Met, IsName, EndTag;
    MetEnd(name);
    EmitAdds(b, EndTag(name), [Close(name)], ["/" + name]);
    AddsNothing(b, b);
  }

  lemma CloseOneAdds(level: nat, b: Build)
    requires Read(b.ssml).mode == Text && Stored(b.customTags)
    ensures Adds(b, CloseSayAs(level, b), if b.inSayAs && level < 3 then ["/say-as"] else [])
    ensures Adds(b, CloseCustom(level, b), if b.inCustom && level < 2 then Closers(b.customTags) else [])
    ensures Adds(b, CloseEmphasis(level, b), if b.inEmphasis && level < 2 then ["/emphasis"] else [])
    ensures Adds(b, CloseProsody(level, b), if b.inProsody && level < 1 then ["/prosody"] else [])
  {
    EngineNames();
    EngineInnerNames();
    hide Met, Feed, Tags, EndTag, IsName, Closers, ClosingTags, AllCloseEvents, Stored;
    EndAdds(b, "say-as");
    EndAdds(b, "emphasis");
    EndAdds(b, "prosody");
    assert "/" + "say-as" == "/say-as" && "/" + "emphasis" == "/emphasis" && "/" + "prosody" == "/prosody";
    MetClosing(b.customTags);
    EmitAdds(b, ClosingTags(b.customTags), AllCloseEvents(b.customTags), Closers(b.customTags));
  }

  lemma CloseTagsAdd(level: nat, b: Build)
    requires Read(b.ssml).mode == Text && Stored(b.customTags)
    ensures Adds(b, CloseTags(level, b), ClosedTags(level, b))
  {
    CloseTagsFlags(level, b);
    hide CloseSayAs, CloseCustom, CloseEmphasis, CloseProsody, Adds, Closers, Feed, Stored;
    var b1 := CloseSayAs(level, b);
    var b2 := CloseCustom(level, b1);
    var b3 := CloseEmphasis(level, b2);
    var t1 := if b.inSayAs && level < 3 then ["/say-as"] else [];
    var t2 := if b.inCustom && level < 2 then Closers(b.customTags) else [];
    var t3 := if b.inEmphasis && level < 2 then ["/emphasis"] else [];
    var t4 := if b.inProsody && level < 1 then ["/prosody"] else [];
    CloseOneAdds(level, b);
    AddsRead(b, b1, t1);
    CloseOneAdds(level, b1);
    AddsRead(b1, b2, t2);
    CloseOneAdds(level, b2);
    AddsRead(b2, b3, t3);
    CloseOneAdds(level, b3);
    AddsChain(b, b1, b2, t1, t2);
    AddsChain(b, b2, b3, t1 + t2, t3);
    AddsChain(b, b3, CloseTags(level, b), t1 + t2 + t3, t4);
  }
}
