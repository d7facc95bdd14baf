/** The elements around every text of a translation, and the empty elements between the texts. */
module SsmlPlaces {
  import opened WideText
  import opened XmlReader
  import opened SsmlBuilder
  import opened SsmlReading
  import opened SsmlNesting
  import opened SsmlStyle
  import opened SsmlTags

  // ---- How added tags change what is open ----

  predicate AllOpen(tags: seq<string>) {
    forall i :: 0 <= i < |tags| ==> ReadTag(tags[i]).Some? && ReadTag(tags[i]).value.Open?
  }

  predicate AllClose(tags: seq<string>) {
    forall i :: 0 <= i < |tags| ==> ReadTag(tags[i]).Some? && ReadTag(tags[i]).value.Close?
  }

  /** `open` are the start tags of the elements around the place where `b` goes on. */
  predicate Inside(b: Build, open: seq<string>) {
    Read(b.ssml).mode == Text && Enclosing(b.ssml) == open
  }

  lemma InsideOpens(b: Build, r: Build, open: seq<string>, tags: seq<string>)
    requires Inside(b, open) && Adds(b, r, tags) && AllOpen(tags)
    ensures Inside(r, open + tags)
  {
    hide Feed, Tags, StillOpen, ReadTag;
    OpenConcat([], Tags(b.ssml), tags);
    AllPushed(open, tags);
  }

  lemma InsideCloses(b: Build, r: Build, open: seq<string>, inner: seq<string>, tags: seq<string>)
    requires Inside(b, open + inner) && Adds(b, r, tags) && AllClose(tags) && |tags| == |inner|
    ensures Inside(r, open)
  {
    hide Feed, Tags, StillOpen, ReadTag;
    OpenConcat([], Tags(b.ssml), tags);
    AllPopped(open, inner, tags);
  }

  lemma InsideSame(b: Build, r: Build, open: seq<string>)
    requires Inside(b, open) && Adds(b, r, [])
    ensures Inside(r, open)
  {
    hide Feed, Tags, StillOpen;
    assert Tags(b.ssml) + [] == Tags(b.ssml);
  }

  lemma InsideEmpty(b: Build, r: Build, open: seq<string>, tag: string)
    requires Inside(b, open) && Adds(b, r, [tag]) && ReadTag(tag).Some? && ReadTag(tag).value.Empty?
    ensures Inside(r, open)
  {
    hide Feed, Tags, ReadTag;
    OpenConcat([], Tags(b.ssml), [tag]);
    assert [tag][..0] == [];
  }

  lemma InsideChain(b: Build, r: Build, open: seq<string>, x: string, y: string)
    requires Inside(b, open) && Adds(b, r, [x] + [y])
    requires ReadTag(x).Some? && ReadTag(x).value.Open? && ReadTag(y).Some? && ReadTag(y).value.Close?
    ensures Inside(r, open)
  {
    hide Feed, Tags, ReadTag, StillOpen;
    OpenConcat([], Tags(b.ssml), [x] + [y]);
    OpenConcat(open, [x], [y]);
    AllPushed(open, [x]);
    AllPopped(open, [x], [y]);
  }

  lemma InsideSameText(b: Build, r: Build, open: seq<string>)
    requires Inside(b, open) && r.ssml == b.ssml
    ensures Inside(r, open)
  {
  }

  // ---- The stored tags ----

  lemma {:induction false} InnersOpen(tags: seq<StoredTag>)
    requires Stored(tags)
    ensures |Inners(tags)| == |tags| && AllOpen(Inners(tags))
  {
    hide ReadTag, Inner, Find, NoAngles, AllSpaces;
    if tags != [] {
      assert OpeningTag(tags[|tags| - 1]);
      InnersOpen(tags[..|tags| - 1]);
    }
  }

  lemma {:induction false} ClosersClose(tags: seq<StoredTag>)
    requires Stored(tags)
    ensures |Closers(tags)| == |tags| && AllClose(Closers(tags))
  {
    hide ReadTag, Closer, OpeningTag, Met;
    if tags != [] {
      MetCloser(tags[|tags| - 1]);
      ClosersClose(tags[..|tags| - 1]);
    }
  }

  lemma {:induction false} InnersConcat(a: seq<StoredTag>, b: seq<StoredTag>)
    ensures Inners(a + b) == Inners(a) + Inners(b)
  {
    hide Inner;
    if b == [] {
      assert a + b == a;
    } else {
      InnersConcat(a, b[..|b| - 1]);
      assert (a + b)[..|a + b| - 1] == a + b[..|b| - 1];
    }
  }

  lemma InnersAppend(a: seq<StoredTag>, t: StoredTag)
    ensures Inners(a + [t]) == Inners(a) + [Inner(t)]
  {
    assert (a + [t])[..|a|] == a;
    hide Inner;
  }

  // ---- The elements around every place ----

  /** Root, voice, prosody and emphasis; the prosody element is the one written for `p`. */
  function Outer(v: Voice, p: Fragment, b: Build): seq<string> {
    ["speak" + SpeakAttributes(v)]
    + (if v.name != "" then ["voice" + Attribute("name", v.name)] else [])
    + (if b.inProsody then [ProsodyBody(v, p)] else [])
    + (if b.inEmphasis then ["emphasis"] else [])
  }

  /** All that the flags say is open; the say-as element is the one written for `s`. */
  function Around(v: Voice, p: Fragment, s: Fragment, b: Build): seq<string> {
    Outer(v, p, b)
    + (if b.inCustom then Inners(b.customTags) else [])
    + (if b.inSayAs then [SayAsBody(s.category)] else [])
  }

  lemma OpenProsodyAround(v: Voice, f: Fragment, p: Fragment, s: Fragment, b: Build)
    requires Inside(b, Around(v, p, s, b)) && Ready(v, f, b)
    ensures var r := OpenProsody(v, f, b); Inside(r, Around(v, if b.inProsody then p else f, s, r)) && Ready(v, f, r)
    ensures !v.isEdge ==> OpenProsody(v, f, b).inProsody || ProsodyOf(v, f) == PLAIN
  {
    hide Inside, Adds, ReadTag, ProsodyOf, ProsodyBody, SpeakAttributes, Attribute, SayAsBody, Inners, ProsodyAttributes, Feed, StartTag;
    var r := OpenProsody(v, f, b);
    InsideText(b, Around(v, p, s, b));
    OpenProsodyAdds(v, f, b);
    OpenProsodyChanges(v, f, b);
    hide OpenProsody;
    if OpensProsody(v, f, b) {
      assert v.isEdge ==> b.customTags == [] && Inners(b.customTags) == [] by { InnersNone(); }
      InsideOpens(b, r, Around(v, p, s, b), [ProsodyBody(v, f)]);
      assert Around(v, f, s, r) == Around(v, p, s, b) + [ProsodyBody(v, f)];
    } else {
      InsideSame(b, r, Around(v, p, s, b));
    }
  }

  lemma InnersNone()
    ensures Inners([]) == []
  {
  }

  lemma InsideText(b: Build, open: seq<string>)
    requires Inside(b, open)
    ensures Read(b.ssml).mode == Text
  {
    hide Feed, Tags;
  }

  lemma OpenEmphasisAround(v: Voice, f: Fragment, p: Fragment, s: Fragment, b: Build)
    requires Inside(b, Around(v, p, s, b)) && Ready(v, f, b) && (!v.isEdge ==> b.inProsody || ProsodyOf(v, f) == PLAIN)
    ensures var r := OpenEmphasis(v, f, b);
      && Inside(r, Around(v, p, s, r))
      && (if v.isEdge then r == b else (r.inEmphasis || f.emphAdj == 0) && (r.inSayAs ==> r.inCustom && f.action == Speak))
  {
    hide Inside, Adds, ReadTag, ProsodyOf, ProsodyBody, SpeakAttributes, Attribute, SayAsBody, Inners, Feed, StartTag;
    var r := OpenEmphasis(v, f, b);
    InsideText(b, Around(v, p, s, b));
    OpenEmphasisAdds(v, f, b);
    OpenEmphasisChanges(v, f, b);
    if r != b {
      InsideOpens(b, r, Around(v, p, s, b), ["emphasis"]);
      assert Around(v, p, s, r) == Around(v, p, s, b) + ["emphasis"];
    }
  }

  lemma ReopenAround(v: Voice, p: Fragment, s: Fragment, b: Build)
    requires Inside(b, Around(v, p, s, b)) && Stored(b.customTags) && (b.inSayAs ==> b.inCustom)
    ensures Inside(ReopenCustom(b), Around(v, p, s, ReopenCustom(b)))
  {
    hide Inside, Adds, ReadTag, ProsodyBody, SpeakAttributes, Attribute, SayAsBody, Inners, Feed, Concat, AllTagEvents, Stored;
    var r := ReopenCustom(b);
    InsideText(b, Around(v, p, s, b));
    ReopenAdds(b);
    OpenCustomFlags(b);
    InnersOpen(b.customTags);
    if !b.inCustom {
      InsideOpens(b, r, Around(v, p, s, b), Inners(b.customTags));
      assert Around(v, p, s, r) == Around(v, p, s, b) + Inners(b.customTags);
    }
  }

  lemma OpenSayAsAround(v: Voice, f: Fragment, p: Fragment, s: Fragment, b: Build)
    requires Inside(b, Around(v, p, s, b)) && (!v.isEdge && f.category.Some? ==> NoAngles(f.category.value))
    ensures var r := OpenSayAs(v, f, b); Inside(r, Around(v, p, if b.inSayAs then s else f, r))
  {
    hide Inside, Adds, ReadTag, ProsodyBody, SpeakAttributes, Attribute, SayAsBody, Inners, Feed, StartTag, Interpretation;
    var r := OpenSayAs(v, f, b);
    InsideText(b, Around(v, p, s, b));
    OpenSayAsAdds(v, f, b);
    OpenSayAsFlags(v, f, b);
    hide OpenSayAs;
    if SayAsTags(v, f, b) != [] {
      InsideOpens(b, r, Around(v, p, s, b), [SayAsBody(f.category)]);
      assert Around(v, p, f, r) == Around(v, p, s, b) + [SayAsBody(f.category)];
    } else {
      InsideSame(b, r, Around(v, p, s, b));
      assert Around(v, p, if b.inSayAs then s else f, r) == Around(v, p, s, b);
    }
  }

  lemma OpenTagsAround(v: Voice, f: Fragment, p: Fragment, s: Fragment, b: Build)
    requires Inside(b, Around(v, p, s, b)) && Ready(v, f, b) && Stored(b.customTags) && SoundFragment(v, f)
    ensures var r := OpenTags(v, f, b);
      Inside(r, Around(v, if b.inProsody then p else f, if b.inSayAs then s else f, r))
  {
    hide Inside, Around, ProsodyOf, OpenProsody, ReopenCustom, OpenEmphasis, OpenSayAs, Stored, OpenTags, OneTag, NoAngles;
    var b0 := b.(hasText := b.hasText || (f.action != Bookmark && f.text != ""));
    var q, t := if b.inProsody then p else f, if b.inSayAs then s else f;
    OpenTagsIs(v, f, b);
    NotedAround(v, p, s, b, b0.hasText);
    var b1 := OpenProsody(v, f, b0);
    OpenProsodyAround(v, f, p, s, b0);
    OpenProsodyChanges(v, f, b0);
    var b2 := OpenEmphasis(v, f, b1);
    OpenEmphasisAround(v, f, q, s, b1);
    OpenEmphasisChanges(v, f, b1);
    var b3 := ReopenCustom(b2);
    OpenCustomFlags(b2);
    ReopenAround(v, q, s, b2);
    OpenSayAsAround(v, f, q, s, b3);
  }

  lemma NotedAround(v: Voice, p: Fragment, s: Fragment, b: Build, hasText: bool)
    requires Inside(b, Around(v, p, s, b))
    ensures Inside(b.(hasText := hasText), Around(v, p, s, b.(hasText := hasText)))
  {
    hide Enclosing, ProsodyBody, SayAsBody, SpeakAttributes, Attribute, Inners, Feed;
  }

  // ---- Writing a fragment ----

  lemma SpokenInside(v: Voice, f: Fragment, b: Build, open: seq<string>)
    requires Inside(b, open) && Speakable(f)
    ensures Inside(EmitSpoken(v, f, b), open)
  {
    hide Inside, Adds, ReadTag, EmitSpoken, Feed, OwnAttributes, OwnName, Met;
    InsideText(b, open);
    SpokenAdds(v, f, b);
    LeadMet(v, f, b.ssml);
    if OwnTags(v, f) == [] {
      assert OwnTags(v, f) + OwnEnds(v, f) == [];
      InsideSame(b, EmitSpoken(v, f, b), open);
    } else {
      InsideChain(b, EmitSpoken(v, f, b), open, OwnName(f) + OwnAttributes(f), "/" + OwnName(f));
    }
  }

  lemma UnknownAround(v: Voice, f: Fragment, p: Fragment, s: Fragment, b: Build)
    requires Inside(b, Around(v, p, s, b)) && b.inCustom && !b.inSayAs && Stored(b.customTags) && OneTag(f.text)
    ensures Inside(EmitTag(f, b), Around(v, p, s, EmitTag(f, b)))
  {
    hide *;
    InsideText(b, Around(v, p, s, b));
    OneTagLong(f.text);
    UnknownAdds(f, b);
    EmitTagIs(f, b);
    UnknownIs(f, b.customTags);
    TagKinds(f.text);
    ReadsInner(f.text);
    EmitTagFlags(f, b);
    EmitTagTags(f, b);
    AroundCustom(v, p, s, b);
    SameOuter(v, p, b, EmitTag(f, b));
    AroundCustom(v, p, s, EmitTag(f, b));
    var tag, inner := TrimTag(f.text), Inner(f.text);
    if IsXMLSelfClosingTag(tag) {
      InsideEmpty(b, EmitTag(f, b), Around(v, p, s, b), inner);
    } else if IsXMLClosingTag(tag) {
      var m := MatchingTag(b.customTags, GetXMLClosingTagName(tag));
      if m.Some? {
        ThroughAround(v, p, b, EmitTag(f, b), m.value, inner);
      }
    } else {
      OpensInner(inner);
      InsideOpens(b, EmitTag(f, b), Around(v, p, s, b), [inner]);
      InnersAppend(b.customTags, f.text);
      assert Outer(v, p, b) + (Inners(b.customTags) + [inner]) == (Outer(v, p, b) + Inners(b.customTags)) + [inner];
    }
  }

  lemma ReadsInner(text: string)
    requires OneTag(text)
    ensures ReadTag(Inner(text)).Some? && !ReadTag(Inner(text)).value.Char?
  {
  }

  lemma OpensInner(body: string)
    requires ReadTag(body).Some? && ReadTag(body).value.Open?
    ensures AllOpen([body])
  {
    hide ReadTag;
  }

  lemma AroundCustom(v: Voice, p: Fragment, s: Fragment, b: Build)
    requires b.inCustom && !b.inSayAs
    ensures Around(v, p, s, b) == Outer(v, p, b) + Inners(b.customTags)
  {
    hide Outer, Inners;
  }

  lemma SameOuter(v: Voice, p: Fragment, b: Build, r: Build)
    requires SameFlags(r, b)
    ensures Outer(v, p, r) == Outer(v, p, b) && r.inCustom == b.inCustom && r.inSayAs == b.inSayAs
  {
    hide SpeakAttributes, Attribute, ProsodyBody;
  }

  /** An end tag closes its element and those left open inside. */
  lemma ThroughAround(v: Voice, p: Fragment, b: Build, r: Build, k: nat, text: string)
    requires k < |b.customTags| && Stored(b.customTags) && ReadTag(text).Some? && ReadTag(text).value.Close?
    requires Inside(b, Outer(v, p, b) + Inners(b.customTags)) && Adds(b, r, Closers(b.customTags[k + 1..]) + [text])
    ensures Inside(r, Outer(v, p, b) + Inners(b.customTags[..k]))
  {
    hide *;
    var kept, closed := b.customTags[..k], b.customTags[k..];
    assert kept + closed == b.customTags;
    InnersConcat(kept, closed);
    StoredParts(b.customTags, k);
    InnersOpen(closed);
    ClosersClose(b.customTags[k + 1..]);
    OneMoreClose(Closers(b.customTags[k + 1..]), text);
    JoinTags(Outer(v, p, b), Inners(kept), Inners(closed));
    InsideCloses(b, r, Outer(v, p, b) + Inners(kept), Inners(closed), Closers(b.customTags[k + 1..]) + [text]);
  }

  lemma StoredParts(tags: seq<StoredTag>, k: nat)
    requires Stored(tags) && k < |tags|
    ensures Stored(tags[k..]) && Stored(tags[k + 1..])
  {
    hide OpeningTag;
  }

  lemma OneMoreClose(tags: seq<string>, tag: string)
    requires AllClose(tags) && ReadTag(tag).Some? && ReadTag(tag).value.Close?
    ensures AllClose(tags + [tag])
  {
    hide ReadTag;
  }

  lemma FragmentAround(v: Voice, f: Fragment, p: Fragment, s: Fragment, b: Build)
    requires Inside(b, Around(v, p, s, b)) && Writing(v, f, b) && Stored(b.customTags) && SoundFragment(v, f)
    ensures Inside(EmitFragment(v, f, b), Around(v, p, s, EmitFragment(v, f, b)))
  {
    hide Inside, Around, ProsodyOf, Adds, EmitSpoken, EmitBookmark, EmitTag, MarkBody, BreakBody, Stored, OneTag, NoAngles, ReadTag,
      EmptyTag, Attribute, Decimal, Feed;
    var r := EmitFragment(v, f, b);
    InsideText(b, Around(v, p, s, b));
    if f.action != ParseUnknownTag || v.isEdge {
      SameAround(v, f, p, s, b);
    }
    if Speakable(f) {
      SpokenInside(v, f, b, Around(v, p, s, b));
    } else if f.action == Bookmark {
      if v.isEdge {
        EdgeBookmark(v, f, b);
        InsideSameText(b, r, Around(v, p, s, b));
      } else {
        BookmarkAdds(v, f, b);
        InsideEmpty(b, r, Around(v, p, s, b), MarkBody(f.text));
      }
    } else if v.isEdge {
    } else if f.action == Silence {
      SilenceAdds(v, f, b);
      InsideEmpty(b, r, Around(v, p, s, b), BreakBody(f.silenceMs));
    } else if f.action == ParseUnknownTag {
      UnknownAround(v, f, p, s, b);
    }
  }

  lemma EdgeBookmark(v: Voice, f: Fragment, b: Build)
    requires v.isEdge
    ensures EmitBookmark(v, f, b).ssml == b.ssml
  {
    hide Escape, EscapeMaps, UpToNul, EmptyTag, Attribute;
  }

  /** Only an unknown tag changes what should be open. */
  lemma SameAround(v: Voice, f: Fragment, p: Fragment, s: Fragment, b: Build)
    requires f.action != ParseUnknownTag || v.isEdge
    ensures Around(v, p, s, EmitFragment(v, f, b)) == Around(v, p, s, b)
  {
    EmitFragmentFlags(v, f, b);
    EmitFragmentTags(v, f, b);
    hide EmitFragment, SpeakAttributes, Attribute, ProsodyBody, SayAsBody, Inners;
  }

  // ---- Closing ----

  lemma EndOf(name: string)
    requires IsName(name)
    ensures AllClose(["/" + name])
  {
    ReadClose(name);
    hide ReadTag, IsName;
  }

  lemma CloseSayAsAround(v: Voice, p: Fragment, s: Fragment, level: nat, b: Build)
    requires Inside(b, Around(v, p, s, b)) && Stored(b.customTags)
    ensures Inside(CloseSayAs(level, b), Around(v, p, s, CloseSayAs(level, b)))
  {
    EngineInnerNames();
    hide Inside, Adds, AllClose, Outer, Inners, SayAsBody, Feed, IsName, CloseCustom, CloseEmphasis, CloseProsody, Stored;
    InsideText(b, Around(v, p, s, b));
    CloseOneAdds(level, b);
    CloseOneFlags(level, b);
    EndOf("say-as");
    assert "/" + "say-as" == "/say-as";
    var r := CloseSayAs(level, b);
    SameOuterFlags(v, p, b, r);
    hide CloseSayAs;
    if b.inSayAs && level < 3 {
      assert Around(v, p, s, b) == Around(v, p, s, r) + [SayAsBody(s.category)];
      InsideCloses(b, r, Around(v, p, s, r), [SayAsBody(s.category)], ["/say-as"]);
    } else {
      InsideSame(b, r, Around(v, p, s, b));
    }
  }

  lemma SameOuterFlags(v: Voice, p: Fragment, b: Build, r: Build)
    requires r.inProsody == b.inProsody && r.inEmphasis == b.inEmphasis
    ensures Outer(v, p, r) == Outer(v, p, b)
  {
    hide SpeakAttributes, Attribute, ProsodyBody;
  }

  lemma CloseCustomAround(v: Voice, p: Fragment, s: Fragment, level: nat, b: Build)
    requires Inside(b, Around(v, p, s, b)) && Stored(b.customTags) && (level < 2 ==> !b.inSayAs)
    ensures Inside(CloseCustom(level, b), Around(v, p, s, CloseCustom(level, b)))
  {
    hide Inside, Adds, AllClose, Outer, Inners, Closers, SayAsBody, Feed, CloseSayAs, CloseEmphasis, CloseProsody, Stored, AllOpen;
    InsideText(b, Around(v, p, s, b));
    CloseOneAdds(level, b);
    CloseOneFlags(level, b);
    InnersOpen(b.customTags);
    ClosersClose(b.customTags);
    var r := CloseCustom(level, b);
    SameOuterFlags(v, p, b, r);
    hide CloseCustom;
    if b.inCustom && level < 2 {
      assert Around(v, p, s, b) == Around(v, p, s, r) + Inners(b.customTags);
      InsideCloses(b, r, Around(v, p, s, r), Inners(b.customTags), Closers(b.customTags));
    } else {
      InsideSame(b, r, Around(v, p, s, b));
    }
  }

  lemma CloseEmphasisAround(v: Voice, p: Fragment, s: Fragment, level: nat, b: Build)
    requires Inside(b, Around(v, p, s, b)) && Stored(b.customTags) && (level < 2 ==> !b.inSayAs && !b.inCustom)
    ensures Inside(CloseEmphasis(level, b), Around(v, p, s, CloseEmphasis(level, b)))
  {
    EngineNames();
    hide Inside, Adds, AllClose, Inners, SayAsBody, SpeakAttributes, Attribute, ProsodyBody, Feed, IsName, CloseCustom, CloseSayAs,
      CloseProsody, Stored;
    InsideText(b, Around(v, p, s, b));
    CloseOneAdds(level, b);
    CloseOneFlags(level, b);
    EndOf("emphasis");
    assert "/" + "emphasis" == "/emphasis";
    var r := CloseEmphasis(level, b);
    hide CloseEmphasis;
    if b.inEmphasis && level < 2 {
      assert Around(v, p, s, b) == Around(v, p, s, r) + ["emphasis"];
      InsideCloses(b, r, Around(v, p, s, r), ["emphasis"], ["/emphasis"]);
    } else {
      InsideSame(b, r, Around(v, p, s, b));
    }
  }

  lemma CloseProsodyAround(v: Voice, p: Fragment, s: Fragment, level: nat, b: Build)
    requires Inside(b, Around(v, p, s, b)) && Stored(b.customTags)
    requires level < 1 ==> !b.inSayAs && !b.inCustom && !b.inEmphasis
    ensures Inside(CloseProsody(level, b), Around(v, p, s, CloseProsody(level, b)))
  {
    EngineNames();
    hide Inside, Adds, AllClose, Inners, SayAsBody, SpeakAttributes, Attribute, ProsodyBody, Feed, IsName, CloseCustom, CloseSayAs,
      CloseEmphasis, Stored;
    InsideText(b, Around(v, p, s, b));
    CloseOneAdds(level, b);
    CloseOneFlags(level, b);
    EndOf("prosody");
    assert "/" + "prosody" == "/prosody";
    var r := CloseProsody(level, b);
    hide CloseProsody;
    if b.inProsody && level < 1 {
      assert Around(v, p, s, b) == Around(v, p, s, r) + [ProsodyBody(v, p)];
      InsideCloses(b, r, Around(v, p, s, r), [ProsodyBody(v, p)], ["/prosody"]);
    } else {
      InsideSame(b, r, Around(v, p, s, b));
    }
  }

  lemma CloseTagsAround(v: Voice, p: Fragment, s: Fragment, level: nat, b: Build)
    requires Inside(b, Around(v, p, s, b)) && Stored(b.customTags)
    ensures Inside(CloseTags(level, b), Around(v, p, s, CloseTags(level, b)))
  {
    CloseTagsFlags(level, b);
    hide Inside, Around, Stored, CloseSayAs, CloseCustom, CloseEmphasis, CloseProsody;
    var b1 := CloseSayAs(level, b);
    var b2 := CloseCustom(level, b1);
    CloseSayAsAround(v, p, s, level, b);
    CloseCustomAround(v, p, s, level, b1);
    CloseEmphasisAround(v, p, s, level, b2);
    CloseProsodyAround(v, p, s, level, CloseEmphasis(level, b2));
  }

  // ---- Whole runs ----

  lemma RootInside(v: Voice, root: Build)
    requires NoAngles(v.locale) && root.ssml == StartTag("speak", SpeakAttributes(v))
    ensures Inside(root, ["speak" + SpeakAttributes(v)])
  {
    hide *;
    EngineNames();
    var a := SpeakAttributes(v);
    SpeakAttributesSound(v);
    MetStart("speak", a);
    var none := root.(ssml := "");
    NothingInside(none);
    EmitAdds(none, StartTag("speak", a), [], ["speak" + a]);
    EmitFirst(none, StartTag("speak", a));
    AddsSame(none, Emit(none, StartTag("speak", a), []), root, ["speak" + a]);
    OpensInner("speak" + a);
    InsideOpens(none, root, [], ["speak" + a]);
    assert [] + ["speak" + a] == ["speak" + a];
  }

  lemma EmitFirst(b: Build, piece: string)
    requires b.ssml == ""
    ensures Emit(b, piece, []).ssml == piece
  {
    assert "" + piece == piece;
  }

  lemma VoiceInside(v: Voice, root: Build, open: seq<string>)
    requires NoAngles(v.name) && Inside(root, open)
    ensures Inside(Emit(root, StartTag("voice", Attribute("name", v.name)), [Open("voice")]), open + ["voice" + Attribute("name", v.name)])
  {
    hide *;
    EngineNames();
    PlainName();
    AttributeIs("name", v.name);
    var a := Attribute("name", v.name);
    MetStart("voice", a);
    InsideText(root, open);
    EmitAdds(root, StartTag("voice", a), [Open("voice")], ["voice" + a]);
    OpensInner("voice" + a);
    InsideOpens(root, Emit(root, StartTag("voice", a), [Open("voice")]), open, ["voice" + a]);
  }

  lemma PlainName()
    ensures NoAngles("name")
  {
  }

  lemma BeginAround(v: Voice, p: Fragment, s: Fragment)
    requires NoAngles(v.locale) && NoAngles(v.name)
    ensures Inside(Begin(v), Around(v, p, s, Begin(v)))
  {
    hide SpeakAttributes, Attribute, StartTag, Inside, ProsodyBody, SayAsBody, Inners;
    BeginIs(v);
    var root := Begin(v).(ssml := StartTag("speak", SpeakAttributes(v)));
    RootInside(v, root);
    VoiceInside(v, root, ["speak" + SpeakAttributes(v)]);
    hide Begin;
    if v.name == "" {
      assert root.ssml == Begin(v).ssml;
      assert Around(v, p, s, Begin(v)) == ["speak" + SpeakAttributes(v)];
      InsideSameText(root, Begin(v), ["speak" + SpeakAttributes(v)]);
    } else {
      assert Around(v, p, s, Begin(v)) == ["speak" + SpeakAttributes(v)] + ["voice" + Attribute("name", v.name)];
      InsideSameText(Emit(root, StartTag("voice", Attribute("name", v.name)), [Open("voice")]), Begin(v),
        ["speak" + SpeakAttributes(v)] + ["voice" + Attribute("name", v.name)]);
    }
  }

  lemma NothingInside(b: Build)
    requires b.ssml == ""
    ensures Read(b.ssml).mode == Text && Inside(b, [])
  {
  }

  lemma BeginIs(v: Voice)
    ensures Begin(v).ssml == StartTag("speak", SpeakAttributes(v))
      + if v.name != "" then StartTag("voice", Attribute("name", v.name)) else ""
    ensures AllClosed(Begin(v))
  {
    hide SpeakAttributes, Attribute, StartTag;
    assert StartTag("speak", SpeakAttributes(v)) + "" == StartTag("speak", SpeakAttributes(v));
  }

  /** What is around fragment `i` while it is written. */
  function AroundWritten(v: Voice, frags: seq<Fragment>, i: nat): seq<string>
    requires i < |frags|
  {
    Around(v, frags[ProsodyOpener(v, frags, i)], frags[SayAsOpener(v, frags, i)], Written(v, frags, i))
  }

  predicate RunInside(v: Voice, frags: seq<Fragment>, n: nat)
    requires 0 < n <= |frags|
  {
    Inside(Run(v, frags, n), Around(v, frags[ProsodyOpener(v, frags, n - 1)], frags[SayAsOpener(v, frags, n - 1)], Run(v, frags, n)))
  }

  /** While a fragment is written the open elements are those the flags say, opened for the fragments told by SsmlStyle. */
  lemma {:induction false} WrittenInside(v: Voice, frags: seq<Fragment>, i: nat)
    requires i < |frags| && Sound(v, frags)
    ensures Inside(OpenTags(v, frags[i], Run(v, frags, i)),
      Around(v, frags[ProsodyOpener(v, frags, i)], frags[SayAsOpener(v, frags, i)], OpenTags(v, frags[i], Run(v, frags, i))))
    ensures Inside(Written(v, frags, i), AroundWritten(v, frags, i))
    ensures RunInside(v, frags, i + 1)
  {
    hide Inside, Around, Run, OpenTags, EmitFragment, CloseTags, Stored, SoundFragment, Ready, Writing, Begin, NoAngles, OneTag;
    var f, b := frags[i], Run(v, frags, i);
    assert f in frags;
    RunReads(v, frags, i);
    RunNests(false, v, frags, i);
    SoundAt(v, frags, i);
    if i == 0 {
      RunStart(v, frags);
      BeginAround(v, f, f);
      OpenTagsAround(v, f, f, f, b);
    } else {
      WrittenInside(v, frags, i - 1);
      OpenTagsAround(v, f, frags[ProsodyOpener(v, frags, i - 1)], frags[SayAsOpener(v, frags, i - 1)], b);
    }
    var p, s := frags[ProsodyOpener(v, frags, i)], frags[SayAsOpener(v, frags, i)];
    OpenTagsNest(false, false, v, f, b);
    FragmentAround(v, f, p, s, OpenTags(v, f, b));
    var w := Written(v, frags, i);
    OpenTagsReads(v, f, b);
    EmitFragmentReads(v, f, OpenTags(v, f, b));
    RunNext(v, frags, i);
    CloseTagsAround(v, p, s, LevelAfter(v, frags, i, w.prosodyCount), w);
  }
}
