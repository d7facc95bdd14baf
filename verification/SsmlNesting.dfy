/** Element Type Match (XML 1.0 section 3) for every translated fragment list. */
module SsmlNesting {
  import opened WideText
  import opened XmlReader
  import opened SsmlBuilder
  import opened SsmlReading

  function Names(tags: seq<StoredTag>): seq<string> {
    if tags == [] then [] else Names(tags[..|tags| - 1]) + [ElementName(tags[|tags| - 1])]
  }

  /** The elements the flags say are open inside the root, outermost first. */
  function Stack(v: Voice, b: Build): seq<string> {
    (if v.name != "" then ["voice"] else [])
    + (if b.inProsody then ["prosody"] else [])
    + (if b.inEmphasis then ["emphasis"] else [])
    + (if b.inCustom then Names(b.customTags) else [])
    + (if b.inSayAs then ["say-as"] else [])
  }

  /** What has been written leaves open exactly what the flags say, unless a name was already mismatched. */
  predicate Nested(exact: bool, spoiled: bool, v: Voice, b: Build) {
    Nest(exact, Some([]), b.events) == if spoiled then None else Some(Stack(v, b))
  }

  /** Nothing has to be opened outside a tag that is still open when `f` comes next. */
  predicate Ready(v: Voice, f: Fragment, b: Build) {
    if v.isEdge then !b.inEmphasis && !b.inSayAs && b.customTags == []
    else
      && (b.inEmphasis ==> b.inCustom)
      && (b.inSayAs ==> b.inCustom && f.action == Speak)
      && (b.inCustom ==> (b.inProsody || ProsodyOf(v, f) == PLAIN) && (b.inEmphasis || f.emphAdj == 0))
  }

  /** What holds while `f` is being written. */
  predicate Writing(v: Voice, f: Fragment, b: Build) {
    && b.inCustom
    && (if v.isEdge then !b.inEmphasis && !b.inSayAs && b.customTags == []
        else
          && (b.inProsody || ProsodyOf(v, f) == PLAIN)
          && (b.inEmphasis || f.emphAdj == 0)
          && (b.inSayAs ==> f.action == Speak))
  }

  predicate AllClosed(b: Build) {
    !b.inProsody && !b.inEmphasis && !b.inCustom && !b.inSayAs
  }

  /** The end tag in `f` closes a stored tag whose name is spelled with other letter case. */
  predicate MisCasedAt(v: Voice, f: Fragment, tags: seq<StoredTag>) {
    && !v.isEdge && f.action == ParseUnknownTag
    && var tag := TrimTag(f.text);
       && !IsXMLSelfClosingTag(tag) && IsXMLClosingTag(tag)
       && var m := MatchingTag(tags, GetXMLClosingTagName(tag));
          m.Some? && GetXMLTagName(tags[m.value]) != GetXMLClosingTagName(tag)
  }

  /** The unknown tags left open after one more fragment, told from its text alone. */
  function TagsAfter(v: Voice, f: Fragment, tags: seq<StoredTag>): seq<StoredTag> {
    if v.isEdge || f.action != ParseUnknownTag then tags
    else
      var tag := TrimTag(f.text);
      if IsXMLSelfClosingTag(tag) then tags
      else if IsXMLClosingTag(tag) then
        match MatchingTag(tags, GetXMLClosingTagName(tag))
        case None => tags
        case Some(k) => tags[..k]
      else if |f.text| >= 3 then tags + [f.text]
      else tags
  }

  /** The unknown tags left open after the first `n` fragments. */
  function OpenAfter(v: Voice, frags: seq<Fragment>, n: nat): seq<StoredTag>
    requires n <= |frags|
  {
    if n == 0 then [] else TagsAfter(v, frags[n - 1], OpenAfter(v, frags, n - 1))
  }

  /** Some end tag closes a tag that is open then and spelled with other letter case. */
  predicate MisCased(v: Voice, frags: seq<Fragment>, n: nat)
    requires n <= |frags|
  {
    exists i :: 0 <= i < n && MisCasedAt(v, frags[i], OpenAfter(v, frags, i))
  }

  // ---- Custom tags ----

  lemma NestTag(exact: bool, base: seq<string>, text: string)
    requires OpeningTag(text)
    ensures Nest(exact, Some(base), TagEvents(text)) == Some(base + [ElementName(text)])
  {
    OpeningEvents(text);
    hide OpeningTag, TagEvents, ElementName, Trail, Chars, Nest;
    NestConcat(exact, Some(base), [Open(ElementName(text))], Chars(Trail(text)));
    NestChars(exact, Some(base + [ElementName(text)]), Trail(text));
    NestSingle(exact, Some(base), Open(ElementName(text)));
  }

  lemma OpeningEvents(text: string)
    requires OpeningTag(text)
    ensures TagEvents(text) == [Open(ElementName(text))] + Chars(Trail(text))
  {
    hide NoAngles, AllSpaces, Find, Chars;
  }

  lemma NestSingle(exact: bool, open: Option<seq<string>>, e: Event)
    ensures Nest(exact, open, [e]) == NestOne(exact, open, e)
  {
    assert [e][..0] == [];
  }

  lemma {:induction false} NestOpens(exact: bool, base: seq<string>, tags: seq<StoredTag>)
    requires Stored(tags)
    ensures Nest(exact, Some(base), AllTagEvents(tags)) == Some(base + Names(tags))
  {
    hide TagEvents, OpeningTag, ElementName;
    if tags == [] {
      assert base + [] == base;
    } else {
      var rest, last := tags[..|tags| - 1], tags[|tags| - 1];
      NestOpens(exact, base, rest);
      NestConcat(exact, Some(base), AllTagEvents(rest), TagEvents(last));
      NestTag(exact, base + Names(rest), last);
      assert base + Names(rest) + [ElementName(last)] == base + Names(tags);
    }
  }

  lemma NestClose(exact: bool, base: seq<string>, text: string)
    ensures Nest(exact, Some(base + [ElementName(text)]), CloseEvents(text)) == Some(base)
  {
    var open := Some(base + [ElementName(text)]);
    NestSingle(exact, open, Close(ElementName(text)));
    assert (base + [ElementName(text)])[..|base|] == base;
    if Sloppy(text) {
      NestConcat(exact, open, [Close(ElementName(text))], [Char('>')]);
      NestSingle(exact, Some(base), Char('>'));
    } else {
      assert [Close(ElementName(text))] + [] == [Close(ElementName(text))];
    }
  }

  lemma {:induction false} NestCloses(exact: bool, base: seq<string>, tags: seq<StoredTag>)
    ensures Nest(exact, Some(base + Names(tags)), AllCloseEvents(tags)) == Some(base)
  {
    if tags == [] {
      assert base + [] == base;
    } else {
      var rest, last := tags[..|tags| - 1], tags[|tags| - 1];
      var mid := base + Names(rest);
      assert base + Names(tags) == mid + [ElementName(last)];
      NestConcat(exact, Some(mid + [ElementName(last)]), CloseEvents(last), AllCloseEvents(rest));
      NestClose(exact, mid, last);
      NestCloses(exact, base, rest);
    }
  }

  lemma NamesAppend(a: seq<StoredTag>, t: StoredTag)
    ensures Names(a + [t]) == Names(a) + [ElementName(t)]
  {
    assert (a + [t])[..|a|] == a;
    hide ElementName;
  }

  lemma NamesNone()
    ensures Names([]) == []
  {
  }

  lemma {:induction false} NamesConcat(a: seq<StoredTag>, b: seq<StoredTag>)
    ensures Names(a + b) == Names(a) + Names(b)
  {
    hide *;
    if b == [] {
      NamesNone();
      assert a + b == a;
    } else {
      NamesConcat(a, b[..|b| - 1]);
      NamesConcatStep(a, b[..|b| - 1], b[|b| - 1]);
      assert b == b[..|b| - 1] + [b[|b| - 1]];
    }
  }

  lemma NamesConcatStep(a: seq<StoredTag>, p: seq<StoredTag>, t: StoredTag)
    requires Names(a + p) == Names(a) + Names(p)
    ensures Names(a + (p + [t])) == Names(a) + Names(p + [t])
  {
    hide *;
    NamesAppend(p, t);
    NamesAppend(a + p, t);
    assert a + (p + [t]) == (a + p) + [t];
    assert (Names(a) + Names(p)) + [ElementName(t)] == Names(a) + (Names(p) + [ElementName(t)]);
  }

  // ---- Opening ----

  /** Appending events continues the nesting. */
  lemma EmitNests(exact: bool, b: Build, piece: string, evs: seq<Event>)
    ensures Nest(exact, Some([]), Emit(b, piece, evs).events) == Nest(exact, Nest(exact, Some([]), b.events), evs)
    ensures Nest(exact, None, evs) == None
  {
    NestConcat(exact, Some([]), b.events, evs);
    NestNone(exact, evs);
  }

  /** Opening one element below everything the flags say is open. */
  lemma OpenNests(exact: bool, spoiled: bool, v: Voice, b: Build, piece: string, name: string, after: Build)
    requires Nested(exact, spoiled, v, b)
    requires after.events == Emit(b, piece, [Open(name)]).events
    requires Stack(v, after) == Stack(v, b) + [name]
    ensures Nested(exact, spoiled, v, after)
  {
    EmitNests(exact, b, piece, [Open(name)]);
    NestSingle(exact, Some(Stack(v, b)), Open(name));
  }

  lemma CloseNests(exact: bool, spoiled: bool, v: Voice, b: Build, piece: string, name: string, after: Build)
    requires Nested(exact, spoiled, v, b)
    requires after.events == Emit(b, piece, [Close(name)]).events
    requires Stack(v, b) == Stack(v, after) + [name]
    ensures Nested(exact, spoiled, v, after)
  {
    EmitNests(exact, b, piece, [Close(name)]);
    NestSingle(exact, Some(Stack(v, b)), Close(name));
  }

  lemma OpenProsodyNests(exact: bool, spoiled: bool, v: Voice, f: Fragment, b: Build)
    requires Nested(exact, spoiled, v, b) && Ready(v, f, b)
    ensures var r := OpenProsody(v, f, b); Nested(exact, spoiled, v, r) && Ready(v, f, r)
    ensures !v.isEdge ==> OpenProsody(v, f, b).inProsody || ProsodyOf(v, f) == PLAIN
    ensures OpenProsody(v, f, b).customTags == b.customTags
  {
    hide Nest, ProsodyOf, ProsodyAttributes, StartTag;
    var r := OpenProsody(v, f, b);
    if r != b {
      assert v.isEdge ==> b.customTags == [] && Names(b.customTags) == [];
      OpenNests(exact, spoiled, v, b, StartTag("prosody", ProsodyAttributes(ProsodyOf(v, f))), "prosody", r);
    }
  }

  lemma OpenEmphasisNests(exact: bool, spoiled: bool, v: Voice, f: Fragment, b: Build)
    requires Nested(exact, spoiled, v, b) && Ready(v, f, b)
    ensures var r := OpenEmphasis(v, f, b);
      && Nested(exact, spoiled, v, r) && r.inProsody == b.inProsody && r.customTags == b.customTags
      && (if v.isEdge then r == b else (r.inEmphasis || f.emphAdj == 0) && (r.inSayAs ==> r.inCustom && f.action == Speak))
  {
    hide Nest, ProsodyOf, StartTag;
    var r := OpenEmphasis(v, f, b);
    if r != b {
      OpenNests(exact, spoiled, v, b, StartTag("emphasis", ""), "emphasis", r);
    }
  }

  lemma ReopenCustomNests(exact: bool, spoiled: bool, v: Voice, b: Build)
    requires Nested(exact, spoiled, v, b) && Stored(b.customTags) && (b.inSayAs ==> b.inCustom)
    ensures Nested(exact, spoiled, v, ReopenCustom(b))
  {
    hide Nest, Concat, AllTagEvents, Names;
    if !b.inCustom {
      EmitNests(exact, b, Concat(b.customTags), AllTagEvents(b.customTags));
      NestOpens(exact, Stack(v, b), b.customTags);
      assert Stack(v, ReopenCustom(b)) == Stack(v, b) + Names(b.customTags);
    }
  }

  lemma OpenSayAsNests(exact: bool, spoiled: bool, v: Voice, f: Fragment, b: Build)
    requires Nested(exact, spoiled, v, b)
    ensures Nested(exact, spoiled, v, OpenSayAs(v, f, b))
  {
    hide Nest, Interpretation, StartTag, Attribute, Names;
    var r := OpenSayAs(v, f, b);
    if r != b {
      OpenNests(exact, spoiled, v, b,
        StartTag("say-as", Attribute("interpret-as", Interpretation(f.category.value))), "say-as", r);
    }
  }

  /** Only the events, the flags and the stored tags decide the nesting. */
  lemma NotedNests(exact: bool, spoiled: bool, v: Voice, f: Fragment, b: Build, hasText: bool)
    requires Nested(exact, spoiled, v, b) && Ready(v, f, b)
    ensures Nested(exact, spoiled, v, b.(hasText := hasText)) && Ready(v, f, b.(hasText := hasText))
  {
    hide Nest, ProsodyOf;
  }

  lemma OpenTagsNest(exact: bool, spoiled: bool, v: Voice, f: Fragment, b: Build)
    requires Nested(exact, spoiled, v, b) && Ready(v, f, b) && Stored(b.customTags)
    ensures var r := OpenTags(v, f, b);
      Nested(exact, spoiled, v, r) && Writing(v, f, r) && r.customTags == b.customTags
  {
    hide Nested, ProsodyOf, OpenProsody, ReopenCustom, OpenEmphasis, OpenSayAs;
    var b0 := b.(hasText := b.hasText || (f.action != Bookmark && f.text != ""));
    NotedNests(exact, spoiled, v, f, b, b0.hasText);
    var b1 := OpenProsody(v, f, b0);
    OpenProsodyNests(exact, spoiled, v, f, b0);
    var b2 := OpenEmphasis(v, f, b1);
    OpenEmphasisNests(exact, spoiled, v, f, b1);
    var b3 := ReopenCustom(b2);
    OpenCustomFlags(b2);
    ReopenCustomNests(exact, spoiled, v, b2);
    OpenSayAsNests(exact, spoiled, v, f, b3);
    OpenSayAsFlags(v, f, b3);
  }

  lemma OpenCustomFlags(b: Build)
    ensures var r := ReopenCustom(b);
      r == b.(ssml := r.ssml, events := r.events, inCustom := true)
  {
  }

  lemma OpenSayAsFlags(v: Voice, f: Fragment, b: Build)
    ensures var r := OpenSayAs(v, f, b);
      r == b.(ssml := r.ssml, events := r.events,
              inSayAs := b.inSayAs || (f.category.Some? && f.action == Speak && !v.isEdge))
  {
    hide Interpretation, StartTag, Attribute;
  }

  // ---- Writing a fragment ----

  lemma EmitSpokenNests(exact: bool, spoiled: bool, v: Voice, f: Fragment, b: Build)
    requires Nested(exact, spoiled, v, b)
    ensures Nested(exact, spoiled, v, EmitSpoken(v, f, b))
  {
    hide Nest, LeadEvents, TailEvents, Lead, Tail, Chars, Escape, EscapeMaps, UpToNul, Names;
    var lead, mid, tail := LeadEvents(v, f, b.ssml), Chars(UpToNul(f.text)), TailEvents(v, f);
    assert EmitSpoken(v, f, b).events == b.events + (lead + mid + tail);
    EmitNests(exact, b, "", lead + mid + tail);
    if !spoiled {
      SpokenKeepsOpen(exact, v, f, b.ssml, Stack(v, b));
    }
  }

  lemma SpokenKeepsOpen(exact: bool, v: Voice, f: Fragment, before: string, stack: seq<string>)
    ensures Nest(exact, Some(stack), LeadEvents(v, f, before) + Chars(UpToNul(f.text)) + TailEvents(v, f)) == Some(stack)
  {
    var lead, mid, tail := LeadEvents(v, f, before), Chars(UpToNul(f.text)), TailEvents(v, f);
    NestConcat(exact, Some(stack), lead + mid, tail);
    NestConcat(exact, Some(stack), lead, mid);
    if v.isEdge || f.action == Speak {
      NestChars(exact, Some(stack), Lead(v, f, before));
      NestChars(exact, Some(stack), UpToNul(f.text));
    } else {
      var name := if f.action == SpellOut then "say-as" else "phoneme";
      NestSingle(exact, Some(stack), Open(name));
      NestChars(exact, Some(stack + [name]), UpToNul(f.text));
      NestSingle(exact, Some(stack + [name]), Close(name));
    }
  }

  lemma EmitPlainNests(exact: bool, spoiled: bool, v: Voice, b: Build, piece: string, name: string, trail: string, after: Build)
    requires Nested(exact, spoiled, v, b) && Stack(v, after) == Stack(v, b)
    requires after.events == Emit(b, piece, [Empty(name)] + Chars(trail)).events
    ensures Nested(exact, spoiled, v, after)
  {
    hide Chars, Names;
    EmitNests(exact, b, piece, [Empty(name)] + Chars(trail));
    NestConcat(exact, Some(Stack(v, b)), [Empty(name)], Chars(trail));
    NestSingle(exact, Some(Stack(v, b)), Empty(name));
    NestChars(exact, Some(Stack(v, b)), trail);
  }

  lemma OpenStoredNests(exact: bool, spoiled: bool, v: Voice, b: Build, text: StoredTag)
    requires Nested(exact, spoiled, v, b) && b.inCustom && !b.inSayAs && OpeningTag(text)
    ensures Nested(exact, spoiled, v, OpenStored(b, text))
  {
    EmitNests(exact, b, text, TagEvents(text));
    NestTag(exact, Stack(v, b), text);
    OpenStoredStack(v, b, text);
    hide Nest, TagEvents, OpeningTag, ElementName, Stack;
  }

  lemma OpenStoredStack(v: Voice, b: Build, text: StoredTag)
    requires b.inCustom && !b.inSayAs
    ensures Stack(v, OpenStored(b, text)) == Stack(v, b) + [ElementName(text)]
  {
    NamesAppend(b.customTags, text);
    hide Names, ElementName, TagEvents;
  }

  lemma CloseThroughNests(exact: bool, spoiled: bool, v: Voice, b: Build, k: nat, text: string, name: string)
    requires Nested(exact, spoiled, v, b) && b.inCustom && !b.inSayAs && Stored(b.customTags) && k < |b.customTags|
    requires OneTag(text) && ReadTag(Inner(text)) == Some(Close(name))
    requires EqualsIgnoreCase(GetXMLTagName(b.customTags[k]), name)
    ensures Nested(exact, spoiled || (exact && GetXMLTagName(b.customTags[k]) != name), v, CloseThrough(b, k, text))
  {
    var inner := b.customTags[k + 1..];
    var base, stored := Stack(v, CloseThrough(b, k, text)), b.customTags[k];
    CloseThroughStack(v, b, k, text);
    NestCloses(exact, base + [ElementName(stored)], inner);
    EmitNests(exact, b, ClosingTags(inner), AllCloseEvents(inner));
    EmitNests(exact, Emit(b, ClosingTags(inner), AllCloseEvents(inner)), text, TagEvents(text));
    EndTagCloses(exact, base, stored, text, name);
    hide Nest, TagEvents, AllCloseEvents, ClosingTags, OneTag, ReadTag, GetXMLTagName, EqualsIgnoreCase, ElementName, Stack, Names;
  }

  lemma NamesSplit(tags: seq<StoredTag>, k: nat)
    requires k < |tags|
    ensures Names(tags) == (Names(tags[..k]) + [ElementName(tags[k])]) + Names(tags[k + 1..])
  {
    hide *;
    TagsSplit(tags, k);
    NamesConcat(tags[..k] + [tags[k]], tags[k + 1..]);
    NamesAppend(tags[..k], tags[k]);
  }

  lemma TagsSplit(tags: seq<StoredTag>, k: nat)
    requires k < |tags|
    ensures (tags[..k] + [tags[k]]) + tags[k + 1..] == tags
  {
  }

  lemma CloseThroughStack(v: Voice, b: Build, k: nat, text: string)
    requires b.inCustom && !b.inSayAs && k < |b.customTags|
    ensures Stack(v, b) == (Stack(v, CloseThrough(b, k, text)) + [ElementName(b.customTags[k])]) + Names(b.customTags[k + 1..])
  {
    hide Names, ElementName, ClosingTags, AllCloseEvents, TagEvents;
    NamesSplit(b.customTags, k);
    var around := (if v.name != "" then ["voice"] else []) + (if b.inProsody then ["prosody"] else [])
      + (if b.inEmphasis then ["emphasis"] else []);
    var kept, name, closed := Names(b.customTags[..k]), ElementName(b.customTags[k]), Names(b.customTags[k + 1..]);
    assert Stack(v, b) == around + ((kept + [name]) + closed);
    assert Stack(v, CloseThrough(b, k, text)) == around + kept;
    assert around + ((kept + [name]) + closed) == ((around + kept) + [name]) + closed;
  }

  /** An end tag closes the stored tag it matches, or spoils the nesting when exact names are asked for. */
  lemma EndTagCloses(exact: bool, base: seq<string>, stored: StoredTag, text: string, name: string)
    requires OpeningTag(stored) && OneTag(text) && ReadTag(Inner(text)) == Some(Close(name))
    requires EqualsIgnoreCase(GetXMLTagName(stored), name)
    ensures Nest(exact, Some(base + [ElementName(stored)]), TagEvents(text))
         == if exact && GetXMLTagName(stored) != name then None else Some(base)
  {
    var open := Some(base + [ElementName(stored)]);
    NestConcat(exact, open, [Close(name)], Chars(Trail(text)));
    NestSingle(exact, open, Close(name));
    NestChars(exact, Some(base), Trail(text));
    NestNone(exact, Chars(Trail(text)));
    MatchedName(stored, text, name);
    assert (base + [ElementName(stored)])[..|base|] == base;
  }

  /** A stored tag that matches an end tag is not sloppy, so its name is the element's. */
  lemma MatchedName(stored: StoredTag, text: string, name: string)
    requires OpeningTag(stored) && OneTag(text) && ReadTag(Inner(text)) == Some(Close(name))
    requires EqualsIgnoreCase(GetXMLTagName(stored), name)
    ensures !Sloppy(stored) && GetXMLTagName(stored) == ElementName(stored)
  {
    StoredName(stored);
    ClosedName(Inner(text), name);
    assert ElementName(stored) + "" == ElementName(stored);
    hide OneTag, OpeningTag, ReadTag, Sloppy, GetXMLTagName, ElementName, EqualsIgnoreCase;
    NoGtEither(GetXMLTagName(stored), name);
  }

  lemma ClosedName(inner: string, name: string)
    requires ReadTag(inner) == Some(Close(name))
    ensures forall i :: 0 <= i < |name| ==> name[i] != '>'
  {
  }

  lemma NoGtEither(a: string, b: string)
    requires EqualsIgnoreCase(a, b) && forall i :: 0 <= i < |b| ==> b[i] != '>'
    ensures forall i :: 0 <= i < |a| ==> a[i] != '>'
  {
  }

  lemma EmitTagNests(exact: bool, spoiled: bool, v: Voice, f: Fragment, b: Build)
    requires Nested(exact, spoiled, v, b) && b.inCustom && !b.inSayAs && Stored(b.customTags) && OneTag(f.text)
    requires !v.isEdge && f.action == ParseUnknownTag
    ensures Nested(exact, spoiled || (exact && MisCasedAt(v, f, b.customTags)), v, EmitTag(f, b))
  {
    hide Nest, TrimTag, IsXMLSelfClosingTag, IsXMLClosingTag, ReadTag, CloseThrough, OpenStored, Stack, NoAngles, AllSpaces,
      Find, EqualsIgnoreCase, GetXMLTagName, Inner;
    TagKinds(f.text);
    var tag := TrimTag(f.text);
    if IsXMLSelfClosingTag(tag) {
      assert Stack(v, Emit(b, f.text, TagEvents(f.text))) == Stack(v, b) by { SameStack(v, b, f.text); }
      EmitPlainNests(exact, spoiled, v, b, f.text, ReadTag(Inner(f.text)).value.name, Trail(f.text),
        Emit(b, f.text, TagEvents(f.text)));
    } else if IsXMLClosingTag(tag) {
      var m := MatchingTag(b.customTags, GetXMLClosingTagName(tag));
      if m.Some? {
        CloseThroughNests(exact, spoiled, v, b, m.value, f.text, GetXMLClosingTagName(tag));
      }
    } else {
      OpenStoredNests(exact, spoiled, v, b, f.text);
    }
  }

  lemma SameStack(v: Voice, b: Build, text: string)
    ensures Stack(v, Emit(b, text, TagEvents(text))) == Stack(v, b)
  {
  }

  lemma EmitBookmarkNests(exact: bool, spoiled: bool, v: Voice, f: Fragment, b: Build)
    requires Nested(exact, spoiled, v, b)
    ensures Nested(exact, spoiled, v, EmitBookmark(v, f, b))
  {
    EmitBookmarkFlags(v, f, b);
    hide Nest, EmitBookmark;
    assert b.events + [] == b.events;
    if !v.isEdge {
      assert [Empty("bookmark")] + Chars("") == [Empty("bookmark")];
      EmitPlainNests(exact, spoiled, v, b, "", "bookmark", "", EmitBookmark(v, f, b));
    }
  }

  lemma EmitFragmentNests(exact: bool, spoiled: bool, v: Voice, f: Fragment, b: Build)
    requires Nested(exact, spoiled, v, b) && Writing(v, f, b) && Stored(b.customTags) && SoundFragment(v, f)
    ensures var r := EmitFragment(v, f, b);
      Nested(exact, spoiled || (exact && MisCasedAt(v, f, b.customTags)), v, r) && Writing(v, f, r)
  {
    EmitFragmentFlags(v, f, b);
    hide Nested, ProsodyOf, TrimTag, MisCasedAt, TagEvents, EmitTag, EmitSpoken, Stored, OneTag;
    var r := EmitFragment(v, f, b);
    if Speakable(f) {
      NotMisCased(v, f, b.customTags);
      EmitSpokenNests(exact, spoiled, v, f, b);
    } else if f.action == Bookmark {
      NotMisCased(v, f, b.customTags);
      EmitBookmarkNests(exact, spoiled, v, f, b);
    } else if v.isEdge {
      NotMisCased(v, f, b.customTags);
    } else if f.action == Silence {
      NotMisCased(v, f, b.customTags);
      assert [Empty("break")] + Chars("") == [Empty("break")];
      EmitPlainNests(exact, spoiled, v, b, "", "break", "", r);
    } else if f.action == ParseUnknownTag {
      EmitTagNests(exact, spoiled, v, f, b);
    } else {
      NotMisCased(v, f, b.customTags);
    }
  }

  lemma NotMisCased(v: Voice, f: Fragment, tags: seq<StoredTag>)
    requires v.isEdge || f.action != ParseUnknownTag
    ensures !MisCasedAt(v, f, tags)
  {
  }

  // ---- Closing ----

  lemma CloseSayAsNests(exact: bool, spoiled: bool, v: Voice, level: nat, b: Build)
    requires Nested(exact, spoiled, v, b)
    ensures Nested(exact, spoiled, v, CloseSayAs(level, b))
  {
    hide Nest, Names, EndTag;
    if b.inSayAs && level < 3 {
      CloseNests(exact, spoiled, v, b, EndTag("say-as"), "say-as", CloseSayAs(level, b));
    }
  }

  lemma CloseCustomNests(exact: bool, spoiled: bool, v: Voice, level: nat, b: Build)
    requires Nested(exact, spoiled, v, b) && (level < 2 ==> !b.inSayAs)
    ensures Nested(exact, spoiled, v, CloseCustom(level, b))
  {
    hide Nest, Names, ClosingTags, AllCloseEvents;
    var r := CloseCustom(level, b);
    if b.inCustom && level < 2 {
      EmitNests(exact, b, ClosingTags(b.customTags), AllCloseEvents(b.customTags));
      NestCloses(exact, Stack(v, r), b.customTags);
      assert Stack(v, b) == Stack(v, r) + Names(b.customTags);
    }
  }

  lemma CloseEmphasisNests(exact: bool, spoiled: bool, v: Voice, level: nat, b: Build)
    requires Nested(exact, spoiled, v, b) && (level < 2 ==> !b.inSayAs && !b.inCustom)
    ensures Nested(exact, spoiled, v, CloseEmphasis(level, b))
  {
    hide Nest, Names, EndTag;
    if b.inEmphasis && level < 2 {
      CloseNests(exact, spoiled, v, b, EndTag("emphasis"), "emphasis", CloseEmphasis(level, b));
    }
  }

  lemma CloseProsodyNests(exact: bool, spoiled: bool, v: Voice, level: nat, b: Build)
    requires Nested(exact, spoiled, v, b) && (level < 1 ==> !b.inSayAs && !b.inCustom && !b.inEmphasis)
    ensures Nested(exact, spoiled, v, CloseProsody(level, b))
  {
    hide Nest, Names, EndTag;
    if b.inProsody && level < 1 {
      CloseNests(exact, spoiled, v, b, EndTag("prosody"), "prosody", CloseProsody(level, b));
    }
  }

  lemma CloseTagsNest(exact: bool, spoiled: bool, v: Voice, level: nat, b: Build)
    requires Nested(exact, spoiled, v, b)
    ensures Nested(exact, spoiled, v, CloseTags(level, b))
  {
    var b1 := CloseSayAs(level, b);
    var b2 := CloseCustom(level, b1);
    var b3 := CloseEmphasis(level, b2);
    CloseTagsFlags(level, b);
    CloseSayAsNests(exact, spoiled, v, level, b);
    hide Nested, CloseSayAs, CloseCustom, CloseEmphasis, CloseProsody;
    CloseCustomNests(exact, spoiled, v, level, b1);
    CloseEmphasisNests(exact, spoiled, v, level, b2);
    CloseProsodyNests(exact, spoiled, v, level, b3);
  }

  predicate SameFlags(a: Build, b: Build) {
    a.inProsody == b.inProsody && a.inEmphasis == b.inEmphasis && a.inSayAs == b.inSayAs && a.inCustom == b.inCustom
    && a.prosodyCount == b.prosodyCount && a.hasText == b.hasText
  }

  lemma EmitSpokenFlags(v: Voice, f: Fragment, b: Build)
    ensures SameFlags(EmitSpoken(v, f, b), b) && EmitSpoken(v, f, b).customTags == b.customTags
  {
    hide Lead, LeadEvents, Tail, TailEvents, Escape, EscapeMaps, UpToNul, Chars;
  }

  lemma EmitBookmarkFlags(v: Voice, f: Fragment, b: Build)
    ensures SameFlags(EmitBookmark(v, f, b), b) && EmitBookmark(v, f, b).customTags == b.customTags
    ensures EmitBookmark(v, f, b).events == b.events + if v.isEdge then [] else [Empty("bookmark")]
  {
    hide Escape, EscapeMaps, UpToNul, EmptyTag, Attribute;
    assert b.events + [] == b.events;
  }

  lemma EmitTagFlags(f: Fragment, b: Build)
    ensures SameFlags(EmitTag(f, b), b)
  {
    hide TagEvents, MatchingTag, TrimTag, IsXMLClosingTag, IsXMLSelfClosingTag, CloseThrough, OpenStored;
    forall k | 0 <= k < |b.customTags| ensures SameFlags(CloseThrough(b, k, f.text), b) {
      CloseThroughFlags(b, k, f.text);
    }
    if |f.text| >= 3 {
      OpenStoredFlags(b, f.text);
    }
  }

  lemma CloseThroughFlags(b: Build, k: nat, text: string)
    requires k < |b.customTags|
    ensures SameFlags(CloseThrough(b, k, text), b)
  {
    hide ClosingTags, AllCloseEvents, TagEvents;
  }

  lemma OpenStoredFlags(b: Build, text: StoredTag)
    ensures SameFlags(OpenStored(b, text), b)
  {
    hide TagEvents;
  }

  lemma EmitFragmentFlags(v: Voice, f: Fragment, b: Build)
    ensures SameFlags(EmitFragment(v, f, b), b)
    ensures v.isEdge ==> EmitFragment(v, f, b).customTags == b.customTags
  {
    EmitSpokenFlags(v, f, b);
    EmitBookmarkFlags(v, f, b);
    EmitTagFlags(f, b);
    hide EmitSpoken, EmitBookmark, EmitTag, EmptyTag;
  }

  /** Opening tags changes the document and the flags, and nothing else. */
  lemma OpenTagsFlags(v: Voice, f: Fragment, b: Build)
    ensures var r := OpenTags(v, f, b);
      && r.customTags == b.customTags && r.maps == b.maps && r.bookmarks == b.bookmarks && r.lastSapi == b.lastSapi
      && r.hasText == (b.hasText || (f.action != Bookmark && f.text != ""))
      && r.inProsody == (b.inProsody || OpensProsody(v, f, b))
      && r.prosodyCount == b.prosodyCount + (if OpensProsody(v, f, b) then 1 else 0)
      && r.inEmphasis == (b.inEmphasis || (f.emphAdj != 0 && !v.isEdge)) && r.inCustom
      && r.inSayAs == (b.inSayAs || (f.category.Some? && f.action == Speak && !v.isEdge))
  {
    hide *;
    var b0 := b.(hasText := b.hasText || (f.action != Bookmark && f.text != ""));
    var b1 := OpenProsody(v, f, b0);
    var b2 := OpenEmphasis(v, f, b1);
    var b3 := ReopenCustom(b2);
    OpenTagsIs(v, f, b);
    NotedOpens(v, f, b, b0.hasText);
    OpenProsodyChanges(v, f, b0);
    OpenEmphasisChanges(v, f, b1);
    OpenCustomFlags(b2);
    OpenSayAsFlags(v, f, b3);
  }

  lemma NotedOpens(v: Voice, f: Fragment, b: Build, hasText: bool)
    ensures OpensProsody(v, f, b.(hasText := hasText)) == OpensProsody(v, f, b)
  {
    hide ProsodyOf;
  }

  lemma OpenTagsIs(v: Voice, f: Fragment, b: Build)
    ensures OpenTags(v, f, b)
         == OpenSayAs(v, f, ReopenCustom(OpenEmphasis(v, f, OpenProsody(v, f,
              b.(hasText := b.hasText || (f.action != Bookmark && f.text != ""))))))
  {
  }

  lemma OpenProsodyChanges(v: Voice, f: Fragment, b: Build)
    ensures var r := OpenProsody(v, f, b);
      r == b.(ssml := r.ssml, events := r.events, inProsody := b.inProsody || OpensProsody(v, f, b),
              prosodyCount := b.prosodyCount + if OpensProsody(v, f, b) then 1 else 0)
  {
    hide ProsodyOf, ProsodyAttributes, StartTag;
  }

  lemma OpenEmphasisChanges(v: Voice, f: Fragment, b: Build)
    ensures var r := OpenEmphasis(v, f, b);
      r == b.(ssml := r.ssml, events := r.events, inEmphasis := b.inEmphasis || (f.emphAdj != 0 && !v.isEdge))
  {
    hide StartTag;
  }

  /** Tags are kept open only when the next fragment needs no new one around them. */
  lemma CloseTagsReady(v: Voice, cur: Fragment, next: Fragment, b: Build)
    requires Writing(v, cur, b)
    ensures Ready(v, next, CloseTags(PreserveLevel(v, cur, next, b.prosodyCount), b))
  {
    CloseTagsFlags(PreserveLevel(v, cur, next, b.prosodyCount), b);
    hide CloseTags, SameContext;
  }

  lemma CloseTagsFlags(level: nat, b: Build)
    ensures var b1 := CloseSayAs(level, b);
      b1 == b.(ssml := b1.ssml, events := b1.events, inSayAs := b.inSayAs && level >= 3)
    ensures var b1 := CloseSayAs(level, b);
      var b2 := CloseCustom(level, b1);
      b2 == b1.(ssml := b2.ssml, events := b2.events, inCustom := b.inCustom && level >= 2)
    ensures var b2 := CloseCustom(level, CloseSayAs(level, b));
      var b3 := CloseEmphasis(level, b2);
      b3 == b2.(ssml := b3.ssml, events := b3.events, inEmphasis := b.inEmphasis && level >= 2)
    ensures var r := CloseTags(level, b);
      r == b.(ssml := r.ssml, events := r.events, inSayAs := b.inSayAs && level >= 3, inCustom := b.inCustom && level >= 2,
              inEmphasis := b.inEmphasis && level >= 2, inProsody := b.inProsody && level >= 1)
  {
    hide ClosingTags, AllCloseEvents, EndTag;
    CloseOneFlags(level, b);
    CloseOneFlags(level, CloseSayAs(level, b));
    CloseOneFlags(level, CloseCustom(level, CloseSayAs(level, b)));
    CloseOneFlags(level, CloseEmphasis(level, CloseCustom(level, CloseSayAs(level, b))));
    hide CloseSayAs, CloseCustom, CloseEmphasis, CloseProsody;
  }

  lemma CloseOneFlags(level: nat, b: Build)
    ensures var r := CloseSayAs(level, b); r == b.(ssml := r.ssml, events := r.events, inSayAs := b.inSayAs && level >= 3)
    ensures var r := CloseCustom(level, b); r == b.(ssml := r.ssml, events := r.events, inCustom := b.inCustom && level >= 2)
    ensures var r := CloseEmphasis(level, b); r == b.(ssml := r.ssml, events := r.events, inEmphasis := b.inEmphasis && level >= 2)
    ensures var r := CloseProsody(level, b); r == b.(ssml := r.ssml, events := r.events, inProsody := b.inProsody && level >= 1)
  {
    hide ClosingTags, AllCloseEvents, EndTag;
  }

  // ---- Whole runs ----

  /** After every fragment the open elements are exactly those the flags say, in the fixed order. */
  lemma {:induction false} RunNests(exact: bool, v: Voice, frags: seq<Fragment>, n: nat)
    requires n <= |frags| && Sound(v, frags)
    ensures Nested(exact, exact && MisCased(v, frags, n), v, Run(v, frags, n))
    ensures n < |frags| ==> Ready(v, frags[n], Run(v, frags, n))
    ensures n == |frags| ==> AllClosed(Run(v, frags, n))
  {
    hide Nested, Run, MisCased, MisCasedAt, Sound, AllClosed, Ready;
    if n == 0 {
      BeginNests(exact, v);
      RunStart(v, frags);
    } else {
      RunNests(exact, v, frags, n - 1);
      RunReads(v, frags, n - 1);
      StepNests(exact, exact && MisCased(v, frags, n - 1), v, frags, n - 1);
      MisCasedNext(v, frags, n);
    }
  }

  lemma RunStart(v: Voice, frags: seq<Fragment>)
    ensures Run(v, frags, 0) == Begin(v) && !MisCased(v, frags, 0)
    ensures AllClosed(Run(v, frags, 0))
    ensures 0 < |frags| ==> Ready(v, frags[0], Run(v, frags, 0))
  {
    BeginNests(true, v);
  }

  lemma BeginNests(exact: bool, v: Voice)
    ensures Nested(exact, false, v, Begin(v)) && AllClosed(Begin(v)) && Begin(v).customTags == []
  {
    assert Stack(v, Begin(v)) == if v.name != "" then ["voice"] else [];
    if v.name != "" {
      assert Begin(v).events == [Open("voice")];
      NestSingle(exact, Some([]), Open("voice"));
      assert [] + ["voice"] == ["voice"];
    }
  }

  lemma MisCasedNext(v: Voice, frags: seq<Fragment>, n: nat)
    requires 0 < n <= |frags|
    ensures MisCased(v, frags, n) <==>
            MisCased(v, frags, n - 1) || MisCasedAt(v, frags[n - 1], Run(v, frags, n - 1).customTags)
  {
    hide Run, MisCasedAt, OpenAfter;
    RunTags(v, frags, n - 1);
  }

  /** The tags the translator has stored are those the fragments' texts leave open. */
  lemma {:induction false} RunTags(v: Voice, frags: seq<Fragment>, n: nat)
    requires n <= |frags|
    ensures Run(v, frags, n).customTags == OpenAfter(v, frags, n)
  {
    hide Run, OpenTags, EmitFragment, CloseTags, LevelAfter, TagsAfter;
    if n == 0 {
      RunStart(v, frags);
      BeginNests(false, v);
    } else {
      var f, b := frags[n - 1], Run(v, frags, n - 1);
      RunTags(v, frags, n - 1);
      OpenTagsFlags(v, f, b);
      EmitFragmentTags(v, f, OpenTags(v, f, b));
      var w := EmitFragment(v, f, OpenTags(v, f, b));
      CloseTagsFlags(LevelAfter(v, frags, n - 1, w.prosodyCount), w);
      RunNext(v, frags, n - 1);
    }
  }

  lemma EmitFragmentTags(v: Voice, f: Fragment, b: Build)
    ensures EmitFragment(v, f, b).customTags == TagsAfter(v, f, b.customTags)
  {
    EmitSpokenFlags(v, f, b);
    EmitBookmarkFlags(v, f, b);
    EmitTagTags(f, b);
    hide EmitSpoken, EmitBookmark, EmitTag, EmptyTag;
  }

  lemma EmitTagTags(f: Fragment, b: Build)
    ensures EmitTag(f, b).customTags == (
      var tag := TrimTag(f.text);
      if IsXMLSelfClosingTag(tag) then b.customTags
      else if IsXMLClosingTag(tag) then
        match MatchingTag(b.customTags, GetXMLClosingTagName(tag))
        case None => b.customTags
        case Some(k) => b.customTags[..k]
      else if |f.text| >= 3 then b.customTags + [f.text]
      else b.customTags)
  {
    hide TagEvents, TrimTag, IsXMLClosingTag, IsXMLSelfClosingTag, ClosingTags, AllCloseEvents, GetXMLClosingTagName;
  }

  lemma StepNests(exact: bool, spoiled: bool, v: Voice, frags: seq<Fragment>, i: nat)
    requires i < |frags| && Sound(v, frags)
    requires var b := Run(v, frags, i);
      Nested(exact, spoiled, v, b) && Ready(v, frags[i], b) && Stored(b.customTags)
    ensures var r := Run(v, frags, i + 1);
      && Nested(exact, spoiled || (exact && MisCasedAt(v, frags[i], Run(v, frags, i).customTags)), v, r)
      && (i + 1 < |frags| ==> Ready(v, frags[i + 1], r))
      && (i + 1 == |frags| ==> AllClosed(r))
  {
    hide Nested, Run, MisCasedAt, OpenTags, EmitFragment, CloseTags;
    var f, b := frags[i], Run(v, frags, i);
    assert f in frags;
    var ready := OpenTags(v, f, b);
    OpenTagsNest(exact, spoiled, v, f, b);
    EmitFragmentNests(exact, spoiled, v, f, ready);
    var written := EmitFragment(v, f, ready);
    var level := LevelAfter(v, frags, i, written.prosodyCount);
    EmitFragmentFlags(v, f, ready);
    CloseTagsNest(exact, spoiled || (exact && MisCasedAt(v, f, b.customTags)), v, level, written);
    CloseTagsFlags(level, written);
    RunNext(v, frags, i);
    if i + 1 < |frags| && !v.isEdge {
      CloseTagsReady(v, f, frags[i + 1], written);
    }
  }

  /** One more turn of the loop: the fragment is written and tags are closed behind it. */
  lemma RunNext(v: Voice, frags: seq<Fragment>, i: nat)
    requires i < |frags|
    ensures var written := EmitFragment(v, frags[i], OpenTags(v, frags[i], Run(v, frags, i)));
      && written == Written(v, frags, i)
      && Run(v, frags, i + 1) == CloseTags(LevelAfter(v, frags, i, written.prosodyCount), written)
    ensures Run(v, frags, i + 1) == Step(v, frags, i, Run(v, frags, i))
  {
  }

  /**
   The finished document read from its raw text is one balanced element,
   whatever the order, matching or closing of the custom tags; names are matched ignoring case.
   With names matched exactly it is balanced if and only if no end tag was accepted
   whose spelling differs from that of the tag it closes.
   */
  lemma TranslationBalanced(exact: bool, v: Voice, frags: seq<Fragment>)
    requires Sound(v, frags)
    ensures Read(Translate(v, frags).ssml).mode == Text
    ensures Balanced(exact, "speak", Read(Translate(v, frags).ssml).events)
       <==> !(exact && MisCased(v, frags, |frags|))
  {
    TranslationReads(v, frags);
    TranslationNests(exact, v, frags);
    var content := Translate(v, frags).events;
    var evs := [Open("speak")] + content + [Close("speak")];
    forall other | evs == [Open("speak")] + other + [Close("speak")] ensures other == content {
      assert other == evs[1..|evs| - 1];
      assert content == evs[1..|evs| - 1];
    }
  }

  lemma TranslationNests(exact: bool, v: Voice, frags: seq<Fragment>)
    requires Sound(v, frags)
    ensures Nest(exact, Some([]), Translate(v, frags).events)
         == if exact && MisCased(v, frags, |frags|) then None else Some([])
  {
    hide Run, MisCased, Nest, EndTag;
    RunNests(exact, v, frags, |frags|);
    var b := Run(v, frags, |frags|);
    assert Stack(v, b) == if v.name != "" then ["voice"] else [];
    if v.name != "" {
      EmitNests(exact, b, EndTag("voice"), [Close("voice")]);
      NestSingle(exact, Some(["voice"]), Close("voice"));
    }
  }
}
