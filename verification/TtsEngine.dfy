/** The engine object: it writes its fields in place, as specified by the pure translation. */
module TtsEngine {
  import opened Numbers
  import opened WideText
  import opened SsmlBuilder
  import opened SsmlReading
  import opened SsmlNesting
  import opened OffsetMap
  import opened SsmlOffsets
  import opened Bookmarks
  import opened WaveMerge

  /** The translator's local variables. */
  datatype TagState = TagState(
    inProsody: bool, inEmphasis: bool, inSayAs: bool, customTags: seq<StoredTag>, inCustom: bool,
    prosodyCount: nat, hasText: bool, lastSapi: nat)

  function StateOf(b: Build): TagState {
    TagState(b.inProsody, b.inEmphasis, b.inSayAs, b.customTags, b.inCustom, b.prosodyCount, b.hasText, b.lastSapi)
  }

  /** SAPI hands over unknown tags from their `<` on. */
  predicate TagShaped(v: Voice, frags: seq<Fragment>) {
    !v.isEdge ==> forall f :: f in frags && f.action == ParseUnknownTag ==> f.text != "" && f.text[0] == '<' && '>' in f.text
  }

  class Engine {
    const voice: Voice
    var ssml: string
    var offsetMappings: seq<Mapping>
    var mappingIndex: nat
    var bookmarks: seq<BookmarkInfo>
    var bookmarkIndex: nat
    var compensatedSilentBytes: nat
    var hasSite: bool
    var siteEvents: seq<SiteEvent>

    constructor (voice: Voice)
      ensures this.voice == voice && Valid()
      ensures ssml == "" && offsetMappings == [] && bookmarks == [] && siteEvents == [] && !hasSite
    {
      this.voice := voice;
      ssml, offsetMappings, mappingIndex, bookmarks, bookmarkIndex := "", [], 0, [], 0;
      compensatedSilentBytes, hasSite, siteEvents := 0, false, [];
    }

    /** What translating ordered fragments establishes and every event keeps; the cached index is arbitrary. */
    predicate Valid()
      reads this
    {
      Sorted(offsetMappings) && bookmarkIndex <= |bookmarks|
    }

    ghost predicate Tracks(b: Build)
      reads this
    {
      ssml == b.ssml && offsetMappings == b.maps && bookmarks == b.bookmarks
    }

    // ---- Translation ----

    /** Copies a fragment's text, escaping markup characters, and maps what follows each entity. */
    method AppendTextFragToSsml(f: Fragment)
      modifies this`ssml, this`offsetMappings
      ensures ssml == old(ssml) + Escape(UpToNul(f.text))
      ensures offsetMappings == old(offsetMappings) + EscapeMaps(f.src, UpToNul(f.text), old(|ssml|))
    {
      hide Escape, EscapeChar, EscapeMaps, NeedsEscape, UpToNul;
      ghost var start, maps := ssml, offsetMappings;
      TextEnds(f.src, f.text, |start|);
      ghost var t := UpToNul(f.text);
      var k := 0;
      while k < |f.text| && f.text[k] != 0 as char
        invariant 0 <= k <= |t|
        invariant ssml == start + Escape(f.text[..k])
        invariant offsetMappings == maps + EscapeMaps(f.src, f.text[..k], |start|)
      {
        var c := f.text[k];
        ssml := ssml + EscapeChar(c);
        NextChar(f.src, f.text, |start|, k);
        Assoc(start, Escape(f.text[..k]), EscapeChar(c));
        if NeedsEscape(c) {
          offsetMappings := offsetMappings + [Mapping(f.src + k + 1, |ssml|)];
        }
        k := k + 1;
      }
    }

    /** Opens what the fragment needs around it: prosody, emphasis, the stored tags, say-as. */
    method OpenTagsFor(f: Fragment, state: TagState, ghost b: Build) returns (next: TagState)
      requires Tracks(b) && StateOf(b) == state
      modifies this`ssml
      ensures Tracks(OpenTags(voice, f, b)) && StateOf(OpenTags(voice, f, b)) == next
    {
      hide OpenProsody, OpenEmphasis, ReopenCustom, OpenSayAs;
      next := state;
      if f.action != Bookmark && |f.text| != 0 {
        next := next.(hasText := true);
      }
      ghost var b0 := b.(hasText := b.hasText || (f.action != Bookmark && f.text != ""));
      next := OpenProsodyFor(f, next, b0);
      ghost var b1 := OpenProsody(voice, f, b0);
      next := OpenEmphasisFor(f, next, b1);
      ghost var b2 := OpenEmphasis(voice, f, b1);
      next := ReopenCustomTags(next, b2);
      next := OpenSayAsFor(f, next, ReopenCustom(b2));
    }

    method OpenEmphasisFor(f: Fragment, state: TagState, ghost b: Build) returns (next: TagState)
      requires Tracks(b) && StateOf(b) == state
      modifies this`ssml
      ensures Tracks(OpenEmphasis(voice, f, b)) && StateOf(OpenEmphasis(voice, f, b)) == next
    {
      hide StartTag;
      next := state;
      if !next.inEmphasis && f.emphAdj != 0 && !voice.isEdge {
        ssml := ssml + StartTag("emphasis", "");
        next := next.(inEmphasis := true);
      }
    }

    method OpenSayAsFor(f: Fragment, state: TagState, ghost b: Build) returns (next: TagState)
      requires Tracks(b) && StateOf(b) == state
      modifies this`ssml
      ensures Tracks(OpenSayAs(voice, f, b)) && StateOf(OpenSayAs(voice, f, b)) == next
    {
      hide StartTag, Attribute, Interpretation;
      next := state;
      if !next.inSayAs && f.category.Some? && f.action == Speak && !voice.isEdge {
        ssml := ssml + StartTag("say-as", Attribute("interpret-as", Interpretation(f.category.value)));
        next := next.(inSayAs := true);
      }
    }

    method OpenProsodyFor(f: Fragment, state: TagState, ghost b: Build) returns (next: TagState)
      requires Tracks(b) && StateOf(b) == state
      modifies this`ssml
      ensures Tracks(OpenProsody(voice, f, b)) && StateOf(OpenProsody(voice, f, b)) == next
    {
      hide StartTag, ProsodyAttributes;
      next := state;
      if !next.inProsody && (!voice.isEdge || Speakable(f)) {
        var p := ProsodyOf(voice, f);
        if p.volume != 100 || p.rate != 0 || p.pitch != 0 {
          ssml := ssml + StartTag("prosody", ProsodyAttributes(p));
          next := next.(inProsody := true, prosodyCount := next.prosodyCount + 1);
        }
      }
    }

    method ReopenCustomTags(state: TagState, ghost b: Build) returns (next: TagState)
      requires Tracks(b) && StateOf(b) == state
      modifies this`ssml
      ensures Tracks(ReopenCustom(b)) && StateOf(ReopenCustom(b)) == next
    {
      next := state;
      if !state.inCustom {
        for k := 0 to |state.customTags|
          invariant ssml == b.ssml + Concat(state.customTags[..k])
        {
          assert state.customTags[..k + 1][..k] == state.customTags[..k];
          ssml := ssml + state.customTags[k];
        }
        assert state.customTags[..|state.customTags|] == state.customTags;
        next := next.(inCustom := true);
      }
    }

    /** Appends end tags for `tags`, innermost first. */
    method AppendClosingTags(tags: seq<StoredTag>)
      modifies this`ssml
      ensures ssml == old(ssml) + ClosingTags(tags)
    {
      hide ClosingTags, EndTag, GetXMLTagName;
      assert tags[..|tags|] == tags;
      for k := |tags| downto 0
        invariant ssml + ClosingTags(tags[..k]) == old(ssml) + ClosingTags(tags)
      {
        ClosingLast(tags, k);
        Assoc(ssml, EndTag(GetXMLTagName(tags[k])), ClosingTags(tags[..k]));
        ssml := ssml + EndTag(GetXMLTagName(tags[k]));
      }
      ClosingNone(tags);
    }

    method CloseTagsDownTo(level: nat, state: TagState, ghost b: Build) returns (next: TagState)
      requires Tracks(b) && StateOf(b) == state
      modifies this`ssml
      ensures Tracks(CloseTags(level, b)) && StateOf(CloseTags(level, b)) == next
    {
      hide EndTag, ClosingTags, AllCloseEvents;
      next := state;
      if next.inSayAs && level < 3 {
        ssml := ssml + EndTag("say-as");
        next := next.(inSayAs := false);
      }
      ghost var b1 := CloseSayAs(level, b);
      assert Tracks(b1) && StateOf(b1) == next;
      if next.inCustom && level < 2 {
        AppendClosingTags(next.customTags);
        next := next.(inCustom := false);
      }
      ghost var b2 := CloseCustom(level, b1);
      assert Tracks(b2) && StateOf(b2) == next;
      if next.inEmphasis && level < 2 {
        ssml := ssml + EndTag("emphasis");
        next := next.(inEmphasis := false);
      }
      ghost var b3 := CloseEmphasis(level, b2);
      assert Tracks(b3) && StateOf(b3) == next;
      if next.inProsody && level < 1 {
        ssml := ssml + EndTag("prosody");
        next := next.(inProsody := false);
      }
    }

    /** Writes a spoken text: what leads it in, its escaped copy between two mappings, what ends it. */
    method WriteSpoken(f: Fragment, state: TagState, ghost b: Build) returns (next: TagState)
      requires Tracks(b) && StateOf(b) == state
      modifies this`ssml, this`offsetMappings
      ensures Tracks(EmitSpoken(voice, f, b)) && StateOf(EmitSpoken(voice, f, b)) == next
    {
      hide Lead, LeadEvents, Tail, TailEvents, Escape, EscapeMaps, UpToNul;
      next := state;
      ssml := ssml + Lead(voice, f, ssml);
      offsetMappings := offsetMappings + [Mapping(f.src, |ssml|)];
      AppendTextFragToSsml(f);
      offsetMappings := offsetMappings + [Mapping(f.src + |f.text|, |ssml|)];
      ssml := ssml + Tail(voice, f);
      if voice.isEdge {
        next := next.(lastSapi := f.src + |f.text|);
      }
    }

    method WriteBookmark(f: Fragment, state: TagState, ghost b: Build)
      requires Tracks(b) && StateOf(b) == state
      modifies this`ssml, this`offsetMappings, this`bookmarks
      ensures Tracks(EmitBookmark(voice, f, b)) && StateOf(EmitBookmark(voice, f, b)) == state
    {
      if voice.isEdge {
        offsetMappings := offsetMappings + [Mapping(state.lastSapi, |ssml|)];
      } else {
        ghost var mark := Escape(UpToNul(f.text));
        ssml := ssml + ("<" + "bookmark" + " " + "mark" + "='");
        assert |"bookmark"| == 8 && |"mark"| == 4 && |"<bookmark mark='"| == 16;
        AppendTextFragToSsml(f);
        ssml := ssml + ("'" + "/" + ">");
        BookmarkPieces(b.ssml, mark);
      }
      bookmarks := bookmarks + [BookmarkInfo(f.src, f.text)];
    }

    /** Inserts an unknown tag as it is, keeping track of what is open. */
    method WriteTag(f: Fragment, state: TagState, ghost b: Build) returns (next: TagState)
      requires Tracks(b) && StateOf(b) == state
      modifies this`ssml
      ensures Tracks(EmitTag(f, b)) && StateOf(EmitTag(f, b)) == next
    {
      hide TagEvents, AllCloseEvents, ClosingTags, TrimTag, CloseThrough, IsXMLSelfClosingTag;
      next := state;
      var tag := TrimTag(f.text);
      if IsXMLSelfClosingTag(tag) {
        ssml := ssml + f.text;
      } else if IsXMLClosingTag(tag) {
        var toClose := MatchingTag(state.customTags, GetXMLClosingTagName(tag));
        if toClose.Some? {
          next := WriteClosing(toClose.value, f.text, state, b);
        }
      } else if |f.text| >= 3 {
        ssml := ssml + f.text;
        next := next.(customTags := state.customTags + [f.text]);
      }
    }

    /** Writes an end tag for stored tag `k` after closing what is open inside it. */
    method WriteClosing(k: nat, text: string, state: TagState, ghost b: Build) returns (next: TagState)
      requires Tracks(b) && StateOf(b) == state && k < |state.customTags|
      modifies this`ssml
      ensures Tracks(CloseThrough(b, k, text)) && StateOf(CloseThrough(b, k, text)) == next
    {
      hide TagEvents, AllCloseEvents;
      if k + 1 < |state.customTags| {
        AppendClosingTags(state.customTags[k + 1..]);
      } else {
        assert state.customTags[k + 1..] == [];
      }
      ssml := ssml + text;
      next := state.(customTags := state.customTags[..k]);
    }

    method WriteFragment(f: Fragment, state: TagState, ghost b: Build) returns (next: TagState)
      requires Tracks(b) && StateOf(b) == state
      modifies this`ssml, this`offsetMappings, this`bookmarks
      ensures Tracks(EmitFragment(voice, f, b)) && StateOf(EmitFragment(voice, f, b)) == next
    {
      hide EmitSpoken, EmitBookmark, EmitTag, EmptyTag, Attribute, Decimal;
      next := state;
      if Speakable(f) {
        next := WriteSpoken(f, state, b);
      } else if f.action == Bookmark {
        WriteBookmark(f, state, b);
      } else if !voice.isEdge {
        if f.action == Silence {
          ssml := ssml + EmptyTag("break", Attribute("time", Decimal(f.silenceMs) + "ms"));
        } else if f.action == ParseUnknownTag {
          next := WriteTag(f, state, b);
        }
      }
    }

    /** Translates a fragment list; false when nothing but bookmarks would be spoken. */
    method BuildSsml(frags: seq<Fragment>) returns (hasText: bool)
      requires TagShaped(voice, frags)
      modifies this`ssml, this`offsetMappings, this`mappingIndex, this`bookmarks, this`bookmarkIndex
      ensures Tracks(Translate(voice, frags)) && mappingIndex == 0 && bookmarkIndex == 0
      ensures hasText == Translate(voice, frags).hasText
      ensures Ordered(frags) ==> Valid()
    {
      hide OpenTags, EmitFragment, CloseTags, Run, LevelAfter, Ordered, Sorted, StartTag, EndTag, Attribute, SpeakAttributes;
      ssml := StartTag("speak", SpeakAttributes(voice));
      offsetMappings, mappingIndex, bookmarks, bookmarkIndex := [], 0, [], 0;
      if voice.name != "" {
        ssml := ssml + StartTag("voice", Attribute("name", voice.name));
      }
      var state := TagState(false, false, false, [], false, 0, false, 0);
      RunBegins(voice, frags);
      var i := 0;
      while i < |frags|
        invariant 0 <= i <= |frags|
        invariant Tracks(Run(voice, frags, i)) && StateOf(Run(voice, frags, i)) == state
        invariant mappingIndex == 0 && bookmarkIndex == 0
      {
        var f := frags[i];
        ghost var b := Run(voice, frags, i);
        state := OpenTagsFor(f, state, b);
        ghost var ready := OpenTags(voice, f, b);
        state := WriteFragment(f, state, ready);
        ghost var written := EmitFragment(voice, f, ready);
        var level := FindLevel(frags, i, state.prosodyCount);
        state := CloseTagsDownTo(level, state, written);
        RunNext(voice, frags, i);
        i := i + 1;
      }
      if voice.name != "" {
        ssml := ssml + EndTag("voice");
      }
      ssml := ssml + EndTag("speak");
      hasText := state.hasText;
      if Ordered(frags) {
        TranslationSorted(voice, frags);
      }
    }

    /** How many levels stay open after fragment `i`; Edge voices look ahead to the next one to be spoken. */
    method FindLevel(frags: seq<Fragment>, i: nat, prosodyCount: nat) returns (level: nat)
      requires i < |frags|
      ensures level == LevelAfter(voice, frags, i, prosodyCount)
    {
      var next := i + 1;
      while voice.isEdge && next < |frags| && !Speakable(frags[next])
        invariant i < next <= |frags|
        invariant NextIndex(voice, frags, i + 1) == NextIndex(voice, frags, next)
      {
        next := next + 1;
      }
      level := if next < |frags| then PreserveLevel(voice, frags[i], frags[next], prosodyCount) else 0;
    }

    // ---- Mapping back ----

    /**
     Converts an offset and length in SSML to those in the source, from whatever index was cached;
     the index left behind is the last one not above the offset.
     */
    method MapTextOffset(offset: nat, length: nat) returns (sapiOffset: nat, sapiLength: nat)
      requires Valid()
      modifies this`mappingIndex
      ensures (sapiOffset, sapiLength) == MapOffset(offsetMappings, offset, length)
      ensures mappingIndex == if offsetMappings == [] then old(mappingIndex) else LastNotAbove(offsetMappings, offset)
    {
      if offsetMappings == [] {
        return offset, length;
      }
      hide MapOffset, SapiOffset, LastNotAbove, StepBack, Wrap, Sorted, Max;
      var endOffset := Wrap(offset + length);
      SeekMapping(offset);
      sapiOffset := SapiOffset(offsetMappings[mappingIndex], offset);
      var index := EndMapping(endOffset, Wrap(sapiOffset + length), offset);
      MapSteps(offsetMappings, offset, length, sapiOffset, index);
      if index <= mappingIndex {
        return sapiOffset, length;
      }
      var endMapping := offsetMappings[index];
      endOffset := Wrap(endOffset - endMapping.ssml + endMapping.sapi);
      sapiLength := Wrap(endOffset - sapiOffset);
    }

    /** Moves the cached index to the last mapping not above `offset`, from wherever it was. */
    method SeekMapping(offset: nat)
      requires Valid() && offsetMappings != []
      modifies this`mappingIndex
      ensures mappingIndex == LastNotAbove(offsetMappings, offset)
    {
      hide LastNotAbove;
      var size := |offsetMappings|;
      if mappingIndex >= size || offsetMappings[mappingIndex].ssml > offset {
        mappingIndex := 0;
      }
      while mappingIndex + 1 < size && offset >= offsetMappings[mappingIndex + 1].ssml
        invariant mappingIndex < size
        invariant mappingIndex > 0 ==> offsetMappings[mappingIndex].ssml <= offset
        decreases size - mappingIndex
      {
        mappingIndex := mappingIndex + 1;
      }
      LastIs(offsetMappings, offset, mappingIndex);
    }

    /** The mapping to measure the end of a span from: on from the cached index, then back over ties. */
    method EndMapping(endOffset: nat, endSapi: nat, ghost offset: nat) returns (index: nat)
      requires Valid() && offsetMappings != [] && mappingIndex == LastNotAbove(offsetMappings, offset)
      ensures index == StepBack(offsetMappings, Max(mappingIndex, LastNotAbove(offsetMappings, endOffset)), endSapi)
    {
      hide LastNotAbove;
      index := mappingIndex;
      var size := |offsetMappings|;
      while index + 1 < size && endOffset >= offsetMappings[index + 1].ssml
        invariant mappingIndex <= index < size
        invariant index > mappingIndex ==> offsetMappings[index].ssml <= endOffset
      {
        index := index + 1;
      }
      LastBeyond(offsetMappings, endOffset, mappingIndex, index);
      ghost var found := index;
      while index > 0
          && offsetMappings[index - 1].ssml == offsetMappings[index].ssml
          && offsetMappings[index - 1].sapi >= endSapi
        invariant index <= found < size
        invariant StepBack(offsetMappings, found, endSapi) == StepBack(offsetMappings, index, endSapi)
      {
        index := index - 1;
      }
    }

    // ---- Events ----

    /** 48 bytes a millisecond, ten thousand ticks a millisecond. */
    function WaveTicksToBytes(ticks: nat): nat
      reads this
    {
      ticks * 48 / 10000 + compensatedSilentBytes
    }

    method OnBookmark(ticks: nat, name: string)
      modifies this`siteEvents
      ensures siteEvents == old(siteEvents) + if hasSite then [BookmarkReached(WaveTicksToBytes(ticks), name)] else []
    {
      if hasSite {
        siteEvents := siteEvents + [BookmarkReached(WaveTicksToBytes(ticks), name)];
      }
    }

    /** Reports a boundary at its place in the source; for Edge voices, words trigger the bookmarks before their end. */
    method OnBoundary(ticks: nat, textOffset: nat, textLength: nat, kind: BoundaryKind)
      requires Valid()
      modifies this`mappingIndex, this`siteEvents, this`bookmarkIndex
      ensures Valid()
      ensures !hasSite ==> siteEvents == old(siteEvents) && bookmarkIndex == old(bookmarkIndex) && mappingIndex == old(mappingIndex)
      ensures hasSite ==>
        Reporting(bookmarkIndex, siteEvents)
        == Reported(voice.isEdge, offsetMappings, bookmarks, old(Reporting(bookmarkIndex, siteEvents)),
                    Bounds(WaveTicksToBytes(ticks), textOffset, textLength, kind))
    {
      hide Sorted, Reported;
      if hasSite {
        ReportBoundary(ticks, textOffset, textLength, kind);
      }
    }

    method ReportBoundary(ticks: nat, textOffset: nat, textLength: nat, kind: BoundaryKind)
      requires Valid() && hasSite
      modifies this`mappingIndex, this`siteEvents, this`bookmarkIndex
      ensures Reporting(bookmarkIndex, siteEvents)
           == Reported(voice.isEdge, offsetMappings, bookmarks, old(Reporting(bookmarkIndex, siteEvents)),
                       Bounds(WaveTicksToBytes(ticks), textOffset, textLength, kind))
    {
      hide MapOffset, MappedEnd, MappedBoundary, Sorted, Triggered, BookmarkEvents, Wrap, LastNotAbove;
      var offset, length := MapTextOffset(textOffset, textLength);
      CallMapped(offsetMappings, Bounds(WaveTicksToBytes(ticks), textOffset, textLength, kind), offset, length);
      siteEvents := siteEvents + [Boundary(kind, WaveTicksToBytes(ticks), offset, length)];
      if voice.isEdge && kind == WordBoundary {
        TriggerBookmarks(ticks, Wrap(offset + length));
      }
    }

    /** Reports the bookmarks before source offset `end`. */
    method TriggerBookmarks(ticks: nat, end: nat)
      requires bookmarkIndex <= |bookmarks| && hasSite
      modifies this`siteEvents, this`bookmarkIndex
      ensures bookmarkIndex == Triggered(bookmarks, old(bookmarkIndex), end)
      ensures siteEvents == old(siteEvents) + BookmarkEvents(bookmarks[old(bookmarkIndex)..bookmarkIndex], WaveTicksToBytes(ticks))
    {
      ghost var start := bookmarkIndex;
      while bookmarkIndex < |bookmarks|
        invariant start <= bookmarkIndex <= |bookmarks|
        invariant Triggered(bookmarks, start, end) == Triggered(bookmarks, bookmarkIndex, end)
        invariant siteEvents == old(siteEvents) + BookmarkEvents(bookmarks[start..bookmarkIndex], WaveTicksToBytes(ticks))
        decreases |bookmarks| - bookmarkIndex
      {
        if end <= bookmarks[bookmarkIndex].sapi {
          break;
        }
        OnBookmark(ticks, bookmarks[bookmarkIndex].name);
        bookmarkIndex := bookmarkIndex + 1;
      }
    }

    /** Reports every bookmark not triggered yet, at one stream offset. */
    method FinishSimulatingBookmarkEvents(streamOffset: nat)
      requires Valid()
      modifies this`siteEvents
      ensures siteEvents == old(siteEvents) + BookmarkEvents(bookmarks[bookmarkIndex..], streamOffset)
    {
      for i := bookmarkIndex to |bookmarks|
        invariant siteEvents == old(siteEvents) + BookmarkEvents(bookmarks[bookmarkIndex..i], streamOffset)
      {
        siteEvents := siteEvents + [BookmarkReached(streamOffset, bookmarks[i].name)];
      }
      assert bookmarks[bookmarkIndex..|bookmarks|] == bookmarks[bookmarkIndex..];
    }

    // ---- A whole speak call ----

    /**
     Translates the fragments and tells the site what the service reports until it is done or the client aborts;
     `streamOffset` is where the audio ends.
     A text with nothing to speak has its bookmarks told at once. An Edge speak that is not aborted has told every
     bookmark of the text at its end, once and in text order; the service reports none, knowing none. Other voices
     tell the bookmarks that the service reports, in its order.
     */
    method SpeakFragments(frags: seq<Fragment>, reports: seq<ServiceReport>, aborted: bool, streamOffset: nat)
      requires TagShaped(voice, frags) && Ordered(frags)
      modifies this
      ensures !hasSite
      ensures var b, silent := Translate(voice, frags), old(compensatedSilentBytes);
        var told := AfterCalls(voice.isEdge, b.maps, b.bookmarks, Calls(reports));
        siteEvents == if !b.hasText then BookmarkEvents(b.bookmarks, silent)
                      else if voice.isEdge && !aborted then Flushed(b.bookmarks, told, streamOffset)
                      else told.events
      ensures !Translate(voice, frags).hasText ==> Reached(siteEvents) == NamesOf(Listed(frags))
      ensures Translate(voice, frags).hasText && voice.isEdge && !aborted && Marked(Calls(reports)) == [] ==>
                Reached(siteEvents) == NamesOf(Listed(frags))
      ensures Translate(voice, frags).hasText && !voice.isEdge ==> Reached(siteEvents) == Marked(Calls(reports))
    {
      hide Translate, Reached, Reported, MapOffset, Ordered, Sorted, BookmarkEvents, Listed, TagShaped, NamesOf, Marked;
      TranslationBookmarks(voice, frags);
      ghost var b := Translate(voice, frags);
      hasSite, siteEvents := true, [];
      var hasText := BuildSsml(frags);
      if !hasText {
        FinishSimulatingBookmarkEvents(compensatedSilentBytes);
        hasSite := false;
        ReachedBookmarks(b.bookmarks, old(compensatedSilentBytes));
        assert bookmarks[0..] == bookmarks;
        return;
      }
      compensatedSilentBytes := 0;
      for i := 0 to |reports|
        invariant hasSite && Valid() && Tracks(b)
        invariant Reporting(bookmarkIndex, siteEvents) == AfterCalls(voice.isEdge, b.maps, b.bookmarks, Calls(reports[..i]))
      {
        CallsNext(reports, i);
        compensatedSilentBytes := reports[i].silent;
        match reports[i] {
          case BoundaryReport(ticks, _, offset, length, kind) => OnBoundary(ticks, offset, length, kind);
          case BookmarkReport(ticks, _, name) =>
            MarkReported(voice.isEdge, offsetMappings, bookmarks, Reporting(bookmarkIndex, siteEvents), CallOf(reports[i]));
            OnBookmark(ticks, name);
        }
      }
      assert reports[..|reports|] == reports;
      if Marked(Calls(reports)) == [] {
        ExactlyOnce(voice.isEdge, b.maps, b.bookmarks, Calls(reports), streamOffset);
      }
      PassedOn(b.maps, b.bookmarks, Calls(reports));
      if !aborted && voice.isEdge {
        FinishSimulatingBookmarkEvents(streamOffset);
      }
      hasSite := false;
    }
  }

  /** What the service reports, with the silence its audio was delayed by when the report came. */
  datatype ServiceReport =
    | BoundaryReport(ticks: nat, silent: nat, offset: nat, length: nat, kind: BoundaryKind)
    | BookmarkReport(ticks: nat, silent: nat, name: string)

  function CallOf(r: ServiceReport): Call {
    var bytes := r.ticks * 48 / 10000 + r.silent;
    match r
    case BoundaryReport(_, _, offset, length, kind) => Bounds(bytes, offset, length, kind)
    case BookmarkReport(_, _, name) => Marks(bytes, name)
  }

  function Calls(reports: seq<ServiceReport>): (r: seq<Call>)
    ensures |r| == |reports|
  {
    seq(|reports|, i requires 0 <= i < |reports| => CallOf(reports[i]))
  }

  // ---- Where in the audio events are told ----

  /** 24 kHz, 16 bits, mono. */
  const ENGINE_FORMAT: Format := WaveFormat(48000, 2)

  /** Told at `bytes`: the sample the tick falls in, or its second byte, behind the silence put in before. */
  predicate AtTick(bytes: nat, ticks: nat, silent: nat) {
    EventBytes(ENGINE_FORMAT, ticks) <= bytes - silent < EventBytes(ENGINE_FORMAT, ticks) + 2
  }

  lemma ToldAtTick(r: ServiceReport)
    requires r.ticks * 48000 < 0x1_0000_0000_0000_0000
    ensures AtTick(CallOf(r).bytes, r.ticks, r.silent)
  {
    PositionOfTick(ENGINE_FORMAT, r.ticks);
    hide EventBytes;
    var told := r.ticks * 48 / 10000;
    assert told * 10_000_000 <= r.ticks * 48000 < (told + 1) * 10_000_000;
  }

  lemma WaveTicksAgree(e: Engine, ticks: nat)
    requires ticks * 48000 < 0x1_0000_0000_0000_0000
    ensures AtTick(e.WaveTicksToBytes(ticks), ticks, e.compensatedSilentBytes)
  {
    ToldAtTick(BookmarkReport(ticks, e.compensatedSilentBytes, ""));
    hide EventBytes;
  }

  /** Everything told while a report is handled is told at its tick. */
  lemma ReportedAt(isEdge: bool, maps: seq<Mapping>, bookmarks: seq<BookmarkInfo>, r: Reporting, c: Call)
    requires r.index <= |bookmarks|
    ensures var r' := Reported(isEdge, maps, bookmarks, r, c);
      r.events <= r'.events && forall i :: |r.events| <= i < |r'.events| ==> r'.events[i].bytes == c.bytes
  {
    hide MapOffset, MappedEnd, Triggered;
  }

  /** Everything told over a speak call is told at the tick of some report. */
  lemma {:induction false} AllAtTicks(isEdge: bool, maps: seq<Mapping>, bookmarks: seq<BookmarkInfo>, reports: seq<ServiceReport>)
    requires forall r :: r in reports ==> r.ticks * 48000 < 0x1_0000_0000_0000_0000
    ensures forall e :: e in AfterCalls(isEdge, maps, bookmarks, Calls(reports)).events ==>
              exists r :: r in reports && AtTick(e.bytes, r.ticks, r.silent)
  {
    hide Reported, AtTick, CallOf;
    if reports != [] {
      var early, r := reports[..|reports| - 1], reports[|reports| - 1];
      AllAtTicks(isEdge, maps, bookmarks, early);
      assert reports[..|reports|] == reports;
      CallsNext(reports, |reports| - 1);
      ToldAtTick(r);
      var before := AfterCalls(isEdge, maps, bookmarks, Calls(early));
      ReportedAt(isEdge, maps, bookmarks, before, CallOf(r));
      var after := AfterCalls(isEdge, maps, bookmarks, Calls(reports));
      assert after == Reported(isEdge, maps, bookmarks, before, CallOf(r));
      forall i | 0 <= i < |after.events| ensures exists q :: q in reports && AtTick(after.events[i].bytes, q.ticks, q.silent) {
        if i < |before.events| {
          assert before.events[i] in before.events;
        } else {
          assert r in reports;
        }
      }
    }
  }

  lemma MarkReported(isEdge: bool, maps: seq<Mapping>, bookmarks: seq<BookmarkInfo>, r: Reporting, c: Call)
    requires r.index <= |bookmarks| && c.Marks?
    ensures Reported(isEdge, maps, bookmarks, r, c) == Reporting(r.index, r.events + [BookmarkReached(c.bytes, c.name)])
  {
  }

  lemma CallsNext(reports: seq<ServiceReport>, i: nat)
    requires i < |reports|
    ensures Calls(reports[..i + 1])[..i] == Calls(reports[..i])
  {
  }

  /** Where the copied text starts and stops. */
  lemma TextEnds(src: nat, text: string, pos: nat)
    ensures Escape(text[..0]) == "" && EscapeMaps(src, text[..0], pos) == []
    ensures text[..|UpToNul(text)|] == UpToNul(text)
    ensures forall k :: 0 <= k < |text| && k <= |UpToNul(text)| ==> (text[k] == 0 as char <==> k == |UpToNul(text)|)
  {
  }

  lemma NextChar(src: nat, text: string, pos: nat, k: nat)
    requires k < |text|
    ensures Escape(text[..k + 1]) == Escape(text[..k]) + EscapeChar(text[k])
    ensures EscapeMaps(src, text[..k + 1], pos)
         == EscapeMaps(src, text[..k], pos)
            + if NeedsEscape(text[k]) then [Mapping(src + k + 1, pos + |Escape(text[..k])| + |EscapeChar(text[k])|)] else []
  {
    TakeOne(text, k + 1);
    EscapeMapsOne(src, text, pos, k + 1);
  }

  lemma ClosingLast(tags: seq<StoredTag>, k: nat)
    requires k < |tags|
    ensures ClosingTags(tags[..k + 1]) == EndTag(GetXMLTagName(tags[k])) + ClosingTags(tags[..k])
  {
    assert tags[..k + 1][..k] == tags[..k];
  }

  lemma ClosingNone(tags: seq<StoredTag>)
    ensures ClosingTags(tags[..0]) == ""
  {
  }

  lemma CallMapped(maps: seq<Mapping>, c: Call, offset: nat, length: nat)
    requires c.Bounds? && (offset, length) == MapOffset(maps, c.offset, c.length)
    ensures MappedEnd(maps, c) == Wrap(offset + length)
    ensures MappedBoundary(maps, c) == Boundary(c.kind, c.bytes, offset, length)
  {
    hide MapOffset, Wrap;
  }

  lemma RunBegins(v: Voice, frags: seq<Fragment>)
    ensures Run(v, frags, 0) == Begin(v)
  {
  }

  lemma MapSteps(maps: seq<Mapping>, offset: nat, length: nat, start: nat, index: nat)
    requires maps != [] && start == SapiOffset(maps[LastNotAbove(maps, offset)], offset)
    requires index == StepBack(maps, Max(LastNotAbove(maps, offset), LastNotAbove(maps, Wrap(offset + length))), Wrap(start + length))
    ensures MapOffset(maps, offset, length)
         == if index <= LastNotAbove(maps, offset) then (start, length)
            else (start, Wrap(Wrap(Wrap(offset + length) - maps[index].ssml + maps[index].sapi) - start))
  {
    hide LastNotAbove, StepBack, Wrap, SapiOffset;
  }

  lemma LastBeyond(maps: seq<Mapping>, end: nat, from: nat, i: nat)
    requires Sorted(maps) && from <= i < |maps| && (i > from ==> maps[i].ssml <= end)
    requires i + 1 < |maps| ==> maps[i + 1].ssml > end
    ensures i == Max(from, LastNotAbove(maps, end))
  {
  }

  lemma BookmarkPieces(before: string, mark: string)
    ensures ((before + ("<" + "bookmark" + " " + "mark" + "='")) + mark) + ("'" + "/" + ">")
         == before + EmptyTag("bookmark", Attribute("mark", mark))
  {
  }
}
