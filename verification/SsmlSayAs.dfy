/** Two more facts about whole translations: what its own say-as elements hold, and when there is anything to say. */
module SsmlSayAs {
  import opened WideText
  import opened XmlReader
  import opened SsmlBuilder
  import opened SsmlReading
  import opened SsmlNesting
  import opened SsmlText

  // ---- say-as holds text only (SSML 1.0 section 3.1.8) ----

  /** The start tag at `k` is followed by characters up to its end tag. */
  predicate HoldsText(evs: seq<Event>, k: int)
    requires 0 <= k
  {
    exists m :: k < m < |evs| && evs[m] == Close("say-as") && forall i :: k < i < m ==> evs[i].Char?
  }

  /** Nothing but characters has come since the start tag at `k`. */
  predicate TextSince(evs: seq<Event>, k: int)
    requires 0 <= k
  {
    forall i :: k < i < |evs| ==> evs[i].Char?
  }

  /** Where one step of the translator starts a say-as of its own: for a context, or to spell out. */
  function StepStarts(v: Voice, f: Fragment, b: Build): set<int> {
    var ready := OpenTags(v, f, b);
    (if ready.inSayAs && !b.inSayAs then {|ready.events| - 1} else {})
    + (if f.action == SpellOut && !v.isEdge then {|ready.events|} else {})
  }

  /** Where the translator has started say-as elements of its own, among the events inside the root. */
  function Starts(v: Voice, frags: seq<Fragment>, n: nat): set<int>
    requires n <= |frags|
  {
    if n == 0 then {} else Starts(v, frags, n - 1) + StepStarts(v, frags[n - 1], Run(v, frags, n - 1))
  }

  /** Every say-as started holds text only; one for a context may still be open. */
  predicate Held(b: Build, starts: set<int>) {
    && (forall k :: k in starts ==>
          0 <= k < |b.events| && b.events[k] == Open("say-as")
          && (HoldsText(b.events, k) || (b.inSayAs && TextSince(b.events, k))))
    && (b.inSayAs ==> exists k :: k in starts && 0 <= k && TextSince(b.events, k))
  }

  lemma HoldsOn(evs: seq<Event>, more: seq<Event>, k: int)
    requires 0 <= k && HoldsText(evs, k) && evs <= more
    ensures HoldsText(more, k)
  {
    var m :| k < m < |evs| && evs[m] == Close("say-as") && forall i :: k < i < m ==> evs[i].Char?;
    assert more[m] == Close("say-as");
  }

  /** Held elements stay so while events are added: any when none is open, else characters or the end tag first. */
  lemma HeldOn(b: Build, r: Build, starts: set<int>)
    requires Held(b, starts) && b.events <= r.events
    requires if b.inSayAs then
        || (r.inSayAs && forall i :: |b.events| <= i < |r.events| ==> r.events[i].Char?)
        || (!r.inSayAs && b.events + [Close("say-as")] <= r.events)
      else !r.inSayAs
    ensures Held(r, starts)
  {
    hide HoldsText;
    forall k | k in starts
      ensures 0 <= k < |r.events| && r.events[k] == Open("say-as")
      ensures HoldsText(r.events, k) || (r.inSayAs && TextSince(r.events, k))
    {
      if HoldsText(b.events, k) {
        HoldsOn(b.events, r.events, k);
      } else if !r.inSayAs {
        ClosedNow(b.events, r.events, k);
      }
    }
  }

  lemma ClosedNow(evs: seq<Event>, more: seq<Event>, k: int)
    requires 0 <= k < |evs| && TextSince(evs, k) && evs + [Close("say-as")] <= more
    ensures HoldsText(more, k)
  {
    assert more[|evs|] == Close("say-as");
    assert forall i :: k < i < |evs| ==> more[i] == evs[i];
  }

  /** One more say-as is started at the end of the events. */
  lemma HeldStart(b: Build, r: Build, starts: set<int>)
    requires Held(b, starts) && !b.inSayAs && r.inSayAs && b.events < r.events && r.events[|r.events| - 1] == Open("say-as")
    ensures Held(r, starts + {|r.events| - 1})
  {
    hide HoldsText;
    forall k | k in starts ensures HoldsText(r.events, k) && r.events[k] == Open("say-as") {
      HoldsOn(b.events, r.events, k);
    }
    assert |r.events| - 1 in starts + {|r.events| - 1};
  }

  // ---- What opening tags writes ----

  /** The start tags written before a fragment, outermost first. */
  function OpenedOutside(v: Voice, f: Fragment, b: Build): seq<Event> {
    (if OpensProsody(v, f, b) then [Open("prosody")] else [])
    + (if !b.inEmphasis && f.emphAdj != 0 && !v.isEdge then [Open("emphasis")] else [])
    + (if !b.inCustom then AllTagEvents(b.customTags) else [])
  }

  function OpenedSayAs(v: Voice, f: Fragment, b: Build): seq<Event> {
    if !b.inSayAs && f.category.Some? && f.action == Speak && !v.isEdge then [Open("say-as")] else []
  }

  lemma OpenTagsEvents(v: Voice, f: Fragment, b: Build)
    ensures OpenTags(v, f, b).events == (b.events + OpenedOutside(v, f, b)) + OpenedSayAs(v, f, b)
  {
    hide OpenTags, OpenProsody, OpenEmphasis, ReopenCustom, OpenSayAs, ProsodyOf, Speakable, AllTagEvents, OpenedSayAs;
    var b0 := b.(hasText := b.hasText || (f.action != Bookmark && f.text != ""));
    var b1 := OpenProsody(v, f, b0);
    var b2 := OpenEmphasis(v, f, b1);
    var b3 := ReopenCustom(b2);
    OpenTagsIs(v, f, b);
    ProsodyEvents(v, f, b0);
    EmphasisEvents(v, f, b1);
    CustomEvents(b2);
    SayAsEvents(v, f, b3);
    SameSayAs(v, f, b, b3);
    Join4(b.events,
      if OpensProsody(v, f, b) then [Open("prosody")] else [],
      if !b.inEmphasis && f.emphAdj != 0 && !v.isEdge then [Open("emphasis")] else [],
      if !b.inCustom then AllTagEvents(b.customTags) else []);
  }

  lemma SameSayAs(v: Voice, f: Fragment, b: Build, c: Build)
    requires b.inSayAs == c.inSayAs
    ensures OpenedSayAs(v, f, b) == OpenedSayAs(v, f, c)
  {
  }

  lemma Join4(a: seq<Event>, b: seq<Event>, c: seq<Event>, d: seq<Event>)
    ensures ((a + b) + c) + d == a + ((b + c) + d)
  {
  }

  lemma ProsodyEvents(v: Voice, f: Fragment, b: Build)
    ensures var r := OpenProsody(v, f, b);
      && r.events == b.events
           + (if OpensProsody(v, f, b) then [Open("prosody")] else [])
      && r.inEmphasis == b.inEmphasis && r.inCustom == b.inCustom && r.inSayAs == b.inSayAs && r.customTags == b.customTags
  {
    hide ProsodyOf, ProsodyAttributes, StartTag, Speakable;
  }

  lemma EmphasisEvents(v: Voice, f: Fragment, b: Build)
    ensures var r := OpenEmphasis(v, f, b);
      && r.events == b.events + (if !b.inEmphasis && f.emphAdj != 0 && !v.isEdge then [Open("emphasis")] else [])
      && r.inCustom == b.inCustom && r.inSayAs == b.inSayAs && r.customTags == b.customTags
  {
    hide StartTag;
  }

  lemma CustomEvents(b: Build)
    ensures var r := ReopenCustom(b);
      r.events == b.events + (if !b.inCustom then AllTagEvents(b.customTags) else []) && r.inSayAs == b.inSayAs
  {
    hide AllTagEvents, Concat;
  }

  lemma SayAsEvents(v: Voice, f: Fragment, b: Build)
    ensures OpenSayAs(v, f, b).events == b.events + OpenedSayAs(v, f, b)
  {
    hide Interpretation, StartTag, Attribute;
  }

  lemma OpenTagsHeld(v: Voice, f: Fragment, b: Build, starts: set<int>)
    requires Held(b, starts) && Ready(v, f, b)
    ensures var r := OpenTags(v, f, b);
      Held(r, starts + if r.inSayAs && !b.inSayAs then {|r.events| - 1} else {})
  {
    hide OpenTags, Held, ProsodyOf, Speakable, AllTagEvents;
    var r := OpenTags(v, f, b);
    OpenTagsEvents(v, f, b);
    OpenTagsFlags(v, f, b);
    if r.inSayAs && !b.inSayAs {
      HeldStart(b, r, starts);
    } else {
      HeldOn(b, r, starts);
      assert starts + {} == starts;
    }
  }

  // ---- What writing a fragment and closing tags adds ----

  lemma EmitHeld(v: Voice, f: Fragment, b: Build, starts: set<int>)
    requires Held(b, starts) && Writing(v, f, b)
    ensures Held(EmitFragment(v, f, b), starts + if f.action == SpellOut && !v.isEdge then {|b.events|} else {})
  {
    var r := EmitFragment(v, f, b);
    EmitExtends(v, f, b);
    EmitFragmentFlags(v, f, b);
    if f.action == SpellOut && !v.isEdge {
      SpelledOut(v, f, b);
    }
    hide EmitFragment, HoldsText;
    HeldOn(b, r, starts);
  }

  /** Writing a fragment adds events, and only characters while a say-as is open. */
  lemma EmitExtends(v: Voice, f: Fragment, b: Build)
    ensures b.events <= EmitFragment(v, f, b).events
    ensures Writing(v, f, b) && b.inSayAs ==>
      forall i :: |b.events| <= i < |EmitFragment(v, f, b).events| ==> EmitFragment(v, f, b).events[i].Char?
  {
    SpokenEvents(v, f, b);
    TagExtends(f, b);
    EmitBookmarkFlags(v, f, b);
    hide EmitSpoken, EmitBookmark, EmitTag, EmptyTag, UpToNul, NeedAddingSpace;
  }

  lemma TagExtends(f: Fragment, b: Build)
    ensures b.events <= EmitTag(f, b).events
  {
    hide TrimTag, IsXMLClosingTag, IsXMLSelfClosingTag, TagEvents, MatchingTag, CloseThrough;
    forall k | 0 <= k < |b.customTags| ensures b.events <= CloseThrough(b, k, f.text).events {
      ThroughExtends(b, k, f.text);
    }
  }

  lemma ThroughExtends(b: Build, k: nat, text: string)
    requires k < |b.customTags|
    ensures b.events <= CloseThrough(b, k, text).events
  {
    hide TagEvents, ClosingTags, AllCloseEvents;
  }

  /** A spelled-out text is a start tag, its characters and the end tag. */
  lemma SpelledOut(v: Voice, f: Fragment, b: Build)
    requires f.action == SpellOut && !v.isEdge
    ensures var r := EmitFragment(v, f, b);
      |b.events| < |r.events| && r.events[|b.events|] == Open("say-as") && HoldsText(r.events, |b.events|)
  {
    SpokenEvents(v, f, b);
    hide EmitSpoken, UpToNul;
    var r, t := EmitFragment(v, f, b), UpToNul(f.text);
    assert r.events == b.events + (([Open("say-as")] + Chars(t)) + [Close("say-as")]);
    assert r.events[|b.events| + 1 + |t|] == Close("say-as");
  }

  lemma CloseTagsHeld(level: nat, b: Build, starts: set<int>)
    requires Held(b, starts)
    ensures Held(CloseTags(level, b), starts)
  {
    var r := CloseTags(level, b);
    CloseTagsExtend(level, b);
    CloseTagsFlags(level, b);
    hide CloseTags, HoldsText;
    HeldOn(b, r, starts);
  }

  /** Closing tags adds events; an open say-as is closed first, or nothing is closed at all. */
  lemma CloseTagsExtend(level: nat, b: Build)
    ensures b.events <= CloseTags(level, b).events
    ensures b.inSayAs && level < 3 ==> b.events + [Close("say-as")] <= CloseTags(level, b).events
    ensures level >= 3 ==> CloseTags(level, b).events == b.events
  {
    hide ClosingTags, AllCloseEvents, EndTag;
  }

  lemma {:induction false} RunHeld(v: Voice, frags: seq<Fragment>, n: nat)
    requires n <= |frags| && Sound(v, frags)
    ensures Held(Run(v, frags, n), Starts(v, frags, n))
  {
    hide Run, Held, StepStarts, Sound, Begin;
    if n > 0 {
      RunHeld(v, frags, n - 1);
      StepHeld(v, frags, n - 1, Starts(v, frags, n - 1));
    } else {
      RunStart(v, frags);
      NoneHeld(Run(v, frags, 0));
    }
  }

  lemma NoneHeld(b: Build)
    requires !b.inSayAs
    ensures Held(b, {})
  {
  }

  lemma StepHeld(v: Voice, frags: seq<Fragment>, i: nat, starts: set<int>)
    requires i < |frags| && Sound(v, frags) && Held(Run(v, frags, i), starts)
    ensures Held(Written(v, frags, i), starts + StepStarts(v, frags[i], Run(v, frags, i)))
    ensures Held(Run(v, frags, i + 1), starts + StepStarts(v, frags[i], Run(v, frags, i)))
  {
    hide Run, OpenTags, EmitFragment, CloseTags, LevelAfter, Held, Sound, Nested, Writing, Ready;
    var f, b := frags[i], Run(v, frags, i);
    RunNests(false, v, frags, i);
    RunReads(v, frags, i);
    var ready, w := OpenTags(v, f, b), Written(v, frags, i);
    OpenTagsNest(false, false, v, f, b);
    OpenTagsHeld(v, f, b, starts);
    var first := starts + if ready.inSayAs && !b.inSayAs then {|ready.events| - 1} else {};
    EmitHeld(v, f, ready, first);
    assert first + (if f.action == SpellOut && !v.isEdge then {|ready.events|} else {}) == starts + StepStarts(v, f, b);
    CloseTagsHeld(LevelAfter(v, frags, i, w.prosodyCount), w, starts + StepStarts(v, f, b));
    RunNext(v, frags, i);
  }

  // ---- Without unknown tags of that name there are no others ----

  predicate StartsSayAs(text: string) {
    ReadTag(Inner(text)) == Some(Open("say-as"))
  }

  /** No unknown tag starts a say-as. */
  predicate NoSayAsTag(v: Voice, frags: seq<Fragment>) {
    !v.isEdge ==> forall f :: f in frags && f.action == ParseUnknownTag ==> !StartsSayAs(f.text)
  }

  predicate NoStart(evs: seq<Event>) {
    forall i :: 0 <= i < |evs| ==> evs[i] != Open("say-as")
  }

  predicate NoneStored(tags: seq<StoredTag>) {
    forall i :: 0 <= i < |tags| ==> !StartsSayAs(tags[i])
  }

  /** Every say-as start tag is one of the translator's own. */
  predicate OnlyAt(evs: seq<Event>, starts: set<int>) {
    forall k :: 0 <= k < |evs| && evs[k] == Open("say-as") ==> k in starts
  }

  lemma OnlyAtOn(evs: seq<Event>, more: seq<Event>, starts: set<int>)
    requires OnlyAt(evs, starts) && NoStart(more)
    ensures OnlyAt(evs + more, starts)
  {
  }

  lemma TagNoStart(text: string)
    requires !StartsSayAs(text)
    ensures NoStart(TagEvents(text))
  {
    hide ReadTag, Inner, Trail;
  }

  lemma {:induction false} ReopenNoStart(tags: seq<StoredTag>)
    requires NoneStored(tags)
    ensures NoStart(AllTagEvents(tags))
  {
    hide TagEvents, StartsSayAs;
    if tags != [] {
      ReopenNoStart(tags[..|tags| - 1]);
      TagNoStart(tags[|tags| - 1]);
    }
  }

  lemma {:induction false} CloseNoStart(tags: seq<StoredTag>)
    ensures NoStart(AllCloseEvents(tags))
  {
    hide Sloppy, ElementName;
    if tags != [] {
      CloseNoStart(tags[..|tags| - 1]);
    }
  }

  lemma OpenTagsOnly(v: Voice, f: Fragment, b: Build, starts: set<int>)
    requires OnlyAt(b.events, starts) && NoneStored(b.customTags)
    ensures var r := OpenTags(v, f, b);
      OnlyAt(r.events, starts + if r.inSayAs && !b.inSayAs then {|r.events| - 1} else {})
  {
    hide OpenTags, ProsodyOf, Speakable, AllTagEvents, StartsSayAs;
    OpenTagsEvents(v, f, b);
    OpenTagsFlags(v, f, b);
    ReopenNoStart(b.customTags);
    OnlyAtOn(b.events, OpenedOutside(v, f, b), starts);
    OnlyAtLast(b.events + OpenedOutside(v, f, b), starts);
  }

  /** A start tag at the end is one more. */
  lemma OnlyAtLast(evs: seq<Event>, starts: set<int>)
    requires OnlyAt(evs, starts)
    ensures OnlyAt(evs + [Open("say-as")], starts + {|evs|}) && OnlyAt(evs + [], starts + {})
  {
  }

  lemma EmitOnly(v: Voice, f: Fragment, b: Build, starts: set<int>)
    requires OnlyAt(b.events, starts) && NoneStored(b.customTags)
    requires !v.isEdge && f.action == ParseUnknownTag ==> !StartsSayAs(f.text)
    ensures OnlyAt(EmitFragment(v, f, b).events, starts + if f.action == SpellOut && !v.isEdge then {|b.events|} else {})
    ensures NoneStored(EmitFragment(v, f, b).customTags)
  {
    hide EmitSpoken, EmitBookmark, EmitTag, EmptyTag, StartsSayAs, NoneStored;
    assert starts + {} == starts;
    if Speakable(f) {
      SpokenOnly(v, f, b, starts);
      EmitSpokenFlags(v, f, b);
    } else if !v.isEdge && f.action == ParseUnknownTag {
      EmitTagOnly(f, b, starts);
    } else {
      EmitBookmarkFlags(v, f, b);
    }
  }

  lemma SpokenOnly(v: Voice, f: Fragment, b: Build, starts: set<int>)
    requires OnlyAt(b.events, starts) && Speakable(f)
    ensures OnlyAt(EmitSpoken(v, f, b).events, starts + if f.action == SpellOut && !v.isEdge then {|b.events|} else {})
  {
    SpokenEvents(v, f, b);
    hide EmitSpoken, UpToNul, NeedAddingSpace;
    var said := (LeadEvents(v, f, b.ssml) + Chars(UpToNul(f.text))) + TailEvents(v, f);
    if f.action == SpellOut && !v.isEdge {
      var rest := Chars(UpToNul(f.text)) + [Close("say-as")];
      assert b.events + said == (b.events + [Open("say-as")]) + rest;
      OnlyAtLast(b.events, starts);
      OnlyAtOn(b.events + [Open("say-as")], rest, starts + {|b.events|});
    } else {
      OnlyAtOn(b.events, said, starts);
    }
  }

  lemma EmitTagOnly(f: Fragment, b: Build, starts: set<int>)
    requires OnlyAt(b.events, starts) && NoneStored(b.customTags) && !StartsSayAs(f.text)
    ensures OnlyAt(EmitTag(f, b).events, starts) && NoneStored(EmitTag(f, b).customTags)
  {
    hide TrimTag, IsXMLClosingTag, IsXMLSelfClosingTag, TagEvents, StartsSayAs, OnlyAt, CloseThrough;
    TagNoStart(f.text);
    OnlyAtOn(b.events, TagEvents(f.text), starts);
    var tag := TrimTag(f.text);
    if !IsXMLSelfClosingTag(tag) && IsXMLClosingTag(tag) {
      var m := MatchingTag(b.customTags, GetXMLClosingTagName(tag));
      if m.Some? {
        ThroughOnly(b, m.value, f.text, starts);
      }
    }
  }

  lemma ThroughOnly(b: Build, k: nat, text: string, starts: set<int>)
    requires k < |b.customTags| && OnlyAt(b.events, starts) && NoneStored(b.customTags) && NoStart(TagEvents(text))
    ensures OnlyAt(CloseThrough(b, k, text).events, starts) && NoneStored(CloseThrough(b, k, text).customTags)
  {
    hide OnlyAt, NoStart, TagEvents, ClosingTags, AllCloseEvents, StartsSayAs;
    var inner := b.customTags[k + 1..];
    CloseNoStart(inner);
    OnlyAtOn(b.events, AllCloseEvents(inner), starts);
    OnlyAtOn(b.events + AllCloseEvents(inner), TagEvents(text), starts);
  }

  lemma CloseTagsOnly(level: nat, b: Build, starts: set<int>)
    requires OnlyAt(b.events, starts)
    ensures OnlyAt(CloseTags(level, b).events, starts)
  {
    hide CloseSayAs, CloseCustom, CloseEmphasis, CloseProsody, OnlyAt;
    CloseTagsFlags(level, b);
    CloseOneOnly(level, b, starts);
    CloseOneOnly(level, CloseSayAs(level, b), starts);
    CloseOneOnly(level, CloseCustom(level, CloseSayAs(level, b)), starts);
    CloseOneOnly(level, CloseEmphasis(level, CloseCustom(level, CloseSayAs(level, b))), starts);
  }

  lemma CloseOneOnly(level: nat, b: Build, starts: set<int>)
    requires OnlyAt(b.events, starts)
    ensures OnlyAt(CloseSayAs(level, b).events, starts) && OnlyAt(CloseCustom(level, b).events, starts)
    ensures OnlyAt(CloseEmphasis(level, b).events, starts) && OnlyAt(CloseProsody(level, b).events, starts)
  {
    hide ClosingTags, AllCloseEvents, EndTag, OnlyAt;
    CloseNoStart(b.customTags);
    OnlyAtOn(b.events, [Close("say-as")], starts);
    OnlyAtOn(b.events, [Close("emphasis")], starts);
    OnlyAtOn(b.events, [Close("prosody")], starts);
    OnlyAtOn(b.events, AllCloseEvents(b.customTags), starts);
  }

  lemma {:induction false} RunOnly(v: Voice, frags: seq<Fragment>, n: nat)
    requires n <= |frags| && NoSayAsTag(v, frags)
    ensures OnlyAt(Run(v, frags, n).events, Starts(v, frags, n)) && NoneStored(Run(v, frags, n).customTags)
  {
    hide Run, OpenTags, EmitFragment, CloseTags, LevelAfter, OnlyAt, NoneStored, StartsSayAs;
    if n == 0 {
      BeginOnly(v, frags);
    } else {
      var f, b, starts := frags[n - 1], Run(v, frags, n - 1), Starts(v, frags, n - 1);
      RunOnly(v, frags, n - 1);
      var ready, w := OpenTags(v, f, b), Written(v, frags, n - 1);
      OpenTagsFlags(v, f, b);
      OpenTagsOnly(v, f, b, starts);
      var first := starts + if ready.inSayAs && !b.inSayAs then {|ready.events| - 1} else {};
      EmitOnly(v, f, ready, first);
      var all := first + if f.action == SpellOut && !v.isEdge then {|ready.events|} else {};
      assert all == Starts(v, frags, n);
      var level := LevelAfter(v, frags, n - 1, w.prosodyCount);
      CloseTagsOnly(level, w, all);
      CloseTagsFlags(level, w);
      RunNext(v, frags, n - 1);
    }
  }

  lemma BeginOnly(v: Voice, frags: seq<Fragment>)
    ensures OnlyAt(Run(v, frags, 0).events, {}) && NoneStored(Run(v, frags, 0).customTags)
  {
    assert Begin(v).events == [] || Begin(v).events == [Open("voice")];
  }

  // ---- The finished document ----

  /**
   In the finished document every say-as element the translator makes, for a context or to spell out, holds nothing
   but characters; without unknown tags that start a say-as, that is every say-as element there is.
   */
  lemma SayAsHoldsText(v: Voice, frags: seq<Fragment>)
    requires Sound(v, frags)
    ensures var evs := Read(Translate(v, frags).ssml).events;
      forall k :: k in Starts(v, frags, |frags|) ==>
        0 <= k < |evs| - 1 && evs[k + 1] == Open("say-as") && HoldsText(evs, k + 1)
    ensures var evs := Read(Translate(v, frags).ssml).events;
      NoSayAsTag(v, frags) ==> forall k :: 0 <= k < |evs| && evs[k] == Open("say-as") ==> HoldsText(evs, k)
  {
    hide Run, Translate, Feed, HoldsText, Starts, Held, OnlyAt, Sound, Nested, NoSayAsTag;
    var n, b := |frags|, Run(v, frags, |frags|);
    TranslationReads(v, frags);
    TranslationEnds(v, frags);
    RunHeld(v, frags, n);
    RunNests(false, v, frags, n);
    var evs := Read(Translate(v, frags).ssml).events;
    InsideRoot(b, evs, Starts(v, frags, n));
    if NoSayAsTag(v, frags) {
      RunOnly(v, frags, n);
      OnlyInside(b.events, evs, Starts(v, frags, n));
    }
  }

  lemma TranslationEnds(v: Voice, frags: seq<Fragment>)
    ensures Translate(v, frags).events == Run(v, frags, |frags|).events
         || Translate(v, frags).events == Run(v, frags, |frags|).events + [Close("voice")]
  {
    hide Run, EndTag;
  }

  /** Read in the whole document, events come one later, behind the root's start tag. */
  predicate Inside(inner: seq<Event>, evs: seq<Event>) {
    || evs == [Open("speak")] + inner + [Close("speak")]
    || evs == [Open("speak")] + (inner + [Close("voice")]) + [Close("speak")]
  }

  lemma InsideRoot(b: Build, evs: seq<Event>, starts: set<int>)
    requires Held(b, starts) && !b.inSayAs && Inside(b.events, evs)
    ensures forall k :: k in starts ==> 0 <= k < |evs| - 1 && evs[k + 1] == Open("say-as") && HoldsText(evs, k + 1)
  {
    hide HoldsText, Inside, Held;
    InsideShifts(b.events, evs);
    forall k | k in starts ensures 0 <= k < |evs| - 1 && evs[k + 1] == Open("say-as") && HoldsText(evs, k + 1) {
      HeldAt(b, starts, k);
      HoldsShifted(b.events, evs, k);
    }
  }

  lemma HeldAt(b: Build, starts: set<int>, k: int)
    requires Held(b, starts) && !b.inSayAs && k in starts
    ensures 0 <= k < |b.events| && b.events[k] == Open("say-as") && HoldsText(b.events, k)
  {
    hide HoldsText;
  }

  lemma InsideShifts(inner: seq<Event>, evs: seq<Event>)
    requires Inside(inner, evs)
    ensures |inner| + 1 < |evs| && forall i :: 0 <= i < |inner| ==> evs[i + 1] == inner[i]
  {
  }

  lemma HoldsShifted(inner: seq<Event>, evs: seq<Event>, k: int)
    requires 0 <= k && HoldsText(inner, k)
    requires |inner| < |evs| && forall i :: 0 <= i < |inner| ==> evs[i + 1] == inner[i]
    ensures HoldsText(evs, k + 1)
  {
    var m :| k < m < |inner| && inner[m] == Close("say-as") && forall i :: k < i < m ==> inner[i].Char?;
    assert evs[m + 1] == Close("say-as");
    forall i | k + 1 < i < m + 1 ensures evs[i].Char? {
      assert evs[i - 1 + 1] == inner[i - 1];
    }
  }

  lemma OnlyInside(inner: seq<Event>, evs: seq<Event>, starts: set<int>)
    requires OnlyAt(inner, starts) && Inside(inner, evs)
    ensures forall k :: 0 <= k < |evs| && evs[k] == Open("say-as") ==> k - 1 in starts
  {
    forall k | 0 <= k < |evs| && evs[k] == Open("say-as") ensures k - 1 in starts {
      assert 0 < k <= |inner| && inner[k - 1] == evs[k];
    }
  }

  /** A say-as for a context holds, when it is closed, only the characters since its start tag, and its end tag is next. */
  lemma SayAsElement(v: Voice, frags: seq<Fragment>, i: nat)
    requires i < |frags| && Sound(v, frags) && Written(v, frags, i).inSayAs && !Run(v, frags, i + 1).inSayAs
    ensures exists before, t ::
      && Written(v, frags, i).events == before + [Open("say-as")] + Chars(t)
      && Written(v, frags, i).events + [Close("say-as")] <= Run(v, frags, i + 1).events
  {
    hide Run, Written, LevelAfter, CloseTags, Sound, Starts, StepStarts, HoldsText;
    var w := Written(v, frags, i);
    RunHeld(v, frags, i);
    StepHeld(v, frags, i, Starts(v, frags, i));
    WrittenThenClosed(v, frags, i);
    var k :| k in Starts(v, frags, i) + StepStarts(v, frags[i], Run(v, frags, i)) && 0 <= k && TextSince(w.events, k);
    var before := w.events[..k];
    var t := seq(|w.events| - k - 1, j requires 0 <= j < |w.events| - k - 1 => w.events[k + 1 + j].c);
    assert w.events == before + [Open("say-as")] + Chars(t);
  }

  lemma WrittenThenClosed(v: Voice, frags: seq<Fragment>, i: nat)
    requires i < |frags| && Written(v, frags, i).inSayAs && !Run(v, frags, i + 1).inSayAs
    ensures Written(v, frags, i).events + [Close("say-as")] <= Run(v, frags, i + 1).events
  {
    hide Run, OpenTags, EmitFragment, CloseTags, LevelAfter;
    var w := Written(v, frags, i);
    var level := LevelAfter(v, frags, i, w.prosodyCount);
    RunNext(v, frags, i);
    CloseTagsFlags(level, w);
    CloseTagsExtend(level, w);
  }

  // ---- Anything to say ----

  lemma {:induction false} RunHasText(v: Voice, frags: seq<Fragment>, n: nat)
    requires n <= |frags|
    ensures Run(v, frags, n).hasText <==> exists i :: 0 <= i < n && frags[i].action != Bookmark && frags[i].text != ""
  {
    hide Run;
    if n == 0 {
      StartHasText(v, frags);
    } else {
      RunHasText(v, frags, n - 1);
      StepHasText(v, frags, n - 1);
    }
  }

  lemma StepHasText(v: Voice, frags: seq<Fragment>, i: nat)
    requires i < |frags|
    ensures Run(v, frags, i + 1).hasText == (Run(v, frags, i).hasText || (frags[i].action != Bookmark && frags[i].text != ""))
  {
    hide Run, OpenTags, EmitFragment, CloseTags, LevelAfter, ProsodyOf, Speakable;
    var f, b, w := frags[i], Run(v, frags, i), Written(v, frags, i);
    RunNext(v, frags, i);
    OpenTagsFlags(v, f, b);
    EmitFragmentFlags(v, f, OpenTags(v, f, b));
    CloseTagsFlags(LevelAfter(v, frags, i, w.prosodyCount), w);
  }

  lemma StartHasText(v: Voice, frags: seq<Fragment>)
    ensures !Run(v, frags, 0).hasText
  {
  }

  /** There is something to speak if and only if some fragment other than a bookmark has text. */
  lemma TranslationHasText(v: Voice, frags: seq<Fragment>)
    ensures Translate(v, frags).hasText <==> exists f :: f in frags && f.action != Bookmark && f.text != ""
  {
    RunHasText(v, frags, |frags|);
    assert Translate(v, frags).hasText == Run(v, frags, |frags|).hasText;
    hide Run, Translate;
    forall i | 0 <= i < |frags| ensures frags[i] in frags {
    }
  }
}
