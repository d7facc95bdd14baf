/** What Edge voices accept: no element besides speak, voice and prosody, and at most two prosody elements. */
module EdgeLimits {
  import opened WideText
  import opened XmlReader
  import opened SsmlBuilder
  import opened SsmlReading
  import opened SsmlNesting
  import SsmlText

  function OpenCount(evs: seq<Event>, name: string): nat {
    if evs == [] then 0
    else OpenCount(evs[..|evs| - 1], name) + if evs[|evs| - 1] == Open(name) then 1 else 0
  }

  predicate OnlyElements(evs: seq<Event>, names: set<string>) {
    forall e :: e in evs ==> !e.Empty? && (e.Open? || e.Close? ==> e.name in names)
  }

  /** Every prosody element starts with a character. */
  predicate NoEmptyProsody(evs: seq<Event>) {
    forall k :: 0 <= k < |evs| && evs[k] == Open("prosody") ==> k + 1 < |evs| && evs[k + 1].Char?
  }

  /** Every fragment to be spoken has a character to speak. */
  predicate AllSayable(frags: seq<Fragment>) {
    forall f :: f in frags && Speakable(f) ==> UpToNul(f.text) != ""
  }

  lemma {:induction false} OpenCountConcat(a: seq<Event>, b: seq<Event>, name: string)
    ensures OpenCount(a + b, name) == OpenCount(a, name) + OpenCount(b, name)
  {
    if b == [] {
      assert a + b == a;
    } else {
      OpenCountConcat(a, b[..|b| - 1], name);
      assert (a + b)[..|a + b| - 1] == a + b[..|b| - 1];
    }
  }

  lemma {:induction false} OpenCountChars(s: string, name: string)
    ensures OpenCount(Chars(s), name) == 0
  {
    if s != "" {
      OpenCountChars(s[..|s| - 1], name);
      assert Chars(s)[..|s| - 1] == Chars(s[..|s| - 1]);
    }
  }

  lemma OpenCountOne(e: Event, name: string)
    ensures OpenCount([e], name) == if e == Open(name) then 1 else 0
  {
    assert [e][..0] == [];
    assert OpenCount([], name) == 0;
  }

  // ---- One fragment for an Edge voice ----

  predicate EdgeState(b: Build) {
    !b.inEmphasis && !b.inSayAs && b.customTags == []
  }

  function Started(v: Voice, f: Fragment, b: Build): seq<Event> {
    if OpensProsody(v, f, b) then [Open("prosody")] else []
  }

  function Said(v: Voice, f: Fragment, before: string): seq<Event> {
    if Speakable(f) then Chars(Lead(v, f, before)) + Chars(UpToNul(f.text)) else []
  }

  lemma EdgeOpen(v: Voice, f: Fragment, b: Build)
    requires v.isEdge && EdgeState(b)
    ensures var r := OpenTags(v, f, b);
      && r.events == b.events + Started(v, f, b) && EdgeState(r)
      && r.inProsody == (b.inProsody || OpensProsody(v, f, b))
      && r.prosodyCount == b.prosodyCount + if OpensProsody(v, f, b) then 1 else 0
  {
    hide ProsodyOf, ProsodyAttributes, StartTag;
    assert b.events + [] == b.events;
    assert Concat([]) == "" && AllTagEvents([]) == [];
  }

  lemma EdgeWrite(v: Voice, f: Fragment, b: Build)
    requires v.isEdge && EdgeState(b)
    ensures var r := EmitFragment(v, f, b);
      && r.events == b.events + Said(v, f, b.ssml) && EdgeState(r)
      && r.inProsody == b.inProsody && r.prosodyCount == b.prosodyCount
  {
    EmitFragmentFlags(v, f, b);
    SsmlText.SpokenEvents(v, f, b);
    assert LeadEvents(v, f, b.ssml) == Chars(Lead(v, f, b.ssml));
    EmitBookmarkFlags(v, f, b);
    hide EmitSpoken, EmitBookmark, Lead, UpToNul, Chars;
    assert b.events + [] == b.events;
  }

  lemma EdgeClose(level: nat, b: Build)
    requires EdgeState(b)
    ensures var r := CloseTags(level, b);
      && r.events == b.events + (if b.inProsody && level < 1 then [Close("prosody")] else []) && EdgeState(r)
      && r.inProsody == (b.inProsody && level >= 1) && r.prosodyCount == b.prosodyCount
  {
    CloseTagsFlags(level, b);
    assert ClosingTags([]) == "" && AllCloseEvents([]) == [];
    hide EndTag;
    assert b.events + [] == b.events;
  }

  // ---- At most two prosody elements ----

  /** At most two were opened; once there are two, it stays open as long as something is left to speak. */
  predicate WithinLimit(v: Voice, frags: seq<Fragment>, n: nat, b: Build)
    requires n <= |frags|
  {
    && EdgeState(b)
    && OpenCount(b.events, "prosody") == b.prosodyCount <= 2
    && (b.prosodyCount == 2 && NextIndex(v, frags, n) < |frags| ==> b.inProsody)
  }

  lemma {:induction false} RunWithinLimit(v: Voice, frags: seq<Fragment>, n: nat)
    requires n <= |frags| && v.isEdge
    ensures WithinLimit(v, frags, n, Run(v, frags, n))
  {
    hide WithinLimit, Run, Step;
    if n == 0 {
      EdgeStart(v, frags);
    } else {
      RunWithinLimit(v, frags, n - 1);
      LimitStep(v, frags, n - 1, Run(v, frags, n - 1));
      RunNext(v, frags, n - 1);
    }
  }

  lemma EdgeStart(v: Voice, frags: seq<Fragment>)
    requires v.isEdge
    ensures WithinLimit(v, frags, 0, Run(v, frags, 0))
    ensures OnlyElements(Run(v, frags, 0).events, {"voice", "prosody"}) && NoEmptyProsody(Run(v, frags, 0).events)
  {
    EdgeBegins(v);
    var b := Begin(v);
    assert Run(v, frags, 0) == b;
    hide Run, Begin, NextIndex;
    OpenCountOne(Open("voice"), "prosody");
    assert OpenCount([], "prosody") == 0;
  }

  lemma EdgeBegins(v: Voice)
    ensures var b := Begin(v);
      (b.events == [] || b.events == [Open("voice")]) && EdgeState(b) && b.prosodyCount == 0
  {
    hide SpeakAttributes, StartTag, Attribute;
  }

  lemma LimitStep(v: Voice, frags: seq<Fragment>, i: nat, b: Build)
    requires i < |frags| && v.isEdge && WithinLimit(v, frags, i, b)
    ensures WithinLimit(v, frags, i + 1, Step(v, frags, i, b))
  {
    var f := frags[i];
    hide OpenTags, EmitFragment, CloseTags, OpensProsody, Said;
    var ready := OpenTags(v, f, b);
    EdgeOpen(v, f, b);
    var written := EmitFragment(v, f, ready);
    EdgeWrite(v, f, ready);
    var level := LevelAfter(v, frags, i, written.prosodyCount);
    EdgeClose(level, written);
    CountStep(v, f, b.events, ready.ssml, OpensProsody(v, f, b), written.inProsody && level < 1);
    OpensWhen(v, f, b);
  }

  lemma OpensWhen(v: Voice, f: Fragment, b: Build)
    requires v.isEdge
    ensures OpensProsody(v, f, b) ==> !b.inProsody && Speakable(f)
  {
  }

  lemma CountStep(v: Voice, f: Fragment, evs: seq<Event>, before: string, open: bool, close: bool)
    ensures OpenCount((evs + (if open then [Open("prosody")] else [])) + Said(v, f, before)
              + (if close then [Close("prosody")] else []), "prosody")
         == OpenCount(evs, "prosody") + if open then 1 else 0
  {
    var e1, e2 := if open then [Open("prosody")] else [], if close then [Close("prosody")] else [];
    OpenCountConcat((evs + e1) + Said(v, f, before), e2, "prosody");
    OpenCountConcat(evs + e1, Said(v, f, before), "prosody");
    OpenCountConcat(evs, e1, "prosody");
    OpenCountConcat(Chars(Lead(v, f, before)), Chars(UpToNul(f.text)), "prosody");
    OpenCountChars(Lead(v, f, before), "prosody");
    OpenCountChars(UpToNul(f.text), "prosody");
    OpenCountOne(Open("prosody"), "prosody");
    OpenCountOne(Close("prosody"), "prosody");
    hide Chars, Lead, UpToNul;
  }

  // ---- Only known elements, and none of them empty ----

  lemma {:induction false} RunEdgeShape(v: Voice, frags: seq<Fragment>, n: nat)
    requires n <= |frags| && v.isEdge
    ensures OnlyElements(Run(v, frags, n).events, {"voice", "prosody"})
    ensures AllSayable(frags) ==> NoEmptyProsody(Run(v, frags, n).events)
  {
    hide *;
    if n == 0 {
      EdgeStart(v, frags);
    } else {
      RunEdgeShape(v, frags, n - 1);
      RunWithinLimit(v, frags, n - 1);
      LimitState(v, frags, n - 1, Run(v, frags, n - 1));
      RunNext(v, frags, n - 1);
      ShapeStep(v, frags, n - 1, Run(v, frags, n - 1));
    }
  }

  lemma LimitState(v: Voice, frags: seq<Fragment>, n: nat, b: Build)
    requires n <= |frags| && WithinLimit(v, frags, n, b)
    ensures EdgeState(b)
  {
  }

  lemma ShapeStep(v: Voice, frags: seq<Fragment>, i: nat, b: Build)
    requires i < |frags| && v.isEdge && EdgeState(b)
    requires OnlyElements(b.events, {"voice", "prosody"}) && (AllSayable(frags) ==> NoEmptyProsody(b.events))
    ensures OnlyElements(Step(v, frags, i, b).events, {"voice", "prosody"})
    ensures AllSayable(frags) ==> NoEmptyProsody(Step(v, frags, i, b).events)
  {
    var f := frags[i];
    assert f in frags;
    hide OpenTags, EmitFragment, CloseTags, LevelAfter, OnlyElements, NoEmptyProsody, Said;
    var ready := OpenTags(v, f, b);
    EdgeOpen(v, f, b);
    var written := EmitFragment(v, f, ready);
    EdgeWrite(v, f, ready);
    var level := LevelAfter(v, frags, i, written.prosodyCount);
    EdgeClose(level, written);
    AddShape(v, f, b.events, ready.ssml, OpensProsody(v, f, b), written.inProsody && level < 1,
      AllSayable(frags));
  }

  lemma AddShape(v: Voice, f: Fragment, evs: seq<Event>, before: string, open: bool, close: bool, sayable: bool)
    requires OnlyElements(evs, {"voice", "prosody"}) && (sayable ==> NoEmptyProsody(evs))
    requires open ==> Speakable(f) && (sayable ==> UpToNul(f.text) != "")
    ensures var r := (evs + (if open then [Open("prosody")] else [])) + Said(v, f, before)
                     + (if close then [Close("prosody")] else []);
      OnlyElements(r, {"voice", "prosody"}) && (sayable ==> NoEmptyProsody(r))
  {
    hide Lead, UpToNul, OnlyElements, NoEmptyProsody;
    var said := Said(v, f, before);
    assert forall e :: e in said ==> e.Char?;
    var e1, e2 := if open then [Open("prosody")] else [], if close then [Close("prosody")] else [];
    OnlyJoin(evs, e1, {"voice", "prosody"});
    OnlyJoin(evs + e1, said, {"voice", "prosody"});
    OnlyJoin((evs + e1) + said, e2, {"voice", "prosody"});
    if sayable {
      ProsodyJoin(evs, e1 + said);
      assert (evs + e1) + said == evs + (e1 + said);
      ProsodyJoin((evs + e1) + said, e2);
    }
  }

  lemma OnlyJoin(a: seq<Event>, b: seq<Event>, names: set<string>)
    requires OnlyElements(a, names)
    requires forall e :: e in b ==> e.Char? || ((e.Open? || e.Close?) && e.name in names)
    ensures OnlyElements(a + b, names)
  {
  }

  lemma ProsodyJoin(a: seq<Event>, b: seq<Event>)
    requires NoEmptyProsody(a)
    requires forall k :: 0 <= k < |b| && b[k] == Open("prosody") ==> k == 0 && |b| > 1 && b[1].Char?
    ensures NoEmptyProsody(a + b)
  {
    var r := a + b;
    forall k | 0 <= k < |r| && r[k] == Open("prosody") ensures k + 1 < |r| && r[k + 1].Char? {
      if k >= |a| {
        assert b[k - |a|] == Open("prosody");
        assert r[k + 1] == b[1];
      }
    }
  }

  /** The whole document of an Edge voice, read from its raw text. */
  lemma EdgeTranslation(v: Voice, frags: seq<Fragment>)
    requires v.isEdge && Sound(v, frags)
    ensures var evs := Read(Translate(v, frags).ssml).events;
      && OpenCount(evs, "prosody") <= 2
      && OnlyElements(evs, {"speak", "voice", "prosody"})
      && (AllSayable(frags) ==> NoEmptyProsody(evs))
  {
    TranslationReads(v, frags);
    RunWithinLimit(v, frags, |frags|);
    RunEdgeShape(v, frags, |frags|);
    var inner := Run(v, frags, |frags|).events;
    WrapEdge(inner, v.name != "", AllSayable(frags));
    RootEvents(v, frags);
    hide Run, Translate, OpenCount, AllSayable, OnlyElements, NoEmptyProsody, Sound, Feed;
  }

  lemma RootEvents(v: Voice, frags: seq<Fragment>)
    ensures [Open("speak")] + Translate(v, frags).events + [Close("speak")]
         == ([Open("speak")] + Run(v, frags, |frags|).events) + ((if v.name != "" then [Close("voice")] else []) + [Close("speak")])
  {
    hide Run, EndTag;
  }

  /** Adding the root element and the end of the voice element changes nothing of interest. */
  lemma WrapEdge(inner: seq<Event>, named: bool, sayable: bool)
    requires OnlyElements(inner, {"voice", "prosody"}) && (sayable ==> NoEmptyProsody(inner))
    ensures var evs := ([Open("speak")] + inner) + ((if named then [Close("voice")] else []) + [Close("speak")]);
      && OpenCount(evs, "prosody") == OpenCount(inner, "prosody")
      && OnlyElements(evs, {"speak", "voice", "prosody"})
      && (sayable ==> NoEmptyProsody(evs))
  {
    var names := {"speak", "voice", "prosody"};
    var tail := (if named then [Close("voice")] else []) + [Close("speak")];
    OpenCountConcat([Open("speak")] + inner, tail, "prosody");
    OpenCountConcat([Open("speak")], inner, "prosody");
    TailCount(named);
    OnlyJoin([], [Open("speak")], names);
    OnlyJoin([Open("speak")], inner, names) by { assert OnlyElements([Open("speak")], names); }
    OnlyJoin([Open("speak")] + inner, tail, names);
    hide OpenCount, OnlyElements;
    if sayable {
      WrapProsody(inner, tail);
    }
  }

  lemma WrapProsody(inner: seq<Event>, tail: seq<Event>)
    requires NoEmptyProsody(inner) && forall e :: e in tail ==> e.Close?
    ensures NoEmptyProsody(([Open("speak")] + inner) + tail)
  {
    var r := [Open("speak")] + inner;
    forall k | 0 <= k < |r| && r[k] == Open("prosody") ensures k + 1 < |r| && r[k + 1].Char? {
      assert k > 0 && r[k] == inner[k - 1];
      assert r[k + 1] == inner[k];
    }
    assert forall k :: 0 <= k < |tail| ==> tail[k] in tail;
    ProsodyJoin(r, tail);
  }

  lemma TailCount(named: bool)
    ensures OpenCount([Open("speak")], "prosody") == 0
    ensures OpenCount((if named then [Close("voice")] else []) + [Close("speak")], "prosody") == 0
  {
    OpenCountConcat(if named then [Close("voice")] else [], [Close("speak")], "prosody");
    OpenCountOne(Open("speak"), "prosody");
    OpenCountOne(Close("voice"), "prosody");
    OpenCountOne(Close("speak"), "prosody");
  }
}
