/** Every spoken word stands outside markup in the document, and the word search finds the words in turn. */
module SpokenWords {
  import opened WideText
  import opened XmlReader
  import opened SsmlBuilder
  import opened SsmlReading
  import opened SsmlSloppy
  import opened OffsetMap
  import opened SsmlOffsets
  import opened WordFinder

  // ---- The search and the reader agree on what markup is ----

  /** While the document is well formed, the reader is inside a tag exactly where brackets say so. */
  lemma {:induction false} ReaderInTag(s: string)
    ensures match Read(s).mode
      case Text => !InTag(s, |s|)
      case Tag(_) => InTag(s, |s|)
      case Entity(name) => NoAngles(name) ==> !InTag(s, |s|)
      case Malformed => true
  {
    if s != "" {
      var front := s[..|s| - 1];
      ReaderInTag(front);
      InTagPrefix(s, |s| - 1);
      AdvanceInTag(Read(front), s[|s| - 1], InTag(front, |front|));
    }
  }

  lemma AdvanceInTag(r: Reader, c: char, inTag: bool)
    requires r.mode == Text ==> !inTag
    requires r.mode.Tag? ==> inTag
    requires r.mode.Entity? && NoAngles(r.mode.name) ==> !inTag
    ensures var after := if inTag then c != '>' else c == '<';
      match Advance(r, c).mode
      case Text => !after
      case Tag(_) => after
      case Entity(name) => NoAngles(name) ==> !after
      case Malformed => true
  {
    if r.mode.Entity? {
      var name := r.mode.name;
      if c == ';' {
        assert Predefined(name).Some? ==> NoAngles(name);
      } else {
        assert (name + [c])[|name|] == c;
        assert forall i :: 0 <= i < |name| ==> (name + [c])[i] == name[i];
      }
    }
  }

  /** Whether a position is inside a tag depends on what comes before it. */
  lemma {:induction false} InTagPrefix(s: string, p: nat)
    requires p <= |s|
    ensures InTag(s, p) == InTag(s[..p], p)
    decreases p
  {
    if p > 0 {
      InTagPrefix(s, p - 1);
      InTagPrefix(s[..p], p - 1);
      assert s[..p][..p - 1] == s[..p - 1];
    }
  }

  // ---- Where spoken words stand ----

  /** Right before its copy, and through it, a spoken text is outside markup. */
  lemma SpokenOutside(v: Voice, frags: seq<Fragment>, k: nat, i: nat)
    requires Sound(v, frags) && k < |frags| && Speakable(frags[k]) && i <= |Escape(UpToNul(frags[k].text))|
    ensures var s, pos := Translate(v, frags).ssml, SpokenPos(v, frags, k);
      pos + i <= |s| && !InTag(s, pos + i)
  {
    hide Run, Translate, SpokenPos, UpToNul, Escape, InTag, Holds, SpanMaps, Lead;
    var s, pos, text := Translate(v, frags).ssml, SpokenPos(v, frags, k), Escape(UpToNul(frags[k].text));
    SpokenFound(v, frags, k);
    SpokenStart(v, frags, k);
    ReaderInTag(s[..pos]);
    InTagPrefix(s, pos);
    forall j | pos <= j < pos + i ensures s[j] != '<' {
      assert s[pos..pos + |text|][j - pos] == text[j - pos];
    }
    StaysOutside(s, pos, pos + i);
  }

  /** What has been written when a spoken text is about to be copied reads as text so far. */
  lemma SpokenStart(v: Voice, frags: seq<Fragment>, k: nat)
    requires Sound(v, frags) && k < |frags| && Speakable(frags[k])
    ensures var s, pos := Translate(v, frags).ssml, SpokenPos(v, frags, k);
      pos <= |s| && Read(s[..pos]).mode == Text
  {
    var f, before := frags[k], Run(v, frags, k);
    var b := OpenTags(v, f, before);
    RunReads(v, frags, k);
    assert f in frags;
    OpenTagsReads(v, f, before);
    LeadSays(v, f, b.ssml);
    SpokenPrefix(v, frags, k);
    hide Run, Translate, OpenTags, Lead, LeadEvents, Sound;
    SaysConcat(b.ssml, [Open("speak")] + b.events, Lead(v, f, b.ssml), LeadEvents(v, f, b.ssml));
  }

  lemma SpokenPrefix(v: Voice, frags: seq<Fragment>, k: nat)
    requires k < |frags| && Speakable(frags[k])
    ensures var b := OpenTags(v, frags[k], Run(v, frags, k));
      var s, pos := Translate(v, frags).ssml, SpokenPos(v, frags, k);
      pos <= |s| && s[..pos] == b.ssml + Lead(v, frags[k], b.ssml)
  {
    hide Run, OpenTags, Translate, Lead, Tail, UpToNul, Escape, EscapeMaps;
    var f, b := frags[k], OpenTags(v, frags[k], Run(v, frags, k));
    OpenTagsGrow(v, f, Run(v, frags, k));
    EmitSpokenGrows(v, f, b);
    StepGrows(v, frags, k);
    TranslateGrows(v, frags, k + 1);
    var w := Written(v, frags, k);
    var led := b.ssml + Lead(v, f, b.ssml);
    assert w.ssml == (led + Escape(UpToNul(f.text))) + Tail(v, f);
    assert led <= w.ssml <= Translate(v, frags).ssml;
  }

  /** Two characters that may stand side by side in one word although they come from different fragments. */
  predicate MayTouch(v: Voice, before: char, after: char) {
    before as int >= 128 && (IsSpace(after) || (after as int >= 128 && v.script(before) * v.script(after) != {}))
  }

  /**
   Words of different fragments never run together: the last thing an XML reader has seen before a spoken text is a
   tag, whitespace, or a character outside ASCII followed by whitespace or by one of the same East Asian script;
   only a sloppy tag can leave a spoken `>` there.
   */
  lemma WordsApart(v: Voice, frags: seq<Fragment>, k: nat)
    requires Sound(v, frags) && k < |frags| && Speakable(frags[k]) && frags[k].text != ""
    ensures var s, pos := Translate(v, frags).ssml, SpokenPos(v, frags, k);
      && pos <= |s| && Read(s[..pos]).mode == Text && Read(s[..pos]).events != []
      && var evs := Read(s[..pos]).events;
         var last := evs[|evs| - 1];
         last.Char? ==> IsSpace(last.c) || MayTouch(v, last.c, frags[k].text[0]) || (last.c == '>' && AnySloppy(v, frags, k))
  {
    hide Run, OpenTags, Translate, SpokenPos, IsSpace, Lead, LeadEvents, MayTouch, AnySloppy, Sound, Feed, EndsClean, Stored;
    var f, before := frags[k], Run(v, frags, k);
    var b := OpenTags(v, f, before);
    SpokenStart(v, frags, k);
    SpokenPrefix(v, frags, k);
    NonEmptyBefore(v, frags, k);
    RunReads(v, frags, k);
    SoundAt(v, frags, k);
    OpenTagsReads(v, f, before);
    if !AnySloppy(v, frags, k) {
      RunClean(v, frags, k);
      OpenTagsClean(v, f, before);
    }
    LeadApart(v, f, b, AnySloppy(v, frags, k));
  }

  /** What the space, if any, leaves before a spoken text. */
  lemma LeadApart(v: Voice, f: Fragment, b: Build, sloppy: bool)
    requires Speakable(f) && b.ssml != "" && f.text != "" && Reads(b) && (!sloppy ==> EndsClean(b))
    ensures var evs := Read(b.ssml + Lead(v, f, b.ssml)).events;
      evs != [] &&
      var last := evs[|evs| - 1];
      last.Char? ==> IsSpace(last.c) || MayTouch(v, last.c, f.text[0]) || (last.c == '>' && sloppy)
  {
    var lead, evs := Lead(v, f, b.ssml), [Open("speak")] + b.events;
    LeadSays(v, f, b.ssml);
    SaysConcat(b.ssml, evs, lead, LeadEvents(v, f, b.ssml));
    LastRead(b.ssml);
    LeadKinds(v, f, b.ssml);
    hide Feed, Lead, LeadEvents, IsSpace, NeedAddingSpace;
    assert evs + [] == evs;
    assert b.ssml + "" == b.ssml;
  }

  /** Nothing is written before a text that may stand where it stands; otherwise a space or a start tag. */
  lemma LeadKinds(v: Voice, f: Fragment, before: string)
    requires Speakable(f) && before != "" && f.text != ""
    ensures var lead, evs := Lead(v, f, before), LeadEvents(v, f, before);
      if lead == "" then
        evs == [] && var c := before[|before| - 1]; c == '>' || IsSpace(c) || MayTouch(v, c, f.text[0])
      else |evs| == 1 && (evs[0].Char? ==> IsSpace(evs[0].c))
  {
    hide Attribute, Escape;
    assert IsSpace(' ');
  }

  /** How the last character of a document outside markup has been read. */
  lemma LastRead(s: string)
    requires s != "" && Read(s).mode == Text
    ensures var c, evs := s[|s| - 1], Read(s).events;
      c != ';' ==> evs != [] && (evs[|evs| - 1] == Char(c) || (c == '>' && !evs[|evs| - 1].Char?))
  {
    var r := Read(s[..|s| - 1]);
    assert Read(s) == Advance(r, s[|s| - 1]);
  }

  /** A semicolon is read as itself or ends an entity; either way what is read is ASCII and no whitespace. */
  lemma SemicolonRead(s: string)
    requires s != "" && Read(s).mode == Text && s[|s| - 1] == ';'
    ensures var evs := Read(s).events;
      evs != [] && evs[|evs| - 1].Char? && evs[|evs| - 1].c as int < 128 && !IsSpace(evs[|evs| - 1].c)
  {
    var r := Read(s[..|s| - 1]);
    assert Read(s) == Advance(r, ';');
  }

  /** What is put before a spoken text when `last` has been read before it. */
  function Between(v: Voice, f: Fragment, last: Event): seq<Event> {
    if v.isEdge || f.action == Speak then
      if f.text != "" && last.Char? && !IsSpace(last.c) && !MayTouch(v, last.c, f.text[0]) then [Char(' ')] else []
    else if f.action == SpellOut then [Open("say-as")]
    else [Open("phoneme")]
  }

  /**
   A space is put before a spoken text exactly if an XML reader has last seen a character that is neither whitespace nor
   may touch the text; a text in an element of its own gets that start tag and no space.
   */
  lemma SpaceExactly(v: Voice, frags: seq<Fragment>, k: nat)
    requires Sound(v, frags) && k < |frags| && Speakable(frags[k]) && !AnySloppy(v, frags, k)
    ensures var s, from, pos := Translate(v, frags).ssml, WritePos(v, frags, k), SpokenPos(v, frags, k);
      && from <= pos <= |s| && Read(s[..from]).mode == Text && Read(s[..from]).events != []
      && var evs := Read(s[..from]).events;
         Read(s[..pos]) == Reader(Text, evs + Between(v, frags[k], evs[|evs| - 1]))
  {
    hide Run, OpenTags, Translate, SpokenPos, IsSpace, Lead, LeadEvents, Between, AnySloppy, Sound, Feed, EndsClean, Stored;
    var f, before := frags[k], Run(v, frags, k);
    var b := OpenTags(v, f, before);
    SpokenPrefix(v, frags, k);
    NonEmptyBefore(v, frags, k);
    RunReads(v, frags, k);
    SoundAt(v, frags, k);
    OpenTagsReads(v, f, before);
    RunClean(v, frags, k);
    OpenTagsClean(v, f, before);
    var lead, evs := Lead(v, f, b.ssml), [Open("speak")] + b.events;
    LeadSays(v, f, b.ssml);
    SaysConcat(b.ssml, evs, lead, LeadEvents(v, f, b.ssml));
    LeadBetween(v, f, b);
    var s, pos := Translate(v, frags).ssml, SpokenPos(v, frags, k);
    assert s[..pos][..|b.ssml|] == b.ssml && s[..pos][..|b.ssml|] == s[..|b.ssml|];
  }

  lemma LeadBetween(v: Voice, f: Fragment, b: Build)
    requires Speakable(f) && b.ssml != "" && Reads(b) && EndsClean(b)
    ensures var evs := [Open("speak")] + b.events; LeadEvents(v, f, b.ssml) == Between(v, f, evs[|evs| - 1])
  {
    var evs, raw := [Open("speak")] + b.events, b.ssml[|b.ssml| - 1];
    LastRead(b.ssml);
    if raw == ';' {
      SemicolonRead(b.ssml);
    }
    assert raw == '>' ==> !evs[|evs| - 1].Char?;
    hide Feed, Attribute, Escape, IsSpace, Reads;
    assert IsSpace(' ') && !IsSpace('>') && !IsSpace(';') by { SpaceFacts(); }
  }

  lemma SpaceFacts()
    ensures IsSpace(' ') && !IsSpace('>') && !IsSpace(';')
  {
  }

  lemma NonEmptyBefore(v: Voice, frags: seq<Fragment>, k: nat)
    requires k < |frags|
    ensures OpenTags(v, frags[k], Run(v, frags, k)).ssml != ""
  {
    hide Run, OpenTags;
    StartsWithTag(v, frags);
    RunGrows(v, frags, 0, k);
    OpenTagsGrow(v, frags[k], Run(v, frags, k));
  }

  lemma StartsWithTag(v: Voice, frags: seq<Fragment>)
    ensures Run(v, frags, 0).ssml != ""
  {
    hide SpeakAttributes;
  }

  // ---- Words ----

  /** Characters `first` up to `last` of a spoken fragment. */
  datatype Word = Word(frag: nat, first: nat, last: nat)

  predicate IsWord(frags: seq<Fragment>, w: Word) {
    w.frag < |frags| && Speakable(frags[w.frag]) && w.first <= w.last <= |UpToNul(frags[w.frag].text)|
  }

  function Spelled(frags: seq<Fragment>, w: Word): string
    requires IsWord(frags, w)
  {
    UpToNul(frags[w.frag].text)[w.first..w.last]
  }

  /** Where the word's copy stands in the document. */
  function Place(v: Voice, frags: seq<Fragment>, w: Word): nat
    requires IsWord(frags, w)
  {
    Image(UpToNul(frags[w.frag].text), SpokenPos(v, frags, w.frag), w.first)
  }

  /** The escaped word stands at its place, outside markup. */
  lemma WordStands(v: Voice, frags: seq<Fragment>, w: Word)
    requires Sound(v, frags) && IsWord(frags, w)
    ensures Hit(Translate(v, frags).ssml, Escape(Spelled(frags, w)), Place(v, frags, w))
    ensures Place(v, frags, w) + |Escape(Spelled(frags, w))|
         <= SpokenPos(v, frags, w.frag) + |Escape(UpToNul(frags[w.frag].text))|
  {
    hide Run, Translate, SpokenPos, UpToNul, InTag, Holds, SpanMaps, Escape;
    var t, pos, s := UpToNul(frags[w.frag].text), SpokenPos(v, frags, w.frag), Translate(v, frags).ssml;
    SpokenFound(v, frags, w.frag);
    EscapedSlice(t, w.first, w.last);
    var i, n := |Escape(t[..w.first])|, |Escape(t[w.first..w.last])|;
    assert s[pos + i..pos + i + n] == s[pos..pos + |Escape(t)|][i..i + n];
    SpokenOutside(v, frags, w.frag, i);
  }

  /** The escaped form of a part of a text is a part of its escaped form. */
  lemma EscapedSlice(t: string, first: nat, last: nat)
    requires first <= last <= |t|
    ensures |Escape(t[..first])| + |Escape(t[first..last])| <= |Escape(t)|
    ensures var i, n := |Escape(t[..first])|, |Escape(t[first..last])|;
      Escape(t)[i..i + n] == Escape(t[first..last])
  {
    hide Escape;
    EscapeConcat(t[..first], t[first..last]);
    assert t[..first] + t[first..last] == t[..last];
    EscapeConcat(t[..last], t[last..]);
    assert t[..last] + t[last..] == t;
  }

  /** Words in reading order, none overlapping another. */
  predicate InOrder(frags: seq<Fragment>, words: seq<Word>) {
    && (forall i :: 0 <= i < |words| ==> IsWord(frags, words[i]))
    && forall i, j :: 0 <= i < j < |words| ==>
         words[i].frag < words[j].frag || (words[i].frag == words[j].frag && words[i].last <= words[j].first)
  }

  lemma PlacesInOrder(v: Voice, frags: seq<Fragment>, a: Word, b: Word)
    requires Sound(v, frags) && IsWord(frags, a) && IsWord(frags, b)
    requires a.frag < b.frag || (a.frag == b.frag && a.last <= b.first)
    ensures Place(v, frags, a) + |Escape(Spelled(frags, a))| <= Place(v, frags, b)
  {
    hide Run, Translate, SpokenPos, UpToNul, InTag, Holds, SpanMaps, Escape;
    if a.frag < b.frag {
      WordStands(v, frags, a);
      SpokenFound(v, frags, a.frag);
      SpokenFound(v, frags, b.frag);
      RunGrows(v, frags, a.frag + 1, b.frag);
    } else {
      var t, pos := UpToNul(frags[a.frag].text), SpokenPos(v, frags, a.frag);
      ImageAdd(t, pos, a.first, a.last);
      ImageAdd(t, pos, a.last, b.first);
    }
  }

  function EscapedWords(frags: seq<Fragment>, words: seq<Word>): seq<string>
    requires InOrder(frags, words)
  {
    seq(|words|, i requires 0 <= i < |words| => Escape(Spelled(frags, words[i])))
  }

  /**
   Whatever the fragments: the words a service reports in reading order are all found in the finished document by
   successive searches, each at or before the place the word was copied to.
   */
  lemma WordsLocated(v: Voice, frags: seq<Fragment>, words: seq<Word>)
    requires Sound(v, frags) && InOrder(frags, words)
    ensures var found := Locate(Translate(v, frags).ssml, EscapedWords(frags, words), 0);
      forall i :: 0 <= i < |words| ==> found[i].Some? && found[i].value <= Place(v, frags, words[i])
  {
    hide Translate, Place, Spelled, Escape, Hit, Locate, Sound;
    var s := Translate(v, frags).ssml;
    var places := seq(|words|, i requires 0 <= i < |words| => Place(v, frags, words[i]));
    forall i | 0 <= i < |words| ensures Hit(s, Escape(Spelled(frags, words[i])), places[i]) {
      WordStands(v, frags, words[i]);
    }
    forall i, j | 0 <= i < j < |words|
      ensures places[i] + |Escape(Spelled(frags, words[i]))| <= places[j]
    {
      PlacesInOrder(v, frags, words[i], words[j]);
    }
    assert Placed(s, EscapedWords(frags, words), places, 0);
    GreedyComplete(s, EscapedWords(frags, words), places, 0);
  }
}
