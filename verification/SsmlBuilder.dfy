/**
 The SAPI-to-SSML translation, one fragment at a time.
 `Step` follows the loop body of the translator branch by branch; `Build.events` is a
 record of what each appended piece means, which SsmlReading proves the raw text to say.
 */
module SsmlBuilder {
  import opened Numbers
  import opened WideText
  import opened XmlReader

  // ---- Input ----

  datatype Action = Speak | Silence | Pronounce | Bookmark | SpellOut | Section | ParseUnknownTag

  /** One node of the SAPI fragment list. `phonemes` is "" when the converter fails. */
  datatype Fragment = Fragment(
    action: Action, text: string, src: nat,
    volume: nat, rateAdj: int, pitchAdj: int, emphAdj: int,
    category: Option<string>, silenceMs: nat, phonemes: string)

  datatype Script = Ideograph | Katakana | Hiragana

  /** The settings of the engine and its output site; `script` is the character-type table. */
  datatype Voice = Voice(
    locale: string, name: string, isEdge: bool, mainVolume: nat, mainRate: int, script: char -> set<Script>)

  // ---- Output ----

  datatype Mapping = Mapping(sapi: nat, ssml: nat)

  datatype BookmarkInfo = BookmarkInfo(sapi: nat, name: string)

  /** The stored text of an opening tag; shorter texts are never stored. */
  type StoredTag = s: string | |s| >= 3 witness "<b>"

  datatype Build = Build(
    ssml: string, events: seq<Event>, maps: seq<Mapping>, bookmarks: seq<BookmarkInfo>,
    inProsody: bool, inEmphasis: bool, inSayAs: bool,
    customTags: seq<StoredTag>, inCustom: bool,
    prosodyCount: nat, hasText: bool, lastSapi: nat)

  // ---- XML tag helpers ----

  function GetXMLTagName(tag: string): string
    requires |tag| >= 2
  {
    var range := tag[..|tag| - 1];
    var begin := SkipSpaces(range, 1);
    range[begin..FindSpace(range, begin)]
  }

  predicate IsXMLClosingTag(tag: string) {
    |tag| >= 4
    && var range := tag[..|tag| - 1];
       var it := SkipSpaces(range, 1);
       it < |range| && range[it] == '/'
  }

  predicate IsXMLSelfClosingTag(tag: string) {
    |tag| >= 4
    && var range := tag[1..|tag| - 1];
       var end := TrimmedEnd(range);
       end > 0 && range[end - 1] == '/'
  }

  function GetXMLClosingTagName(tag: string): string
    requires IsXMLClosingTag(tag)
  {
    var range := tag[..|tag| - 1];
    var slash := Find(range, '/', 1);
    assert slash < |range|;
    var begin := SkipSpaces(range, slash + 1);
    range[begin..FindSpace(range, begin)]
  }

  /** One past the last `>` of `s`, or 0. */
  function AfterLastGt(s: string): (r: nat)
    ensures r <= |s|
    ensures r > 0 ==> s[r - 1] == '>'
    ensures forall k :: r <= k < |s| ==> s[k] != '>'
  {
    if s == "" then 0 else if s[|s| - 1] == '>' then |s| else AfterLastGt(s[..|s| - 1])
  }

  /** The tag inside a fragment text, from its first `<` through its last `>`. */
  function TrimTag(text: string): string {
    var begin, end := Find(text, '<', 0), AfterLastGt(text);
    if begin <= end then text[begin..end] else ""
  }

  /** The innermost stored tag with this name, ignoring case. */
  function MatchingTag(tags: seq<StoredTag>, name: string): (r: Option<nat>)
    ensures r.Some? ==> r.value < |tags| && EqualsIgnoreCase(GetXMLTagName(tags[r.value]), name)
    ensures forall k :: (if r.Some? then r.value + 1 else 0) <= k < |tags| ==> !EqualsIgnoreCase(GetXMLTagName(tags[k]), name)
  {
    if tags == [] then None
    else if EqualsIgnoreCase(GetXMLTagName(tags[|tags| - 1]), name) then Some(|tags| - 1)
    else MatchingTag(tags[..|tags| - 1], name)
  }

  // ---- What a stored tag means to an XML reader ----

  /** What stands between `<` and the first `>`. */
  function Inner(text: string): string {
    var gt := Find(text, '>', 0);
    if 1 <= gt then text[1..gt] else ""
  }

  /** What follows the first `>`. */
  function Trail(text: string): string {
    var gt := Find(text, '>', 0);
    if gt < |text| then text[gt + 1..] else ""
  }

  function TagEvents(text: string): seq<Event> {
    match ReadTag(Inner(text))
    case Some(e) => [e] + Chars(Trail(text))
    case None => []
  }

  function ElementName(text: string): string {
    NameIn(Inner(text))
  }

  /** True when the translator takes the `>` of a stored tag for a part of its name. */
  predicate Sloppy(text: string) {
    Trail(text) != "" && ElementName(text) == Inner(text)
  }

  function CloseEvents(text: string): seq<Event> {
    [Close(ElementName(text))] + if Sloppy(text) then [Char('>')] else []
  }

  // ---- Pieces of text ----

  predicate Speakable(f: Fragment) {
    f.action == Speak || f.action == SpellOut || f.action == Pronounce
  }

  function NeedAddingSpace(before: string, after: string, script: char -> set<Script>): bool {
    if after == "" || before == "" then false // `before` is never empty
    else
      var b, a := before[|before| - 1], after[0];
      if b == '>' || IsSpace(b) then false
      else if b as int < 128 then true
      else if IsSpace(a) then false
      else if a as int < 128 then true
      else script(b) * script(a) == {}
  }

  datatype Prosody = Prosody(volume: nat, rate: int, pitch: int)

  const PLAIN := Prosody(100, 0, 0)

  /** The volume product is taken in 32-bit unsigned arithmetic. */
  function ProsodyOf(v: Voice, f: Fragment): Prosody {
    Prosody(Clamp(v.mainVolume * f.volume % 0x1_0000_0000 / 100, 0, 100),
            Clamp(v.mainRate + f.rateAdj, -10, 10),
            Clamp(f.pitchAdj, -10, 10))
  }

  /** Division as in C++, towards zero. */
  function TruncDiv(a: int, b: int): int
    requires b > 0
  {
    if a >= 0 then a / b else -(-a / b)
  }

  function StartTag(name: string, attributes: string): string {
    "<" + (name + attributes) + ">"
  }

  function EndTag(name: string): string {
    "</" + name + ">"
  }

  function EmptyTag(name: string, attributes: string): string {
    "<" + (name + attributes + "/") + ">"
  }

  function Attribute(name: string, value: string): string {
    " " + name + "='" + value + "'"
  }

  function ProsodyAttributes(p: Prosody): string {
    (if p.volume != 100 then Attribute("volume", Decimal(p.volume - 100) + "%") else "")
    + (if p.rate != 0 then
         Attribute("rate", Decimal(if p.rate >= 0 then p.rate * 20 else TruncDiv(p.rate * 20, 3)) + "%")
       else "")
    + (if p.pitch != 0 then Attribute("pitch", Decimal(p.pitch * 5) + "%") else "")
  }

  /** The attribute value a context category is translated to. */
  function Interpretation(category: string): string {
    if |category| >= 5 && EqualsIgnoreCase(category[..4], "date") && (category[4] == '_' || category[4] == ':') then
      "date' format='" + if EqualsIgnoreCase(category[5..], "year") then "y" else category[5..]
    else if EqualsIgnoreCase(category, "number_cardinal") then "cardinal"
    else if EqualsIgnoreCase(category, "number_fraction") then "fraction"
    else if EqualsIgnoreCase(category, "phone_number") then "telephone"
    else category
  }

  /** One mapping after every escaped character of `text`, whose copy starts at SSML offset `pos`. */
  function EscapeMaps(src: nat, text: string, pos: nat): seq<Mapping> {
    if text == "" then []
    else
      EscapeMaps(src, text[..|text| - 1], pos)
      + if NeedsEscape(text[|text| - 1]) then [Mapping(src + |text|, pos + |Escape(text)|)] else []
  }

  // ---- Steps ----

  function Emit(b: Build, piece: string, evs: seq<Event>): Build {
    b.(ssml := b.ssml + piece, events := b.events + evs)
  }

  function AddMap(b: Build, sapi: nat): Build {
    b.(maps := b.maps + [Mapping(sapi, |b.ssml|)])
  }

  /** Appends the escaped text of a fragment, up to its first NUL, and maps what follows each entity. */
  function AppendText(b: Build, f: Fragment, evs: seq<Event>): Build {
    Emit(b, Escape(UpToNul(f.text)), evs).(maps := b.maps + EscapeMaps(f.src, UpToNul(f.text), |b.ssml|))
  }

  /** Prosody is opened for a fragment that asks for it, but not for one an Edge voice does not speak. */
  predicate OpensProsody(v: Voice, f: Fragment, b: Build) {
    !b.inProsody && (!v.isEdge || Speakable(f)) && ProsodyOf(v, f) != PLAIN
  }

  function OpenProsody(v: Voice, f: Fragment, b: Build): Build {
    if OpensProsody(v, f, b) then
      Emit(b, StartTag("prosody", ProsodyAttributes(ProsodyOf(v, f))), [Open("prosody")])
      .(inProsody := true, prosodyCount := b.prosodyCount + 1)
    else b
  }

  function OpenEmphasis(v: Voice, f: Fragment, b: Build): Build {
    if !b.inEmphasis && f.emphAdj != 0 && !v.isEdge then
      Emit(b, StartTag("emphasis", ""), [Open("emphasis")]).(inEmphasis := true)
    else b
  }

  function AllTagEvents(tags: seq<StoredTag>): seq<Event> {
    if tags == [] then [] else AllTagEvents(tags[..|tags| - 1]) + TagEvents(tags[|tags| - 1])
  }

  function ReopenCustom(b: Build): Build {
    if !b.inCustom then Emit(b, Concat(b.customTags), AllTagEvents(b.customTags)).(inCustom := true) else b
  }

  function OpenSayAs(v: Voice, f: Fragment, b: Build): Build {
    if !b.inSayAs && f.category.Some? && f.action == Speak && !v.isEdge then
      Emit(b, StartTag("say-as", Attribute("interpret-as", Interpretation(f.category.value))), [Open("say-as")]).(inSayAs := true)
    else b
  }

  /** What is written just before the text of a spoken fragment. */
  function Lead(v: Voice, f: Fragment, before: string): string {
    if v.isEdge || f.action == Speak then (if NeedAddingSpace(before, f.text, v.script) then " " else "")
    else if f.action == SpellOut then StartTag("say-as", Attribute("interpret-as", "characters"))
    else StartTag("phoneme", Attribute("alphabet", "sapi") + Attribute("ph", Escape(f.phonemes)))
  }

  function LeadEvents(v: Voice, f: Fragment, before: string): seq<Event> {
    if v.isEdge || f.action == Speak then Chars(Lead(v, f, before))
    else if f.action == SpellOut then [Open("say-as")]
    else [Open("phoneme")]
  }

  function Tail(v: Voice, f: Fragment): string {
    if v.isEdge || f.action == Speak then ""
    else if f.action == SpellOut then EndTag("say-as")
    else EndTag("phoneme")
  }

  function TailEvents(v: Voice, f: Fragment): seq<Event> {
    if v.isEdge || f.action == Speak then []
    else if f.action == SpellOut then [Close("say-as")]
    else [Close("phoneme")]
  }

  /** The end of the fragment's source range. */
  function SrcEnd(f: Fragment): nat {
    f.src + |f.text|
  }

  function EmitSpoken(v: Voice, f: Fragment, b: Build): Build {
    var led := Emit(b, Lead(v, f, b.ssml), LeadEvents(v, f, b.ssml));
    var copied := AppendText(AddMap(led, f.src), f, Chars(UpToNul(f.text)));
    Emit(AddMap(copied, SrcEnd(f)), Tail(v, f), TailEvents(v, f))
      .(lastSapi := if v.isEdge then SrcEnd(f) else b.lastSapi)
  }

  function EmitBookmark(v: Voice, f: Fragment, b: Build): Build {
    var mark := UpToNul(f.text);
    var marked :=
      if v.isEdge then AddMap(b, b.lastSapi)
      else
        Emit(b, EmptyTag("bookmark", Attribute("mark", Escape(mark))), [Empty("bookmark")])
        .(maps := b.maps + EscapeMaps(f.src, mark, |b.ssml| + |"<bookmark mark='"|));
    marked.(bookmarks := b.bookmarks + [BookmarkInfo(f.src, f.text)])
  }

  /** Closing tags for stored tags, innermost first. */
  function ClosingTags(tags: seq<StoredTag>): string {
    if tags == [] then ""
    else EndTag(GetXMLTagName(tags[|tags| - 1])) + ClosingTags(tags[..|tags| - 1])
  }

  function AllCloseEvents(tags: seq<StoredTag>): seq<Event> {
    if tags == [] then [] else CloseEvents(tags[|tags| - 1]) + AllCloseEvents(tags[..|tags| - 1])
  }

  /** Writes an end tag that closes stored tag `k`, closing what is still open inside it first. */
  function CloseThrough(b: Build, k: nat, text: string): Build
    requires k < |b.customTags|
  {
    var inner := b.customTags[k + 1..];
    Emit(Emit(b, ClosingTags(inner), AllCloseEvents(inner)), text, TagEvents(text)).(customTags := b.customTags[..k])
  }

  function OpenStored(b: Build, text: StoredTag): Build {
    Emit(b, text, TagEvents(text)).(customTags := b.customTags + [text])
  }

  function EmitTag(f: Fragment, b: Build): Build {
    var tag := TrimTag(f.text);
    if IsXMLSelfClosingTag(tag) then Emit(b, f.text, TagEvents(f.text))
    else if IsXMLClosingTag(tag) then
      match MatchingTag(b.customTags, GetXMLClosingTagName(tag))
      case None => b
      case Some(k) => CloseThrough(b, k, f.text)
    else if |f.text| >= 3 then OpenStored(b, f.text)
    else b
  }

  function EmitFragment(v: Voice, f: Fragment, b: Build): Build {
    if Speakable(f) then EmitSpoken(v, f, b)
    else if f.action == Bookmark then EmitBookmark(v, f, b)
    else if v.isEdge then b
    else if f.action == Silence then Emit(b, EmptyTag("break", Attribute("time", Decimal(f.silenceMs) + "ms")), [Empty("break")])
    else if f.action == ParseUnknownTag then EmitTag(f, b)
    else b
  }

  /** The fragment whose state decides what stays open after fragment `i`, or |frags|. */
  function NextIndex(v: Voice, frags: seq<Fragment>, i: nat): (r: nat)
    requires i <= |frags|
    ensures i <= r <= |frags|
    ensures !v.isEdge ==> r == i
    ensures v.isEdge && r < |frags| ==> Speakable(frags[r])
    ensures v.isEdge ==> forall k :: i <= k < r ==> !Speakable(frags[k])
    decreases |frags| - i
  {
    if !v.isEdge || i == |frags| || Speakable(frags[i]) then i else NextIndex(v, frags, i + 1)
  }

  predicate SameProsody(a: Fragment, b: Fragment) {
    a.volume == b.volume && a.rateAdj == b.rateAdj && a.pitchAdj == b.pitchAdj
  }

  predicate SameContext(a: Fragment, b: Fragment) {
    || a.category == b.category
    || (a.category.Some? && b.category.Some? && EqualsIgnoreCase(a.category.value, b.category.value))
  }

  /** How many levels of tags stay open between two fragments. */
  function PreserveLevel(v: Voice, cur: Fragment, next: Fragment, prosodyCount: nat): nat {
    if !(SameProsody(cur, next) || (v.isEdge && prosodyCount >= 2)) then 0
    else if cur.emphAdj != next.emphAdj then 1
    else if SameContext(cur, next) && next.action == Speak then 3
    else 2
  }

  function LevelAfter(v: Voice, frags: seq<Fragment>, i: nat, prosodyCount: nat): nat
    requires i < |frags|
  {
    var next := NextIndex(v, frags, i + 1);
    if next < |frags| then PreserveLevel(v, frags[i], frags[next], prosodyCount) else 0
  }

  function CloseSayAs(level: nat, b: Build): Build {
    if b.inSayAs && level < 3 then Emit(b, EndTag("say-as"), [Close("say-as")]).(inSayAs := false) else b
  }

  function CloseCustom(level: nat, b: Build): Build {
    if b.inCustom && level < 2 then
      Emit(b, ClosingTags(b.customTags), AllCloseEvents(b.customTags)).(inCustom := false)
    else b
  }

  function CloseEmphasis(level: nat, b: Build): Build {
    if b.inEmphasis && level < 2 then Emit(b, EndTag("emphasis"), [Close("emphasis")]).(inEmphasis := false) else b
  }

  function CloseProsody(level: nat, b: Build): Build {
    if b.inProsody && level < 1 then Emit(b, EndTag("prosody"), [Close("prosody")]).(inProsody := false) else b
  }

  /** The state in which fragment `f` is written, its enclosing tags opened. */
  function OpenTags(v: Voice, f: Fragment, b: Build): Build {
    var noted := b.(hasText := b.hasText || (f.action != Bookmark && f.text != ""));
    OpenSayAs(v, f, ReopenCustom(OpenEmphasis(v, f, OpenProsody(v, f, noted))))
  }

  function CloseTags(level: nat, b: Build): Build {
    CloseProsody(level, CloseEmphasis(level, CloseCustom(level, CloseSayAs(level, b))))
  }

  /** One turn of the loop over the fragments. */
  function Step(v: Voice, frags: seq<Fragment>, i: nat, b: Build): Build
    requires i < |frags|
  {
    var written := EmitFragment(v, frags[i], OpenTags(v, frags[i], b));
    CloseTags(LevelAfter(v, frags, i, written.prosodyCount), written)
  }

  function SpeakAttributes(v: Voice): string {
    Attribute("version", "1.0")
    + Attribute("xmlns", "http://www.w3.org" + "/2001/10/synthesis")
    + Attribute("xmlns:mstts", "http://www.w3.org" + "/2001/mstts")
    + Attribute("xml:lang", v.locale)
  }

  function Begin(v: Voice): Build {
    var empty := Build(StartTag("speak", SpeakAttributes(v)), [], [], [], false, false, false, [], false, 0, false, 0);
    if v.name != "" then Emit(empty, StartTag("voice", Attribute("name", v.name)), [Open("voice")]) else empty
  }

  /** The state after the first `n` fragments. */
  function Run(v: Voice, frags: seq<Fragment>, n: nat): Build
    requires n <= |frags|
  {
    if n == 0 then Begin(v) else Step(v, frags, n - 1, Run(v, frags, n - 1))
  }

  /** The state once fragment `i` is written, before tags are closed behind it. */
  function Written(v: Voice, frags: seq<Fragment>, i: nat): Build
    requires i < |frags|
  {
    EmitFragment(v, frags[i], OpenTags(v, frags[i], Run(v, frags, i)))
  }

  function CloseVoice(v: Voice, b: Build): Build {
    if v.name != "" then Emit(b, EndTag("voice"), [Close("voice")]) else b
  }

  /** The finished translation; its `events` are those inside the root element. */
  function Translate(v: Voice, frags: seq<Fragment>): Build {
    var closed := CloseVoice(v, Run(v, frags, |frags|));
    closed.(ssml := closed.ssml + EndTag("speak"))
  }
}
