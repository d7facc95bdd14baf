/**
 A streaming XML reader, independent of the code that writes SSML.
 It turns a raw string into start tags, end tags, empty-element tags and decoded characters.
 */
module XmlReader {
  import opened WideText

  datatype Event =
    | Open(name: string)
    | Close(name: string)
    | Empty(name: string)
    | Char(c: char)

  datatype Mode =
    | Text
    | Tag(body: string)
    | Entity(name: string)
    | Malformed

  datatype Reader = Reader(mode: Mode, events: seq<Event>)

  const START := Reader(Text, [])

  /** An element name: no whitespace, no markup characters, not a comment, declaration or instruction. */
  predicate IsName(s: string) {
    && s != ""
    && s[0] != '!' && s[0] != '?'
    && forall i :: 0 <= i < |s| ==> !IsSpace(s[i]) && s[i] != '<' && s[i] != '>' && s[i] != '/'
  }

  /** The name a tag body starts with: everything before its first whitespace. */
  function NameIn(body: string): string {
    body[..FindSpace(body, 0)]
  }

  /** Reads what stands between `<` and `>` (XML 1.0 section 3.1; attributes are not looked into). */
  function ReadTag(body: string): (r: Option<Event>)
    ensures r.Some? ==> !r.value.Char? && body != ""
  {
    if body != "" && body[0] == '/' then
      var name := NameIn(body[1..]);
      if IsName(name) && AllSpaces(body[1 + |name|..]) then Some(Close(name)) else None
    else
      var end := TrimmedEnd(body);
      if end > 0 && body[end - 1] == '/' then
        var name := NameIn(body[..end - 1]);
        if end == |body| && IsName(name) then Some(Empty(name)) else None
      else if IsName(NameIn(body)) then Some(Open(NameIn(body))) else None
  }

  /** The character a predefined entity stands for (XML 1.0 section 4.6). */
  function Predefined(name: string): Option<char> {
    if name == "lt" then Some('<')
    else if name == "gt" then Some('>')
    else if name == "amp" then Some('&')
    else if name == "quot" then Some('"')
    else if name == "apos" then Some('\'')
    else None
  }

  function Advance(r: Reader, c: char): Reader {
    match r.mode
    case Malformed => r
    case Text =>
      if c == '<' then r.(mode := Tag(""))
      else if c == '&' then r.(mode := Entity(""))
      else r.(events := r.events + [Char(c)])
    case Tag(body) =>
      if c == '<' then r.(mode := Malformed)
      else if c == '>' then
        match ReadTag(body)
        case Some(e) => Reader(Text, r.events + [e])
        case None => r.(mode := Malformed)
      else r.(mode := Tag(body + [c]))
    case Entity(name) =>
      if c == ';' then
        match Predefined(name)
        case Some(d) => Reader(Text, r.events + [Char(d)])
        case None => r.(mode := Malformed)
      else r.(mode := Entity(name + [c]))
  }

  function Feed(r: Reader, s: string): Reader {
    if s == "" then r else Advance(Feed(r, s[..|s| - 1]), s[|s| - 1])
  }

  function Read(s: string): Reader {
    Feed(START, s)
  }

  function Chars(s: string): seq<Event> {
    seq(|s|, i requires 0 <= i < |s| => Char(s[i]))
  }

  // ---- What the events mean ----

  predicate SameName(exact: bool, a: string, b: string) {
    if exact then a == b else EqualsIgnoreCase(a, b)
  }

  /**
   The elements still open after `evs`, outermost first, when `open` were open before;
   None as soon as an end tag does not match the innermost open element
   (XML 1.0 section 3, Element Type Match; names are compared ignoring case unless `exact`).
   */
  function Nest(exact: bool, open: Option<seq<string>>, evs: seq<Event>): Option<seq<string>> {
    if evs == [] then open
    else NestOne(exact, Nest(exact, open, evs[..|evs| - 1]), evs[|evs| - 1])
  }

  function NestOne(exact: bool, open: Option<seq<string>>, e: Event): Option<seq<string>> {
    match open
    case None => None
    case Some(stack) =>
      match e
      case Open(name) => Some(stack + [name])
      case Close(name) =>
        if stack != [] && SameName(exact, stack[|stack| - 1], name) then Some(stack[..|stack| - 1]) else None
      case Empty(_) => open
      case Char(_) => open
  }

  /** One root element whose content is balanced. */
  ghost predicate Balanced(exact: bool, root: string, evs: seq<Event>) {
    exists inner ::
      && evs == [Open(root)] + inner + [Close(root)]
      && Nest(exact, Some([]), inner) == Some([])
  }

  /** Character data with all markup removed. */
  function TextOf(evs: seq<Event>): string {
    if evs == [] then ""
    else TextOf(evs[..|evs| - 1]) + (match evs[|evs| - 1] case Char(c) => [c] case _ => "")
  }

  // ---- Facts about feeding pieces ----

  lemma {:induction false} FeedConcat(r: Reader, a: string, b: string)
    ensures Feed(r, a + b) == Feed(Feed(r, a), b)
  {
    if b == "" {
      assert a + b == a;
    } else {
      FeedConcat(r, a, b[..|b| - 1]);
      assert (a + b)[..|a + b| - 1] == a + b[..|b| - 1];
    }
  }

  /** What was read before a piece does not change how the piece is read. */
  lemma {:induction false} FeedAfter(before: seq<Event>, s: string)
    ensures Feed(Reader(Text, before), s) == Reader(Read(s).mode, before + Read(s).events)
  {
    if s == "" {
      assert before + [] == before;
    } else {
      FeedAfter(before, s[..|s| - 1]);
      AdvanceAfter(before, Read(s[..|s| - 1]), s[|s| - 1]);
    }
  }

  lemma AdvanceAfter(before: seq<Event>, r: Reader, c: char)
    ensures Advance(Reader(r.mode, before + r.events), c) == Reader(Advance(r, c).mode, before + Advance(r, c).events)
  {
    assert forall e: Event :: (before + r.events) + [e] == before + (r.events + [e]);
  }

  lemma {:induction false} FeedBody(r: Reader, body: string)
    requires r.mode == Tag("") && NoAngles(body)
    ensures Feed(r, body) == r.(mode := Tag(body))
  {
    if body != "" {
      FeedBody(r, body[..|body| - 1]);
      assert body == body[..|body| - 1] + [body[|body| - 1]];
    }
  }

  lemma FeedOne(r: Reader, c: char)
    ensures Feed(r, [c]) == Advance(r, c)
  {
    assert [c][..0] == "";
    assert Feed(r, "") == r;
  }

  /** A complete tag adds exactly the event its body stands for. */
  lemma {:induction false} FeedTag(r: Reader, body: string)
    requires r.mode == Text && NoAngles(body) && ReadTag(body).Some?
    ensures Feed(r, "<" + body + ">") == Reader(Text, r.events + [ReadTag(body).value])
  {
    FeedConcat(r, "<" + body, ">");
    FeedConcat(r, "<", body);
    FeedOne(r, '<');
    FeedBody(Feed(r, "<"), body);
    FeedOne(Feed(r, "<" + body), '>');
  }

  /** Reading is the inverse of escaping (XML 1.0 section 4.6). */
  lemma {:induction false} FeedEscaped(r: Reader, s: string)
    requires r.mode == Text
    ensures Feed(r, Escape(s)) == Reader(Text, r.events + Chars(s))
  {
    hide *;
    if s == "" {
      FeedNothing(r);
    } else {
      FeedEscaped(r, s[..|s| - 1]);
      FeedEscapedStep(r, s[..|s| - 1], s[|s| - 1]);
      assert s == s[..|s| - 1] + [s[|s| - 1]];
    }
  }

  lemma FeedNothing(r: Reader)
    requires r.mode == Text
    ensures Feed(r, Escape("")) == Reader(Text, r.events + Chars(""))
  {
    assert r.events + Chars("") == r.events;
  }

  lemma FeedEscapedStep(r: Reader, p: string, c: char)
    requires r.mode == Text && Feed(r, Escape(p)) == Reader(Text, r.events + Chars(p))
    ensures Feed(r, Escape(p + [c])) == Reader(Text, r.events + Chars(p + [c]))
  {
    hide *;
    EscapeAppend(p, c);
    FeedConcat(r, Escape(p), EscapeChar(c));
    FeedEscapedChar(Reader(Text, r.events + Chars(p)), c);
    CharsAppend(r.events, p, c);
  }

  lemma CharsAppend(evs: seq<Event>, s: string, c: char)
    ensures evs + Chars(s) + [Char(c)] == evs + Chars(s + [c])
  {
  }

  lemma {:induction false} FeedEntity(r: Reader, name: string)
    requires r.mode == Text && Predefined(name).Some?
    ensures Feed(r, "&" + name + ";") == Reader(Text, r.events + [Char(Predefined(name).value)])
  {
    FeedConcat(r, "&" + name, ";");
    FeedConcat(r, "&", name);
    FeedOne(r, '&');
    FeedEntityName(Feed(r, "&"), name);
    FeedOne(Feed(r, "&" + name), ';');
  }

  lemma {:induction false} FeedEntityName(r: Reader, name: string)
    requires r.mode == Entity("") && ';' !in name
    ensures Feed(r, name) == r.(mode := Entity(name))
  {
    if name != "" {
      FeedEntityName(r, name[..|name| - 1]);
      assert name == name[..|name| - 1] + [name[|name| - 1]];
    }
  }

  lemma {:induction false} FeedEscapedChar(r: Reader, c: char)
    requires r.mode == Text
    ensures Feed(r, EscapeChar(c)) == Reader(Text, r.events + [Char(c)])
  {
    if NeedsEscape(c) {
      var name := match c case '<' => "lt" case '>' => "gt" case '&' => "amp" case '"' => "quot" case _ => "apos";
      FeedEntity(r, name);
      assert EscapeChar(c) == "&" + name + ";";
    } else {
      FeedOne(r, c);
    }
  }

  /** Characters that are not markup are read as themselves. */
  lemma {:induction false} FeedPlain(r: Reader, s: string)
    requires r.mode == Text && forall i :: 0 <= i < |s| ==> s[i] != '<' && s[i] != '&'
    ensures Feed(r, s) == Reader(Text, r.events + Chars(s))
  {
    if s == "" {
      assert r.events + Chars(s) == r.events;
    } else {
      FeedPlain(r, s[..|s| - 1]);
      assert Chars(s) == Chars(s[..|s| - 1]) + [Char(s[|s| - 1])];
      assert r.events + Chars(s[..|s| - 1]) + [Char(s[|s| - 1])] == r.events + Chars(s);
    }
  }

  /** A string whose last event is a tag ends in `>`. */
  lemma EndsInTag(s: string)
    requires Read(s).mode == Text && Read(s).events != [] && !Read(s).events[|Read(s).events| - 1].Char?
    ensures s != "" && s[|s| - 1] == '>'
  {
    var r := Read(s[..|s| - 1]);
    assert Read(s) == Advance(r, s[|s| - 1]);
  }

  // ---- Facts about event lists ----

  lemma {:induction false} NestConcat(exact: bool, open: Option<seq<string>>, a: seq<Event>, b: seq<Event>)
    ensures Nest(exact, open, a + b) == Nest(exact, Nest(exact, open, a), b)
  {
    if b == [] {
      assert a + b == a;
    } else {
      NestConcat(exact, open, a, b[..|b| - 1]);
      assert (a + b)[..|a + b| - 1] == a + b[..|b| - 1];
    }
  }

  lemma {:induction false} NestNone(exact: bool, evs: seq<Event>)
    ensures Nest(exact, None, evs) == None
  {
    if evs != [] {
      NestNone(exact, evs[..|evs| - 1]);
    }
  }

  lemma {:induction false} NestChars(exact: bool, open: Option<seq<string>>, s: string)
    ensures Nest(exact, open, Chars(s)) == open
  {
    if s != "" {
      NestChars(exact, open, s[..|s| - 1]);
      assert Chars(s)[..|s| - 1] == Chars(s[..|s| - 1]);
    }
  }

  lemma {:induction false} TextConcat(a: seq<Event>, b: seq<Event>)
    ensures TextOf(a + b) == TextOf(a) + TextOf(b)
  {
    if b == [] {
      assert a + b == a;
    } else {
      TextConcat(a, b[..|b| - 1]);
      assert (a + b)[..|a + b| - 1] == a + b[..|b| - 1];
    }
  }

  lemma {:induction false} TextOfChars(s: string)
    ensures TextOf(Chars(s)) == s
  {
    if s != "" {
      TextOfChars(s[..|s| - 1]);
      assert Chars(s)[..|s| - 1] == Chars(s[..|s| - 1]);
    }
  }
}
