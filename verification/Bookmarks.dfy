/** Simulated bookmark events for voices that know no bookmarks. */
module Bookmarks {
  import opened Numbers
  import opened WideText
  import opened SsmlBuilder
  import opened OffsetMap
  import opened SsmlNesting
  import opened SsmlOffsets

  /** The index after every bookmark before source offset `end` is triggered in turn. */
  function Triggered(bookmarks: seq<BookmarkInfo>, index: nat, end: nat): (r: nat)
    requires index <= |bookmarks|
    ensures index <= r <= |bookmarks|
    ensures forall k :: index <= k < r ==> bookmarks[k].sapi < end
    ensures r < |bookmarks| ==> bookmarks[r].sapi >= end
    decreases |bookmarks| - index
  {
    if index == |bookmarks| || end <= bookmarks[index].sapi then index else Triggered(bookmarks, index + 1, end)
  }

  predicate SortedBookmarks(bookmarks: seq<BookmarkInfo>) {
    forall i, j :: 0 <= i <= j < |bookmarks| ==> bookmarks[i].sapi <= bookmarks[j].sapi
  }

  // ---- What the output site is told ----

  datatype BoundaryKind = WordBoundary | SentenceBoundary

  datatype SiteEvent =
    | Boundary(kind: BoundaryKind, bytes: nat, offset: nat, length: nat)
    | BookmarkReached(bytes: nat, name: string)

  function BookmarkEvents(bookmarks: seq<BookmarkInfo>, bytes: nat): (r: seq<SiteEvent>)
    ensures |r| == |bookmarks|
    ensures forall i :: 0 <= i < |r| ==> r[i] == BookmarkReached(bytes, bookmarks[i].name)
  {
    seq(|bookmarks|, i requires 0 <= i < |bookmarks| => BookmarkReached(bytes, bookmarks[i].name))
  }

  /** What the service reports at a place in the audio stream: a boundary with its span in the SSML, or a bookmark. */
  datatype Call =
    | Bounds(bytes: nat, offset: nat, length: nat, kind: BoundaryKind)
    | Marks(bytes: nat, name: string)

  /** How many bookmarks have been reported, and everything reported. */
  datatype Reporting = Reporting(index: nat, events: seq<SiteEvent>)

  /** The end of a boundary's span in the source. */
  function MappedEnd(maps: seq<Mapping>, c: Call): nat
    requires c.Bounds?
  {
    var (offset, length) := MapOffset(maps, c.offset, c.length);
    Wrap(offset + length)
  }

  function MappedBoundary(maps: seq<Mapping>, c: Call): (e: SiteEvent)
    requires c.Bounds?
    ensures e.Boundary?
  {
    var (offset, length) := MapOffset(maps, c.offset, c.length);
    Boundary(c.kind, c.bytes, offset, length)
  }

  /**
   A boundary is told at its place in the source, and for Edge voices words trigger the bookmarks before their end;
   a bookmark is told as it is.
   */
  function Reported(isEdge: bool, maps: seq<Mapping>, bookmarks: seq<BookmarkInfo>, r: Reporting, c: Call): (r': Reporting)
    requires r.index <= |bookmarks|
    ensures r.index <= r'.index <= |bookmarks|
  {
    match c
    case Marks(bytes, name) => Reporting(r.index, r.events + [BookmarkReached(bytes, name)])
    case Bounds(bytes, _, _, kind) =>
      var told := r.events + [MappedBoundary(maps, c)];
      if isEdge && kind == WordBoundary then
        var next := Triggered(bookmarks, r.index, MappedEnd(maps, c));
        Reporting(next, told + BookmarkEvents(bookmarks[r.index..next], bytes))
      else Reporting(r.index, told)
  }

  /** After any sequence of reports: words, sentences and bookmarks in any order. */
  function AfterCalls(isEdge: bool, maps: seq<Mapping>, bookmarks: seq<BookmarkInfo>, calls: seq<Call>): (r: Reporting)
    ensures r.index <= |bookmarks|
  {
    if calls == [] then Reporting(0, [])
    else Reported(isEdge, maps, bookmarks, AfterCalls(isEdge, maps, bookmarks, calls[..|calls| - 1]), calls[|calls| - 1])
  }

  /** The bookmarks the service itself reports, in order. */
  function Marked(calls: seq<Call>): seq<string> {
    if calls == [] then []
    else
      var c := calls[|calls| - 1];
      Marked(calls[..|calls| - 1]) + if c.Marks? then [c.name] else []
  }

  /** The final flush reports what has not been triggered, at one stream offset. */
  function Flushed(bookmarks: seq<BookmarkInfo>, r: Reporting, bytes: nat): seq<SiteEvent>
    requires r.index <= |bookmarks|
  {
    r.events + BookmarkEvents(bookmarks[r.index..], bytes)
  }

  /** The names of the bookmarks reported, in order. */
  function Reached(events: seq<SiteEvent>): seq<string> {
    if events == [] then []
    else
      var e := events[|events| - 1];
      Reached(events[..|events| - 1]) + if e.BookmarkReached? then [e.name] else []
  }

  function NamesOf(bookmarks: seq<BookmarkInfo>): (r: seq<string>)
    ensures |r| == |bookmarks| && forall i :: 0 <= i < |r| ==> r[i] == bookmarks[i].name
  {
    seq(|bookmarks|, i requires 0 <= i < |bookmarks| => bookmarks[i].name)
  }

  lemma {:induction false} ReachedConcat(a: seq<SiteEvent>, b: seq<SiteEvent>)
    ensures Reached(a + b) == Reached(a) + Reached(b)
  {
    if b == [] {
      assert a + b == a;
    } else {
      ReachedConcat(a, b[..|b| - 1]);
      assert (a + b)[..|a + b| - 1] == a + b[..|b| - 1];
    }
  }

  lemma {:induction false} ReachedBookmarks(bookmarks: seq<BookmarkInfo>, bytes: nat)
    ensures Reached(BookmarkEvents(bookmarks, bytes)) == NamesOf(bookmarks)
  {
    if bookmarks != [] {
      var early := bookmarks[..|bookmarks| - 1];
      ReachedBookmarks(early, bytes);
      assert BookmarkEvents(bookmarks, bytes)[..|bookmarks| - 1] == BookmarkEvents(early, bytes);
      assert NamesOf(bookmarks) == NamesOf(early) + [bookmarks[|bookmarks| - 1].name];
    }
  }

  lemma ReachedOne(e: SiteEvent)
    ensures Reached([e]) == if e.BookmarkReached? then [e.name] else []
  {
    assert [e][..0] == [];
    assert Reached([]) == [];
  }

  /**
   At any moment those reported are the first ones, each once and in text order, as long as the service reports
   none itself: an Edge document has no bookmark element for it to report.
   */
  lemma {:induction false} ReachedSoFar(isEdge: bool, maps: seq<Mapping>, bookmarks: seq<BookmarkInfo>, calls: seq<Call>)
    requires Marked(calls) == []
    ensures var r := AfterCalls(isEdge, maps, bookmarks, calls); Reached(r.events) == NamesOf(bookmarks[..r.index])
  {
    hide Reported, Reached;
    if calls == [] {
      NoneReached(bookmarks);
    } else {
      ReachedSoFar(isEdge, maps, bookmarks, calls[..|calls| - 1]);
      ReachedNext(isEdge, maps, bookmarks, AfterCalls(isEdge, maps, bookmarks, calls[..|calls| - 1]), calls[|calls| - 1]);
    }
  }

  lemma ReachedNext(isEdge: bool, maps: seq<Mapping>, bookmarks: seq<BookmarkInfo>, r: Reporting, c: Call)
    requires r.index <= |bookmarks| && Reached(r.events) == NamesOf(bookmarks[..r.index]) && c.Bounds?
    ensures var r' := Reported(isEdge, maps, bookmarks, r, c); Reached(r'.events) == NamesOf(bookmarks[..r'.index])
  {
    hide MappedBoundary, MappedEnd, Triggered, Reached, BookmarkEvents;
    var r' := Reported(isEdge, maps, bookmarks, r, c);
    var boundary, told := MappedBoundary(maps, c), BookmarkEvents(bookmarks[r.index..r'.index], c.bytes);
    ReachedConcat(r.events, [boundary]);
    ReachedOne(boundary);
    assert Reached(r.events) + [] == Reached(r.events);
    if isEdge && c.kind == WordBoundary {
      ReachedConcat(r.events + [boundary], told);
      ReachedBookmarks(bookmarks[r.index..r'.index], c.bytes);
      NamesJoin(bookmarks, r.index, r'.index);
    }
  }

  /** Other voices pass on exactly the bookmarks the service reports, in order. */
  lemma {:induction false} PassedOn(maps: seq<Mapping>, bookmarks: seq<BookmarkInfo>, calls: seq<Call>)
    ensures var r := AfterCalls(false, maps, bookmarks, calls); r.index == 0 && Reached(r.events) == Marked(calls)
  {
    hide MappedBoundary, Reached;
    if calls == [] {
      NoneReached(bookmarks);
    } else {
      var early, c := AfterCalls(false, maps, bookmarks, calls[..|calls| - 1]), calls[|calls| - 1];
      PassedOn(maps, bookmarks, calls[..|calls| - 1]);
      var e := if c.Marks? then BookmarkReached(c.bytes, c.name) else MappedBoundary(maps, c);
      ReachedConcat(early.events, [e]);
      ReachedOne(e);
    }
  }

  lemma NamesJoin(bookmarks: seq<BookmarkInfo>, i: nat, j: nat)
    requires i <= j <= |bookmarks|
    ensures NamesOf(bookmarks[..i]) + NamesOf(bookmarks[i..j]) == NamesOf(bookmarks[..j])
  {
  }

  lemma NoneReached(bookmarks: seq<BookmarkInfo>)
    ensures Reached([]) == [] == NamesOf(bookmarks[..0])
  {
  }

  /** Exactly once: any boundaries in any order and then the flush report every bookmark once, in text order. */
  lemma ExactlyOnce(isEdge: bool, maps: seq<Mapping>, bookmarks: seq<BookmarkInfo>, calls: seq<Call>, bytes: nat)
    requires Marked(calls) == []
    ensures Reached(Flushed(bookmarks, AfterCalls(isEdge, maps, bookmarks, calls), bytes)) == NamesOf(bookmarks)
    ensures var told, r := Flushed(bookmarks, AfterCalls(isEdge, maps, bookmarks, calls), bytes), AfterCalls(isEdge, maps, bookmarks, calls);
      r.events <= told && forall i :: |r.events| <= i < |told| ==> told[i].BookmarkReached? && told[i].bytes == bytes
  {
    hide Reached, AfterCalls, NamesOf, BookmarkEvents;
    var r := AfterCalls(isEdge, maps, bookmarks, calls);
    ReachedSoFar(isEdge, maps, bookmarks, calls);
    ReachedConcat(r.events, BookmarkEvents(bookmarks[r.index..], bytes));
    ReachedBookmarks(bookmarks[r.index..], bytes);
    assert bookmarks[r.index..|bookmarks|] == bookmarks[r.index..] && bookmarks[..|bookmarks|] == bookmarks;
    NamesJoin(bookmarks, r.index, |bookmarks|);
  }

  /** The furthest source offset at which a word reported so far ends. */
  function FurthestEnd(maps: seq<Mapping>, calls: seq<Call>): nat {
    if calls == [] then 0
    else
      var c, early := calls[|calls| - 1], FurthestEnd(maps, calls[..|calls| - 1]);
      if c.Bounds? && c.kind == WordBoundary then Max(MappedEnd(maps, c), early) else early
  }

  /** With sorted offsets, those reported before the flush are exactly those before the furthest word end seen. */
  lemma {:induction false} ReportedBeforeFlush(maps: seq<Mapping>, bookmarks: seq<BookmarkInfo>, calls: seq<Call>)
    requires SortedBookmarks(bookmarks)
    ensures forall k :: 0 <= k < |bookmarks| ==>
              (k < AfterCalls(true, maps, bookmarks, calls).index <==> bookmarks[k].sapi < FurthestEnd(maps, calls))
  {
    hide MapOffset, MappedEnd;
    if calls != [] {
      ReportedBeforeFlush(maps, bookmarks, calls[..|calls| - 1]);
    }
  }

  // ---- The bookmarks a translation lists ----

  /** The bookmark fragments, with their source offsets and names. */
  function Listed(frags: seq<Fragment>): seq<BookmarkInfo> {
    if frags == [] then []
    else
      var f := frags[|frags| - 1];
      Listed(frags[..|frags| - 1]) + if f.action == Bookmark then [BookmarkInfo(f.src, f.text)] else []
  }

  lemma EmitBookmarks(v: Voice, f: Fragment, b: Build)
    ensures EmitFragment(v, f, b).bookmarks
         == b.bookmarks + if f.action == Bookmark then [BookmarkInfo(f.src, f.text)] else []
  {
    SpokenKeepsBookmarks(v, f, b);
    TagKeepsBookmarks(f, b);
    hide EmitSpoken, EmitTag, EscapeMaps, Escape, UpToNul, EmptyTag, Attribute;
  }

  lemma SpokenKeepsBookmarks(v: Voice, f: Fragment, b: Build)
    ensures EmitSpoken(v, f, b).bookmarks == b.bookmarks
  {
    hide Lead, LeadEvents, Tail, TailEvents, Escape, EscapeMaps, UpToNul;
  }

  lemma TagKeepsBookmarks(f: Fragment, b: Build)
    ensures EmitTag(f, b).bookmarks == b.bookmarks
  {
    hide TrimTag, IsXMLClosingTag, IsXMLSelfClosingTag, TagEvents, ClosingTags, AllCloseEvents, MatchingTag;
  }

  lemma {:induction false} RunBookmarks(v: Voice, frags: seq<Fragment>, n: nat)
    requires n <= |frags|
    ensures Run(v, frags, n).bookmarks == Listed(frags[..n])
  {
    hide Run, OpenTags, EmitFragment, CloseTags, LevelAfter;
    if n == 0 {
      assert Run(v, frags, 0).bookmarks == [] by { RunStartBookmarks(v, frags); }
    } else {
      RunBookmarks(v, frags, n - 1);
      var f, b := frags[n - 1], Run(v, frags, n - 1);
      OpenTagsFlags(v, f, b);
      EmitBookmarks(v, f, OpenTags(v, f, b));
      var w := Written(v, frags, n - 1);
      CloseTagsFlags(LevelAfter(v, frags, n - 1, w.prosodyCount), w);
      RunNext(v, frags, n - 1);
      assert frags[..n][..n - 1] == frags[..n - 1];
    }
  }

  lemma RunStartBookmarks(v: Voice, frags: seq<Fragment>)
    ensures Run(v, frags, 0).bookmarks == []
  {
  }

  /** A translation lists every bookmark of the text once, in order, and for ordered fragments sorted by offset. */
  lemma TranslationBookmarks(v: Voice, frags: seq<Fragment>)
    ensures Translate(v, frags).bookmarks == Listed(frags)
    ensures Ordered(frags) ==> SortedBookmarks(Translate(v, frags).bookmarks)
  {
    RunBookmarks(v, frags, |frags|);
    assert frags[..|frags|] == frags;
    assert Translate(v, frags).bookmarks == Run(v, frags, |frags|).bookmarks;
    hide Run, Translate;
    if Ordered(frags) {
      ListedSorted(frags);
    }
  }

  lemma {:induction false} ListedSorted(frags: seq<Fragment>)
    requires Ordered(frags)
    ensures SortedBookmarks(Listed(frags))
    ensures forall b :: b in Listed(frags) ==> b.sapi <= SrcBound(frags, |frags|)
  {
    if frags != [] {
      var early, f := frags[..|frags| - 1], frags[|frags| - 1];
      ListedSorted(early);
      assert |early| > 0 ==> SrcEnd(early[|early| - 1]) <= f.src;
      forall i | 0 <= i < |Listed(early)| ensures Listed(early)[i].sapi <= f.src {
        assert Listed(early)[i] in Listed(early);
      }
    }
  }
}
