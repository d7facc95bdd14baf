/** Mapping SSML offsets back to SAPI offsets: the plain form, and what it does to the image of a source span. */
module OffsetMap {
  import opened Numbers
  import opened WideText
  import opened SsmlBuilder

  /** Offsets are 32-bit unsigned. */
  const ULONG := 0x1_0000_0000

  function Wrap(x: int): nat {
    x % ULONG
  }

  lemma WrapSmall(x: int)
    requires 0 <= x < ULONG
    ensures Wrap(x) == x
  {
  }

  predicate Sorted(maps: seq<Mapping>) {
    forall i, j :: 0 <= i <= j < |maps| ==> maps[i].ssml <= maps[j].ssml && maps[i].sapi <= maps[j].sapi
  }

  predicate InRange(maps: seq<Mapping>) {
    forall i :: 0 <= i < |maps| ==> maps[i].ssml < ULONG && maps[i].sapi < ULONG
  }

  /** The last mapping whose SSML offset is not above `offset`, or the first. */
  function LastNotAbove(maps: seq<Mapping>, offset: nat): (r: nat)
    requires maps != []
    ensures r < |maps|
    ensures r > 0 ==> maps[r].ssml <= offset
    ensures forall k :: r < k < |maps| ==> maps[k].ssml > offset
  {
    if |maps| == 1 || maps[|maps| - 1].ssml <= offset then |maps| - 1
    else LastNotAbove(maps[..|maps| - 1], offset)
  }

  /** Among mappings with one SSML offset, back to the first that does not fall inside the word. */
  function StepBack(maps: seq<Mapping>, index: nat, endSapi: nat): (r: nat)
    requires index < |maps|
    ensures r <= index
    ensures forall k :: r <= k < index ==> maps[k].ssml == maps[index].ssml && maps[k].sapi >= endSapi
    ensures r > 0 ==> maps[r - 1].ssml != maps[r].ssml || maps[r - 1].sapi < endSapi
  {
    if index > 0 && maps[index - 1].ssml == maps[index].ssml && maps[index - 1].sapi >= endSapi
    then StepBack(maps, index - 1, endSapi) else index
  }

  /** The SAPI offset of an SSML offset that `m` covers; never below zero. */
  function SapiOffset(m: Mapping, offset: nat): nat {
    if m.ssml > m.sapi && offset < m.ssml - m.sapi then 0 else Wrap(offset - m.ssml + m.sapi)
  }

  /** The mapped offset and length. */
  function MapOffset(maps: seq<Mapping>, offset: nat, length: nat): (nat, nat) {
    if maps == [] then (offset, length)
    else
      var i := LastNotAbove(maps, offset);
      var start := SapiOffset(maps[i], offset);
      var end := Wrap(offset + length);
      var e := StepBack(maps, Max(i, LastNotAbove(maps, end)), Wrap(start + length));
      if e <= i then (start, length)
      else (start, Wrap(Wrap(end - maps[e].ssml + maps[e].sapi) - start))
  }

  lemma LastIs(maps: seq<Mapping>, offset: nat, i: nat)
    requires Sorted(maps) && i < |maps| && (i > 0 ==> maps[i].ssml <= offset)
    requires i + 1 < |maps| ==> maps[i + 1].ssml > offset
    ensures LastNotAbove(maps, offset) == i
  {
  }

  /** Without mappings offsets are told as they are. */
  lemma NothingMapped(offset: nat, length: nat)
    ensures MapOffset([], offset, length) == (offset, length)
  {
  }

  /** What is told fits 32 bits. */
  lemma ToldFits(maps: seq<Mapping>, offset: nat, length: nat)
    requires maps != [] && length < 0x1_0000_0000
    ensures MapOffset(maps, offset, length).0 < 0x1_0000_0000 && MapOffset(maps, offset, length).1 < 0x1_0000_0000
  {
    hide LastNotAbove, StepBack;
  }

  /**
   A span that no other mapping cuts is told with its own length, as far from the mapping as it is in SSML, but never
   below zero.
   */
  lemma InOneMapping(maps: seq<Mapping>, i: nat, offset: nat, length: nat)
    requires Sorted(maps) && i < |maps| && (i > 0 ==> maps[i].ssml <= offset)
    requires i + 1 < |maps| ==> maps[i + 1].ssml > offset + length
    requires offset + length < 0x1_0000_0000 && offset - maps[i].ssml + maps[i].sapi < 0x1_0000_0000
    ensures MapOffset(maps, offset, length) == (Max(0, offset - maps[i].ssml + maps[i].sapi), length)
  {
    LastIs(maps, offset, i);
    LastIs(maps, offset + length, i);
    WrapSmall(offset + length);
    if offset - maps[i].ssml + maps[i].sapi >= 0 {
      WrapSmall(offset - maps[i].ssml + maps[i].sapi);
    }
    hide LastNotAbove, StepBack, Wrap;
  }

  /** A span whose end is beyond 32 bits wraps around to before its start, and is told with its own length. */
  lemma WrappedEnd(maps: seq<Mapping>, offset: nat, length: nat)
    requires Sorted(maps) && offset < 0x1_0000_0000 && length < 0x1_0000_0000 && offset + length >= 0x1_0000_0000
    ensures MapOffset(maps, offset, length).1 == length
  {
    if maps != [] {
      var i, end := LastNotAbove(maps, offset), offset + length - 0x1_0000_0000;
      assert Wrap(offset + length) == end < offset;
      var j := LastNotAbove(maps, end);
      assert j <= i;
    }
    hide LastNotAbove, StepBack, SapiOffset, Wrap;
  }

  // ---- The mappings of one spoken fragment ----

  /** Start, one mapping after every escaped character, end. */
  function SpanMaps(src: nat, text: string, pos: nat): seq<Mapping> {
    [Mapping(src, pos)] + EscapeMaps(src, UpToNul(text), pos)
    + [Mapping(src + |text|, pos + |Escape(UpToNul(text))|)]
  }

  /** The SSML offset of character `k` of a text copied at `pos`. */
  function Image(text: string, pos: nat, k: nat): nat
    requires k <= |text|
  {
    pos + |Escape(text[..k])|
  }

  predicate NoEscapes(s: string) {
    forall i :: 0 <= i < |s| ==> !NeedsEscape(s[i])
  }

  /** The mapping that covers the image of character `k`. */
  function Covering(src: nat, text: string, pos: nat, k: nat): Mapping
    requires k <= |text|
  {
    var maps := EscapeMaps(src, text[..k], pos);
    if maps == [] then Mapping(src, pos) else maps[|maps| - 1]
  }

  lemma TakeOne(text: string, k: nat)
    requires 0 < k <= |text|
    ensures text[..k][..k - 1] == text[..k - 1] && text[..k][k - 1] == text[k - 1]
    ensures Escape(text[..k]) == Escape(text[..k - 1]) + EscapeChar(text[k - 1])
  {
    EscapeAppend(text[..k - 1], text[k - 1]);
    assert text[..k] == text[..k - 1] + [text[k - 1]];
  }

  lemma EscapeMapsOne(src: nat, text: string, pos: nat, k: nat)
    requires 0 < k <= |text|
    ensures EscapeMaps(src, text[..k], pos)
         == EscapeMaps(src, text[..k - 1], pos)
            + if NeedsEscape(text[k - 1]) then [Mapping(src + k, Image(text, pos, k))] else []
  {
    TakeOne(text, k);
  }

  /** The covering mapping gives the source offset exactly. */
  lemma {:induction false} CoveringExact(src: nat, text: string, pos: nat, k: nat)
    requires k <= |text|
    ensures var m := Covering(src, text, pos, k);
      && pos <= m.ssml <= Image(text, pos, k) && src <= m.sapi <= src + k
      && Image(text, pos, k) - m.ssml == src + k - m.sapi
  {
    if k == 0 {
      assert text[..0] == "";
    } else {
      CoveringExact(src, text, pos, k - 1);
      TakeOne(text, k);
      EscapeMapsOne(src, text, pos, k);
    }
  }

  lemma {:induction false} EscapeLength(s: string)
    ensures NoEscapes(s) <==> |Escape(s)| == |s|
  {
    if s != "" {
      EscapeLength(s[..|s| - 1]);
      hide EscapeChar, NeedsEscape;
    }
  }

  /** The image of characters `j` to `k` is as long as their escaped form. */
  lemma ImageAdd(text: string, pos: nat, j: nat, k: nat)
    requires j <= k <= |text|
    ensures Image(text, pos, k) == Image(text, pos, j) + |Escape(text[j..k])|
    ensures |Escape(text[j..k])| >= k - j
  {
    assert text[..k] == text[..j] + text[j..k];
    EscapeConcat(text[..j], text[j..k]);
  }

  /** The mappings up to character `k` come first; every later one lies strictly beyond its image. */
  lemma {:induction false} EscapeMapsSplit(src: nat, text: string, pos: nat, k: nat, n: nat)
    requires k <= n <= |text|
    ensures var early, all := EscapeMaps(src, text[..k], pos), EscapeMaps(src, text[..n], pos);
      && |early| <= |all| && all[..|early|] == early
      && (forall j :: 0 <= j < |early| ==> early[j].ssml <= Image(text, pos, k))
      && (forall j :: |early| <= j < |all| ==> all[j].ssml > Image(text, pos, k))
    decreases n
  {
    hide EscapeMaps, Escape;
    if k < n {
      EscapeMapsSplit(src, text, pos, k, n - 1);
      EscapeMapsOne(src, text, pos, n);
      ImageAdd(text, pos, k, n);
    } else {
      EscapeMapsBelow(src, text, pos, k);
    }
  }

  lemma {:induction false} EscapeMapsBelow(src: nat, text: string, pos: nat, k: nat)
    requires k <= |text|
    ensures forall m :: m in EscapeMaps(src, text[..k], pos) ==>
              pos < m.ssml <= Image(text, pos, k) && src < m.sapi <= src + k
  {
    if k > 0 {
      EscapeMapsBelow(src, text, pos, k - 1);
      EscapeMapsOne(src, text, pos, k);
      ImageAdd(text, pos, k - 1, k);
      ImageAdd(text, pos, 0, k);
      assert text[..0] == "";
    }
  }

  /** The mappings after escapes strictly increase in SSML offset. */
  lemma {:induction false} EscapeMapsRise(src: nat, text: string, pos: nat, k: nat)
    requires k <= |text|
    ensures var maps := EscapeMaps(src, text[..k], pos);
      forall i, j :: 0 <= i < j < |maps| ==> maps[i].ssml < maps[j].ssml && maps[i].sapi < maps[j].sapi
  {
    if k > 0 {
      EscapeMapsRise(src, text, pos, k - 1);
      EscapeMapsBelow(src, text, pos, k - 1);
      EscapeMapsOne(src, text, pos, k);
      ImageAdd(text, pos, k - 1, k);
    }
  }

  // ---- Where the span's mappings stand in the whole list ----

  /** `maps` holds the mappings of a fragment starting at index `at`. */
  predicate Holds(maps: seq<Mapping>, at: nat, src: nat, text: string, pos: nat) {
    var span := SpanMaps(src, text, pos);
    at + |span| <= |maps| && maps[at..at + |span|] == span
  }

  /** The index of the mapping that covers the image of character `k`. */
  function IndexOf(at: nat, src: nat, text: string, pos: nat, k: nat): nat
    requires k <= |UpToNul(text)|
  {
    at + |EscapeMaps(src, UpToNul(text)[..k], pos)|
  }

  function EndIndex(at: nat, src: nat, text: string, pos: nat): nat {
    at + |EscapeMaps(src, UpToNul(text), pos)| + 1
  }

  lemma SpanAt(maps: seq<Mapping>, at: nat, src: nat, text: string, pos: nat)
    requires Holds(maps, at, src, text, pos)
    ensures var escapes := EscapeMaps(src, UpToNul(text), pos);
      && at + |escapes| + 2 <= |maps|
      && maps[at] == Mapping(src, pos)
      && (forall j :: 0 <= j < |escapes| ==> maps[at + 1 + j] == escapes[j])
      && maps[EndIndex(at, src, text, pos)] == Mapping(src + |text|, pos + |Escape(UpToNul(text))|)
  {
    var span, escapes := SpanMaps(src, text, pos), EscapeMaps(src, UpToNul(text), pos);
    hide EscapeMaps, Escape, UpToNul;
    assert forall j :: 0 <= j < |span| ==> maps[at + j] == span[j];
    assert forall j :: 0 <= j < |escapes| ==> span[1 + j] == escapes[j];
  }

  /** Strictly inside the text, the covering mapping is the last one not above. */
  lemma CoveringIsLast(maps: seq<Mapping>, at: nat, src: nat, text: string, pos: nat, k: nat)
    requires Sorted(maps) && Holds(maps, at, src, text, pos) && k < |UpToNul(text)|
    ensures var t, i := UpToNul(text), IndexOf(at, src, text, pos, k);
      && i < |maps| && maps[i] == Covering(src, t, pos, k)
      && LastNotAbove(maps, Image(t, pos, k)) == i
      && (i > at ==> maps[i - 1].ssml < maps[i].ssml)
  {
    hide EscapeMaps, Escape, UpToNul, Holds, NoEscapes, NeedsEscape, SpanMaps, Sorted, LastNotAbove;
    var t := UpToNul(text);
    SpanAt(maps, at, src, text, pos);
    var early, all := EscapeMaps(src, t[..k], pos), EscapeMaps(src, t, pos);
    EscapeMapsSplit(src, t, pos, k, |t|);
    assert t[..|t|] == t;
    EscapeMapsRise(src, t, pos, k);
    EscapeMapsBelow(src, t, pos, k);
    forall j | 0 <= j < |early| ensures early[j] in early && pos < early[j].ssml <= Image(t, pos, k) {
    }
    ImageAdd(t, pos, k, |t|);
    CoveringExact(src, t, pos, k);
    CoveringIndex(maps, at, Mapping(src, pos), early, all, Image(t, pos, k),
      Mapping(src + |text|, pos + |Escape(t)|));
  }

  lemma CoveringIndex(maps: seq<Mapping>, at: nat, first: Mapping, early: seq<Mapping>, all: seq<Mapping>, offset: nat, last: Mapping)
    requires Sorted(maps) && |early| <= |all| && all[..|early|] == early
    requires at + |all| + 2 <= |maps| && maps[at] == first && maps[at + |all| + 1] == last
    requires forall j :: 0 <= j < |all| ==> maps[at + 1 + j] == all[j]
    requires forall i, j :: 0 <= i < j < |early| ==> early[i].ssml < early[j].ssml
    requires forall j :: 0 <= j < |early| ==> first.ssml < early[j].ssml <= offset
    requires forall j :: |early| <= j < |all| ==> all[j].ssml > offset
    requires first.ssml <= offset < last.ssml
    ensures var i := at + |early|;
      && maps[i] == (if early == [] then first else early[|early| - 1])
      && LastNotAbove(maps, offset) == i
      && (|early| > 0 ==> maps[i - 1].ssml < maps[i].ssml)
  {
    var i := at + |early|;
    if |early| > 0 {
      assert all[..|early|][|early| - 1] == early[|early| - 1];
      assert maps[at + 1 + (|early| - 1)] == all[|early| - 1];
    }
    if |early| > 1 {
      assert all[..|early|][|early| - 2] == early[|early| - 2];
      assert maps[at + 1 + (|early| - 2)] == all[|early| - 2];
    }
    if |early| < |all| {
      assert maps[at + 1 + |early|] == all[|early|];
    }
    assert maps[i + 1].ssml > offset;
    LastIs(maps, offset, i);
  }

  /** The start of the span maps to its source offset. */
  lemma StartExact(maps: seq<Mapping>, at: nat, src: nat, text: string, pos: nat, a: nat)
    requires Sorted(maps) && Holds(maps, at, src, text, pos) && a < |UpToNul(text)|
    requires src + a < ULONG
    ensures var i := LastNotAbove(maps, Image(UpToNul(text), pos, a));
      && i == IndexOf(at, src, text, pos, a)
      && SapiOffset(maps[i], Image(UpToNul(text), pos, a)) == src + a
  {
    hide EscapeMaps, Escape, UpToNul, Holds, Sorted, LastNotAbove, SpanMaps, NoEscapes, Covering, Image, IndexOf;
    CoveringIsLast(maps, at, src, text, pos, a);
    CoveringExact(src, UpToNul(text), pos, a);
    WrapSmall(src + a);
    hide Wrap;
  }

  // ---- Round trips ----

  /** When no earlier mapping shares the SSML offset of the end, the end is mapped like the start. */
  lemma MapsDirectly(maps: seq<Mapping>, offset: nat, length: nat, i: nat, j: nat)
    requires maps != [] && i == LastNotAbove(maps, offset) && j == LastNotAbove(maps, offset + length) && i <= j
    requires offset + length < ULONG && SapiOffset(maps[i], offset) + length < ULONG
    requires j > i ==> (maps[j - 1].ssml != maps[j].ssml || maps[j - 1].sapi < SapiOffset(maps[i], offset) + length)
    requires j > i ==> SapiOffset(maps[i], offset) <= offset + length - maps[j].ssml + maps[j].sapi < ULONG
    ensures MapOffset(maps, offset, length)
         == (SapiOffset(maps[i], offset),
             if j > i then offset + length - maps[j].ssml + maps[j].sapi - SapiOffset(maps[i], offset) else length)
  {
    hide LastNotAbove, SapiOffset, Wrap, StepBack;
    WrapSmall(offset + length);
    WrapSmall(SapiOffset(maps[i], offset) + length);
    if j > i {
      var end := offset + length - maps[j].ssml + maps[j].sapi;
      WrapSmall(end);
      WrapSmall(end - SapiOffset(maps[i], offset));
    }
  }

  /**
   Offset round trip inside one fragment: the image of any non-empty span that ends strictly inside
   the copied text maps back to exactly the source offset and length.
   */
  lemma SpanInside(maps: seq<Mapping>, at: nat, src: nat, text: string, pos: nat, a: nat, b: nat)
    requires Sorted(maps) && Holds(maps, at, src, text, pos) && a < b < |UpToNul(text)|
    requires var t := UpToNul(text);
      Image(t, pos, b) < ULONG && src + a + |Escape(t[a..b])| < ULONG
    ensures var t := UpToNul(text);
      MapOffset(maps, Image(t, pos, a), |Escape(t[a..b])|) == (src + a, b - a)
  {
    hide EscapeMaps, Escape, UpToNul, Covering, Holds, Sorted, LastNotAbove, Image, IndexOf, SpanMaps, NoEscapes;
    var t := UpToNul(text);
    ImageAdd(t, pos, a, b);
    StartExact(maps, at, src, text, pos, a);
    StartExact(maps, at, src, text, pos, b);
    var i, j := IndexOf(at, src, text, pos, a), IndexOf(at, src, text, pos, b);
    CoveringIsLast(maps, at, src, text, pos, a);
    CoveringIsLast(maps, at, src, text, pos, b);
    CoveringExact(src, t, pos, a);
    CoveringExact(src, t, pos, b);
    IndexGrows(at, src, text, pos, a, b);
    MapsDirectly(maps, Image(t, pos, a), |Escape(t[a..b])|, i, j);
  }

  lemma IndexGrows(at: nat, src: nat, text: string, pos: nat, a: nat, b: nat)
    requires a <= b <= |UpToNul(text)|
    ensures at <= IndexOf(at, src, text, pos, a) <= IndexOf(at, src, text, pos, b)
  {
    EscapeMapsSplit(src, UpToNul(text), pos, a, b);
  }

  /** The mapped length when the end is found at a later mapping than the start. */
  lemma MapsAfterStepBack(maps: seq<Mapping>, offset: nat, length: nat, i: nat, j: nat)
    requires maps != [] && i == LastNotAbove(maps, offset) && j == LastNotAbove(maps, offset + length) && i <= j
    requires offset + length < ULONG && SapiOffset(maps[i], offset) + length < ULONG
    requires maps[j].ssml == offset + length > offset
    requires i > 0 || maps[0].ssml <= offset
    requires forall k :: 0 <= k < |maps| ==> maps[k].sapi < ULONG
    ensures var start := SapiOffset(maps[i], offset);
      var e := StepBack(maps, j, start + length);
      && e > i && maps[e].ssml == maps[j].ssml
      && MapOffset(maps, offset, length) == (start, Wrap(maps[e].sapi - start))
  {
    hide LastNotAbove, SapiOffset, Wrap, StepBack;
    WrapSmall(offset + length);
    var start := SapiOffset(maps[i], offset);
    WrapSmall(start + length);
    var e := StepBack(maps, j, start + length);
    assert e < j ==> maps[e].ssml == maps[j].ssml;
    WrapSmall(maps[e].sapi);
  }

  /** Subtraction modulo 2^32 loses nothing between two offsets in range. */
  lemma WrapDifference(x: nat, start: nat, length: nat)
    requires x < ULONG && start + length < ULONG
    ensures Wrap(x - start) == length <==> x == start + length
  {
    if x >= start {
      WrapSmall(x - start);
    } else {
      assert Wrap(x - start) == x - start + ULONG;
    }
  }

  /**
   A span that ends where its fragment ends maps back exactly if and only if it holds no escaped
   character, or no later mapping at the same SSML offset has another source offset.
   */
  lemma SpanToEnd(maps: seq<Mapping>, at: nat, src: nat, text: string, pos: nat, a: nat)
    requires Sorted(maps) && InRange(maps) && Holds(maps, at, src, text, pos)
    requires UpToNul(text) == text && a < |text|
    requires src + a + |Escape(text[a..])| < ULONG
    ensures MapOffset(maps, Image(text, pos, a), |Escape(text[a..])|) == (src + a, |text| - a)
       <==> NoEscapes(text[a..]) || maps[LastNotAbove(maps, Image(text, pos, |text|))].sapi == src + |text|
  {
    hide EscapeMaps, Escape, UpToNul, Holds, Image, SpanMaps, NoEscapes, Sorted, InRange, LastNotAbove, MapOffset;
    assert text[..|text|] == text && text[a..|text|] == text[a..];
    ImageAdd(text, pos, a, |text|);
    ImageIs(text, pos);
    EscapeLength(text[a..]);
    SpanToLaterEnd(maps, at, src, text, pos, a, at, src, text, pos);
  }

  /**
   A span from one copied text to the end of the same or a later one maps back exactly if and only if it is not longer
   in SSML than in the source, or the last mapping where it ends has that source offset.
   */
  lemma SpanToLaterEnd(maps: seq<Mapping>, at1: nat, src1: nat, text1: string, pos1: nat, a: nat,
                       at2: nat, src2: nat, text2: string, pos2: nat)
    requires Sorted(maps) && InRange(maps)
    requires Holds(maps, at1, src1, text1, pos1) && Holds(maps, at2, src2, text2, pos2)
    requires a < |UpToNul(text1)| && UpToNul(text2) == text2 && text2 != "" && src1 + a < src2 + |text2|
    requires var from, stop := Image(UpToNul(text1), pos1, a), pos2 + |Escape(text2)|;
      from < stop && src1 + a + (stop - from) < ULONG
    ensures maps != []
    ensures var from, stop := Image(UpToNul(text1), pos1, a), pos2 + |Escape(text2)|;
      MapOffset(maps, from, stop - from) == (src1 + a, src2 + |text2| - (src1 + a))
      <==> src2 + |text2| - (src1 + a) >= stop - from || maps[LastNotAbove(maps, stop)].sapi == src2 + |text2|
  {
    hide EscapeMaps, Escape, UpToNul, Covering, Holds, Image, IndexOf, SpanMaps, NoEscapes, SapiOffset,
      Wrap, Sorted, InRange, LastNotAbove, MapOffset;
    var from, stop := Image(UpToNul(text1), pos1, a), pos2 + |Escape(text2)|;
    StartExact(maps, at1, src1, text1, pos1, a);
    CoveringKinds(maps, at1, src1, text1, pos1, a);
    SpanAt(maps, at2, src2, text2, pos2);
    TiesAtEnd(maps, at2, src2, text2, pos2);
    var i, j, ei := LastNotAbove(maps, from), LastNotAbove(maps, stop), EndIndex(at2, src2, text2, pos2);
    assert maps[ei] == Mapping(src2 + |text2|, from + (stop - from));
    EndFound(maps, from, stop - from, i, j, ei, src2 + |text2|, src1 + a, src2 + |text2| - (src1 + a));
  }

  /** Among the mappings at the end of a copy none lies before the end of its source. */
  lemma TiesAtEnd(maps: seq<Mapping>, at: nat, src: nat, text: string, pos: nat)
    requires Sorted(maps) && Holds(maps, at, src, text, pos) && UpToNul(text) == text && text != ""
    ensures forall m :: 0 <= m < |maps| && maps[m].ssml == pos + |Escape(text)| ==> maps[m].sapi >= src + |text|
    ensures forall m :: 0 <= m < at ==> maps[m].ssml < pos + |Escape(text)|
  {
    hide EscapeMaps, Escape, UpToNul, Holds, SpanMaps, Image;
    SpanAt(maps, at, src, text, pos);
    var escapes, ei := EscapeMaps(src, text, pos), EndIndex(at, src, text, pos);
    LastEscape(src, text, pos);
    forall m | 0 <= m < |maps| && maps[m].ssml == pos + |Escape(text)| ensures maps[m].sapi >= src + |text| {
      if at < m < ei {
        assert maps[m] == escapes[m - at - 1];
        assert maps[m] in escapes;
      }
    }
  }

  lemma LastEscape(src: nat, text: string, pos: nat)
    requires text != ""
    ensures forall m :: m in EscapeMaps(src, text, pos) && m.ssml == pos + |Escape(text)| ==> m.sapi == src + |text|
    ensures |Escape(text)| > 0
  {
    hide Escape;
    var n := |text|;
    assert text[..n] == text;
    EscapeMapsOne(src, text, pos, n);
    EscapeMapsBelow(src, text, pos, n - 1);
    ImageAdd(text, pos, n - 1, n);
    hide EscapeMaps;
  }

  /**
   A span whose end lies behind mapping `j`: with all earlier mappings at the SSML offset of `j` having source offset
   `tie`, it is measured from `j`, and so exactly, if and only if there are none, they fall inside the span, or they
   say the same.
   */
  lemma FarEnd(maps: seq<Mapping>, offset: nat, length: nat, i: nat, j: nat, start: nat, tie: nat)
    requires Sorted(maps) && i < j < |maps|
    requires i == LastNotAbove(maps, offset) && j == LastNotAbove(maps, offset + length)
    requires maps[i].ssml <= offset < maps[j].ssml <= offset + length < ULONG
    requires SapiOffset(maps[i], offset) == start && start + length < ULONG
    requires start <= tie <= maps[j].sapi && offset + length - maps[j].ssml + maps[j].sapi < ULONG
    requires forall m :: 0 <= m < j && maps[m].ssml == maps[j].ssml ==> maps[m].sapi == tie
    ensures MapOffset(maps, offset, length) == (start, offset + length - maps[j].ssml + maps[j].sapi - start)
       <==> maps[j - 1].ssml != maps[j].ssml || start + length > tie || tie == maps[j].sapi
    ensures maps[j - 1].ssml == maps[j].ssml && start + length <= tie ==>
      MapOffset(maps, offset, length) == (start, offset + length - maps[j].ssml + tie - start)
  {
    hide SapiOffset, Wrap, LastNotAbove, MapOffset;
    if maps[j - 1].ssml != maps[j].ssml || start + length > tie {
      MapsDirectly(maps, offset, length, i, j);
    } else {
      SteppedBack(maps, offset, length, i, j, start, tie);
    }
  }

  lemma SteppedBack(maps: seq<Mapping>, offset: nat, length: nat, i: nat, j: nat, start: nat, tie: nat)
    requires Sorted(maps) && i < j < |maps|
    requires i == LastNotAbove(maps, offset) && j == LastNotAbove(maps, offset + length)
    requires maps[i].ssml <= offset < maps[j].ssml <= offset + length < ULONG
    requires SapiOffset(maps[i], offset) == start && start + length < ULONG
    requires start <= tie <= maps[j].sapi && offset + length - maps[j].ssml + maps[j].sapi < ULONG
    requires forall m :: 0 <= m < j && maps[m].ssml == maps[j].ssml ==> maps[m].sapi == tie
    requires maps[j - 1].ssml == maps[j].ssml && start + length <= tie
    ensures MapOffset(maps, offset, length) == (start, offset + length - maps[j].ssml + tie - start)
  {
    hide SapiOffset, Wrap, LastNotAbove;
    WrapSmall(offset + length);
    WrapSmall(start + length);
    var e := StepBack(maps, j, start + length);
    assert e < j && maps[e].ssml == maps[j].ssml && maps[e].sapi == tie;
    assert e > i;
    WrapSmall(offset + length - maps[j].ssml + tie);
    WrapSmall(offset + length - maps[j].ssml + tie - start);
  }

  lemma ImageIs(text: string, pos: nat)
    ensures Image(text, pos, |text|) == pos + |Escape(text)|
  {
    assert text[..|text|] == text;
  }

  /**
   A span whose end has a mapping, and no mapping at that SSML offset with a lesser source offset, maps back exactly if
   and only if it is not longer in SSML, or the last mapping there has that source offset.
   */
  lemma EndFound(maps: seq<Mapping>, offset: nat, length: nat, i: nat, j: nat, ei: nat, sapiEnd: nat, start: nat, plain: nat)
    requires Sorted(maps) && InRange(maps) && i < |maps| && ei < |maps|
    requires i == LastNotAbove(maps, offset) && j == LastNotAbove(maps, offset + length)
    requires maps[i].ssml <= offset && SapiOffset(maps[i], offset) == start
    requires maps[ei] == Mapping(sapiEnd, offset + length) && sapiEnd == start + plain
    requires forall m :: 0 <= m < |maps| && maps[m].ssml == offset + length ==> maps[m].sapi >= sapiEnd
    requires 0 < plain && 0 < length && start + length < ULONG
    ensures MapOffset(maps, offset, length) == (start, plain) <==> plain >= length || maps[j].sapi == sapiEnd
  {
    hide SapiOffset, Wrap, LastNotAbove, MapOffset;
    AtEnd(maps, offset, length, i, j, ei);
    MapsAfterStepBack(maps, offset, length, i, j);
    var e := StepBack(maps, j, start + length);
    WrapDifference(maps[e].sapi, start, plain);
    if plain >= length {
      assert e > 0 ==> maps[e - 1].ssml != maps[e].ssml;
      assert e <= ei;
    }
  }

  lemma AtEnd(maps: seq<Mapping>, offset: nat, length: nat, i: nat, j: nat, ei: nat)
    requires Sorted(maps) && i < |maps| && ei < |maps| && length > 0
    requires i == LastNotAbove(maps, offset) && j == LastNotAbove(maps, offset + length)
    requires maps[i].ssml <= offset && maps[ei].ssml == offset + length
    ensures i < ei <= j && maps[j].ssml == offset + length && maps[0].ssml <= offset
  {
  }

  lemma {:induction false} NoEscapesNoMaps(src: nat, text: string, pos: nat, k: nat)
    requires k <= |text|
    ensures NoEscapes(text[..k]) <==> EscapeMaps(src, text[..k], pos) == []
  {
    if k > 0 {
      hide EscapeMaps, NeedsEscape, NoEscapes;
      NoEscapesNoMaps(src, text, pos, k - 1);
      EscapeMapsOne(src, text, pos, k);
      NoEscapesOne(text, k);
    }
  }

  lemma NoEscapesOne(text: string, k: nat)
    requires 0 < k <= |text|
    ensures NoEscapes(text[..k]) <==> NoEscapes(text[..k - 1]) && !NeedsEscape(text[k - 1])
  {
    hide NeedsEscape;
    assert forall i :: 0 <= i < k - 1 ==> text[..k][i] == text[..k - 1][i];
    assert text[..k][k - 1] == text[k - 1];
  }

  /** The mapping that covers a character is the first of its fragment, or one nothing earlier shares its offset with. */
  lemma CoveringKinds(maps: seq<Mapping>, at: nat, src: nat, text: string, pos: nat, k: nat)
    requires Sorted(maps) && Holds(maps, at, src, text, pos) && k < |UpToNul(text)|
    ensures var t, j := UpToNul(text), IndexOf(at, src, text, pos, k);
      && j < |maps| && j == LastNotAbove(maps, Image(t, pos, k)) && at <= j
      && pos <= maps[j].ssml <= Image(t, pos, k) && src <= maps[j].sapi
      && Image(t, pos, k) - maps[j].ssml + maps[j].sapi == src + k
      && (NoEscapes(t[..k]) ==> j == at && maps[j] == Mapping(src, pos))
      && (!NoEscapes(t[..k]) ==> j > at && maps[j - 1].ssml < maps[j].ssml)
  {
    CoveringIsLast(maps, at, src, text, pos, k);
    CoveringExact(src, UpToNul(text), pos, k);
    NoEscapesNoMaps(src, UpToNul(text), pos, k);
    SpanAt(maps, at, src, text, pos);
    hide EscapeMaps, Escape, UpToNul, Holds, NoEscapes, Sorted, LastNotAbove;
  }

  /**
   A span from one copied text to strictly inside a later one, where all that was mapped before the later text at the
   offset of its start has source offset `tie`: exact if and only if an escape, something written, or the span's length
   keeps the end from being measured there, or it makes no difference.
   */
  lemma SpanFar(maps: seq<Mapping>, at1: nat, src1: nat, text1: string, pos1: nat, a: nat,
                at2: nat, src2: nat, text2: string, pos2: nat, b: nat, tie: nat)
    requires Sorted(maps) && Holds(maps, at1, src1, text1, pos1) && Holds(maps, at2, src2, text2, pos2)
    requires a < |UpToNul(text1)| && 0 < b < |UpToNul(text2)| && 0 < at2 && pos1 + |Escape(UpToNul(text1))| <= pos2
    requires forall m :: 0 <= m < at2 && maps[m].ssml == pos2 ==> maps[m].sapi == tie
    requires src1 + a <= tie <= src2
    requires var from, stop := Image(UpToNul(text1), pos1, a), Image(UpToNul(text2), pos2, b);
      stop < ULONG && (from <= stop ==> src1 + a + (stop - from) < ULONG) && src2 + b < ULONG
    ensures at2 < |maps|
    ensures var t2, from, stop := UpToNul(text2), Image(UpToNul(text1), pos1, a), Image(UpToNul(text2), pos2, b);
      from < stop &&
      (MapOffset(maps, from, stop - from) == (src1 + a, src2 + b - (src1 + a))
       <==> || !NoEscapes(t2[..b]) || maps[at2 - 1].ssml != pos2 || src1 + a + (stop - from) > tie || tie == src2)
      && (NoEscapes(t2[..b]) && maps[at2 - 1].ssml == pos2 && src1 + a + (stop - from) <= tie ==>
            MapOffset(maps, from, stop - from) == (src1 + a, tie + b - (src1 + a)))
  {
    hide EscapeMaps, Escape, UpToNul, Covering, Image, IndexOf, SpanMaps, NoEscapes, SapiOffset, Wrap, LastNotAbove, MapOffset, Holds;
    var t1, t2 := UpToNul(text1), UpToNul(text2);
    var from, stop := Image(t1, pos1, a), Image(t2, pos2, b);
    var i, j := IndexOf(at1, src1, text1, pos1, a), IndexOf(at2, src2, text2, pos2, b);
    ImageAdd(t1, pos1, a, |t1|);
    ImageIs(t1, pos1);
    StartExact(maps, at1, src1, text1, pos1, a);
    CoveringKinds(maps, at1, src1, text1, pos1, a);
    CoveringKinds(maps, at2, src2, text2, pos2, b);
    SpanAt(maps, at2, src2, text2, pos2);
    assert from < pos2 <= maps[j].ssml;
    if NoEscapes(t2[..b]) {
      EscapeLength(t2[..b]);
      ImagePlain(t2, pos2, b);
    }
    FarEnd(maps, from, stop - from, i, j, src1 + a, tie);
  }

  lemma ImagePlain(text: string, pos: nat, k: nat)
    requires k <= |text| && |Escape(text[..k])| == |text[..k]|
    ensures Image(text, pos, k) == pos + k
  {
  }

  lemma ImageOfNothing(text: string, pos: nat)
    ensures Image(text, pos, 0) == pos
  {
    assert text[..0] == "";
  }
}
