/** Every text is written inside the prosody, emphasis and context its own fragment asks for. */
module SsmlStyle {
  import opened WideText
  import opened SsmlBuilder
  import opened SsmlNesting

  /** The fragment the prosody element open around fragment `i` was written for. */
  function ProsodyOpener(v: Voice, frags: seq<Fragment>, i: nat): (j: nat)
    requires i < |frags|
    ensures j <= i
  {
    if i > 0 && Run(v, frags, i).inProsody then ProsodyOpener(v, frags, i - 1) else i
  }

  /** The fragment the say-as element open around fragment `i` was written for. */
  function SayAsOpener(v: Voice, frags: seq<Fragment>, i: nat): (j: nat)
    requires i < |frags|
    ensures j <= i
  {
    if i > 0 && Run(v, frags, i).inSayAs then SayAsOpener(v, frags, i - 1) else i
  }

  lemma WrittenStyle(v: Voice, frags: seq<Fragment>, i: nat)
    requires i < |frags|
    ensures var f, b, w := frags[i], Run(v, frags, i), Written(v, frags, i);
      && w.inProsody == (b.inProsody || ((!v.isEdge || Speakable(f)) && ProsodyOf(v, f) != PLAIN))
      && w.inEmphasis == (b.inEmphasis || (f.emphAdj != 0 && !v.isEdge))
      && w.inSayAs == (b.inSayAs || (f.category.Some? && f.action == Speak && !v.isEdge))
  {
    hide Run, OpenTags, EmitFragment, ProsodyOf;
    OpenTagsFlags(v, frags[i], Run(v, frags, i));
    EmitFragmentFlags(v, frags[i], OpenTags(v, frags[i], Run(v, frags, i)));
  }

  /** The same context, or none, letter case aside. */
  predicate AlikeContext(f: Fragment, g: Fragment) {
    match (f.category, g.category)
    case (Some(a), Some(b)) => EqualsIgnoreCase(a, b)
    case (None, None) => true
    case _ => false
  }

  lemma ContextAlike(f: Fragment, g: Fragment)
    ensures SameContext(f, g) <==> AlikeContext(f, g)
  {
  }

  /** Between two fragments exactly that stays open which both ask for, and inside which nothing has to be closed. */
  lemma KeptOpen(v: Voice, frags: seq<Fragment>, i: nat)
    requires i + 1 < |frags| && !v.isEdge
    ensures var f, g, b, w := frags[i], frags[i + 1], Run(v, frags, i + 1), Written(v, frags, i);
      var sameProsody := f.volume == g.volume && f.rateAdj == g.rateAdj && f.pitchAdj == g.pitchAdj;
      var sameEmphasis := sameProsody && f.emphAdj == g.emphAdj;
      && (b.inProsody <==> w.inProsody && sameProsody)
      && (b.inEmphasis <==> w.inEmphasis && sameEmphasis)
      && (b.inCustom <==> w.inCustom && sameEmphasis)
      && (b.inSayAs <==> w.inSayAs && sameEmphasis && AlikeContext(f, g) && g.action == Speak)
  {
    hide Run, OpenTags, EmitFragment, CloseTags, AlikeContext;
    var w := Written(v, frags, i);
    RunNext(v, frags, i);
    ContextAlike(frags[i], frags[i + 1]);
    CloseTagsFlags(LevelAfter(v, frags, i, w.prosodyCount), w);
  }

  /** For Edge voices prosody stays open if the next spoken fragment asks for the same, or two were opened already. */
  lemma EdgeKeptOpen(v: Voice, frags: seq<Fragment>, i: nat, next: nat)
    requires v.isEdge && i < next <= |frags| && (next < |frags| ==> Speakable(frags[next]))
    requires forall k :: i < k < next ==> !Speakable(frags[k])
    ensures var f, b, w := frags[i], Run(v, frags, i + 1), Written(v, frags, i);
      b.inProsody <==>
        && w.inProsody && next < |frags|
        && (w.prosodyCount >= 2
            || (f.volume == frags[next].volume && f.rateAdj == frags[next].rateAdj && f.pitchAdj == frags[next].pitchAdj))
  {
    hide Run, OpenTags, EmitFragment, CloseTags, SameContext;
    var w := Written(v, frags, i);
    RunNext(v, frags, i);
    assert NextIndex(v, frags, i + 1) == next;
    CloseTagsFlags(LevelAfter(v, frags, i, w.prosodyCount), w);
  }

  lemma NothingOpen(v: Voice, frags: seq<Fragment>)
    ensures var b := Run(v, frags, 0); !b.inProsody && !b.inEmphasis && !b.inSayAs
  {
    RunStart(v, frags);
  }

  lemma SameProsodyOf(v: Voice, a: Fragment, b: Fragment)
    requires SameProsody(a, b)
    ensures ProsodyOf(v, a) == ProsodyOf(v, b)
  {
  }

  /** While fragment `i` is written, exactly the elements it asks for are open, opened for fragments that asked the same. */
  lemma {:induction false} InOwnStyle(v: Voice, frags: seq<Fragment>, i: nat)
    requires i < |frags| && !v.isEdge
    ensures var f, w := frags[i], Written(v, frags, i);
      && (w.inProsody <==> ProsodyOf(v, f) != PLAIN)
      && (w.inProsody ==> ProsodyOf(v, frags[ProsodyOpener(v, frags, i)]) == ProsodyOf(v, f))
      && (w.inEmphasis <==> f.emphAdj != 0)
      && (w.inSayAs <==> f.category.Some? && f.action == Speak)
      && (w.inSayAs ==> AlikeContext(frags[SayAsOpener(v, frags, i)], f))
  {
    hide Run, Written, ProsodyOf, EqualsIgnoreCase;
    WrittenStyle(v, frags, i);
    AlikeSelf(frags[i]);
    if i == 0 {
      NothingOpen(v, frags);
    } else {
      InOwnStyle(v, frags, i - 1);
      KeptOpen(v, frags, i - 1);
      var b := Run(v, frags, i);
      if b.inProsody {
        SameProsodyOf(v, frags[i - 1], frags[i]);
      }
      if b.inSayAs {
        AlikeChain(frags[SayAsOpener(v, frags, i - 1)], frags[i - 1], frags[i]);
      }
    }
  }

  lemma AlikeSelf(f: Fragment)
    ensures AlikeContext(f, f)
  {
  }

  lemma AlikeChain(a: Fragment, b: Fragment, c: Fragment)
    requires AlikeContext(a, b) && AlikeContext(b, c)
    ensures AlikeContext(a, c)
  {
  }

  // ---- Edge voices ----

  /** The prosody left open, if any and if not the second one, is that of the next fragment to be spoken. */
  predicate EdgeKeeps(v: Voice, frags: seq<Fragment>, n: nat)
    requires 0 < n <= |frags|
  {
    var b, next := Run(v, frags, n), NextIndex(v, frags, n);
    b.inProsody && b.prosodyCount < 2 && next < |frags| ==>
      ProsodyOf(v, frags[next]) != PLAIN
      && ProsodyOf(v, frags[ProsodyOpener(v, frags, n - 1)]) == ProsodyOf(v, frags[next])
  }

  predicate EdgeOwn(v: Voice, frags: seq<Fragment>, i: nat)
    requires i < |frags|
  {
    var f, w := frags[i], Written(v, frags, i);
    && (w.inProsody <==> ProsodyOf(v, f) != PLAIN)
    && (w.inProsody ==> ProsodyOf(v, frags[ProsodyOpener(v, frags, i)]) == ProsodyOf(v, f))
  }

  /** For Edge voices every text is in its own prosody as long as two prosody elements have not been opened before it. */
  lemma {:induction false} EdgeInOwnProsody(v: Voice, frags: seq<Fragment>, i: nat)
    requires i < |frags| && v.isEdge
    ensures Speakable(frags[i]) && Run(v, frags, i).prosodyCount < 2 ==> EdgeOwn(v, frags, i)
    ensures EdgeKeeps(v, frags, i + 1)
  {
    hide Run, Written, ProsodyOf;
    WrittenStyle(v, frags, i);
    EdgeStep(v, frags, i);
    var next := NextIndex(v, frags, i + 1);
    if i == 0 {
      NothingOpen(v, frags);
    } else {
      EdgeInOwnProsody(v, frags, i - 1);
    }
    if next < |frags| && SameProsody(frags[i], frags[next]) {
      SameProsodyOf(v, frags[i], frags[next]);
    }
  }

  /** How one step changes what stays open. */
  lemma EdgeStep(v: Voice, frags: seq<Fragment>, i: nat)
    requires i < |frags| && v.isEdge
    ensures var b, w, r := Run(v, frags, i), Written(v, frags, i), Run(v, frags, i + 1);
      var next := NextIndex(v, frags, i + 1);
      && b.prosodyCount <= w.prosodyCount == r.prosodyCount
      && (!Speakable(frags[i]) ==> w.inProsody == b.inProsody && NextIndex(v, frags, i) == next)
      && (Speakable(frags[i]) ==> NextIndex(v, frags, i) == i)
      && (r.inProsody ==> w.inProsody && next < |frags| && (r.prosodyCount < 2 ==> SameProsody(frags[i], frags[next])))
  {
    NextWhen(v, frags, i);
    hide Run, OpenTags, EmitFragment, CloseTags, NextIndex, ProsodyOf, Speakable;
    WrittenStyle(v, frags, i);
    var f, b := frags[i], Run(v, frags, i);
    OpenTagsFlags(v, f, b);
    EmitFragmentFlags(v, f, OpenTags(v, f, b));
    var w := Written(v, frags, i);
    RunNext(v, frags, i);
    CloseTagsFlags(LevelAfter(v, frags, i, w.prosodyCount), w);
  }

  lemma NextWhen(v: Voice, frags: seq<Fragment>, i: nat)
    requires i < |frags| && v.isEdge
    ensures NextIndex(v, frags, i) == if Speakable(frags[i]) then i else NextIndex(v, frags, i + 1)
  {
  }
}
