/** The attributes of a tag as an XML reader finds them, and the numbers in their values. */
module SsmlAttributes {
  import opened WideText
  import opened XmlReader
  import opened SsmlBuilder
  import opened SsmlReading

  datatype Pair = Pair(name: string, value: string)

  /** The first attribute in `s` and the place of the quote that ends it. */
  function FirstPair(s: string): (r: Option<(Pair, nat)>)
    ensures r.Some? ==> r.value.1 < |s|
  {
    var at := SkipSpaces(s, 0);
    var eq := Find(s, '=', at);
    if at == 0 || eq == at || eq + 1 >= |s| || (s[eq + 1] != '\'' && s[eq + 1] != '"') then None
    else
      var end := Find(s, s[eq + 1], eq + 2);
      if end == |s| then None else Some((Pair(s[at..eq], s[eq + 2..end]), end))
  }

  /** The quoted attributes in what follows an element's name (XML 1.0 section 3.1). */
  function Pairs(s: string): Option<seq<Pair>>
    decreases |s|
  {
    if SkipSpaces(s, 0) == |s| then Some([])
    else
      match FirstPair(s)
      case None => None
      case Some((first, end)) =>
        match Pairs(s[end + 1..])
        case None => None
        case Some(rest) => Some([first] + rest)
  }

  /** The attributes in a tag body, whose last `/` marks an empty element. */
  function AttributesOf(body: string): Option<seq<Pair>> {
    var end := if body != "" && body[|body| - 1] == '/' then |body| - 1 else |body|;
    Pairs(body[FindSpace(body[..end], 0)..end])
  }

  /** The value of the first attribute with this name. */
  function Named(pairs: seq<Pair>, name: string): Option<string> {
    if pairs == [] then None
    else if pairs[0].name == name then Some(pairs[0].value)
    else Named(pairs[1..], name)
  }

  function Digit(c: char): Option<nat> {
    if '0' <= c <= '9' then Some(c as int - '0' as int) else None
  }

  /** The number a row of digits stands for. */
  function Digits(s: string): Option<nat> {
    if s == "" then None
    else
      match Digit(s[|s| - 1])
      case None => None
      case Some(d) =>
        if |s| == 1 then Some(d)
        else
          match Digits(s[..|s| - 1])
          case None => None
          case Some(n) => Some(n * 10 + d)
  }

  function Number(s: string): Option<int> {
    if s != "" && s[0] == '-' then
      var n := Digits(s[1..]);
      if n.Some? then Some(-(n.value as int)) else None
    else
      var n := Digits(s);
      if n.Some? then Some(n.value as int) else None
  }

  /** The number before a unit. */
  function Measure(s: string, unit: string): Option<int> {
    if |unit| <= |s| && s[|s| - |unit|..] == unit then Number(s[..|s| - |unit|]) else None
  }

  // ---- What is written is read back ----

  lemma {:induction false} DigitsRead(n: nat)
    ensures Digits(Decimal(n)) == Some(n) && Decimal(n)[0] != '-'
  {
    if n < 10 {
      assert Digit("0123456789"[n]) == Some(n);
    } else {
      DigitsRead(n / 10);
      var s := Decimal(n);
      assert s[..|s| - 1] == Decimal(n / 10);
      assert Digit("0123456789"[n % 10]) == Some(n % 10);
    }
  }

  lemma DecimalRead(n: int)
    ensures Number(Decimal(n)) == Some(n)
  {
    hide Digits, Decimal;
    if n < 0 {
      DigitsRead(-n);
      MinusSign(n);
      assert Decimal(n)[1..] == Decimal(-n);
    } else {
      DigitsRead(n);
    }
  }

  lemma MinusSign(n: int)
    requires n < 0
    ensures Decimal(n) == "-" + Decimal(-n)
  {
  }

  lemma MeasureRead(n: int, unit: string)
    ensures Measure(Decimal(n) + unit, unit) == Some(n)
  {
    hide Number, Decimal;
    var s := Decimal(n) + unit;
    assert s[..|s| - |unit|] == Decimal(n);
    DecimalRead(n);
  }

  predicate Bare(s: string, c: char) {
    forall i :: 0 <= i < |s| ==> s[i] != c
  }

  /** An attribute before others. */
  lemma PairsMore(name: string, value: string, rest: string)
    requires IsName(name) && Bare(name, '=') && Bare(value, '\'') && Pairs(rest).Some?
    ensures Pairs(Attribute(name, value) + rest) == Some([Pair(name, value)] + Pairs(rest).value)
  {
    hide Pairs;
    var s := Attribute(name, value) + rest;
    var eq := 1 + |name|;
    var end := eq + 2 + |value|;
    AttributePlaces(name, value, rest);
    assert SkipSpaces(s, 0) == 1;
    FindIs(s, '=', 1, eq);
    FindIs(s, '\'', eq + 2, end);
    PairsFirst(s, eq, end);
  }

  lemma AttributePlaces(name: string, value: string, rest: string)
    requires IsName(name) && Bare(name, '=') && Bare(value, '\'')
    ensures var s := Attribute(name, value) + rest;
      var eq, end := 1 + |name|, 3 + |name| + |value|;
      && end < |s| && s[0] == ' ' && !IsSpace(s[1]) && s[eq] == '=' && s[eq + 1] == '\'' && s[end] == '\''
      && s[1..eq] == name && s[eq + 2..end] == value && s[end + 1..] == rest
      && (forall k :: 1 <= k < eq ==> s[k] != '=') && (forall k :: eq + 2 <= k < end ==> s[k] != '\'')
  {
    var s := Attribute(name, value) + rest;
    var eq, end := 1 + |name|, 3 + |name| + |value|;
    assert forall k :: 1 <= k < eq ==> s[k] == name[k - 1];
    assert forall k :: eq + 2 <= k < end ==> s[k] == value[k - eq - 2];
  }

  lemma PairsFirst(s: string, eq: nat, end: nat)
    requires 1 < eq && eq + 1 < end < |s| && SkipSpaces(s, 0) == 1 && Find(s, '=', 1) == eq && s[eq + 1] == '\''
    requires Find(s, '\'', eq + 2) == end && Pairs(s[end + 1..]).Some?
    ensures Pairs(s) == Some([Pair(s[1..eq], s[eq + 2..end])] + Pairs(s[end + 1..]).value)
  {
    hide *;
    FirstIs(s, eq, end);
    PairsStep(s, Pair(s[1..eq], s[eq + 2..end]), end);
  }

  lemma PairsStep(s: string, first: Pair, end: nat)
    requires end < |s| && SkipSpaces(s, 0) < |s| && FirstPair(s) == Some((first, end)) && Pairs(s[end + 1..]).Some?
    ensures Pairs(s) == Some([first] + Pairs(s[end + 1..]).value)
  {
    hide SkipSpaces, FirstPair;
  }

  lemma FirstIs(s: string, eq: nat, end: nat)
    requires 1 < eq && eq + 1 < end < |s| && SkipSpaces(s, 0) == 1 && Find(s, '=', 1) == eq && s[eq + 1] == '\''
    requires Find(s, '\'', eq + 2) == end
    ensures FirstPair(s) == Some((Pair(s[1..eq], s[eq + 2..end]), end))
  {
    hide Find, SkipSpaces;
  }

  lemma PairsNone()
    ensures Pairs("") == Some([])
  {
  }

  lemma PairsOne(name: string, value: string)
    requires IsName(name) && Bare(name, '=') && Bare(value, '\'')
    ensures Pairs(Attribute(name, value)) == Some([Pair(name, value)])
  {
    PairsNone();
    hide Pairs, Attribute;
    PairsMore(name, value, "");
    assert Attribute(name, value) + "" == Attribute(name, value);
    assert [Pair(name, value)] + [] == [Pair(name, value)];
  }

  /** The attributes behind a name. */
  lemma AttributesAre(name: string, a: string)
    requires IsName(name) && IsAttributes(a)
    ensures AttributesOf(name + a) == Pairs(a) && AttributesOf(name + a + "/") == Pairs(a)
  {
    hide Pairs;
    FindSpaceIs(name + a, 0, |name|);
    var body := name + a;
    assert body[|body| - 1] != '/' by {
      if a != "" {
        assert body[|body| - 1] == a[|a| - 1];
      } else {
        assert body[|body| - 1] == name[|name| - 1];
      }
    }
    assert body[..|body|] == body && body[|name|..] == a;
    SlashApart(body, |name|);
  }

  /** The slash of an empty element is not a part of its attributes. */
  lemma SlashApart(body: string, at: nat)
    requires at <= |body| && FindSpace(body, 0) == at
    ensures AttributesOf(body + "/") == Pairs(body[at..])
  {
    hide Pairs, FindSpace;
    var more := body + "/";
    assert more[..|more| - 1] == body;
    assert more[at..|more| - 1] == body[at..];
  }

  /** A decimal number holds no quote. */
  lemma {:induction false} DecimalBare(n: int)
    ensures Bare(Decimal(n), '\'')
    decreases n < 0, if n < 0 then -n else n
  {
    if n < 0 {
      DecimalBare(-n);
    } else if n >= 10 {
      DecimalBare(n / 10);
    }
  }

  /** Nor does escaped text. */
  lemma {:induction false} EscapeBare(s: string)
    ensures Bare(Escape(s), '\'')
  {
    if s != "" {
      EscapeBare(s[..|s| - 1]);
    }
  }
}
