/** Enumerating the items of a data key: virtual ones first, then those of the registry they do not hide. */
module Overlay {
  import opened WideText

  /** Some virtual item has this name, ignoring case. */
  predicate Hidden(items: seq<string>, name: string) {
    exists i :: 0 <= i < |items| && EqualsIgnoreCase(items[i], name)
  }

  function Shown(items: seq<string>, keys: seq<string>): (r: seq<string>)
    ensures |r| <= |keys|
  {
    if keys == [] then []
    else Shown(items, keys[..|keys| - 1]) + if Hidden(items, keys[|keys| - 1]) then [] else [keys[|keys| - 1]]
  }

  /** What a full enumeration yields; without a registry key there are only the virtual items. */
  function Merged(items: seq<string>, keys: Option<seq<string>>): seq<string> {
    items + if keys.Some? then Shown(items, keys.value) else []
  }

  /** The item at `index`, or None for the no-more-items error; the registry's own enumeration ends the same way. */
  method EnumItems(items: seq<string>, keys: Option<seq<string>>, index: nat) returns (r: Option<string>)
    ensures r == if index < |Merged(items, keys)| then Some(Merged(items, keys)[index]) else None
  {
    hide Hidden;
    if index < |items| {
      return Some(items[index]);
    }
    if keys.None? {
      return None;
    }
    var names := keys.value;
    var rest, idx := index - |items|, 0;
    for i := 0 to rest + 1
      invariant idx <= |names| && |Shown(items, names[..idx])| == i
      invariant i > 0 ==> idx > 0 && Shown(items, names[..idx])[i - 1] == names[idx - 1]
    {
      ghost var before := idx;
      while true
        invariant before <= idx <= |names| && Shown(items, names[..idx]) == Shown(items, names[..before])
        decreases |names| - idx
      {
        if idx >= |names| {
          assert names[..idx] == names;
          return None;
        }
        ShownNext(items, names, idx);
        if !IsHidden(items, names[idx]) {
          break;
        }
        idx := idx + 1;
      }
      idx := idx + 1;
    }
    ShownPrefix(items, names, idx);
    return Some(names[idx - 1]);
  }

  /** `std::any_of` over the virtual items. */
  predicate IsHidden(items: seq<string>, name: string)
    ensures IsHidden(items, name) <==> Hidden(items, name)
  {
    items != [] && (EqualsIgnoreCase(items[|items| - 1], name) || IsHidden(items[..|items| - 1], name))
  }

  lemma ShownNext(items: seq<string>, names: seq<string>, n: nat)
    requires n < |names|
    ensures Shown(items, names[..n + 1]) == Shown(items, names[..n]) + if Hidden(items, names[n]) then [] else [names[n]]
  {
    assert names[..n + 1][..n] == names[..n];
  }

  lemma {:induction false} ShownPrefix(items: seq<string>, names: seq<string>, n: nat)
    requires n <= |names|
    ensures Shown(items, names[..n]) <= Shown(items, names)
    decreases |names| - n
  {
    if n == |names| {
      assert names[..n] == names;
    } else {
      ShownNext(items, names, n);
      ShownPrefix(items, names, n + 1);
    }
  }

  predicate DistinctNames(names: seq<string>) {
    forall i, j :: 0 <= i < j < |names| ==> !EqualsIgnoreCase(names[i], names[j])
  }

  /** Nothing is omitted: every registry name is enumerated, or hidden by a virtual item of the same name. */
  lemma {:induction false} NothingOmitted(items: seq<string>, names: seq<string>)
    ensures forall n :: n in Shown(items, names) <==> n in names && !Hidden(items, n)
  {
    hide Hidden;
    if names != [] {
      NothingOmitted(items, names[..|names| - 1]);
      assert names == names[..|names| - 1] + [names[|names| - 1]];
    }
  }

  /** The registry items before the `n`-th that are not hidden. */
  function Unhidden(items: seq<string>, names: seq<string>, n: nat): set<nat>
    requires n <= |names|
  {
    set k: nat | k < n && !Hidden(items, names[k])
  }

  /**
   The enumeration item by item: the virtual items in their order, then every registry item that is not hidden,
   behind as many others as stand before it in the registry.
   */
  lemma InOrder(items: seq<string>, names: seq<string>, i: nat)
    requires i < |names|
    ensures var all := Merged(items, Some(names));
      && all[..|items|] == items && |all| == |items| + |Unhidden(items, names, |names|)|
      && (!Hidden(items, names[i]) ==>
            |items| + |Unhidden(items, names, i)| < |all| && all[|items| + |Unhidden(items, names, i)|] == names[i])
    ensures Merged(items, None) == items
  {
    hide Hidden, Shown, Unhidden;
    assert items + [] == items;
    ShownCount(items, names, |names|);
    assert names[..|names|] == names;
    ShownCount(items, names, i);
    ShownNext(items, names, i);
    ShownPrefix(items, names, i + 1);
    var s := Shown(items, names[..i]);
    if !Hidden(items, names[i]) {
      assert Shown(items, names)[|s|] == Shown(items, names[..i + 1])[|s|];
    }
  }

  lemma {:induction false} ShownCount(items: seq<string>, names: seq<string>, n: nat)
    requires n <= |names|
    ensures |Shown(items, names[..n])| == |Unhidden(items, names, n)|
  {
    hide *;
    if n == 0 {
      NothingShown(items, names);
    } else {
      ShownCount(items, names, n - 1);
      ShownNext(items, names, n - 1);
      UnhiddenNext(items, names, n - 1);
    }
  }

  lemma NothingShown(items: seq<string>, names: seq<string>)
    ensures Shown(items, names[..0]) == [] && Unhidden(items, names, 0) == {}
  {
    hide Hidden;
  }

  lemma UnhiddenNext(items: seq<string>, names: seq<string>, n: nat)
    requires n < |names|
    ensures |Unhidden(items, names, n + 1)| == |Unhidden(items, names, n)| + if Hidden(items, names[n]) then 0 else 1
  {
    hide Hidden;
    var before := Unhidden(items, names, n);
    assert n !in before;
    assert Unhidden(items, names, n + 1) == if Hidden(items, names[n]) then before else before + {n};
  }

  /** Nothing is enumerated twice, when neither source repeats a name. */
  lemma NothingRepeated(items: seq<string>, names: seq<string>)
    requires DistinctNames(items) && DistinctNames(names)
    ensures DistinctNames(Merged(items, Some(names)))
  {
    ShownDistinct(items, names);
    NothingOmitted(items, names);
    var all := Merged(items, Some(names));
    forall i, j | 0 <= i < j < |all| ensures !EqualsIgnoreCase(all[i], all[j]) {
      if i < |items| && j >= |items| {
        assert all[j] in Shown(items, names);
      }
    }
  }

  lemma {:induction false} ShownDistinct(items: seq<string>, names: seq<string>)
    requires DistinctNames(names)
    ensures DistinctNames(Shown(items, names))
  {
    hide Hidden, EqualsIgnoreCase;
    if names != [] {
      var early := names[..|names| - 1];
      ShownDistinct(items, early);
      NothingOmitted(items, early);
      var front := Shown(items, early);
      forall i | 0 <= i < |front| ensures !EqualsIgnoreCase(front[i], names[|names| - 1]) {
        assert front[i] in front;
      }
    }
  }
}
