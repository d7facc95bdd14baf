/** Insertion into a sequence sorted by a key, behind the elements with the same key. */
module Sorting {
  predicate SortedBy<T(!new)>(key: T -> int, s: seq<T>) {
    forall i, j :: 0 <= i <= j < |s| ==> key(s[i]) <= key(s[j])
  }

  function Insert<T>(key: T -> int, s: seq<T>, x: T): seq<T> {
    if s == [] || key(s[|s| - 1]) <= key(x) then s + [x] else Insert(key, s[..|s| - 1], x) + [s[|s| - 1]]
  }

  function InsertAll<T>(key: T -> int, s: seq<T>, xs: seq<T>): seq<T> {
    if xs == [] then s else Insert(key, InsertAll(key, s, xs[..|xs| - 1]), xs[|xs| - 1])
  }

  lemma {:induction false} InsertSame<T>(key: T -> int, s: seq<T>, x: T)
    ensures multiset(Insert(key, s, x)) == multiset(s) + multiset{x}
  {
    if s != [] && key(s[|s| - 1]) > key(x) {
      InsertSame(key, s[..|s| - 1], x);
      assert s == s[..|s| - 1] + [s[|s| - 1]];
    }
  }

  lemma {:induction false} InsertSorted<T(!new)>(key: T -> int, s: seq<T>, x: T)
    requires SortedBy(key, s)
    ensures var r := Insert(key, s, x);
      SortedBy(key, r) && r != [] && (r[|r| - 1] == x || (s != [] && r[|r| - 1] == s[|s| - 1]))
  {
    if s != [] && key(s[|s| - 1]) > key(x) {
      InsertSorted(key, s[..|s| - 1], x);
    }
  }

  lemma {:induction false} InsertAllSame<T>(key: T -> int, s: seq<T>, xs: seq<T>)
    ensures multiset(InsertAll(key, s, xs)) == multiset(s) + multiset(xs)
  {
    if xs == [] {
      InsertAllNone(key, s);
    } else {
      hide InsertAll, Insert;
      var early, last := InsertAll(key, s, xs[..|xs| - 1]), xs[|xs| - 1];
      InsertAllSame(key, s, xs[..|xs| - 1]);
      InsertSame(key, early, last);
      InsertAllLast(key, s, xs);
      Snoc(xs);
      Regroup(multiset(s), multiset(xs[..|xs| - 1]), multiset{last});
    }
  }

  lemma InsertAllNone<T>(key: T -> int, s: seq<T>)
    ensures InsertAll(key, s, []) == s
  {
  }

  lemma InsertAllLast<T>(key: T -> int, s: seq<T>, xs: seq<T>)
    requires xs != []
    ensures InsertAll(key, s, xs) == Insert(key, InsertAll(key, s, xs[..|xs| - 1]), xs[|xs| - 1])
  {
  }

  lemma Snoc<T>(xs: seq<T>)
    requires xs != []
    ensures multiset(xs) == multiset(xs[..|xs| - 1]) + multiset{xs[|xs| - 1]}
  {
    assert xs == xs[..|xs| - 1] + [xs[|xs| - 1]];
  }

  lemma Regroup<T>(a: multiset<T>, b: multiset<T>, c: multiset<T>)
    ensures (a + b) + c == a + (b + c)
  {
  }

  lemma {:induction false} InsertAllSorted<T(!new)>(key: T -> int, s: seq<T>, xs: seq<T>)
    requires SortedBy(key, s)
    ensures SortedBy(key, InsertAll(key, s, xs))
  {
    hide Insert, SortedBy;
    if xs != [] {
      InsertAllSorted(key, s, xs[..|xs| - 1]);
      InsertSorted(key, InsertAll(key, s, xs[..|xs| - 1]), xs[|xs| - 1]);
    }
  }

  /** Insertion loses nothing, adds what is inserted, and keeps the order. */
  lemma InsertAllKeeps<T(!new)>(key: T -> int, s: seq<T>, xs: seq<T>)
    ensures multiset(InsertAll(key, s, xs)) == multiset(s) + multiset(xs)
    ensures SortedBy(key, s) ==> SortedBy(key, InsertAll(key, s, xs))
    ensures |InsertAll(key, s, xs)| == |s| + |xs|
  {
    hide InsertAll, SortedBy;
    InsertAllSame(key, s, xs);
    SameSize(InsertAll(key, s, xs), s + xs);
    if SortedBy(key, s) {
      InsertAllSorted(key, s, xs);
    }
  }

  lemma SameSize<T>(a: seq<T>, b: seq<T>)
    requires multiset(a) == multiset(b)
    ensures |a| == |b|
  {
    assert |multiset(a)| == |multiset(b)|;
  }
}
