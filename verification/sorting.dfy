/** Stable sorting as the pages use it: `Array.prototype.sort` with a comparator that
    compares one key of the records (a date string, a time string or a number). The
    comparator is modelled as a "less than or equal" relation on records. */
module Sorting {
  import opened Text
  import Lists

  /** `le` is total and transitive: a comparator that orders records by a key. */
  ghost predicate TotalPreorder<T(!new)>(le: (T, T) -> bool) {
    && (forall a, b :: le(a, b) || le(b, a))
    && (forall a, b, c :: le(a, b) && le(b, c) ==> le(a, c))
  }

  /** Every earlier element is `le` every later one. */
  ghost predicate Sorted<T>(s: seq<T>, le: (T, T) -> bool) {
    forall i, j :: 0 <= i < j < |s| ==> le(s[i], s[j])
  }

  /** Puts `x` before the first element it is `le`, so equal keys keep their order. */
  function Insert<T(!new)>(x: T, s: seq<T>, le: (T, T) -> bool): (r: seq<T>)
    requires TotalPreorder(le) && Sorted(s, le)
    ensures |r| == |s| + 1
    ensures Sorted(r, le)
    ensures multiset(r) == multiset(s) + multiset{x}
    decreases |s|
  {
    if s == [] then [x]
    else if le(x, s[0]) then
      BelowFirstBelowAll(x, s, le);
      ConsSorted(x, s, le);
      [x] + s
    else
      var t := Insert(x, s[1..], le);
      HeadBelowInserted(x, s, t, le);
      ConsSorted(s[0], t, le);
      assert s == [s[0]] + s[1..];
      [s[0]] + t
  }

  /** A sorted list stays sorted behind an element `le` all of it. */
  lemma ConsSorted<T>(y: T, t: seq<T>, le: (T, T) -> bool)
    requires Sorted(t, le) && forall j :: 0 <= j < |t| ==> le(y, t[j])
    ensures Sorted([y] + t, le)
  {
    var r := [y] + t;
    forall i, j | 0 <= i < j < |r| ensures le(r[i], r[j]) {
      assert r[j] == t[j - 1];
      if i > 0 {
        assert r[i] == t[i - 1];
      }
    }
  }

  /** What is `le` the first element of a sorted list is `le` all of it. */
  lemma BelowFirstBelowAll<T(!new)>(x: T, s: seq<T>, le: (T, T) -> bool)
    requires TotalPreorder(le) && Sorted(s, le) && s != [] && le(x, s[0])
    ensures forall j :: 0 <= j < |s| ==> le(x, s[j])
  {
    forall j | 0 < j < |s| ensures le(x, s[j]) {
      assert le(s[0], s[j]);
    }
  }

  /** When `x` goes behind the head, the head is `le` everything inserted behind it. */
  lemma HeadBelowInserted<T(!new)>(x: T, s: seq<T>, t: seq<T>, le: (T, T) -> bool)
    requires TotalPreorder(le) && Sorted(s, le) && s != [] && !le(x, s[0])
    requires multiset(t) == multiset(s[1..]) + multiset{x}
    ensures forall j :: 0 <= j < |t| ==> le(s[0], t[j])
  {
    assert le(s[0], x);
    forall j | 0 <= j < |t| ensures le(s[0], t[j]) {
      assert t[j] in multiset(t);
      if t[j] != x {
        assert t[j] in s[1..];
        var k :| 0 <= k < |s[1..]| && s[1..][k] == t[j];
        assert s[1..][k] == s[k + 1];
      }
    }
  }

  /** Insertion sort: `xs.sort(cmp)` for a comparator described by `le`. */
  function Sort<T(!new)>(xs: seq<T>, le: (T, T) -> bool): (r: seq<T>)
    requires TotalPreorder(le)
    ensures |r| == |xs|
    ensures Sorted(r, le)
    ensures multiset(r) == multiset(xs)
    decreases |xs|
  {
    if xs == [] then []
    else
      assert xs == [xs[0]] + xs[1..];
      Insert(xs[0], Sort(xs[1..], le), le)
  }

  /** The records whose key is `k`. */
  function HasKey<T, K(==)>(key: T -> K, k: K): T -> bool {
    (x: T) => key(x) == k
  }

  /** Insertion keeps `x` ahead of every record it ties with: among records that all tie,
      the inserted one comes first. */
  lemma {:induction false} InsertStable<T(!new)>(x: T, s: seq<T>, le: (T, T) -> bool, p: T -> bool)
    requires TotalPreorder(le) && Sorted(s, le)
    requires forall a, b :: p(a) && p(b) ==> le(a, b)
    ensures Lists.Filter(Insert(x, s, le), p) == (if p(x) then [x] else []) + Lists.Filter(s, p)
    decreases |s|
  {
    if s == [] {
      assert Insert(x, s, le) == [x];
      FilterCons(x, [], p);
    } else if le(x, s[0]) {
      assert Insert(x, s, le) == [x] + s;
      FilterCons(x, s, p);
    } else {
      var t := Insert(x, s[1..], le);
      assert Insert(x, s, le) == [s[0]] + t;
      InsertStable(x, s[1..], le, p);
      assert !(p(x) && p(s[0]));
      FilterCons(s[0], t, p);
      FilterCons(s[0], s[1..], p);
      assert [s[0]] + s[1..] == s;
    }
  }

  /** Filtering a list with a head added. */
  lemma FilterCons<T>(y: T, t: seq<T>, p: T -> bool)
    ensures Lists.Filter([y] + t, p) == (if p(y) then [y] else []) + Lists.Filter(t, p)
  {
    Lists.FilterHead([y] + t, p);
    assert ([y] + t)[1..] == t;
  }

  /** Sorting is stable: the records of any set that all tie keep their input order. */
  lemma {:induction false} SortStable<T(!new)>(xs: seq<T>, le: (T, T) -> bool, p: T -> bool)
    requires TotalPreorder(le)
    requires forall a, b :: p(a) && p(b) ==> le(a, b)
    ensures Lists.Filter(Sort(xs, le), p) == Lists.Filter(xs, p)
    decreases |xs|
  {
    if xs != [] {
      SortStable(xs[1..], le, p);
      InsertStable(xs[0], Sort(xs[1..], le), le, p);
      Lists.FilterHead(xs, p);
    }
  }

  /** Sorting by a key keeps the records of each key in input order. */
  lemma SortKeepsTies<T(!new), K>(xs: seq<T>, le: (T, T) -> bool, key: T -> K)
    requires TotalPreorder(le)
    requires forall a, b :: key(a) == key(b) ==> le(a, b)
    ensures forall k :: Lists.Filter(Sort(xs, le), HasKey(key, k)) == Lists.Filter(xs, HasKey(key, k))
  {
    forall k ensures Lists.Filter(Sort(xs, le), HasKey(key, k)) == Lists.Filter(xs, HasKey(key, k)) {
      SortStable(xs, le, HasKey(key, k));
    }
  }

  /** Ascending order of an integer key. */
  function ByInt<T>(key: T -> int): (T, T) -> bool {
    (a, b) => key(a) <= key(b)
  }

  /** Descending order of an integer key. */
  function ByIntDesc<T>(key: T -> int): (T, T) -> bool {
    (a, b) => key(b) <= key(a)
  }

  /** Ascending order of a string key (`a.localeCompare(b)` on plain ASCII keys). */
  function ByStr<T>(key: T -> string): (T, T) -> bool {
    (a, b) => LexLe(key(a), key(b))
  }

  /** Descending order of a string key. */
  function ByStrDesc<T>(key: T -> string): (T, T) -> bool {
    (a, b) => LexLe(key(b), key(a))
  }

  lemma ByIntIsPreorder<T(!new)>(key: T -> int)
    ensures TotalPreorder(ByInt(key)) && TotalPreorder(ByIntDesc(key))
  {
  }

  lemma ByStrIsPreorder<T(!new)>(key: T -> string)
    ensures TotalPreorder(ByStr(key)) && TotalPreorder(ByStrDesc(key))
  {
    forall a, b ensures ByStr(key)(a, b) || ByStr(key)(b, a) {
      LexLeTotal(key(a), key(b));
    }
    forall a, b, c | ByStr(key)(a, b) && ByStr(key)(b, c) ensures ByStr(key)(a, c) {
      LexLeTrans(key(a), key(b), key(c));
    }
    forall a, b ensures ByStrDesc(key)(a, b) || ByStrDesc(key)(b, a) {
      LexLeTotal(key(a), key(b));
    }
    forall a, b, c | ByStrDesc(key)(a, b) && ByStrDesc(key)(b, c) ensures ByStrDesc(key)(a, c) {
      LexLeTrans(key(c), key(b), key(a));
    }
  }

  /** Sorting by an integer key in ascending order: the result is the input's records,
      with keys that never decrease. */
  function SortByInt<T(!new)>(xs: seq<T>, key: T -> int): (r: seq<T>)
    ensures multiset(r) == multiset(xs)
    ensures forall i, j :: 0 <= i < j < |r| ==> key(r[i]) <= key(r[j])
    ensures forall k :: Lists.Filter(r, HasKey(key, k)) == Lists.Filter(xs, HasKey(key, k))
  {
    ByIntIsPreorder(key);
    SortKeepsTies(xs, ByInt(key), key);
    Sort(xs, ByInt(key))
  }

  /** Sorting by a string key in ascending order. */
  function SortByStr<T(!new)>(xs: seq<T>, key: T -> string): (r: seq<T>)
    ensures multiset(r) == multiset(xs)
    ensures forall i, j :: 0 <= i < j < |r| ==> LexLe(key(r[i]), key(r[j]))
    ensures forall k :: Lists.Filter(r, HasKey(key, k)) == Lists.Filter(xs, HasKey(key, k))
  {
    ByStrIsPreorder(key);
    SortKeepsTies(xs, ByStr(key), key);
    Sort(xs, ByStr(key))
  }

  /** Sorting by a string key in descending order. */
  function SortByStrDesc<T(!new)>(xs: seq<T>, key: T -> string): (r: seq<T>)
    ensures multiset(r) == multiset(xs)
    ensures forall i, j :: 0 <= i < j < |r| ==> LexLe(key(r[j]), key(r[i]))
    ensures forall k :: Lists.Filter(r, HasKey(key, k)) == Lists.Filter(xs, HasKey(key, k))
  {
    ByStrIsPreorder(key);
    SortKeepsTies(xs, ByStrDesc(key), key);
    Sort(xs, ByStrDesc(key))
  }

  /** Sorting by an integer key in descending order. */
  function SortByIntDesc<T(!new)>(xs: seq<T>, key: T -> int): (r: seq<T>)
    ensures multiset(r) == multiset(xs)
    ensures forall i, j :: 0 <= i < j < |r| ==> key(r[j]) <= key(r[i])
    ensures forall k :: Lists.Filter(r, HasKey(key, k)) == Lists.Filter(xs, HasKey(key, k))
  {
    ByIntIsPreorder(key);
    SortKeepsTies(xs, ByIntDesc(key), key);
    Sort(xs, ByIntDesc(key))
  }
}
