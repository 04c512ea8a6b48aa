/** List algebra shared by the pages: filtering, taking a prefix, first match,
    de-duplication by key in first-appearance order, and JavaScript's `slice`
    as used for page-by-page display. */
module Lists {
  import opened Wrappers

  /** `xs.filter(p)`. */
  function Filter<T(==)>(xs: seq<T>, p: T -> bool): (r: seq<T>)
    ensures |r| <= |xs|
    ensures forall i :: 0 <= i < |r| ==> r[i] in xs && p(r[i])
    ensures forall i :: 0 <= i < |xs| && p(xs[i]) ==> xs[i] in r
    decreases |xs|
  {
    if xs == [] then []
    else (if p(xs[0]) then [xs[0]] else []) + Filter(xs[1..], p)
  }

  /** Filtering a concatenation filters each part: the filter keeps the order. */
  lemma {:induction false} FilterAppend<T>(xs: seq<T>, ys: seq<T>, p: T -> bool)
    ensures Filter(xs + ys, p) == Filter(xs, p) + Filter(ys, p)
    decreases |xs|
  {
    if xs == [] {
      assert xs + ys == ys;
    } else {
      assert (xs + ys)[0] == xs[0];
      assert (xs + ys)[1..] == xs[1..] + ys;
      FilterAppend(xs[1..], ys, p);
    }
  }

  /** A predicate that holds of every element keeps the whole list, in order. */
  lemma {:induction false} FilterAll<T>(xs: seq<T>, p: T -> bool)
    requires forall i :: 0 <= i < |xs| ==> p(xs[i])
    ensures Filter(xs, p) == xs
    decreases |xs|
  {
    if xs != [] {
      FilterAll(xs[1..], p);
    }
  }

  /** Two lists with the same elements, counted, have the same members. */
  lemma SameMembers<T>(a: seq<T>, b: seq<T>)
    requires multiset(a) == multiset(b)
    ensures forall c :: c in a <==> c in b
  {
    forall c ensures c in a <==> c in b {
      assert c in a <==> c in multiset(a);
      assert c in b <==> c in multiset(b);
    }
  }

  /** A filter and the filter of the opposite condition share the list's elements out
      between them: each element lands in exactly one of the two results. */
  lemma {:induction false} FilterSplit<T>(xs: seq<T>, p: T -> bool, q: T -> bool)
    requires forall x :: q(x) <==> !p(x)
    ensures multiset(Filter(xs, p)) + multiset(Filter(xs, q)) == multiset(xs)
    decreases |xs|
  {
    if xs != [] {
      var a, t := xs[0], xs[1..];
      FilterSplit(t, p, q);
      FilterHead(xs, p);
      FilterHead(xs, q);
      ConsMultiset(xs);
      if p(a) {
        ConsMultiset(Filter(xs, p));
      } else {
        ConsMultiset(Filter(xs, q));
      }
    }
  }

  /** How a filter treats the first element. */
  lemma FilterHead<T>(xs: seq<T>, p: T -> bool)
    requires xs != []
    ensures p(xs[0]) ==> Filter(xs, p) == [xs[0]] + Filter(xs[1..], p)
    ensures !p(xs[0]) ==> Filter(xs, p) == Filter(xs[1..], p)
  {
  }

  /** A non-empty list's elements are its head and its tail's elements. */
  lemma ConsMultiset<T>(xs: seq<T>)
    requires xs != []
    ensures multiset(xs) == multiset{xs[0]} + multiset(xs[1..])
  {
    assert xs == [xs[0]] + xs[1..];
  }

  /** Filtering twice is filtering once by both conditions. */
  lemma {:induction false} FilterFilter<T>(xs: seq<T>, p: T -> bool, q: T -> bool, both: T -> bool)
    requires forall x :: both(x) <==> p(x) && q(x)
    ensures Filter(Filter(xs, p), q) == Filter(xs, both)
    decreases |xs|
  {
    if xs != [] {
      FilterFilter(xs[1..], p, q, both);
      var f := Filter(xs, p);
      if p(xs[0]) {
        assert f == [xs[0]] + Filter(xs[1..], p);
        assert f[0] == xs[0] && f[1..] == Filter(xs[1..], p);
      } else {
        assert f == Filter(xs[1..], p);
      }
    }
  }

  /** `xs` is obtained from `ys` by deleting elements (order is kept). */
  predicate Subseq<T(==)>(xs: seq<T>, ys: seq<T>)
    decreases |ys|
  {
    if xs == [] then true
    else if ys == [] then false
    else if xs[0] == ys[0] then Subseq(xs[1..], ys[1..])
    else Subseq(xs, ys[1..])
  }

  lemma {:induction false} FilterIsSubseq<T>(xs: seq<T>, p: T -> bool)
    ensures Subseq(Filter(xs, p), xs)
    decreases |xs|
  {
    if xs != [] {
      FilterIsSubseq(xs[1..], p);
      if p(xs[0]) {
        assert Filter(xs, p)[1..] == Filter(xs[1..], p);
      } else {
        assert Filter(xs, p) == Filter(xs[1..], p);
        SubseqCons(Filter(xs[1..], p), xs[1..], xs[0]);
        assert [xs[0]] + xs[1..] == xs;
      }
    }
  }

  /** A subsequence of `b` is a subsequence of `b` with anything put in front. */
  lemma {:induction false} SubseqCons<T>(a: seq<T>, b: seq<T>, x: T)
    requires Subseq(a, b)
    ensures Subseq(a, [x] + b)
    decreases |b|, 1
  {
    assert ([x] + b)[1..] == b;
    if a != [] && a[0] == x {
      SubseqDropHead(a, b);
    }
  }

  /** A subsequence of a suffix of `b` is one of `b`. */
  lemma SubseqOfSuffix<T>(a: seq<T>, b: seq<T>, n: nat)
    requires n <= |b| && Subseq(a, b[n..])
    ensures Subseq(a, b)
  {
    SubseqPrepend(a, b[..n], b[n..]);
    assert b[..n] + b[n..] == b;
  }

  /** Keeping the first element on both sides keeps a subsequence. */
  lemma SubseqKeepHead<T>(a: seq<T>, b: seq<T>)
    requires b != [] && Subseq(a, b[1..])
    ensures Subseq([b[0]] + a, b)
  {
    assert ([b[0]] + a)[1..] == a;
  }

  /** A subsequence of `b` stays one when anything is put in front of `b`. */
  lemma {:induction false} SubseqPrepend<T>(a: seq<T>, c: seq<T>, b: seq<T>)
    requires Subseq(a, b)
    ensures Subseq(a, c + b)
    decreases |c|
  {
    if c == [] {
      assert c + b == b;
    } else {
      SubseqPrepend(a, c[1..], b);
      SubseqCons(a, c[1..] + b, c[0]);
      assert [c[0]] + (c[1..] + b) == c + b;
    }
  }

  lemma {:induction false} SubseqDropHead<T>(a: seq<T>, b: seq<T>)
    requires a != [] && Subseq(a, b)
    ensures Subseq(a[1..], b)
    decreases |b|, 0
  {
    assert b != [];
    if a[0] == b[0] {
      SubseqCons(a[1..], b[1..], b[0]);
    } else {
      SubseqDropHead(a, b[1..]);
      SubseqCons(a[1..], b[1..], b[0]);
    }
    assert [b[0]] + b[1..] == b;
  }

  /** `xs.map(f)`. */
  function Map<T, U>(xs: seq<T>, f: T -> U): (r: seq<U>)
    ensures |r| == |xs|
    ensures forall i :: 0 <= i < |xs| ==> r[i] == f(xs[i])
  {
    seq(|xs|, i requires 0 <= i < |xs| => f(xs[i]))
  }

  /** `xs.filter(p).map(f)` holds the images of exactly the elements satisfying `p`. */
  lemma FilterMapMembers<T, U>(xs: seq<T>, p: T -> bool, f: T -> U)
    ensures forall c :: c in Map(Filter(xs, p), f) <==> exists k :: 0 <= k < |xs| && p(xs[k]) && c == f(xs[k])
  {
    var ys := Filter(xs, p);
    forall c ensures c in Map(ys, f) <==> exists k :: 0 <= k < |xs| && p(xs[k]) && c == f(xs[k]) {
      if c in Map(ys, f) {
        var m :| 0 <= m < |ys| && Map(ys, f)[m] == c;
        var k :| 0 <= k < |xs| && xs[k] == ys[m];
      }
      if exists k :: 0 <= k < |xs| && p(xs[k]) && c == f(xs[k]) {
        var k :| 0 <= k < |xs| && p(xs[k]) && c == f(xs[k]);
        var m :| 0 <= m < |ys| && ys[m] == xs[k];
        assert Map(ys, f)[m] == c;
      }
    }
  }

  /** `xs.slice(0, n)` for `n >= 0`. */
  function Take<T>(xs: seq<T>, n: nat): (r: seq<T>)
    ensures |r| == if n < |xs| then n else |xs|
    ensures forall i :: 0 <= i < |r| ==> r[i] == xs[i]
  {
    if n < |xs| then xs[..n] else xs
  }

  /** Index of the first element satisfying `p` (`findIndex`), or `None`. */
  function FindIndex<T>(xs: seq<T>, p: T -> bool): (r: Option<nat>)
    ensures r.Some? ==> r.value < |xs| && p(xs[r.value])
    ensures r.Some? ==> forall j :: 0 <= j < r.value ==> !p(xs[j])
    ensures r.None? ==> forall j :: 0 <= j < |xs| ==> !p(xs[j])
    decreases |xs|
  {
    if xs == [] then None
    else if p(xs[0]) then Some(0)
    else match FindIndex(xs[1..], p)
      case None => None
      case Some(k) => Some(k + 1)
  }

  /** `xs.find(p)`: the first element satisfying `p`, or `None`. */
  function Find<T>(xs: seq<T>, p: T -> bool): (r: Option<T>)
    ensures r.Some? <==> exists i :: 0 <= i < |xs| && p(xs[i])
    ensures r.Some? ==> exists i :: 0 <= i < |xs| && xs[i] == r.value && p(xs[i]) &&
                          forall j :: 0 <= j < i ==> !p(xs[j])
  {
    match FindIndex(xs, p)
    case None => None
    case Some(i) => Some(xs[i])
  }

  /* ---------- de-duplication by key ---------- */

  /** The keys of `xs`, in order. */
  function Keys<T, K>(xs: seq<T>, key: T -> K): (r: seq<K>)
    ensures |r| == |xs|
    ensures forall i :: 0 <= i < |xs| ==> r[i] == key(xs[i])
  {
    seq(|xs|, i requires 0 <= i < |xs| => key(xs[i]))
  }

  /** `xs[j]` is the first element of `xs` with its key. */
  predicate FirstOfKey<T, K(==)>(xs: seq<T>, key: T -> K, j: int)
    requires 0 <= j < |xs|
  {
    forall m :: 0 <= m < j ==> key(xs[m]) != key(xs[j])
  }

  /** `x` is, in `xs`, the first element carrying its key. */
  ghost predicate FirstIn<T, K>(xs: seq<T>, key: T -> K, x: T) {
    exists j :: 0 <= j < |xs| && xs[j] == x && FirstOfKey(xs, key, j)
  }

  /** The element first seen for each key, in order of first appearance: the
      `Map`-keyed loop `if (!m.has(k)) m.set(k, x)` followed by `Array.from(m.values())`. */
  function DedupBy<T, K(==)>(xs: seq<T>, key: T -> K): (r: seq<T>)
    ensures |r| <= |xs|
    ensures forall i, j :: 0 <= i < j < |r| ==> key(r[i]) != key(r[j])
    ensures forall j :: 0 <= j < |xs| ==> key(xs[j]) in Keys(r, key)
    ensures forall i :: 0 <= i < |r| ==> FirstIn(xs, key, r[i])
    decreases |xs|
  {
    if xs == [] then []
    else
      var init := xs[..|xs| - 1];
      var d := DedupBy(init, key);
      var x := xs[|xs| - 1];
      assert forall j :: 0 <= j < |init| ==> xs[j] == init[j];
      if key(x) in Keys(d, key) then d
      else
        var r := d + [x];
        assert Keys(r, key) == Keys(d, key) + [key(x)];
        FirstsExtend(xs, init, key, d, r);
        r
  }

  lemma FirstsExtend<T, K>(xs: seq<T>, init: seq<T>, key: T -> K, d: seq<T>, r: seq<T>)
    requires |xs| > 0 && init == xs[..|xs| - 1] && r == d + [xs[|xs| - 1]]
    requires key(xs[|xs| - 1]) !in Keys(d, key)
    requires forall j :: 0 <= j < |xs| - 1 ==> key(xs[j]) in Keys(d, key)
    requires forall i :: 0 <= i < |d| ==> FirstIn(init, key, d[i])
    ensures forall i :: 0 <= i < |r| ==> FirstIn(xs, key, r[i])
  {
    var n := |xs| - 1;
    forall i | 0 <= i < |r|
      ensures FirstIn(xs, key, r[i])
    {
      if i == |d| {
        forall m | 0 <= m < n ensures key(xs[m]) != key(xs[n]) {
          assert key(xs[m]) in Keys(d, key);
        }
        assert 0 <= n < |xs| && xs[n] == r[i] && FirstOfKey(xs, key, n);
      } else {
        assert r[i] == d[i];
        var j :| 0 <= j < n && init[j] == d[i] && FirstOfKey(init, key, j);
        forall m | 0 <= m < j ensures key(xs[m]) != key(xs[j]) {
          assert xs[m] == init[m] && xs[j] == init[j];
        }
        assert 0 <= j < |xs| && xs[j] == r[i] && FirstOfKey(xs, key, j);
      }
    }
  }

  /** In `xs`, `u` is the first element of its key, `v` the first of its key, and `u` comes
      first. */
  ghost predicate FirstsInOrder<T, K>(xs: seq<T>, key: T -> K, u: T, v: T) {
    exists a, b :: && 0 <= a < b < |xs| && xs[a] == u && xs[b] == v
                   && FirstOfKey(xs, key, a) && FirstOfKey(xs, key, b)
  }

  /** De-duplication lists the keys in order of first appearance: of any two entries, the
      earlier one is the first element of a key that appears earlier in the list. */
  lemma {:induction false} DedupInOrder<T, K>(xs: seq<T>, key: T -> K)
    ensures forall i, j :: 0 <= i < j < |DedupBy(xs, key)| ==>
              FirstsInOrder(xs, key, DedupBy(xs, key)[i], DedupBy(xs, key)[j])
    decreases |xs|
  {
    if xs != [] {
      var n := |xs| - 1;
      var init := xs[..n];
      var d := DedupBy(init, key);
      var x := xs[n];
      var r := DedupBy(xs, key);
      DedupInOrder(init, key);
      assert r == if key(x) in Keys(d, key) then d else d + [x];
      forall i, j | 0 <= i < j < |r| ensures FirstsInOrder(xs, key, r[i], r[j]) {
        if j < |d| {
          assert r[i] == d[i] && r[j] == d[j];
          assert FirstsInOrder(init, key, d[i], d[j]);
          InOrderInPrefix(xs, init, key, d[i], d[j]);
        } else {
          assert r[j] == x && r[i] == d[i];
          LastIsFirst(xs, init, key, d, i);
        }
      }
    }
  }

  /** Two firsts in order in a prefix are firsts in order in the whole list. */
  lemma InOrderInPrefix<T, K>(xs: seq<T>, init: seq<T>, key: T -> K, u: T, v: T)
    requires |init| <= |xs| && init == xs[..|init|]
    requires FirstsInOrder(init, key, u, v)
    ensures FirstsInOrder(xs, key, u, v)
  {
    var a, b :| && 0 <= a < b < |init| && init[a] == u && init[b] == v
                && FirstOfKey(init, key, a) && FirstOfKey(init, key, b);
    FirstOfKeyInPrefix(xs, init, key, a);
    FirstOfKeyInPrefix(xs, init, key, b);
    assert xs[a] == u && xs[b] == v;
  }

  /** A last element whose key is new comes after the firsts of all earlier keys. */
  lemma LastIsFirst<T, K>(xs: seq<T>, init: seq<T>, key: T -> K, d: seq<T>, i: nat)
    requires |xs| > 0 && init == xs[..|xs| - 1] && d == DedupBy(init, key) && i < |d|
    requires key(xs[|xs| - 1]) !in Keys(d, key)
    ensures FirstsInOrder(xs, key, d[i], xs[|xs| - 1])
  {
    var n := |xs| - 1;
    assert FirstIn(init, key, d[i]);
    var a :| 0 <= a < |init| && init[a] == d[i] && FirstOfKey(init, key, a);
    FirstOfKeyInPrefix(xs, init, key, a);
    forall m | 0 <= m < n ensures key(xs[m]) != key(xs[n]) {
      assert xs[m] == init[m];
      assert key(init[m]) in Keys(d, key);
    }
    assert FirstOfKey(xs, key, n);
    assert xs[a] == d[i];
  }

  /** Being the first element of its key carries over from a prefix to the whole list. */
  lemma FirstOfKeyInPrefix<T, K>(xs: seq<T>, init: seq<T>, key: T -> K, a: nat)
    requires |init| <= |xs| && init == xs[..|init|] && a < |init|
    requires FirstOfKey(init, key, a)
    ensures FirstOfKey(xs, key, a)
  {
    forall m | 0 <= m < a ensures key(xs[m]) != key(xs[a]) {
      assert xs[m] == init[m] && xs[a] == init[a];
    }
  }

  /** The first entry of a de-duplicated list is the list's first element. */
  lemma DedupHead<T, K>(xs: seq<T>, key: T -> K)
    requires xs != []
    ensures DedupBy(xs, key) != [] && DedupBy(xs, key)[0] == xs[0]
  {
    var r := DedupBy(xs, key);
    assert key(xs[0]) in Keys(r, key);
    var i :| 0 <= i < |r| && Keys(r, key)[i] == key(xs[0]);
    assert FirstIn(xs, key, r[0]);
    var a :| 0 <= a < |xs| && xs[a] == r[0] && FirstOfKey(xs, key, a);
    if i == 0 {
      assert key(xs[a]) == key(xs[0]);
      assert a == 0;
    } else {
      DedupInOrder(xs, key);
      assert false;
    }
  }

  /** De-duplication only keeps elements of the list. */
  lemma DedupMembers<T, K>(xs: seq<T>, key: T -> K)
    ensures forall x :: x in DedupBy(xs, key) ==> x in xs
  {
    var d := DedupBy(xs, key);
    forall x | x in d ensures x in xs {
      var i :| 0 <= i < |d| && d[i] == x;
      assert FirstIn(xs, key, d[i]);
    }
  }

  /** De-duplication keeps the list's order: its result is a subsequence of the input. */
  lemma {:induction false} DedupIsSubseq<T, K>(xs: seq<T>, key: T -> K)
    ensures Subseq(DedupBy(xs, key), xs)
    decreases |xs|
  {
    if xs != [] {
      var init := xs[..|xs| - 1];
      DedupIsSubseq(init, key);
      SubseqSnoc(DedupBy(init, key), init, xs[|xs| - 1]);
      assert init + [xs[|xs| - 1]] == xs;
    }
  }

  lemma {:induction false} SubseqSnoc<T>(a: seq<T>, b: seq<T>, x: T)
    requires Subseq(a, b)
    ensures Subseq(a, b + [x]) && Subseq(a + [x], b + [x])
    decreases |b|
  {
    if a == [] {
      SubseqOfEmpty(b + [x]);
      if b == [] {
        assert a + [x] == b + [x];
        assert Subseq([x][1..], [x][1..]);
      } else {
        SubseqSnoc(a, b[1..], x);
        assert (b + [x])[1..] == b[1..] + [x];
      }
    } else {
      assert b != [];
      assert (b + [x])[1..] == b[1..] + [x];
      assert (a + [x])[1..] == a[1..] + [x];
      if a[0] == b[0] {
        SubseqSnoc(a[1..], b[1..], x);
      } else {
        SubseqSnoc(a, b[1..], x);
      }
    }
  }

  /** Deleting elements and then taking keys deletes keys: the keys of a subsequence form
      a subsequence of the keys. */
  lemma {:induction false} SubseqKeys<T, K>(a: seq<T>, b: seq<T>, key: T -> K)
    requires Subseq(a, b)
    ensures Subseq(Keys(a, key), Keys(b, key))
    decreases |b|
  {
    if a != [] {
      assert b != [];
      assert Keys(b, key)[1..] == Keys(b[1..], key);
      if a[0] == b[0] {
        SubseqKeys(a[1..], b[1..], key);
        assert Keys(a, key)[1..] == Keys(a[1..], key);
      } else {
        SubseqKeys(a, b[1..], key);
        SubseqCons(Keys(a, key), Keys(b[1..], key), key(b[0]));
        assert [key(b[0])] + Keys(b[1..], key) == Keys(b, key);
      }
    }
  }

  lemma {:induction false} SubseqOfEmpty<T>(b: seq<T>)
    ensures Subseq([], b)
  {
  }

  /** No element occurs twice. */
  predicate NoDup<T(==)>(xs: seq<T>) {
    forall i, j :: 0 <= i < j < |xs| ==> xs[i] != xs[j]
  }

  /** A list without repetitions counts each value at most once. */
  lemma {:induction false} NoDupCounts<T>(xs: seq<T>, v: T)
    requires NoDup(xs)
    ensures multiset(xs)[v] <= 1
    decreases |xs|
  {
    if xs != [] {
      NoDupCounts(xs[1..], v);
      assert xs == [xs[0]] + xs[1..];
      assert xs[0] !in xs[1..];
    }
  }

  /** Rearranging a list without repetitions (sorting it, say) gives one without
      repetitions. */
  lemma NoDupPermutation<T>(xs: seq<T>, ys: seq<T>)
    requires NoDup(xs) && multiset(xs) == multiset(ys)
    ensures NoDup(ys)
  {
    forall i, j | 0 <= i < j < |ys| ensures ys[i] != ys[j] {
      NoDupCounts(xs, ys[i]);
      TwoCopies(ys, i, j);
    }
  }

  /** Two equal entries make a value count at least twice. */
  lemma TwoCopies<T>(ys: seq<T>, i: int, j: int)
    requires 0 <= i < j < |ys|
    ensures ys[i] == ys[j] ==> multiset(ys)[ys[i]] >= 2
  {
    assert ys == ys[..j] + ys[j..];
    assert ys[..j][i] == ys[i] && ys[j..][0] == ys[j];
    assert ys[i] in multiset(ys[..j]) && ys[j] in multiset(ys[j..]);
  }

  /* ---------- JavaScript slicing and pages ---------- */

  /** The index `Array.prototype.slice` uses for a (possibly negative) bound. */
  function SliceIndex(len: nat, k: int): (r: nat)
    ensures r <= len
    ensures k >= 0 ==> r == if k < len then k else len
    ensures k < 0 ==> r == if len + k > 0 then len + k else 0
  {
    if k < 0 then (if len + k > 0 then len + k else 0) else if k < len then k else len
  }

  /** `xs.slice(start, end)`. */
  function Slice<T>(xs: seq<T>, start: int, end: int): (r: seq<T>)
  {
    var s := SliceIndex(|xs|, start);
    var e := SliceIndex(|xs|, end);
    if e <= s then [] else xs[s..e]
  }

  /** A slice between two non-negative bounds holds at most their distance in items, the
      items from `lo` on. */
  lemma SliceContents<T>(xs: seq<T>, lo: nat, hi: nat)
    requires lo <= hi
    ensures |Slice(xs, lo, hi)| <= hi - lo
    ensures |Slice(xs, lo, hi)| == if lo >= |xs| then 0 else if hi <= |xs| then hi - lo else |xs| - lo
    ensures forall i :: 0 <= i < |Slice(xs, lo, hi)| ==> lo + i < |xs| && Slice(xs, lo, hi)[i] == xs[lo + i]
  {
  }

  /** Page `page` (counting from 1) of `size` items: `xs.slice((page - 1) * size, page * size)`. */
  function Page<T>(xs: seq<T>, page: int, size: nat): seq<T>
  {
    Slice(xs, (page - 1) * size, page * size)
  }

  /** `Math.ceil(n / size)`. */
  function PageCount(n: nat, size: nat): (r: nat)
    requires size > 0
    ensures r * size >= n && (r == 0 || (r - 1) * size < n)
  {
    (n + size - 1) / size
  }

  /** A page from 1 on holds at most `size` items, the items at positions
      `(page - 1) * size ...` of the list. */
  lemma PageContents<T>(xs: seq<T>, page: int, size: nat)
    requires page >= 1
    ensures |Page(xs, page, size)| <= size
    ensures |Page(xs, page, size)| ==
              if (page - 1) * size >= |xs| then 0
              else if size <= |xs| - (page - 1) * size then size else |xs| - (page - 1) * size
    ensures forall i :: 0 <= i < |Page(xs, page, size)| ==>
              (page - 1) * size + i < |xs| && Page(xs, page, size)[i] == xs[(page - 1) * size + i]
  {
    PageBounds(page, size);
    SliceContents(xs, (page - 1) * size, page * size);
  }

  /** Page `page` runs from `(page - 1) * size` for `size` items. */
  lemma PageBounds(page: int, size: nat)
    requires page >= 1
    ensures (page - 1) * size >= 0 && page * size == (page - 1) * size + size
  {
  }

  /** The pages `1 .. PageCount` laid end to end give back the whole list. */
  function Pages<T>(xs: seq<T>, size: nat, k: nat): seq<T>
    requires size > 0
  {
    if k == 0 then [] else Pages(xs, size, k - 1) + Page(xs, k, size)
  }

  lemma {:induction false} PagesPrefix<T>(xs: seq<T>, size: nat, k: nat)
    requires size > 0
    ensures Pages(xs, size, k) == xs[..if k * size < |xs| then k * size else |xs|]
    decreases k
  {
    if k > 0 {
      PagesPrefix(xs, size, k - 1);
      assert (k - 1) * size + size == k * size;
      assert (k - 1) * size >= 0;
    }
  }

  lemma PagesCoverList<T>(xs: seq<T>, size: nat)
    requires size > 0
    ensures Pages(xs, size, PageCount(|xs|, size)) == xs
  {
    PagesPrefix(xs, size, PageCount(|xs|, size));
  }
}
