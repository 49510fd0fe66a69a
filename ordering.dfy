/**
  Orders and sorting as Python uses them: `sorted()` under the built-in comparison
  of strings and of tuples, which is lexicographic.  Also the sequence helpers the
  comparator needs (map, flatten, fixed-size chunks).
*/
module Ordering {

  /** `le` is a total order (reflexive, antisymmetric, transitive, total). */
  ghost predicate TotalOrder<T(!new)>(le: (T, T) -> bool) {
    && (forall x :: le(x, x))
    && (forall x, y :: le(x, y) && le(y, x) ==> x == y)
    && (forall x, y, z :: le(x, y) && le(y, z) ==> le(x, z))
    && (forall x, y :: le(x, y) || le(y, x))
  }

  ghost predicate SortedBy<T>(xs: seq<T>, le: (T, T) -> bool) {
    forall i, j :: 0 <= i < j < |xs| ==> le(xs[i], xs[j])
  }

  // ---------------------------------------------------------------------------
  // Sorting

  /** `x` inserted into `xs` before the first element it is ordered before. */
  function Insert<T>(x: T, xs: seq<T>, le: (T, T) -> bool): (r: seq<T>)
    ensures |r| == |xs| + 1
    ensures multiset(r) == multiset(xs) + multiset{x}
  {
    if xs == [] || le(x, xs[0]) then [x] + xs
    else
      assert xs == [xs[0]] + xs[1..];
      [xs[0]] + Insert(x, xs[1..], le)
  }

  /** Python's `sorted(xs)` under the order `le`. */
  function Sort<T>(xs: seq<T>, le: (T, T) -> bool): (r: seq<T>)
    ensures |r| == |xs|
    ensures multiset(r) == multiset(xs)
  {
    if xs == [] then []
    else
      assert xs == [xs[0]] + xs[1..];
      Insert(xs[0], Sort(xs[1..], le), le)
  }

  lemma {:induction false} InsertSorted<T(!new)>(x: T, xs: seq<T>, le: (T, T) -> bool)
    requires TotalOrder(le) && SortedBy(xs, le)
    ensures SortedBy(Insert(x, xs, le), le)
  {
    if xs == [] || le(x, xs[0]) {
    } else {
      var tail := xs[1..];
      InsertSorted(x, tail, le);
      var r := Insert(x, tail, le);
      assert le(xs[0], x);
      forall j | 0 <= j < |r| ensures le(xs[0], r[j]) {
        assert r[j] in multiset(r);
        if r[j] != x {
          assert r[j] in multiset(tail);
          var k :| 0 <= k < |tail| && tail[k] == r[j];
          assert tail[k] == xs[k + 1];
        }
      }
      var s := [xs[0]] + r;
      forall i, j | 0 <= i < j < |s| ensures le(s[i], s[j]) {
        if i > 0 {
          assert s[i] == r[i - 1] && s[j] == r[j - 1];
        }
      }
    }
  }

  /** `Sort` orders its result whenever `le` is a total order. */
  lemma {:induction false} SortSorted<T(!new)>(xs: seq<T>, le: (T, T) -> bool)
    requires TotalOrder(le)
    ensures SortedBy(Sort(xs, le), le)
  {
    if xs != [] {
      SortSorted(xs[1..], le);
      InsertSorted(xs[0], Sort(xs[1..], le), le);
    }
  }

  /** Taking the same element away from two equal multisets leaves equal multisets. */
  lemma MultisetCancel<T>(x: T, a: multiset<T>, b: multiset<T>)
    requires multiset{x} + a == multiset{x} + b
    ensures a == b
  {
    forall y ensures a[y] == b[y] {
      assert (multiset{x} + a)[y] == (multiset{x} + b)[y];
    }
  }

  /** The least element of a sorted sequence is at its head. */
  lemma SortedHeadIsLeast<T(!new)>(xs: seq<T>, x: T, le: (T, T) -> bool)
    requires TotalOrder(le) && SortedBy(xs, le)
    requires x in multiset(xs)
    ensures le(xs[0], x)
  {
    var j :| 0 <= j < |xs| && xs[j] == x;
    if j > 0 {
      assert le(xs[0], xs[j]);
    }
  }

  /** Under a total order there is only one sorted arrangement of a multiset. */
  lemma {:induction false} SortedUnique<T(!new)>(a: seq<T>, b: seq<T>, le: (T, T) -> bool)
    requires TotalOrder(le)
    requires SortedBy(a, le) && SortedBy(b, le)
    requires multiset(a) == multiset(b)
    ensures a == b
  {
    assert |a| == |multiset(a)| == |multiset(b)| == |b|;
    if a != [] {
      SortedHeadIsLeast(b, a[0], le);
      SortedHeadIsLeast(a, b[0], le);
      assert a[0] == b[0];
      assert a == [a[0]] + a[1..] && b == [b[0]] + b[1..];
      MultisetCancel(a[0], multiset(a[1..]), multiset(b[1..]));
      SortedUnique(a[1..], b[1..], le);
    }
  }

  /** Sorting two arrangements of the same multiset gives the same sequence. */
  lemma SortDependsOnlyOnMultiset<T(!new)>(a: seq<T>, b: seq<T>, le: (T, T) -> bool)
    requires TotalOrder(le)
    requires multiset(a) == multiset(b)
    ensures Sort(a, le) == Sort(b, le)
  {
    SortSorted(a, le);
    SortSorted(b, le);
    SortedUnique(Sort(a, le), Sort(b, le), le);
  }

  // ---------------------------------------------------------------------------
  // Lexicographic order (Python's comparison of `str` and of `tuple`)

  /** `a` is at most `b` lexicographically: at the first differing position `a`'s
      element is ordered before `b`'s, or `a` is a prefix of `b`. */
  function LexLe<T(==)>(a: seq<T>, b: seq<T>, le: (T, T) -> bool): bool
  {
    if a == [] then true
    else if b == [] then false
    else if a[0] == b[0] then LexLe(a[1..], b[1..], le)
    else le(a[0], b[0])
  }

  lemma {:induction false} LexReflexive<T(!new)>(a: seq<T>, le: (T, T) -> bool)
    ensures LexLe(a, a, le)
  {
    if a != [] {
      LexReflexive(a[1..], le);
    }
  }

  lemma {:induction false} LexAntisymmetric<T(!new)>(a: seq<T>, b: seq<T>, le: (T, T) -> bool)
    requires TotalOrder(le)
    requires LexLe(a, b, le) && LexLe(b, a, le)
    ensures a == b
  {
    if a != [] && b != [] && a[0] == b[0] {
      LexAntisymmetric(a[1..], b[1..], le);
      assert a == [a[0]] + a[1..] && b == [b[0]] + b[1..];
    }
  }

  lemma {:induction false} LexTransitive<T(!new)>(a: seq<T>, b: seq<T>, c: seq<T>, le: (T, T) -> bool)
    requires TotalOrder(le)
    requires LexLe(a, b, le) && LexLe(b, c, le)
    ensures LexLe(a, c, le)
  {
    if a != [] && a[0] == b[0] && b[0] == c[0] {
      LexTransitive(a[1..], b[1..], c[1..], le);
    }
  }

  lemma {:induction false} LexTotal<T(!new)>(a: seq<T>, b: seq<T>, le: (T, T) -> bool)
    requires TotalOrder(le)
    ensures LexLe(a, b, le) || LexLe(b, a, le)
  {
    if a != [] && b != [] && a[0] == b[0] {
      LexTotal(a[1..], b[1..], le);
    }
  }

  /** The lexicographic extension of a total order is a total order. */
  lemma LexTotalOrder<T(!new)>(le: (T, T) -> bool, lex: (seq<T>, seq<T>) -> bool)
    requires TotalOrder(le)
    requires forall a, b :: lex(a, b) == LexLe(a, b, le)
    ensures TotalOrder(lex)
  {
    forall a ensures lex(a, a) {
      LexReflexive(a, le);
    }
    forall a, b | lex(a, b) && lex(b, a) ensures a == b {
      LexAntisymmetric(a, b, le);
    }
    forall a, b, c | lex(a, b) && lex(b, c) ensures lex(a, c) {
      LexTransitive(a, b, c, le);
    }
    forall a, b ensures lex(a, b) || lex(b, a) {
      LexTotal(a, b, le);
    }
  }

  // ---------------------------------------------------------------------------
  // Sequence helpers

  /** `f` applied to every element of `xs`. */
  function Map<A, B>(f: A -> B, xs: seq<A>): (r: seq<B>)
    ensures |r| == |xs|
  {
    seq(|xs|, k requires 0 <= k < |xs| => f(xs[k]))
  }

  /** Removing the element at `k` removes one occurrence of it from the multiset. */
  lemma MultisetRemove<T>(ys: seq<T>, k: nat)
    requires k < |ys|
    ensures multiset(ys) == multiset{ys[k]} + multiset(ys[..k] + ys[k + 1..])
  {
    assert ys == ys[..k] + [ys[k]] + ys[k + 1..];
  }

  /** Mapping over a sequence with the element at `k` removed removes that element's
      image from the mapped multiset. */
  lemma MapRemove<A, B>(f: A -> B, ys: seq<A>, k: nat)
    requires k < |ys|
    ensures multiset(Map(f, ys)) == multiset{f(ys[k])} + multiset(Map(f, ys[..k] + ys[k + 1..]))
  {
    MultisetRemove(Map(f, ys), k);
    assert Map(f, ys)[..k] + Map(f, ys)[k + 1..] == Map(f, ys[..k] + ys[k + 1..]);
  }

  /** The head of `xs` occurs in any rearrangement `ys`; removing it from both leaves
      rearrangements of each other. */
  lemma MatchHead<T>(xs: seq<T>, ys: seq<T>) returns (k: nat)
    requires xs != [] && multiset(xs) == multiset(ys)
    ensures k < |ys| && ys[k] == xs[0]
    ensures multiset(xs[1..]) == multiset(ys[..k] + ys[k + 1..])
  {
    assert xs[0] in multiset(ys);
    k :| 0 <= k < |ys| && ys[k] == xs[0];
    assert xs == [xs[0]] + xs[1..];
    MultisetRemove(ys, k);
    MultisetCancel(xs[0], multiset(xs[1..]), multiset(ys[..k] + ys[k + 1..]));
  }

  /** Mapping a function over two arrangements of one multiset gives two arrangements
      of one multiset. */
  lemma {:induction false} MapPermutation<A, B>(f: A -> B, xs: seq<A>, ys: seq<A>)
    requires multiset(xs) == multiset(ys)
    ensures multiset(Map(f, xs)) == multiset(Map(f, ys))
  {
    if xs != [] {
      var k := MatchHead(xs, ys);
      var rest := ys[..k] + ys[k + 1..];
      MapPermutation(f, xs[1..], rest);
      assert multiset(Map(f, xs)) == multiset{f(xs[0])} + multiset(Map(f, xs[1..])) by {
        MapRemove(f, xs, 0);
        assert xs[..0] + xs[1..] == xs[1..];
      }
      assert multiset(Map(f, ys)) == multiset{f(xs[0])} + multiset(Map(f, rest)) by {
        MapRemove(f, ys, k);
      }
    }
  }

  lemma AppendAssociative<T>(a: seq<T>, b: seq<T>, c: seq<T>)
    ensures a + (b + c) == (a + b) + c
  {
  }

  /** The concatenation of the sequences in `xss`, in order. */
  function Flatten<T>(xss: seq<seq<T>>): seq<T>
  {
    if xss == [] then [] else xss[0] + Flatten(xss[1..])
  }

  lemma {:induction false} FlattenAppend<T>(a: seq<seq<T>>, b: seq<seq<T>>)
    ensures Flatten(a + b) == Flatten(a) + Flatten(b)
  {
    if a == [] {
      assert a + b == b;
    } else {
      assert (a + b)[0] == a[0];
      assert (a + b)[1..] == a[1..] + b;
      FlattenAppend(a[1..], b);
    }
  }

  /** Mapping and flattening distributes over concatenation. */
  lemma FlattenMapAppend<A, B>(f: A -> seq<B>, a: seq<A>, b: seq<A>)
    ensures Flatten(Map(f, a + b)) == Flatten(Map(f, a)) + Flatten(Map(f, b))
  {
    assert Map(f, a + b) == Map(f, a) + Map(f, b);
    FlattenAppend(Map(f, a), Map(f, b));
  }

  lemma FlattenMapSingle<A, B>(f: A -> seq<B>, x: A)
    ensures Flatten(Map(f, [x])) == f(x)
  {
    assert Map(f, [x])[1..] == [];
  }

  /** `xs` cut into consecutive pieces of `n` elements, the last one possibly shorter
      (Python's `[xs[i:i+n] for i in range(0, len(xs), n)]`). */
  function Chunks<T>(xs: seq<T>, n: nat): (r: seq<seq<T>>)
    requires n > 0
    ensures Flatten(r) == xs
    ensures forall k :: 0 <= k < |r| ==> 0 < |r[k]| <= n
    ensures forall k :: 0 <= k < |r| - 1 ==> |r[k]| == n
    decreases |xs|
  {
    if xs == [] then []
    else if |xs| <= n then
      assert Flatten([xs]) == xs + Flatten([xs][1..]);
      [xs]
    else
      var rest := Chunks(xs[n..], n);
      var r := [xs[..n]] + rest;
      assert r[1..] == rest;
      assert xs == xs[..n] + xs[n..];
      r
  }

  /** Rearranging the pieces does not change the length of their concatenation. */
  lemma {:induction false} FlattenPermutationLength<T>(xss: seq<seq<T>>, yss: seq<seq<T>>)
    requires multiset(xss) == multiset(yss)
    ensures |Flatten(xss)| == |Flatten(yss)|
  {
    if xss == [] {
      assert |yss| == |multiset(yss)| == 0;
    } else {
      var k := MatchHead(xss, yss);
      var rest := yss[..k] + yss[k + 1..];
      FlattenPermutationLength(xss[1..], rest);
      assert yss == yss[..k] + ([yss[k]] + yss[k + 1..]);
      FlattenAppend(yss[..k], [yss[k]] + yss[k + 1..]);
      assert ([yss[k]] + yss[k + 1..])[1..] == yss[k + 1..];
      FlattenAppend(yss[..k], yss[k + 1..]);
    }
  }

  /** Cutting the concatenation of pieces of `n` elements into chunks of `n` gives the
      pieces back. */
  lemma {:induction false} ChunksOfFlatten<T>(rows: seq<seq<T>>, n: nat)
    requires n > 0
    requires forall k :: 0 <= k < |rows| ==> |rows[k]| == n
    ensures Chunks(Flatten(rows), n) == rows
  {
    if rows != [] {
      var xs := Flatten(rows);
      var tail := rows[1..];
      ChunksOfFlatten(tail, n);
      assert xs == rows[0] + Flatten(tail);
      if tail == [] {
        assert Flatten(tail) == [];
        assert xs == rows[0];
        assert rows == [rows[0]];
        assert Chunks(xs, n) == [xs];
      } else {
        assert Flatten(tail) == tail[0] + Flatten(tail[1..]);
        assert |xs| > n;
        assert xs[..n] == rows[0];
        assert xs[n..] == Flatten(tail);
        assert Chunks(xs, n) == [xs[..n]] + Chunks(xs[n..], n);
        assert rows == [rows[0]] + tail;
      }
    }
  }

  /** The elements of `xs` that satisfy `p`, in order (Python's
      `[x for x in xs if p(x)]`). */
  function Filter<T>(p: T -> bool, xs: seq<T>): (r: seq<T>)
    ensures |r| <= |xs|
    ensures forall x :: x in r ==> x in xs && p(x)
  {
    if xs == [] then []
    else (if p(xs[0]) then [xs[0]] else []) + Filter(p, xs[1..])
  }

  /** Filtering keeps every occurrence of each element that satisfies `p` and no
      occurrence of any other. */
  lemma {:induction false} FilterMultiset<T>(p: T -> bool, xs: seq<T>)
    ensures forall x :: multiset(Filter(p, xs))[x] == if p(x) then multiset(xs)[x] else 0
  {
    if xs != [] {
      FilterMultiset(p, xs[1..]);
      assert xs == [xs[0]] + xs[1..];
      assert multiset(xs) == multiset{xs[0]} + multiset(xs[1..]);
    }
  }

  /** Filtering a sorted sequence leaves it sorted. */
  lemma {:induction false} FilterSorted<T>(p: T -> bool, xs: seq<T>, le: (T, T) -> bool)
    requires SortedBy(xs, le)
    ensures SortedBy(Filter(p, xs), le)
  {
    if xs != [] {
      var rest := Filter(p, xs[1..]);
      assert SortedBy(xs[1..], le) by {
        forall i, j | 0 <= i < j < |xs[1..]| ensures le(xs[1..][i], xs[1..][j]) {
          assert xs[1..][i] == xs[i + 1] && xs[1..][j] == xs[j + 1];
        }
      }
      FilterSorted(p, xs[1..], le);
      if p(xs[0]) {
        forall j | 0 <= j < |rest| ensures le(xs[0], rest[j]) {
          assert rest[j] in rest;
          var k :| 0 <= k < |xs[1..]| && xs[1..][k] == rest[j];
          assert xs[k + 1] == rest[j];
        }
        var r := [xs[0]] + rest;
        forall i, j | 0 <= i < j < |r| ensures le(r[i], r[j]) {
          if i > 0 {
            assert r[i] == rest[i - 1] && r[j] == rest[j - 1];
          }
        }
      }
    }
  }
}
