/**
 * Python list comprehensions with a condition (`[x for x in s if f(x)]`) and
 * the stable `sorted(..., key=k, reverse=True)`, with the facts the
 * application's filters and orderings rely on.
 */
module Seqs {

  /** `[x for x in s if keep(x)]`. */
  function Filter<T>(s: seq<T>, keep: T -> bool): (r: seq<T>)
    ensures |r| <= |s|
  {
    if s == [] then [] else (if keep(s[0]) then [s[0]] else []) + Filter(s[1..], keep)
  }

  /** Every element the filter keeps satisfies the condition. */
  lemma {:induction false} FilterKeeps<T>(s: seq<T>, keep: T -> bool)
    ensures forall k | 0 <= k < |Filter(s, keep)| :: keep(Filter(s, keep)[k])
  {
    if s != [] {
      FilterKeeps(s[1..], keep);
      var head := if keep(s[0]) then [s[0]] else [];
      var r := Filter(s, keep);
      assert forall k | 0 <= k < |r| :: r[k] == if k < |head| then s[0] else Filter(s[1..], keep)[k - |head|];
    }
  }

  /** `a` is `b` with some elements left out and the rest in their order. */
  ghost predicate IsSubsequence<T>(a: seq<T>, b: seq<T>)
    decreases |b|
  {
    if b == [] then a == []
    else (a != [] && a[0] == b[0] && IsSubsequence(a[1..], b[1..])) || IsSubsequence(a, b[1..])
  }

  lemma {:induction false} SubsequenceOfSelf<T>(s: seq<T>)
    ensures IsSubsequence(s, s)
  {
    if s != [] {
      SubsequenceOfSelf(s[1..]);
    }
  }

  lemma {:induction false} FilterIsSubsequence<T>(s: seq<T>, keep: T -> bool)
    ensures IsSubsequence(Filter(s, keep), s)
  {
    if s != [] {
      FilterIsSubsequence(s[1..], keep);
      var r := Filter(s, keep);
      if keep(s[0]) {
        assert r == [s[0]] + Filter(s[1..], keep);
        assert r[0] == s[0] && r[1..] == Filter(s[1..], keep);
      } else {
        assert r == Filter(s[1..], keep);
      }
    }
  }

  lemma {:induction false} FilterMembers<T>(s: seq<T>, keep: T -> bool, x: T)
    ensures x in Filter(s, keep) <==> x in s && keep(x)
  {
    if s != [] {
      FilterMembers(s[1..], keep, x);
      assert x in s <==> x == s[0] || x in s[1..];
    }
  }

  lemma {:induction false} FilterConcat<T>(a: seq<T>, b: seq<T>, keep: T -> bool)
    ensures Filter(a + b, keep) == Filter(a, keep) + Filter(b, keep)
  {
    if a == [] {
      assert a + b == b;
    } else {
      FilterConcat(a[1..], b, keep);
      var head := if keep(a[0]) then [a[0]] else [];
      TailOfConcat(a, b);
      calc {
        Filter(a + b, keep);
        head + Filter(a[1..] + b, keep);
        head + (Filter(a[1..], keep) + Filter(b, keep));
        (head + Filter(a[1..], keep)) + Filter(b, keep);
        Filter(a, keep) + Filter(b, keep);
      }
    }
  }

  lemma {:induction false} FilterKeepsAll<T>(s: seq<T>, keep: T -> bool)
    requires forall k | 0 <= k < |s| :: keep(s[k])
    ensures Filter(s, keep) == s
  {
    if s != [] {
      FilterKeepsAll(s[1..], keep);
    }
  }

  lemma {:induction false} FilterDropsAll<T>(s: seq<T>, keep: T -> bool)
    requires forall k | 0 <= k < |s| :: !keep(s[k])
    ensures Filter(s, keep) == []
  {
    if s != [] {
      FilterDropsAll(s[1..], keep);
    }
  }

  /** The filter keeps the length exactly when it keeps every element. */
  lemma {:induction false} FilterShrinks<T>(s: seq<T>, keep: T -> bool)
    ensures |Filter(s, keep)| == |s| <==> forall k | 0 <= k < |s| :: keep(s[k])
  {
    if s != [] {
      FilterShrinks(s[1..], keep);
      if forall k | 0 <= k < |s| :: keep(s[k]) {
        assert forall k | 0 <= k < |s[1..]| :: keep(s[1..][k]) by {
          forall k | 0 <= k < |s[1..]| ensures keep(s[1..][k]) { assert s[1..][k] == s[k + 1]; }
        }
      } else if keep(s[0]) {
        var k :| 0 <= k < |s| && !keep(s[k]);
        assert !keep(s[1..][k - 1]);
      }
    }
  }

  /** Two conditions applied one after the other, in either order, give the same result. */
  lemma {:induction false} FilterCommutes<T>(s: seq<T>, f: T -> bool, g: T -> bool)
    ensures Filter(Filter(s, f), g) == Filter(Filter(s, g), f)
  {
    if s != [] {
      FilterCommutes(s[1..], f, g);
      var x := s[0];
      var ff, gg := Filter(s[1..], f), Filter(s[1..], g);
      var both := if f(x) && g(x) then [x] else [];
      assert Filter(Filter(s, f), g) == both + Filter(ff, g) by {
        if f(x) {
          assert Filter(s, f) == [x] + ff;
          FilterConcat([x], ff, g);
        } else {
          assert Filter(s, f) == ff;
        }
      }
      assert Filter(Filter(s, g), f) == both + Filter(gg, f) by {
        if g(x) {
          assert Filter(s, g) == [x] + gg;
          FilterConcat([x], gg, f);
        } else {
          assert Filter(s, g) == gg;
        }
      }
    }
  }

  /** The condition that both `f` and `g` hold. */
  function Both<T>(f: T -> bool, g: T -> bool): T -> bool {
    x => f(x) && g(x)
  }

  /** Filtering by `f` and then by `g` is filtering by both at once. */
  lemma {:induction false} FilterTwice<T>(s: seq<T>, f: T -> bool, g: T -> bool)
    ensures Filter(Filter(s, f), g) == Filter(s, Both(f, g))
  {
    if s != [] {
      FilterTwice(s[1..], f, g);
      var x := s[0];
      var ff := Filter(s[1..], f);
      if f(x) {
        assert Filter(s, f) == [x] + ff;
        FilterConcat([x], ff, g);
      } else {
        assert Filter(s, f) == ff;
      }
    }
  }

  /** The multiset of the kept elements and that of the dropped ones add up to the whole. */
  lemma {:induction false} FilterSplitsMultiset<T>(s: seq<T>, keep: T -> bool, drop: T -> bool)
    requires forall x :: drop(x) == !keep(x)
    ensures multiset(Filter(s, keep)) + multiset(Filter(s, drop)) == multiset(s)
  {
    if s != [] {
      FilterSplitsMultiset(s[1..], keep, drop);
      HeadTail(s);
    }
  }

  /** Dropping the head of a concatenation drops the head of its first part. */
  lemma TailOfConcat<T>(a: seq<T>, b: seq<T>)
    requires a != []
    ensures (a + b)[0] == a[0] && (a + b)[1..] == a[1..] + b
  {
  }

  /** A non-empty sequence is its head followed by its tail. */
  lemma HeadTail<T>(s: seq<T>)
    requires s != []
    ensures [s[0]] + s[1..] == s
  {
  }

  /** A prefix one longer is the prefix with the next element appended. */
  lemma TakeOneMore<T>(s: seq<T>, i: nat)
    requires i < |s|
    ensures s[..i + 1] == s[..i] + [s[i]]
  {
  }

  /** `[f(x) for x in s]`. */
  function Map<A, B>(s: seq<A>, f: A -> B): (r: seq<B>)
    ensures |r| == |s|
  {
    if s == [] then [] else [f(s[0])] + Map(s[1..], f)
  }

  /** Each element of the image is the image of the element at the same place. */
  lemma {:induction false} MapAt<A, B>(s: seq<A>, f: A -> B)
    ensures forall k | 0 <= k < |s| :: Map(s, f)[k] == f(s[k])
  {
    if s != [] {
      MapAt(s[1..], f);
      assert forall k | 1 <= k < |s| :: Map(s, f)[k] == Map(s[1..], f)[k - 1] && s[k] == s[1..][k - 1];
    }
  }

  /** Mapping distributes over concatenation. */
  lemma {:induction false} MapConcat<A, B>(a: seq<A>, b: seq<A>, f: A -> B)
    ensures Map(a + b, f) == Map(a, f) + Map(b, f)
  {
    if a == [] {
      assert a + b == b;
    } else {
      TailOfConcat(a, b);
      MapConcat(a[1..], b, f);
    }
  }

  /** Mapping a prefix one longer appends the image of the next element. */
  lemma MapOneMore<A, B>(s: seq<A>, i: nat, f: A -> B)
    requires i < |s|
    ensures Map(s[..i + 1], f) == Map(s[..i], f) + [f(s[i])]
  {
    TakeOneMore(s, i);
    MapConcat(s[..i], [s[i]], f);
    assert [s[i]][1..] == [];
  }

  /** `s` is ordered by `key` from the largest to the smallest. */
  ghost predicate SortedDesc<T>(s: seq<T>, key: T -> int) {
    forall i, j | 0 <= i < j < |s| :: key(s[i]) >= key(s[j])
  }

  /** The elements of `s` whose key is `k`, as a condition for `Filter`. */
  function KeyIs<T>(key: T -> int, k: int): T -> bool {
    x => key(x) == k
  }

  /** Insert `x` after every element whose key is at least `x`'s. */
  function InsertDesc<T>(x: T, s: seq<T>, key: T -> int): (r: seq<T>)
    ensures multiset(r) == multiset(s) + multiset{x}
  {
    if s == [] then [x]
    else if key(s[0]) >= key(x) then
      assert s == [s[0]] + s[1..];
      [s[0]] + InsertDesc(x, s[1..], key)
    else [x] + s
  }

  /** `sorted(s, key=key, reverse=True)`: Python's sort is stable, also when reversed. */
  function SortDesc<T>(s: seq<T>, key: T -> int): (r: seq<T>)
    ensures multiset(r) == multiset(s)
  {
    if s == [] then []
    else
      assert s == s[..|s| - 1] + [s[|s| - 1]];
      InsertDesc(s[|s| - 1], SortDesc(s[..|s| - 1], key), key)
  }

  lemma {:induction false} InsertDescSorted<T>(x: T, s: seq<T>, key: T -> int)
    requires SortedDesc(s, key)
    ensures SortedDesc(InsertDesc(x, s, key), key)
  {
    if s != [] && key(s[0]) >= key(x) {
      SortedTail(s, key);
      InsertDescSorted(x, s[1..], key);
      InsertDescBounded(x, s[1..], key, key(s[0]));
      ConsSorted(s[0], InsertDesc(x, s[1..], key), key);
    }
  }

  /** A bound on every key of `s` and on `x` bounds every key after the insertion. */
  lemma {:induction false} InsertDescBounded<T>(x: T, s: seq<T>, key: T -> int, b: int)
    requires key(x) <= b && forall j | 0 <= j < |s| :: key(s[j]) <= b
    ensures forall j | 0 <= j < |InsertDesc(x, s, key)| :: key(InsertDesc(x, s, key)[j]) <= b
  {
    if s != [] && key(s[0]) >= key(x) {
      InsertDescBounded(x, s[1..], key, b);
      var r := InsertDesc(x, s[1..], key);
      assert forall j | 0 <= j < |s[1..]| :: s[1..][j] == s[j + 1];
      assert forall j | 0 <= j < |[s[0]] + r| :: ([s[0]] + r)[j] == if j == 0 then s[0] else r[j - 1];
    } else if s != [] {
      assert forall j | 0 <= j < |[x] + s| :: ([x] + s)[j] == if j == 0 then x else s[j - 1];
    }
  }

  lemma ConsSorted<T>(h: T, r: seq<T>, key: T -> int)
    requires SortedDesc(r, key) && forall j | 0 <= j < |r| :: key(h) >= key(r[j])
    ensures SortedDesc([h] + r, key)
  {
    assert forall j | 0 <= j < |[h] + r| :: ([h] + r)[j] == if j == 0 then h else r[j - 1];
  }

  lemma {:induction false} InsertDescStable<T>(x: T, s: seq<T>, key: T -> int, k: int)
    requires SortedDesc(s, key)
    ensures Filter(InsertDesc(x, s, key), KeyIs(key, k)) == Filter(s, KeyIs(key, k)) + Filter([x], KeyIs(key, k))
  {
    if s == [] {
    } else if key(s[0]) >= key(x) {
      SortedTail(s, key);
      InsertDescStable(x, s[1..], key, k);
      InsertAfterStable(x, s, key, k);
    } else {
      InsertFrontStable(x, s, key, k);
    }
  }

  lemma SortedTail<T>(s: seq<T>, key: T -> int)
    requires SortedDesc(s, key) && s != []
    ensures SortedDesc(s[1..], key)
  {
    assert forall i | 0 <= i < |s[1..]| :: s[1..][i] == s[i + 1];
  }

  /** Inserted after the head, `x` lands behind it and the rest follows from the tail. */
  lemma {:induction false} InsertAfterStable<T>(x: T, s: seq<T>, key: T -> int, k: int)
    requires s != [] && key(s[0]) >= key(x)
    requires Filter(InsertDesc(x, s[1..], key), KeyIs(key, k)) == Filter(s[1..], KeyIs(key, k)) + Filter([x], KeyIs(key, k))
    ensures Filter(InsertDesc(x, s, key), KeyIs(key, k)) == Filter(s, KeyIs(key, k)) + Filter([x], KeyIs(key, k))
  {
    var p := KeyIs(key, k);
    var head, tail := [s[0]], s[1..];
    calc {
      Filter(InsertDesc(x, s, key), p);
      Filter(head + InsertDesc(x, tail, key), p);
      { FilterConcat(head, InsertDesc(x, tail, key), p); }
      Filter(head, p) + Filter(InsertDesc(x, tail, key), p);
      Filter(head, p) + (Filter(tail, p) + Filter([x], p));
      (Filter(head, p) + Filter(tail, p)) + Filter([x], p);
      { FilterConcat(head, tail, p); HeadTail(s); }
      Filter(s, p) + Filter([x], p);
    }
  }

  /** Inserted in front of larger keys, `x` is the only element of its key. */
  lemma {:induction false} InsertFrontStable<T>(x: T, s: seq<T>, key: T -> int, k: int)
    requires SortedDesc(s, key) && s != [] && key(s[0]) < key(x)
    ensures Filter(InsertDesc(x, s, key), KeyIs(key, k)) == Filter(s, KeyIs(key, k)) + Filter([x], KeyIs(key, k))
  {
    var p := KeyIs(key, k);
    FilterConcat([x], s, p);
    assert InsertDesc(x, s, key) == [x] + s;
    if key(x) == k {
      FilterDropsAll(s, p);
      assert Filter(s, p) + Filter([x], p) == Filter([x], p) + Filter(s, p);
    } else {
      assert Filter([x], p) == [];
      assert Filter(s, p) + Filter([x], p) == Filter([x], p) + Filter(s, p);
    }
  }

  /**
   * Inserting into a mapped sequence, ordered by a key that agrees with the
   * key before mapping, is mapping the insertion.
   */
  lemma {:induction false} InsertDescMap<A, B>(x: A, s: seq<A>, keyA: A -> int, f: A -> B, keyB: B -> int)
    requires keyA(x) == keyB(f(x))
    requires forall y | y in s :: keyA(y) == keyB(f(y))
    ensures Map(InsertDesc(x, s, keyA), f) == InsertDesc(f(x), Map(s, f), keyB)
  {
    if s != [] {
      var m := Map(s, f);
      assert m[0] == f(s[0]) && m[1..] == Map(s[1..], f);
      if keyA(s[0]) >= keyA(x) {
        InsertDescMap(x, s[1..], keyA, f, keyB);
        MapConcat([s[0]], InsertDesc(x, s[1..], keyA), f);
      } else {
        MapConcat([x], s, f);
      }
    }
  }

  /** Sorting neither adds nor loses elements. */
  lemma SortDescMembers<T>(s: seq<T>, key: T -> int)
    ensures forall y :: y in SortDesc(s, key) <==> y in s
  {
    forall y
      ensures y in SortDesc(s, key) <==> y in s
    {
      assert y in SortDesc(s, key) <==> y in multiset(SortDesc(s, key));
    }
  }

  /** The image of all but the last element, and the image of the last. */
  lemma MapInit<A, B>(s: seq<A>, f: A -> B)
    requires s != []
    ensures Map(s, f)[..|s| - 1] == Map(s[..|s| - 1], f) && Map(s, f)[|s| - 1] == f(s[|s| - 1])
  {
    var n := |s| - 1;
    assert s[..n + 1] == s;
    MapOneMore(s, n, f);
  }

  /** Sorting by a key and then mapping is mapping and then sorting by the matching key. */
  lemma {:induction false} SortDescMap<A, B>(s: seq<A>, keyA: A -> int, f: A -> B, keyB: B -> int)
    requires forall y | y in s :: keyA(y) == keyB(f(y))
    ensures Map(SortDesc(s, keyA), f) == SortDesc(Map(s, f), keyB)
  {
    if s != [] {
      var init, last := s[..|s| - 1], s[|s| - 1];
      calc {
        Map(SortDesc(s, keyA), f);
        Map(InsertDesc(last, SortDesc(init, keyA), keyA), f);
        { SortDescMembers(init, keyA);
          InsertDescMap(last, SortDesc(init, keyA), keyA, f, keyB); }
        InsertDesc(f(last), Map(SortDesc(init, keyA), f), keyB);
        { assert forall y | y in init :: y in s;
          SortDescMap(init, keyA, f, keyB); }
        InsertDesc(f(last), SortDesc(Map(init, f), keyB), keyB);
        { MapInit(s, f); }
        SortDesc(Map(s, f), keyB);
      }
    }
  }

  /** The descending sort is ordered by key. */
  lemma {:induction false} SortDescSorted<T>(s: seq<T>, key: T -> int)
    ensures SortedDesc(SortDesc(s, key), key)
  {
    if s != [] {
      SortDescSorted(s[..|s| - 1], key);
      InsertDescSorted(s[|s| - 1], SortDesc(s[..|s| - 1], key), key);
    }
  }

  /**
   * Stability: the elements that share a key come out in the order they
   * went in.
   */
  lemma {:induction false} SortDescStable<T>(s: seq<T>, key: T -> int, k: int)
    ensures Filter(SortDesc(s, key), KeyIs(key, k)) == Filter(s, KeyIs(key, k))
  {
    if s != [] {
      var init, last := s[..|s| - 1], s[|s| - 1];
      SortDescStable(init, key, k);
      SortDescSorted(init, key);
      InsertDescStable(last, SortDesc(init, key), key, k);
      FilterConcat(init, [last], KeyIs(key, k));
      assert init + [last] == s;
    }
  }
}
