/** Generic sequence operations that the dashboard's derived data is built
    from: JavaScript's `filter`, a left-to-right `reduce` summation, the
    insertion-ordered de-duplication of `new Set(...)`, and `slice`.

    Recursion runs on the last element (the prefix first), the same order in
    which `reduce` visits an array. */
module Seqs {

  /** A value that may be missing (`T | null`). */
  datatype Option<T> = None | Some(value: T)

  function Last<T>(s: seq<T>): T
    requires |s| > 0
  {
    s[|s| - 1]
  }

  function DropLast<T>(s: seq<T>): seq<T>
    requires |s| > 0
  {
    s[..|s| - 1]
  }

  lemma LastSplit<T>(s: seq<T>)
    requires |s| > 0
    ensures s == DropLast(s) + [Last(s)]
  {
  }

  function Min(a: int, b: int): int { if a <= b then a else b }

  function Max(a: int, b: int): int { if a <= b then b else a }

  /** `a` occurs in `b` in order, possibly with other elements between. */
  predicate Sublist<T(==)>(a: seq<T>, b: seq<T>)
    decreases |b|
  {
    if |a| == 0 then true
    else if |b| == 0 then false
    else (Last(a) == Last(b) && Sublist(DropLast(a), DropLast(b))) || Sublist(a, DropLast(b))
  }

  /** `Array.prototype.filter`: the elements satisfying `p`, in their order. */
  function Filter<T(==,!new)>(s: seq<T>, p: T -> bool): (r: seq<T>)
    ensures |r| <= |s|
    ensures forall x :: x in r ==> x in s && p(x)
    ensures forall x :: multiset(r)[x] == if p(x) then multiset(s)[x] else 0
    ensures Sublist(r, s)
  {
    if |s| == 0 then []
    else
      LastSplit(s);
      var rest := Filter(DropLast(s), p);
      if p(Last(s)) then
        assert DropLast(rest + [Last(s)]) == rest;
        rest + [Last(s)]
      else
        rest
  }

  lemma SnocParts<T>(s: seq<T>, y: T)
    ensures DropLast(s + [y]) == s && Last(s + [y]) == y
  {
  }

  lemma HeadTail<T>(s: seq<T>)
    requires |s| > 0
    ensures s == [s[0]] + s[1..]
  {
  }

  lemma AppendAssoc<T>(a: seq<T>, b: seq<T>, c: seq<T>)
    ensures a + (b + c) == (a + b) + c
  {
  }

  /** An element of `s` that passes `p` is kept. */
  lemma FilterKeeps<T(!new)>(s: seq<T>, p: T -> bool, x: T)
    requires x in s && p(x)
    ensures x in Filter(s, p)
  {
    assert multiset(Filter(s, p))[x] == multiset(s)[x] > 0;
  }

  /** The members of a filter's result are exactly the members of the input
      that pass the test. */
  lemma FilterMembers<T(!new)>(s: seq<T>, p: T -> bool)
    ensures forall x :: x in Filter(s, p) <==> x in s && p(x)
  {
    forall x | x in s && p(x)
      ensures x in Filter(s, p)
    {
      FilterKeeps(s, p, x);
    }
  }

  /** One step of `Filter`: the result for the front, then the last element
      if it passes. */
  lemma FilterSnoc<T(!new)>(s: seq<T>, z: T, p: T -> bool)
    ensures Filter(s + [z], p) == Filter(s, p) + (if p(z) then [z] else [])
  {
    assert DropLast(s + [z]) == s;
  }

  lemma {:induction false} FilterConcat<T(!new)>(a: seq<T>, b: seq<T>, p: T -> bool)
    ensures Filter(a + b, p) == Filter(a, p) + Filter(b, p)
    decreases |b|
  {
    if |b| == 0 {
      assert a + b == a;
    } else {
      LastSplit(b);
      FilterConcat(a, DropLast(b), p);
      FilterConcatStep(a, DropLast(b), Last(b), p);
    }
  }

  /** The step of `FilterConcat`: one more element at the end of `b`. */
  lemma FilterConcatStep<T(!new)>(a: seq<T>, b: seq<T>, z: T, p: T -> bool)
    requires Filter(a + b, p) == Filter(a, p) + Filter(b, p)
    ensures Filter(a + (b + [z]), p) == Filter(a, p) + Filter(b + [z], p)
  {
    var t: seq<T> := if p(z) then [z] else [];
    AppendAssoc(a, b, [z]);
    FilterSnoc(a + b, z, p);
    FilterSnoc(b, z, p);
    AppendAssoc(Filter(a, p), Filter(b, p), t);
  }

  /** A filter that every element passes changes nothing. */
  lemma {:induction false} FilterKeepsAll<T(!new)>(s: seq<T>, p: T -> bool)
    requires forall x :: x in s ==> p(x)
    ensures Filter(s, p) == s
  {
    if |s| > 0 {
      LastSplit(s);
      FilterKeepsAll(DropLast(s), p);
    }
  }

  /** Filtering by a stronger test after a weaker one is filtering by the
      stronger test alone. */
  lemma {:induction false} FilterFilter<T(!new)>(s: seq<T>, p: T -> bool, q: T -> bool)
    requires forall x :: q(x) ==> p(x)
    ensures Filter(Filter(s, p), q) == Filter(s, q)
  {
    if |s| > 0 {
      LastSplit(s);
      FilterFilter(DropLast(s), p, q);
      var f := Filter(DropLast(s), p);
      if p(Last(s)) {
        assert DropLast(f + [Last(s)]) == f;
      }
    }
  }

  /** The elements a filter keeps and those it drops make up the input. */
  lemma FilterPartition<T(!new)>(s: seq<T>, p: T -> bool, q: T -> bool)
    requires forall x :: q(x) == !p(x)
    ensures multiset(Filter(s, p)) + multiset(Filter(s, q)) == multiset(s)
    ensures |Filter(s, p)| + |Filter(s, q)| == |s|
  {
    assert multiset(Filter(s, p)) + multiset(Filter(s, q)) == multiset(s);
    assert |multiset(Filter(s, p))| + |multiset(Filter(s, q))| == |multiset(s)|;
  }

  /** `array.map(f)`. */
  function Map<T, U>(s: seq<T>, f: T -> U): (r: seq<U>)
    ensures |r| == |s|
    ensures forall i :: 0 <= i < |s| ==> r[i] == f(s[i])
  {
    seq(|s|, i requires 0 <= i < |s| => f(s[i]))
  }

  lemma MapDropLast<T, U>(s: seq<T>, f: T -> U)
    requires |s| > 0
    ensures DropLast(Map(s, f)) == Map(DropLast(s), f)
    ensures Last(Map(s, f)) == f(Last(s))
  {
  }

  /** `s.reduce((sum, x) => sum + f(x), 0)`. */
  function SumOf<T>(s: seq<T>, f: T -> int): int
  {
    if |s| == 0 then 0 else SumOf(DropLast(s), f) + f(Last(s))
  }

  lemma {:induction false} SumConcat<T>(a: seq<T>, b: seq<T>, f: T -> int)
    ensures SumOf(a + b, f) == SumOf(a, f) + SumOf(b, f)
    decreases |b|
  {
    if |b| == 0 {
      assert a + b == a;
    } else {
      assert DropLast(a + b) == a + DropLast(b);
      assert Last(a + b) == Last(b);
      SumConcat(a, DropLast(b), f);
    }
  }

  /** Reordering does not change a sum. */
  lemma {:induction false} SumPermutation<T>(a: seq<T>, b: seq<T>, f: T -> int)
    requires multiset(a) == multiset(b)
    ensures SumOf(a, f) == SumOf(b, f)
    decreases |a|
  {
    if |a| == 0 {
      assert |b| == |multiset(b)| == 0;
    } else {
      var x := Last(a);
      LastSplit(a);
      assert x in multiset(b);
      var j :| 0 <= j < |b| && b[j] == x;
      RemoveAtMultiset(b, j);
      assert multiset(DropLast(a)) == multiset(a) - multiset{x};
      SumPermutation(DropLast(a), RemoveAt(b, j), f);
      SumRemoveAt(b, j, f);
    }
  }

  /** `s` without its element at index `j`. */
  function RemoveAt<T>(s: seq<T>, j: nat): seq<T>
    requires j < |s|
  {
    s[..j] + s[j + 1..]
  }

  lemma SplitAt<T>(s: seq<T>, j: nat)
    requires j < |s|
    ensures s == (s[..j] + [s[j]]) + s[j + 1..]
  {
  }

  lemma RemoveAtMultiset<T>(s: seq<T>, j: nat)
    requires j < |s|
    ensures multiset(RemoveAt(s, j)) == multiset(s) - multiset{s[j]}
  {
    SplitAt(s, j);
  }

  lemma SumRemoveAt<T>(s: seq<T>, j: nat, f: T -> int)
    requires j < |s|
    ensures SumOf(s, f) == SumOf(RemoveAt(s, j), f) + f(s[j])
  {
    var x := s[j];
    SplitAt(s, j);
    SumConcat(s[..j] + [x], s[j + 1..], f);
    SumConcat(s[..j], [x], f);
    SumConcat(s[..j], s[j + 1..], f);
    assert SumOf([x], f) == f(x) by {
      SnocParts([], x);
    }
  }

  /** How many elements `f` maps to `y`, as a sum. */
  function CountIf<T, U(==)>(f: T -> U, y: U): T -> int
  {
    x => if f(x) == y then 1 else 0
  }

  /** The multiplicity of a value in a mapped sequence counts the elements
      mapped to it. */
  lemma {:induction false} MapMultiplicity<T, U(!new)>(s: seq<T>, f: T -> U, y: U)
    ensures multiset(Map(s, f))[y] == SumOf(s, CountIf(f, y))
  {
    if |s| > 0 {
      LastSplit(s);
      MapDropLast(s, f);
      LastSplit(Map(s, f));
      MapMultiplicity(DropLast(s), f, y);
    }
  }

  /** Mapping a permutation gives a permutation. */
  lemma MapPermutation<T, U(!new)>(a: seq<T>, b: seq<T>, f: T -> U)
    requires multiset(a) == multiset(b)
    ensures multiset(Map(a, f)) == multiset(Map(b, f))
  {
    forall y
      ensures multiset(Map(a, f))[y] == multiset(Map(b, f))[y]
    {
      MapMultiplicity(a, f, y);
      MapMultiplicity(b, f, y);
      SumPermutation(a, b, CountIf(f, y));
    }
  }

  /** No element repeats. */
  predicate Distinct<T(==)>(s: seq<T>)
  {
    forall i, j :: 0 <= i < j < |s| ==> s[i] != s[j]
  }

  /** No element repeats exactly when no value occurs twice. */
  lemma {:induction false} DistinctMultiplicity<T(!new)>(s: seq<T>)
    ensures Distinct(s) <==> forall x :: multiset(s)[x] <= 1
  {
    if |s| > 0 {
      LastSplit(s);
      var p, z := DropLast(s), Last(s);
      DistinctMultiplicity(p);
      assert multiset(s) == multiset(p) + multiset{z};
      if Distinct(s) {
        assert Distinct(p);
        assert z !in p;
      } else {
        var i, j :| 0 <= i < j < |s| && s[i] == s[j];
        if j < |s| - 1 {
          assert p[i] == p[j];
          var x :| multiset(p)[x] > 1;
          assert multiset(s)[x] > 1;
        } else {
          assert p[i] == z;
          assert z in p;
          assert multiset(s)[z] == multiset(p)[z] + 1 > 1;
        }
      }
    }
  }

  /** A permutation of a sequence without repetitions has none. */
  lemma DistinctPermutation<T(!new)>(a: seq<T>, b: seq<T>)
    requires multiset(a) == multiset(b) && Distinct(a)
    ensures Distinct(b)
  {
    DistinctMultiplicity(a);
    DistinctMultiplicity(b);
  }

  function Elements<T>(s: seq<T>): set<T>
  {
    set x | x in s
  }

  /** A sequence without repetitions has as many elements as its set. */
  lemma {:induction false} DistinctCardinality<T>(s: seq<T>)
    requires Distinct(s)
    ensures |Elements(s)| == |s|
  {
    if |s| > 0 {
      LastSplit(s);
      DistinctCardinality(DropLast(s));
      assert Elements(s) == Elements(DropLast(s)) + {Last(s)};
      assert Last(s) !in Elements(DropLast(s));
    }
  }

  /** The iteration order of `new Set(s)`: each value once, where it first occurs. */
  function Dedupe<T(==,!new)>(s: seq<T>): (r: seq<T>)
    ensures Distinct(r)
    ensures forall x :: x in r <==> x in s
    ensures |r| <= |s|
  {
    if |s| == 0 then []
    else
      LastSplit(s);
      var d := Dedupe(DropLast(s));
      if Last(s) in d then d else d + [Last(s)]
  }

  /** Position of the first occurrence of `x` in `s`. */
  function FirstIndex<T(==)>(s: seq<T>, x: T): (i: nat)
    requires x in s
    ensures i < |s| && s[i] == x
    ensures forall j :: 0 <= j < i ==> s[j] != x
  {
    LastSplit(s);
    if x in DropLast(s) then FirstIndex(DropLast(s), x) else |s| - 1
  }

  /** `Dedupe` lists the values in the order of their first occurrences. */
  lemma {:induction false} DedupeFirstOccurrenceOrder<T(!new)>(s: seq<T>)
    ensures forall i, j :: 0 <= i < j < |Dedupe(s)| ==>
      FirstIndex(s, Dedupe(s)[i]) < FirstIndex(s, Dedupe(s)[j])
  {
    if |s| > 0 {
      LastSplit(s);
      var p := DropLast(s);
      var d := Dedupe(p);
      DedupeFirstOccurrenceOrder(p);
      forall i, j | 0 <= i < j < |Dedupe(s)|
        ensures FirstIndex(s, Dedupe(s)[i]) < FirstIndex(s, Dedupe(s)[j])
      {
        var r := Dedupe(s);
        assert r[i] == d[i];
        assert FirstIndex(s, r[i]) == FirstIndex(p, d[i]);
        if j < |d| {
          assert r[j] == d[j];
          assert FirstIndex(s, r[j]) == FirstIndex(p, d[j]);
        } else {
          assert r[j] == Last(s) && Last(s) !in p;
        }
      }
    }
  }

  /** The number of distinct values, `new Set(s).size`, is the size of the
      value set and never exceeds the length. */
  lemma DedupeSize<T(!new)>(s: seq<T>)
    ensures |Dedupe(s)| == |Elements(s)| <= |s|
  {
    DistinctCardinality(Dedupe(s));
    assert Elements(Dedupe(s)) == Elements(s);
  }

  /** Resolves an index argument of `Array.prototype.slice`: a negative index
      counts back from the end, and the result is clamped to `[0, n]`. */
  function RelativeIndex(i: int, n: nat): (r: nat)
    ensures r <= n
  {
    if i < 0 then Max(n + i, 0) else Min(i, n)
  }

  /** `s.slice(start, end)`. */
  function Slice<T>(s: seq<T>, start: int, end: int): (r: seq<T>)
    ensures |r| <= |s|
  {
    var a := RelativeIndex(start, |s|);
    var b := RelativeIndex(end, |s|);
    if a < b then s[a..b] else []
  }

  /** `s.slice(-k)` for a positive `k`: the last `k` elements, or all of
      them when there are fewer. (`-0` is `0`, which keeps everything.) */
  lemma SliceLast<T>(s: seq<T>, k: nat)
    requires k > 0
    ensures Slice(s, 0 - k, |s|) == s[|s| - Min(k, |s|)..]
  {
    if |s| == 0 {
      assert s[0..] == [];
    }
  }
}
