/** The accumulation the charts use to sum a value per key:
    `data.reduce((acc, x) => { acc[key(x)] = (acc[key(x)] || 0) + val(x); return acc }, {})`
    followed by `Object.entries`. An entry list stands for the object: a new
    key is appended, an existing key keeps its place. */
module Grouping {
  import opened Seqs

  /** One chart point, `{ name, value }`. */
  datatype Entry<K> = Entry(name: K, value: int)

  function Names<K>(es: seq<Entry<K>>): (r: seq<K>)
    ensures |r| == |es|
    ensures forall i :: 0 <= i < |es| ==> r[i] == es[i].name
  {
    seq(|es|, i requires 0 <= i < |es| => es[i].name)
  }

  function ValueOfEntry<K>(e: Entry<K>): int { e.value }

  /** The value the object holds for `k`, or zero when it has none
      (`acc[k] || 0`). */
  function Lookup<K(==)>(es: seq<Entry<K>>, k: K): int
  {
    if |es| == 0 then 0
    else if es[0].name == k then es[0].value
    else Lookup(es[1..], k)
  }

  lemma {:induction false} LookupAbsent<K>(es: seq<Entry<K>>, k: K)
    requires k !in Names(es)
    ensures Lookup(es, k) == 0
  {
    if |es| > 0 {
      assert Names(es[1..]) == Names(es)[1..];
      LookupAbsent(es[1..], k);
    }
  }

  /** With distinct names, the value looked up for an entry's name is that
      entry's value. */
  lemma {:induction false} LookupAt<K>(es: seq<Entry<K>>, i: nat)
    requires Distinct(Names(es)) && i < |es|
    ensures Lookup(es, es[i].name) == es[i].value
  {
    if i > 0 {
      assert Names(es[1..]) == Names(es)[1..];
      assert es[0].name == Names(es)[0] != Names(es)[i] == es[i].name;
      LookupAt(es[1..], i - 1);
    }
  }

  /** One step of the reduction: add `v` to the entry named `k`, or append a
      new entry for it. */
  function Accumulate<K(==)>(acc: seq<Entry<K>>, k: K, v: int): seq<Entry<K>>
  {
    if |acc| == 0 then [Entry(k, v)]
    else if acc[0].name == k then [Entry(k, acc[0].value + v)] + acc[1..]
    else [acc[0]] + Accumulate(acc[1..], k, v)
  }

  /** A step keeps the names in place and appends a name not yet present. */
  lemma {:induction false} AccumulateNames<K>(acc: seq<Entry<K>>, k: K, v: int)
    ensures Names(Accumulate(acc, k, v)) == if k in Names(acc) then Names(acc) else Names(acc) + [k]
  {
    if |acc| > 0 {
      assert Names(acc) == [acc[0].name] + Names(acc[1..]);
      var r := Accumulate(acc, k, v);
      if acc[0].name == k {
        assert Names(r) == [k] + Names(acc[1..]);
      } else {
        AccumulateNames(acc[1..], k, v);
        assert Names(r) == [acc[0].name] + Names(Accumulate(acc[1..], k, v));
      }
    }
  }

  /** A step adds `v` to the value held for `k` and to nothing else. */
  lemma {:induction false} AccumulateLookup<K>(acc: seq<Entry<K>>, k: K, v: int, n: K)
    ensures Lookup(Accumulate(acc, k, v), n) == Lookup(acc, n) + (if n == k then v else 0)
  {
    if |acc| > 0 && acc[0].name != k {
      AccumulateLookup(acc[1..], k, v, n);
      assert Accumulate(acc, k, v)[1..] == Accumulate(acc[1..], k, v);
    }
  }

  lemma SumSingleton<T>(x: T, f: T -> int)
    ensures SumOf([x], f) == f(x)
  {
    assert DropLast([x]) == [];
  }

  /** A step adds `v` to the total. */
  lemma {:induction false} AccumulateTotal<K>(acc: seq<Entry<K>>, k: K, v: int)
    ensures SumOf(Accumulate(acc, k, v), ValueOfEntry) == SumOf(acc, ValueOfEntry) + v
  {
    if |acc| == 0 {
      SumSingleton(Entry(k, v), ValueOfEntry);
    } else {
      assert acc == [acc[0]] + acc[1..];
      SumConcat([acc[0]], acc[1..], ValueOfEntry);
      SumSingleton(acc[0], ValueOfEntry);
      if acc[0].name == k {
        var e := Entry(k, acc[0].value + v);
        SumConcat([e], acc[1..], ValueOfEntry);
        SumSingleton(e, ValueOfEntry);
      } else {
        AccumulateTotal(acc[1..], k, v);
        SumConcat([acc[0]], Accumulate(acc[1..], k, v), ValueOfEntry);
      }
    }
  }

  /** The sum of `val` over the elements whose key is `k`. */
  function SumWhere<T, K(==)>(s: seq<T>, key: T -> K, val: T -> int, k: K): int
  {
    if |s| == 0 then 0
    else SumWhere(DropLast(s), key, val, k) + (if key(Last(s)) == k then val(Last(s)) else 0)
  }

  /** The elements whose key is `k`. */
  function KeyIs<T, K(==)>(key: T -> K, k: K): T -> bool
  {
    x => key(x) == k
  }

  /** `SumWhere` is the sum over the filtered elements. */
  lemma {:induction false} SumWhereFilter<T(!new), K(!new)>(s: seq<T>, key: T -> K, val: T -> int, k: K)
    ensures SumWhere(s, key, val, k) == SumOf(Filter(s, KeyIs(key, k)), val)
  {
    if |s| > 0 {
      var p := KeyIs(key, k);
      var f := Filter(DropLast(s), p);
      SumWhereFilter(DropLast(s), key, val, k);
      if p(Last(s)) {
        assert DropLast(f + [Last(s)]) == f;
      }
    }
  }

  /** The grouped sums, in the order in which keys are first met. */
  function GroupSum<T, K(==,!new)>(s: seq<T>, key: T -> K, val: T -> int): (r: seq<Entry<K>>)
    ensures Names(r) == Dedupe(Map(s, key))
    ensures forall n :: Lookup(r, n) == SumWhere(s, key, val, n)
    ensures SumOf(r, ValueOfEntry) == SumOf(s, val)
  {
    if |s| == 0 then []
    else
      var acc := GroupSum(DropLast(s), key, val);
      var k, v := key(Last(s)), val(Last(s));
      MapDropLast(s, key);
      LastSplit(Map(s, key));
      AccumulateNames(acc, k, v);
      AccumulateTotal(acc, k, v);
      forall n
        ensures Lookup(Accumulate(acc, k, v), n) == SumWhere(s, key, val, n)
      {
        AccumulateLookup(acc, k, v, n);
      }
      Accumulate(acc, k, v)
  }

  /** Every entry holds the sum for its name, and names are distinct keys
      that occur in the input, each key once. */
  lemma GroupSumEntries<T, K(!new)>(s: seq<T>, key: T -> K, val: T -> int)
    ensures var r := GroupSum(s, key, val);
      && Distinct(Names(r))
      && (forall n :: n in Names(r) <==> n in Map(s, key))
      && (forall i :: 0 <= i < |r| ==> r[i].value == SumWhere(s, key, val, r[i].name))
  {
    var r := GroupSum(s, key, val);
    forall i | 0 <= i < |r|
      ensures r[i].value == SumWhere(s, key, val, r[i].name)
    {
      LookupAt(r, i);
    }
  }
}
