/** The comparator of the sales table (components/DataTable.tsx) and the
    stable sort that `Array.prototype.sort` performs with it. The same sort,
    by date and ascending, orders the stored records (App.tsx,
    hooks/useMockData.ts). */
module Sorting {
  import opened Seqs
  import opened Text
  import opened Sales

  /** The selectable keys: every field but `id` and `customer`, and
      `customer.name`. */
  datatype SortKey = ByDate | ByProduct | ByCategory | ByRegion | ByRevenue | ByUnitsSold | ByCustomerName

  datatype Direction = Ascending | Descending

  datatype SortConfig = SortConfig(key: SortKey, direction: Direction)

  /** Chronological order, as the stored records are kept. */
  const DateOrder := SortConfig(ByDate, Ascending)

  /** What a key reads from a record. A date is compared as its day number,
      which orders like its `YYYY-MM-DD` text. */
  datatype SortValue = Num(n: int) | Str(s: string)

  function ValueOf(x: Sale, key: SortKey): SortValue
  {
    match key
    case ByDate => Num(x.date)
    case ByProduct => Str(x.product)
    case ByCategory => Str(x.category)
    case ByRegion => Str(x.region)
    case ByRevenue => Num(x.revenue)
    case ByUnitsSold => Num(x.unitsSold)
    case ByCustomerName => Str(x.customer.name)
  }

  /** `<` on the values of one key. One key never yields both kinds, so the
      order between a number and a text is only there to make `Less` total. */
  predicate Less(a: SortValue, b: SortValue)
  {
    match a
    case Num(m) => (match b case Num(n) => m < n case Str(_) => true)
    case Str(s) => (match b case Num(_) => false case Str(t) => StrLess(s, t))
  }

  lemma LessIrreflexive(a: SortValue)
    ensures !Less(a, a)
  {
    if a.Str? {
      StrLessIrreflexive(a.s);
    }
  }

  lemma LessTransitive(a: SortValue, b: SortValue, c: SortValue)
    requires Less(a, b) && Less(b, c)
    ensures Less(a, c)
  {
    if a.Str? && b.Str? && c.Str? {
      StrLessTransitive(a.s, b.s, c.s);
    }
  }

  lemma LessTotal(a: SortValue, b: SortValue)
    ensures a == b || Less(a, b) || Less(b, a)
  {
    if a.Str? && b.Str? {
      StrLessTotal(a.s, b.s);
    }
  }

  lemma LessAsymmetric(a: SortValue, b: SortValue)
    requires Less(a, b)
    ensures !Less(b, a)
  {
    if a.Str? && b.Str? {
      StrLessAsymmetric(a.s, b.s);
    }
  }

  /** The comparator handed to `sort`: negative when `a` goes first, positive
      when `b` goes first, zero when their values are equal. */
  function Compare(c: SortConfig, a: Sale, b: Sale): int
  {
    var av := ValueOf(a, c.key);
    var bv := ValueOf(b, c.key);
    if Less(av, bv) then (if c.direction == Ascending then -1 else 1)
    else if Less(bv, av) then (if c.direction == Ascending then 1 else -1)
    else 0
  }

  lemma CompareFlip(c: SortConfig, a: Sale, b: Sale)
    ensures Compare(c, a, b) == -Compare(c, b, a)
  {
    var av := ValueOf(a, c.key);
    var bv := ValueOf(b, c.key);
    if Less(av, bv) {
      LessAsymmetric(av, bv);
    }
  }

  lemma CompareZero(c: SortConfig, a: Sale, b: Sale)
    ensures Compare(c, a, b) == 0 <==> ValueOf(a, c.key) == ValueOf(b, c.key)
  {
    LessTotal(ValueOf(a, c.key), ValueOf(b, c.key));
    LessIrreflexive(ValueOf(a, c.key));
  }

  /** `a` strictly before `b`, `b` not after `d`: `a` strictly before `d`. */
  lemma CompareStrictTransitive(c: SortConfig, a: Sale, b: Sale, d: Sale)
    requires Compare(c, a, b) < 0 && Compare(c, b, d) <= 0
    ensures Compare(c, a, d) < 0
  {
    var av, bv, dv := ValueOf(a, c.key), ValueOf(b, c.key), ValueOf(d, c.key);
    LessTotal(bv, dv);
    if c.direction == Ascending {
      assert Less(av, bv);
      if Less(bv, dv) {
        LessTransitive(av, bv, dv);
      } else {
        assert bv == dv;
      }
    } else {
      assert Less(bv, av);
      assert !Less(bv, dv);
      if bv != dv {
        LessTransitive(dv, bv, av);
      }
      LessAsymmetric(dv, av);
    }
  }

  /** Adjacent records never compare as out of order. */
  predicate Sorted(c: SortConfig, s: seq<Sale>)
  {
    forall i :: 0 <= i < |s| - 1 ==> Compare(c, s[i], s[i + 1]) <= 0
  }

  /** In a sorted sequence, whatever is strictly before the head is strictly
      before every element. */
  lemma {:induction false} BeforeAll(c: SortConfig, x: Sale, t: seq<Sale>)
    requires Sorted(c, t) && |t| > 0 && Compare(c, x, t[0]) < 0
    ensures forall j :: 0 <= j < |t| ==> Compare(c, x, t[j]) < 0
  {
    if |t| > 1 {
      CompareStrictTransitive(c, x, t[0], t[1]);
      BeforeAll(c, x, t[1..]);
      assert forall j :: 1 <= j < |t| ==> t[j] == t[1..][j - 1];
    }
  }

  /** An element that does not come after the head of a sorted sequence can
      go in front of it. */
  lemma SortedCons(c: SortConfig, a: Sale, r: seq<Sale>)
    requires Sorted(c, r)
    requires |r| > 0 ==> Compare(c, a, r[0]) <= 0
    ensures Sorted(c, [a] + r)
  {
    forall i | 0 <= i < |r|
      ensures Compare(c, ([a] + r)[i], ([a] + r)[i + 1]) <= 0
    {
      if i > 0 {
        assert ([a] + r)[i] == r[i - 1] && ([a] + r)[i + 1] == r[i];
      }
    }
  }

  /** Places `x` after every element it does not precede. */
  function Insert(c: SortConfig, x: Sale, s: seq<Sale>): (r: seq<Sale>)
    requires Sorted(c, s)
    ensures Sorted(c, r)
    ensures multiset(r) == multiset(s) + multiset{x}
    ensures r[0] == x || (|s| > 0 && r[0] == s[0])
  {
    if |s| == 0 then [x]
    else if Compare(c, x, s[0]) < 0 then
      SortedCons(c, x, s);
      [x] + s
    else
      CompareFlip(c, x, s[0]);
      HeadTail(s);
      var rest := Insert(c, x, s[1..]);
      assert |s| > 1 ==> Compare(c, s[0], s[1]) <= 0;
      SortedCons(c, s[0], rest);
      [s[0]] + rest
  }

  /** `[...data].sort(comparator)`: a stable sort, modelled as insertion of
      each element, in input order, into the sorted prefix. */
  function Sort(c: SortConfig, s: seq<Sale>): (r: seq<Sale>)
    ensures Sorted(c, r)
    ensures multiset(r) == multiset(s)
    ensures |r| == |s|
    ensures forall i :: 0 <= i < |r| - 1 ==>
      InOrder(c.direction, ValueOf(r[i], c.key), ValueOf(r[i + 1], c.key))
  {
    if |s| == 0 then []
    else
      LastSplit(s);
      var r := Insert(c, Last(s), Sort(c, DropLast(s)));
      assert |r| == |multiset(r)| == |s|;
      SortedInOrder(c, r);
      r
  }

  /** Non-decreasing values when ascending, non-increasing when descending. */
  predicate InOrder(d: Direction, a: SortValue, b: SortValue)
  {
    if d == Ascending then !Less(b, a) else !Less(a, b)
  }

  lemma SortedInOrder(c: SortConfig, s: seq<Sale>)
    requires Sorted(c, s)
    ensures forall i :: 0 <= i < |s| - 1 ==>
      InOrder(c.direction, ValueOf(s[i], c.key), ValueOf(s[i + 1], c.key))
  {
    forall i | 0 <= i < |s| - 1
      ensures InOrder(c.direction, ValueOf(s[i], c.key), ValueOf(s[i + 1], c.key))
    {
      var a, b := ValueOf(s[i], c.key), ValueOf(s[i + 1], c.key);
      if Less(a, b) {
        LessAsymmetric(a, b);
      }
    }
  }

  /** The records whose key reads `v`. */
  function HasValue(key: SortKey, v: SortValue): Sale -> bool
  {
    x => ValueOf(x, key) == v
  }

  lemma FilterSingleton(x: Sale, p: Sale -> bool)
    ensures Filter([x], p) == if p(x) then [x] else []
  {
    assert DropLast([x]) == [];
  }

  /** Nothing in a sorted sequence ties with an element strictly before its head. */
  lemma NoTieAfter(c: SortConfig, x: Sale, t: seq<Sale>)
    requires Sorted(c, t) && |t| > 0 && Compare(c, x, t[0]) < 0
    ensures Filter(t, HasValue(c.key, ValueOf(x, c.key))) == []
  {
    var p := HasValue(c.key, ValueOf(x, c.key));
    BeforeAll(c, x, t);
    if Filter(t, p) != [] {
      var y := Filter(t, p)[0];
      assert y in Filter(t, p);
      var j :| 0 <= j < |t| && t[j] == y;
      CompareZero(c, x, t[j]);
      assert false;
    }
  }

  lemma FilterShift(a: Sale, rest: seq<Sale>, more: seq<Sale>, p: Sale -> bool, tail: seq<Sale>)
    requires Filter(rest, p) == Filter(more, p) + tail
    ensures Filter([a] + rest, p) == Filter([a] + more, p) + tail
  {
    FilterConcat([a], rest, p);
    FilterConcat([a], more, p);
    AppendAssoc(Filter([a], p), Filter(more, p), tail);
  }

  lemma InsertStableFront(c: SortConfig, x: Sale, t: seq<Sale>, v: SortValue)
    requires Sorted(c, t) && |t| > 0 && Compare(c, x, t[0]) < 0
    ensures Filter(Insert(c, x, t), HasValue(c.key, v))
         == Filter(t, HasValue(c.key, v)) + (if HasValue(c.key, v)(x) then [x] else [])
  {
    var p := HasValue(c.key, v);
    assert Insert(c, x, t) == [x] + t;
    FilterSingleton(x, p);
    FilterConcat([x], t, p);
    if p(x) {
      NoTieAfter(c, x, t);
    }
  }

  lemma {:induction false} InsertStable(c: SortConfig, x: Sale, t: seq<Sale>, v: SortValue)
    requires Sorted(c, t)
    ensures Filter(Insert(c, x, t), HasValue(c.key, v))
         == Filter(t, HasValue(c.key, v)) + (if HasValue(c.key, v)(x) then [x] else [])
  {
    if |t| == 0 {
      InsertStableEmpty(c, x, v);
    } else if Compare(c, x, t[0]) < 0 {
      InsertStableFront(c, x, t, v);
    } else {
      InsertStable(c, x, t[1..], v);
      InsertStableAfter(c, x, t, v);
    }
  }

  lemma InsertStableEmpty(c: SortConfig, x: Sale, v: SortValue)
    ensures Filter(Insert(c, x, []), HasValue(c.key, v))
         == Filter([], HasValue(c.key, v)) + (if HasValue(c.key, v)(x) then [x] else [])
  {
    FilterSingleton(x, HasValue(c.key, v));
  }

  /** The step of `InsertStable` when `x` goes past the head. */
  lemma InsertStableAfter(c: SortConfig, x: Sale, t: seq<Sale>, v: SortValue)
    requires Sorted(c, t) && |t| > 0 && Compare(c, x, t[0]) >= 0
    requires Filter(Insert(c, x, t[1..]), HasValue(c.key, v))
         == Filter(t[1..], HasValue(c.key, v)) + (if HasValue(c.key, v)(x) then [x] else [])
    ensures Filter(Insert(c, x, t), HasValue(c.key, v))
         == Filter(t, HasValue(c.key, v)) + (if HasValue(c.key, v)(x) then [x] else [])
  {
    var p := HasValue(c.key, v);
    var tail: seq<Sale> := if p(x) then [x] else [];
    InsertPast(c, x, t);
    FilterShift(t[0], Insert(c, x, t[1..]), t[1..], p, tail);
    HeadTail(t);
  }

  lemma InsertPast(c: SortConfig, x: Sale, t: seq<Sale>)
    requires Sorted(c, t) && |t| > 0 && Compare(c, x, t[0]) >= 0
    ensures Sorted(c, t[1..]) && Insert(c, x, t) == [t[0]] + Insert(c, x, t[1..])
  {
  }

  /** Records with equal values keep their input order: for every value, the
      records holding it appear in the output exactly as in the input. */
  lemma {:induction false} SortStable(c: SortConfig, s: seq<Sale>, v: SortValue)
    ensures Filter(Sort(c, s), HasValue(c.key, v)) == Filter(s, HasValue(c.key, v))
  {
    if |s| > 0 {
      LastSplit(s);
      SortStable(c, DropLast(s), v);
      InsertStable(c, Last(s), Sort(c, DropLast(s)), v);
    }
  }

  /** Sorted by date ascending means oldest first. */
  lemma DateOrderChronological(s: seq<Sale>)
    requires Sorted(DateOrder, s)
    ensures Chronological(s)
  {
    forall i | 0 <= i < |s| - 1
      ensures s[i].date <= s[i + 1].date
    {
      assert Compare(DateOrder, s[i], s[i + 1]) <= 0;
    }
  }
}
