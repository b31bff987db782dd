/** The JavaScript string operations the dashboard relies on: `trim`,
    `split` on one character, decimal rendering of a count in a template
    literal, and the relational `<` on strings. */
module Text {
  import opened Seqs

  /** ECMAScript WhiteSpace and LineTerminator code points, which is what
      `String.prototype.trim` strips. */
  predicate IsSpace(c: char)
  {
    || c == '\t' || c == '\n' || c == '\U{000B}' || c == '\U{000C}' || c == '\r'
    || c == ' ' || c == '\U{00A0}' || c == '\U{1680}'
    || ('\U{2000}' <= c <= '\U{200A}')
    || c == '\U{2028}' || c == '\U{2029}' || c == '\U{202F}' || c == '\U{205F}'
    || c == '\U{3000}' || c == '\U{FEFF}'
  }

  predicate AllSpace(s: string)
  {
    forall i :: 0 <= i < |s| ==> IsSpace(s[i])
  }

  /** Neither end is white space. */
  predicate IsTrimmed(s: string)
  {
    |s| == 0 || (!IsSpace(s[0]) && !IsSpace(Last(s)))
  }

  /** The index of the first character from `i` on that is not white
      space, or `|s|` when there is none. */
  function SkipSpaces(s: string, i: nat): (r: nat)
    requires i <= |s|
    ensures i <= r <= |s|
    ensures forall k :: i <= k < r ==> IsSpace(s[k])
    ensures r < |s| ==> !IsSpace(s[r])
    decreases |s| - i
  {
    if i < |s| && IsSpace(s[i]) then SkipSpaces(s, i + 1) else i
  }

  /** Going down from `j`, but not below `lo`: the end of the last character
      that is not white space, or `lo` when there is none. */
  function SkipSpacesBack(s: string, lo: nat, j: nat): (r: nat)
    requires lo <= j <= |s|
    ensures lo <= r <= j
    ensures forall k :: r <= k < j ==> IsSpace(s[k])
    ensures r > lo ==> !IsSpace(s[r - 1])
    decreases j
  {
    if j > lo && IsSpace(s[j - 1]) then SkipSpacesBack(s, lo, j - 1) else j
  }

  /** `String.prototype.trim`: the text between the leading and the trailing
      white space. */
  function Trim(s: string): (r: string)
    ensures IsTrimmed(r)
    ensures |r| <= |s|
    ensures r == [] <==> AllSpace(s)
  {
    var a := SkipSpaces(s, 0);
    var b := SkipSpacesBack(s, a, |s|);
    TrimEmptyIff(s, a, b);
    s[a..b]
  }

  lemma TrimEmptyIff(s: string, a: nat, b: nat)
    requires a == SkipSpaces(s, 0) && b == SkipSpacesBack(s, a, |s|)
    ensures a == b <==> AllSpace(s)
  {
  }

  /** What trimming removes is white space at the two ends, and what it
      keeps is the contiguous middle of the text. */
  lemma TrimShape(s: string)
    ensures var a := SkipSpaces(s, 0); var r := Trim(s);
      && a + |r| <= |s| && r == s[a..a + |r|]
      && AllSpace(s[..a]) && AllSpace(s[a + |r|..])
  {
  }

  /** Trimming trimmed text changes nothing. */
  lemma TrimTrimmed(s: string)
    requires IsTrimmed(s)
    ensures Trim(s) == s
  {
    if |s| > 0 {
      assert SkipSpaces(s, 0) == 0;
      assert SkipSpacesBack(s, 0, |s|) == |s|;
    }
  }

  /** Trimming twice is trimming once. */
  lemma TrimIdempotent(s: string)
    ensures Trim(Trim(s)) == Trim(s)
  {
    TrimTrimmed(Trim(s));
  }

  /** The digit character for a value below ten. */
  function DigitChar(d: nat): (c: char)
    requires d < 10
    ensures '0' <= c <= '9'
  {
    (('0' as int) + d) as char
  }

  /** The decimal rendering of a count, as `${n}` produces for a
      non-negative integer. */
  function NatToString(n: nat): (r: string)
    ensures |r| >= 1
    ensures forall i :: 0 <= i < |r| ==> '0' <= r[i] <= '9'
  {
    if n < 10 then [DigitChar(n)] else NatToString(n / 10) + [DigitChar(n % 10)]
  }

  /** Reads back a string of decimal digits. */
  function ParseNat(s: string): nat
    requires forall i :: 0 <= i < |s| ==> '0' <= s[i] <= '9'
  {
    if |s| == 0 then 0 else ParseNat(DropLast(s)) * 10 + (Last(s) as int - '0' as int)
  }

  lemma {:induction false} ParseNatToString(n: nat)
    ensures ParseNat(NatToString(n)) == n
  {
    if n < 10 {
      assert DropLast(NatToString(n)) == [];
    } else {
      var p := NatToString(n / 10);
      assert DropLast(p + [DigitChar(n % 10)]) == p;
      ParseNatToString(n / 10);
    }
  }

  /** Distinct counts render differently. */
  lemma NatToStringInjective(a: nat, b: nat)
    requires NatToString(a) == NatToString(b)
    ensures a == b
  {
    ParseNatToString(a);
    ParseNatToString(b);
  }

  /** `s.split(sep)` for a one-character separator: the pieces between the
      separators, so there is always at least one piece. */
  function Split(s: string, sep: char): (r: seq<string>)
    ensures |r| >= 1
    ensures forall i :: 0 <= i < |r| ==> sep !in r[i]
  {
    if |s| == 0 then [""]
    else
      var parts := Split(DropLast(s), sep);
      if Last(s) == sep then parts + [""]
      else DropLast(parts) + [Last(parts) + [Last(s)]]
  }

  /** `parts.join(sep)`. */
  function Join(parts: seq<string>, sep: char): string
  {
    if |parts| == 0 then ""
    else if |parts| == 1 then parts[0]
    else Join(DropLast(parts), sep) + [sep] + Last(parts)
  }

  /** Joining the pieces of a split restores the text. */
  lemma {:induction false} JoinSplit(s: string, sep: char)
    ensures Join(Split(s, sep), sep) == s
  {
    if |s| > 0 {
      LastSplit(s);
      var parts := Split(DropLast(s), sep);
      JoinSplit(DropLast(s), sep);
      var r := Split(s, sep);
      if Last(s) == sep {
        assert DropLast(r) == parts;
      } else if |parts| == 1 {
        assert r == [parts[0] + [Last(s)]];
      } else {
        assert DropLast(r) == DropLast(parts);
        assert Join(parts, sep) == Join(DropLast(parts), sep) + [sep] + Last(parts);
      }
    }
  }

  lemma {:induction false} SplitAppendSep(t: string, sep: char)
    ensures Split(t + [sep], sep) == Split(t, sep) + [""]
  {
    assert DropLast(t + [sep]) == t;
  }

  /** One step of `Split`: a separator opens a new piece, any other
      character extends the last one. */
  lemma SplitSnoc(t: string, c: char, sep: char)
    ensures var s := Split(t, sep);
      Split(t + [c], sep) == if c == sep then s + [""] else DropLast(s) + [Last(s) + [c]]
  {
    SnocParts(t, c);
  }

  lemma {:induction false} SplitAppendText(t: string, w: string, sep: char)
    requires sep !in w
    ensures Split(t + w, sep) == DropLast(Split(t, sep)) + [Last(Split(t, sep)) + w]
    decreases |w|
  {
    var s := Split(t, sep);
    if |w| == 0 {
      assert t + w == t;
      assert Last(s) + w == Last(s);
      LastSplit(s);
    } else {
      var front, c := DropLast(w), Last(w);
      assert c in w;
      LastSplit(w);
      SplitAppendText(t, front, sep);
      AppendAssoc(t, front, [c]);
      SplitSnoc(t + front, c, sep);
      SnocParts(DropLast(s), Last(s) + front);
      AppendAssoc(Last(s), front, [c]);
    }
  }

  /** A text without the separator is one piece. */
  lemma SplitWithoutSeparator(s: string, sep: char)
    requires sep !in s
    ensures Split(s, sep) == [s]
  {
    SplitAppendText([], s, sep);
    assert [] + s == s;
  }

  /** Splitting joined pieces that contain no separator gives them back. */
  lemma {:induction false} SplitJoin(parts: seq<string>, sep: char)
    requires |parts| >= 1
    requires forall i :: 0 <= i < |parts| ==> sep !in parts[i]
    ensures Split(Join(parts, sep), sep) == parts
  {
    if |parts| == 1 {
      SplitAppendText([], parts[0], sep);
      assert [] + parts[0] == parts[0];
    } else {
      var front := DropLast(parts);
      var j := Join(front, sep);
      SplitJoin(front, sep);
      assert Join(parts, sep) == (j + [sep]) + Last(parts);
      SplitAppendSep(j, sep);
      var u := Split(j + [sep], sep);
      assert u == front + [""];
      assert DropLast(u) == front && Last(u) == "";
      SplitAppendText(j + [sep], Last(parts), sep);
      assert "" + Last(parts) == Last(parts);
      LastSplit(parts);
    }
  }

  /** The relational `<` on strings: lexicographic by character, a proper
      prefix before its extensions. */
  predicate StrLess(a: string, b: string)
  {
    if |b| == 0 then false
    else if |a| == 0 then true
    else if a[0] != b[0] then a[0] < b[0]
    else StrLess(a[1..], b[1..])
  }

  lemma {:induction false} StrLessIrreflexive(a: string)
    ensures !StrLess(a, a)
  {
    if |a| > 0 {
      StrLessIrreflexive(a[1..]);
    }
  }

  lemma {:induction false} StrLessTransitive(a: string, b: string, c: string)
    requires StrLess(a, b) && StrLess(b, c)
    ensures StrLess(a, c)
  {
    if |a| > 0 && a[0] == b[0] && b[0] == c[0] {
      StrLessTransitive(a[1..], b[1..], c[1..]);
    }
  }

  lemma {:induction false} StrLessTotal(a: string, b: string)
    ensures a == b || StrLess(a, b) || StrLess(b, a)
  {
    if |a| > 0 && |b| > 0 && a[0] == b[0] {
      StrLessTotal(a[1..], b[1..]);
      if a[1..] == b[1..] {
        assert a == [a[0]] + a[1..] && b == [b[0]] + b[1..];
      }
    }
  }

  lemma StrLessAsymmetric(a: string, b: string)
    requires StrLess(a, b)
    ensures !StrLess(b, a)
  {
    if StrLess(b, a) {
      StrLessTransitive(a, b, a);
      StrLessIrreflexive(a);
    }
  }
}
