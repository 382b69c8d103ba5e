/** Character and string facts the extraction pipeline relies on: Python's
    notion of whitespace (shared by `\s` in a str pattern and `str.strip()`),
    `str.strip()`, Python's lexicographic `<` on strings, `str()` of an
    integer, and the `yyyy/mm/dd` date strings compared by the dashboard. */
module Text {
  import opened Wrappers

  /** Python's `str.isspace()`; the regex class `\s` of a str pattern
      matches exactly these characters as well. */
  predicate IsSpace(c: char) {
    || ('\t' <= c <= '\r')
    || ('\U{1C}' <= c <= '\U{1F}')
    || c == ' '
    || c == '\U{85}'
    || c == '\U{A0}'
    || c == '\U{1680}'
    || ('\U{2000}' <= c <= '\U{200A}')
    || c == '\U{2028}'
    || c == '\U{2029}'
    || c == '\U{202F}'
    || c == '\U{205F}'
    || c == '\U{3000}'
  }

  /** `w` occurs in `t` starting at index `i`. */
  predicate At(t: string, i: int, w: string) {
    0 <= i && i + |w| <= |t| && t[i..i + |w|] == w
  }

  /** `t[i..j]` is a (possibly empty) run of whitespace. */
  predicate AllSpace(t: string, i: int, j: int) {
    0 <= i <= j <= |t| && forall k :: i <= k < j ==> IsSpace(t[k])
  }

  /** The end of the longest whitespace run starting at `i`. */
  function SkipSpace(t: string, i: nat): (j: nat)
    requires i <= |t|
    ensures AllSpace(t, i, j)
    ensures j == |t| || !IsSpace(t[j])
    decreases |t| - i
  {
    if i == |t| || !IsSpace(t[i]) then i else SkipSpace(t, i + 1)
  }

  /** A whitespace run that stops at a non-space character is the longest one. */
  lemma SpaceRunEnd(t: string, i: nat, z: int)
    requires i <= |t| && AllSpace(t, i, z) && z < |t| && !IsSpace(t[z])
    ensures z == SkipSpace(t, i)
  {
  }

  /** The start of the trailing whitespace run of `t[lo..hi]`. */
  function SkipSpaceBack(t: string, lo: nat, hi: nat): (j: nat)
    requires lo <= hi <= |t|
    ensures lo <= j <= hi && AllSpace(t, j, hi)
    ensures j == lo || !IsSpace(t[j - 1])
    decreases hi
  {
    if hi == lo || !IsSpace(t[hi - 1]) then hi else SkipSpaceBack(t, lo, hi - 1)
  }

  /** Python's `s.strip()`: drop leading and trailing whitespace. */
  function Strip(s: string): (r: string)
    ensures exists i, j :: 0 <= i <= j <= |s| && r == s[i..j] && AllSpace(s, 0, i) && AllSpace(s, j, |s|)
    ensures r == [] || (!IsSpace(r[0]) && !IsSpace(r[|r| - 1]))
  {
    var i := SkipSpace(s, 0);
    var j := SkipSpaceBack(s, i, |s|);
    assert AllSpace(s, j, |s|);
    s[i..j]
  }

  /** Python's `a < b` on strings: lexicographic order on code points, a
      proper prefix coming first. */
  predicate LexLess(a: string, b: string) {
    if a == [] then b != []
    else if b == [] then false
    else if a[0] != b[0] then a[0] < b[0]
    else LexLess(a[1..], b[1..])
  }

  lemma {:induction false} LexLessIrreflexive(a: string)
    ensures !LexLess(a, a)
  {
    if a != [] {
      LexLessIrreflexive(a[1..]);
    }
  }

  lemma {:induction false} LexLessTransitive(a: string, b: string, c: string)
    requires LexLess(a, b) && LexLess(b, c)
    ensures LexLess(a, c)
  {
    if a != [] && b != [] && c != [] && a[0] == b[0] && b[0] == c[0] {
      LexLessTransitive(a[1..], b[1..], c[1..]);
    }
  }

  /** Python's `<` on strings is a strict total order. */
  lemma {:induction false} LexLessTrichotomy(a: string, b: string)
    ensures LexLess(a, b) || a == b || LexLess(b, a)
  {
    if a != [] && b != [] && a[0] == b[0] {
      LexLessTrichotomy(a[1..], b[1..]);
      if a[1..] == b[1..] {
        assert a == [a[0]] + a[1..] && b == [b[0]] + b[1..];
      }
    }
  }

  /** Comparing two strings whose heads have the same length decides on the
      heads first and only on a tie looks at the tails. */
  lemma {:induction false} LexLessConcat(a1: string, a2: string, b1: string, b2: string)
    requires |a1| == |b1|
    ensures LexLess(a1 + a2, b1 + b2) <==> LexLess(a1, b1) || (a1 == b1 && LexLess(a2, b2))
  {
    if a1 != [] {
      assert (a1 + a2)[0] == a1[0] && (b1 + b2)[0] == b1[0];
      assert (a1 + a2)[1..] == a1[1..] + a2 && (b1 + b2)[1..] == b1[1..] + b2;
      LexLessConcat(a1[1..], a2, b1[1..], b2);
      if a1[0] == b1[0] && a1[1..] == b1[1..] {
        assert a1 == [a1[0]] + a1[1..] && b1 == [b1[0]] + b1[1..];
      }
      if a1 == b1 {
        assert a1[1..] == b1[1..];
      }
    } else {
      assert a1 + a2 == a2 && b1 + b2 == b2;
    }
  }

  predicate IsDigit(c: char) {
    '0' <= c <= '9'
  }

  predicate AllDigits(s: string) {
    forall k :: 0 <= k < |s| ==> IsDigit(s[k])
  }

  function DigitChar(d: nat): (c: char)
    requires d < 10
    ensures IsDigit(c)
  {
    (48 + d) as char
  }

  function DigitValue(c: char): (d: nat)
    requires IsDigit(c)
    ensures d < 10
  {
    c as int - 48
  }

  /** The number a string of decimal digits denotes. */
  function DigitsValue(s: string): (n: nat)
    requires AllDigits(s)
  {
    if s == [] then 0 else DigitsValue(s[..|s| - 1]) * 10 + DigitValue(s[|s| - 1])
  }

  /** Python's `str(n)` for a non-negative integer. */
  function NatToString(n: nat): (s: string)
    ensures s != [] && AllDigits(s)
    decreases n
  {
    if n < 10 then [DigitChar(n)] else NatToString(n / 10) + [DigitChar(n % 10)]
  }

  /** Python's `str(i)` for any integer. */
  function IntToString(i: int): (s: string)
    ensures s != []
  {
    if i < 0 then "-" + NatToString(-i) else NatToString(i)
  }

  /** Python's `int(s)` restricted to an optional minus sign and decimal
      digits; the inverse that shows `str()` of an integer loses nothing. */
  function ParseInt(s: string): (r: Option<int>)
  {
    if |s| > 1 && s[0] == '-' && AllDigits(s[1..]) then Some(0 - DigitsValue(s[1..]))
    else if s != [] && AllDigits(s) then Some(DigitsValue(s))
    else None
  }

  lemma {:induction false} NatToStringValue(n: nat)
    ensures DigitsValue(NatToString(n)) == n
    ensures NatToString(n)[0] != '0' || n == 0
    decreases n
  {
    var s := NatToString(n);
    if n >= 10 {
      NatToStringValue(n / 10);
      assert s[..|s| - 1] == NatToString(n / 10);
      assert s[0] == NatToString(n / 10)[0];
    }
  }

  /** `str()` of an integer is decimal text that reads back as the same
      integer: no rounding, no exponent. */
  lemma IntToStringRoundTrip(i: int)
    ensures ParseInt(IntToString(i)) == Some(i)
  {
    if i < 0 {
      NatToStringValue(-i);
      assert IntToString(i)[1..] == NatToString(-i);
    } else {
      NatToStringValue(i);
      var s := IntToString(i);
      assert s[0] != '-';
    }
  }

  /** Two digit strings of equal length compare as strings exactly as the
      numbers they denote compare. */
  lemma {:induction false} LexLessDigits(a: string, b: string)
    requires |a| == |b| && AllDigits(a) && AllDigits(b)
    ensures LexLess(a, b) <==> DigitsValue(a) < DigitsValue(b)
    ensures a == b <==> DigitsValue(a) == DigitsValue(b)
    decreases |a|
  {
    if a != [] {
      var n := |a| - 1;
      var a1, b1 := a[..n], b[..n];
      assert AllDigits(a1) && AllDigits(b1);
      LexLessDigits(a1, b1);
      LexLessConcat(a1, [a[n]], b1, [b[n]]);
      assert a == a1 + [a[n]] && b == b1 + [b[n]];
      var x, y := DigitValue(a[n]), DigitValue(b[n]);
      assert DigitsValue(a) == DigitsValue(a1) * 10 + x;
      assert DigitsValue(b) == DigitsValue(b1) * 10 + y;
      assert LexLess([a[n]], [b[n]]) <==> x < y;
      LexLessTrichotomy(a1, b1);
      if a1 != b1 {
        LexLessDigits(b1, a1);
      }
    }
  }

  /** A `yyyy/mm/dd` string, the format the dashboard compares. */
  predicate IsDate(s: string) {
    && |s| == 10
    && AllDigits(s[0..4]) && s[4] == '/'
    && AllDigits(s[5..7]) && s[7] == '/'
    && AllDigits(s[8..10])
  }

  /** The calendar position of a `yyyy/mm/dd` string as one number. */
  function DateKey(s: string): (key: nat)
    requires IsDate(s)
  {
    DigitsValue(s[0..4]) * 10000 + DigitsValue(s[5..7]) * 100 + DigitsValue(s[8..10])
  }

  lemma TwoDigitsBelow100(s: string)
    requires |s| == 2 && AllDigits(s)
    ensures DigitsValue(s) < 100
  {
    var s0 := s[..1];
    assert AllDigits(s0) && s0[..0] == [];
    assert DigitsValue(s0) == DigitValue(s[0]);
    assert DigitsValue(s) == DigitsValue(s0) * 10 + DigitValue(s[1]);
  }

  /** Year, month and day compared in that order. */
  lemma DateKeyOrder(y1: nat, m1: nat, d1: nat, y2: nat, m2: nat, d2: nat)
    requires m1 < 100 && d1 < 100 && m2 < 100 && d2 < 100
    ensures y1 * 10000 + m1 * 100 + d1 < y2 * 10000 + m2 * 100 + d2
        <==> y1 < y2 || (y1 == y2 && (m1 < m2 || (m1 == m2 && d1 < d2)))
  {
    if y1 < y2 {
      assert y1 * 10000 + 10000 <= y2 * 10000;
    } else if y2 < y1 {
      assert y2 * 10000 + 10000 <= y1 * 10000;
    }
  }

  /** For well-formed `yyyy/mm/dd` strings, string comparison is date
      comparison; outside that format the two can disagree. */
  lemma DateStringOrder(a: string, b: string)
    requires IsDate(a) && IsDate(b)
    ensures LexLess(a, b) <==> DateKey(a) < DateKey(b)
  {
    var ya, ma, da := a[0..4], a[5..7], a[8..10];
    var yb, mb, db := b[0..4], b[5..7], b[8..10];
    assert a == ya + ([a[4]] + (ma + ([a[7]] + da)));
    assert b == yb + ([b[4]] + (mb + ([b[7]] + db)));
    LexLessConcat(ya, [a[4]] + (ma + ([a[7]] + da)), yb, [b[4]] + (mb + ([b[7]] + db)));
    LexLessConcat([a[4]], ma + ([a[7]] + da), [b[4]], mb + ([b[7]] + db));
    LexLessConcat(ma, [a[7]] + da, mb, [b[7]] + db);
    LexLessConcat([a[7]], da, [b[7]], db);
    LexLessIrreflexive([a[4]]);
    LexLessIrreflexive([a[7]]);
    LexLessDigits(ya, yb);
    LexLessDigits(ma, mb);
    LexLessDigits(da, db);
    TwoDigitsBelow100(ma);
    TwoDigitsBelow100(mb);
    TwoDigitsBelow100(da);
    TwoDigitsBelow100(db);
    DateKeyOrder(DigitsValue(ya), DigitsValue(ma), DigitsValue(da), DigitsValue(yb), DigitsValue(mb), DigitsValue(db));
  }

  /** No string occurs twice in `keys`. */
  predicate Distinct(keys: seq<string>) {
    forall i, j :: 0 <= i < j < |keys| ==> keys[i] != keys[j]
  }

  /** No key of `a` is a key of `b`. */
  predicate Disjoint(a: seq<string>, b: seq<string>) {
    forall i, j :: 0 <= i < |a| && 0 <= j < |b| ==> a[i] != b[j]
  }

  lemma {:induction false} DistinctConcat(a: seq<string>, b: seq<string>)
    requires Distinct(a) && Distinct(b) && Disjoint(a, b)
    ensures Distinct(a + b)
  {
    forall i, j | 0 <= i < j < |a + b|
      ensures (a + b)[i] != (a + b)[j]
    {
      if j < |a| {
        assert (a + b)[i] == a[i] && (a + b)[j] == a[j];
      } else if i < |a| {
        assert (a + b)[i] == a[i] && (a + b)[j] == b[j - |a|];
      } else {
        assert (a + b)[i] == b[i - |a|] && (a + b)[j] == b[j - |a|];
      }
    }
  }

  lemma {:induction false} DisjointConcat(a1: seq<string>, a2: seq<string>, b: seq<string>)
    requires Disjoint(a1, b) && Disjoint(a2, b)
    ensures Disjoint(a1 + a2, b)
  {
    forall i, j | 0 <= i < |a1 + a2| && 0 <= j < |b|
      ensures (a1 + a2)[i] != b[j]
    {
      if i < |a1| {
        assert (a1 + a2)[i] == a1[i];
      } else {
        assert (a1 + a2)[i] == a2[i - |a1|];
      }
    }
  }

  lemma {:induction false} DistinctSplit(a: seq<string>, b: seq<string>)
    requires Distinct(a + b)
    ensures Distinct(a) && Distinct(b) && Disjoint(a, b)
  {
    forall i, j | 0 <= i < j < |a|
      ensures a[i] != a[j]
    {
      assert (a + b)[i] == a[i] && (a + b)[j] == a[j];
    }
    forall i, j | 0 <= i < j < |b|
      ensures b[i] != b[j]
    {
      assert (a + b)[|a| + i] == b[i] && (a + b)[|a| + j] == b[j];
    }
    forall i, j | 0 <= i < |a| && 0 <= j < |b|
      ensures a[i] != b[j]
    {
      assert (a + b)[i] == a[i] && (a + b)[|a| + j] == b[j];
    }
  }

  lemma DisjointSubset(a': seq<string>, a: seq<string>, b: seq<string>)
    requires forall x :: x in a' ==> x in a
    requires Disjoint(a, b)
    ensures Disjoint(a', b)
  {
    forall i, j | 0 <= i < |a'| && 0 <= j < |b|
      ensures a'[i] != b[j]
    {
      assert a'[i] in a;
    }
  }
}
