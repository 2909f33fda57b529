/** Monthly partitions of the observations table: names, bounds and what they cover. */
module Partitioning {
  // ---- Zero-padded decimals ----

  function Digit(d: int): char
    requires 0 <= d < 10
  {
    '0' + d as char
  }

  function Pow10(w: nat): nat { if w == 0 then 1 else 10 * Pow10(w - 1) }

  /** The last w decimal digits of n. */
  function Digits(n: nat, w: nat): (s: string)
    ensures |s| == w
  {
    if w == 0 then "" else Digits(n / 10, w - 1) + [Digit(n % 10)]
  }

  function Width(n: nat): (w: nat)
    ensures n < Pow10(w)
  {
    if n < 10 then 1 else Width(n / 10) + 1
  }

  /** `{n:0wd}`: at least w digits, padded with zeros. */
  function Padded(n: nat, w: nat): string {
    Digits(n, if n < Pow10(w) then w else Width(n))
  }

  function DigitValue(c: char): int { c as int - '0' as int }

  function Value(s: string): int {
    if s == "" then 0 else 10 * Value(s[..|s| - 1]) + DigitValue(s[|s| - 1])
  }

  lemma {:induction false} DigitsValue(n: nat, w: nat)
    requires n < Pow10(w)
    ensures Value(Digits(n, w)) == n
  {
    if w > 0 {
      DigitsValue(n / 10, w - 1);
      var init := Digits(n / 10, w - 1);
      assert (init + [Digit(n % 10)])[..|init|] == init;
    }
  }

  lemma PaddedValue(n: nat, w: nat)
    ensures Value(Padded(n, w)) == n
  {
    DigitsValue(n, if n < Pow10(w) then w else Width(n));
  }

  // ---- String order ----

  /** Lexicographic order on strings of the same length. */
  predicate Before(a: string, b: string) {
    a != [] && b != [] && (a[0] < b[0] || (a[0] == b[0] && Before(a[1..], b[1..])))
  }

  lemma {:induction false} BeforeConcat(a: string, x: string, b: string, y: string)
    requires |a| == |b|
    ensures Before(a + x, b + y) <==> Before(a, b) || (a == b && Before(x, y))
  {
    if a == "" {
      assert a + x == x && b + y == y;
    } else {
      assert (a + x)[1..] == a[1..] + x && (b + y)[1..] == b[1..] + y;
      BeforeConcat(a[1..], x, b[1..], y);
      assert a == b <==> a[0] == b[0] && a[1..] == b[1..];
    }
  }

  lemma {:induction false} DigitsOrder(m: nat, n: nat, w: nat)
    requires m < Pow10(w) && n < Pow10(w)
    ensures Before(Digits(m, w), Digits(n, w)) <==> m < n
    ensures Digits(m, w) == Digits(n, w) <==> m == n
  {
    DigitsValue(m, w);
    DigitsValue(n, w);
    if w > 0 {
      DigitsOrder(m / 10, n / 10, w - 1);
      BeforeConcat(Digits(m / 10, w - 1), [Digit(m % 10)], Digits(n / 10, w - 1), [Digit(n % 10)]);
      assert Before([Digit(m % 10)], [Digit(n % 10)]) <==> m % 10 < n % 10;
    }
  }

  // ---- Bounds ----

  datatype Bounds = Bounds(name: string, start: string, end: string)

  function DateText(year: nat, month: nat, day: nat): string {
    Padded(year, 4) + "-" + Padded(month, 2) + "-" + Padded(day, 2)
  }

  function NextMonth(year: nat, month: nat): (nat, nat) {
    if month == 12 then (year + 1, 1) else (year, month + 1)
  }

  function PartitionName(year: nat, month: nat): string {
    "indicator_observations_" + Padded(year, 4) + "_" + Padded(month, 2)
  }

  function PartitionBounds(year: nat, month: nat): Bounds {
    var next := NextMonth(year, month);
    Bounds(PartitionName(year, month), DateText(year, month, 1), DateText(next.0, next.1, 1))
  }

  /** s writes n in decimal with w digits. */
  predicate Decimal(s: string, n: nat, w: nat) {
    |s| == w && (forall i :: 0 <= i < |s| ==> '0' <= s[i] <= '9') && Value(s) == n
  }

  lemma {:induction false} DigitsAreDecimal(n: nat, w: nat)
    requires n < Pow10(w)
    ensures Decimal(Digits(n, w), n, w)
  {
    DigitsValue(n, w);
    if w > 0 {
      DigitsAreDecimal(n / 10, w - 1);
    }
  }

  /** What name and bounds look like: four digits for a year, two for a month, and always the first day. */
  lemma BoundsText(year: nat, month: nat) returns (y: string, m: string, nextY: string, nextM: string)
    requires 1 <= month <= 12 && year + 1 < 10000
    ensures Decimal(y, year, 4) && Decimal(m, month, 2)
    ensures Decimal(nextY, if month == 12 then year + 1 else year, 4)
    ensures Decimal(nextM, if month == 12 then 1 else month + 1, 2)
    ensures PartitionBounds(year, month).name == "indicator_observations_" + y + "_" + m
    ensures PartitionBounds(year, month).start == y + "-" + m + "-" + "01"
    ensures PartitionBounds(year, month).end == nextY + "-" + nextM + "-" + "01"
  {
    var next := NextMonth(year, month);
    y, m, nextY, nextM := Padded(year, 4), Padded(month, 2), Padded(next.0, 4), Padded(next.1, 2);
    assert Pow10(2) == 100 && Pow10(4) == 10000;
    DigitsAreDecimal(year, 4);
    DigitsAreDecimal(month, 2);
    DigitsAreDecimal(next.0, 4);
    DigitsAreDecimal(next.1, 2);
    FirstDay();
  }

  lemma FirstDay()
    ensures Padded(1, 2) == "01"
  {
    assert Pow10(2) == 100;
    assert Digits(1, 2) == Digits(0, 1) + [Digit(1)] && Digits(0, 1) == Digits(0, 0) + [Digit(0)];
  }

  /** Months counted from the beginning of year zero. */
  function MonthNumber(year: nat, month: nat): int { year * 12 + month - 1 }

  /** The i-th month from a given one, as the source computes it. */
  function MonthAfter(year: nat, month: nat, i: nat): (nat, nat)
    requires 1 <= month <= 12
  {
    (year + (month - 1 + i) / 12, (month - 1 + i) % 12 + 1)
  }

  lemma MonthAfterCounts(year: nat, month: nat, i: nat)
    requires 1 <= month <= 12
    ensures var m := MonthAfter(year, month, i);
      1 <= m.1 <= 12 && MonthNumber(m.0, m.1) == MonthNumber(year, month) + i
    ensures var m := MonthAfter(year, month, i); NextMonth(m.0, m.1) == MonthAfter(year, month, i + 1)
  {
  }

  /** The bounds of the i-th of the next months. */
  function NextBounds(year: nat, month: nat, i: nat): Bounds
    requires 1 <= month <= 12
  {
    PartitionBounds(MonthAfter(year, month, i).0, MonthAfter(year, month, i).1)
  }

  /** One CREATE TABLE per month; `names` is what the source returns. */
  method EnsureNextMonths(year: nat, month: nat, n: nat) returns (names: seq<string>, created: seq<Bounds>)
    requires 1 <= month <= 12
    ensures |created| == n && names == seq(n, i requires 0 <= i < n => created[i].name)
    ensures forall i :: 0 <= i < n ==> created[i] == NextBounds(year, month, i)
  {
    names, created := [], [];
    for i := 0 to n
      invariant |created| == i && |names| == i
      invariant forall j :: 0 <= j < i ==> names[j] == created[j].name
      invariant forall j :: 0 <= j < i ==> created[j] == NextBounds(year, month, j)
    {
      var y := year + (month - 1 + i) / 12;
      var m := (month - 1 + i) % 12 + 1;
      var b := PartitionBounds(y, m);
      assert b == NextBounds(year, month, i);
      created := created + [b];
      names := names + [b.name];
    }
  }

  /** Each partition begins where the one before ends, across year ends too. */
  lemma PartitionsAreContiguous(year: nat, month: nat, i: nat)
    requires 1 <= month <= 12
    ensures var here, next := MonthAfter(year, month, i), MonthAfter(year, month, i + 1);
      PartitionBounds(here.0, here.1).end == PartitionBounds(next.0, next.1).start
  {
    MonthAfterCounts(year, month, i);
  }

  lemma NameInjective(y1: nat, m1: nat, y2: nat, m2: nat)
    requires 1 <= m1 <= 12 && 1 <= m2 <= 12 && PartitionName(y1, m1) == PartitionName(y2, m2)
    ensures y1 == y2 && m1 == m2
  {
    var head := "indicator_observations_";
    var a, b := Padded(y1, 4), Padded(y2, 4);
    var ta, tb := "_" + Padded(m1, 2), "_" + Padded(m2, 2);
    assert Pow10(2) == 100;
    assert PartitionName(y1, m1) == head + a + ta && PartitionName(y2, m2) == head + b + tb;
    assert |ta| == |tb| && |a| == |b|;
    assert (head + a + ta)[|head|..|head| + |a|] == a && (head + b + tb)[|head|..|head| + |b|] == b;
    assert (head + a + ta)[|head| + |a| + 1..] == Padded(m1, 2) && (head + b + tb)[|head| + |b| + 1..] == Padded(m2, 2);
    PaddedValue(y1, 4);
    PaddedValue(y2, 4);
    PaddedValue(m1, 2);
    PaddedValue(m2, 2);
  }

  /** No two of the created partitions share a name. */
  lemma NamesAreDistinct(year: nat, month: nat, i: nat, j: nat)
    requires 1 <= month <= 12 && i != j
    ensures var a, b := MonthAfter(year, month, i), MonthAfter(year, month, j);
      PartitionName(a.0, a.1) != PartitionName(b.0, b.1)
  {
    var a, b := MonthAfter(year, month, i), MonthAfter(year, month, j);
    MonthAfterCounts(year, month, i);
    MonthAfterCounts(year, month, j);
    if PartitionName(a.0, a.1) == PartitionName(b.0, b.1) {
      NameInjective(a.0, a.1, b.0, b.1);
    }
  }

  // ---- What the bounds cover ----

  /** Calendar order of dates. */
  predicate Earlier(y1: nat, m1: nat, d1: nat, y2: nat, m2: nat, d2: nat) {
    y1 < y2 || (y1 == y2 && (m1 < m2 || (m1 == m2 && d1 < d2)))
  }

  /** For four-digit years the order of the bound strings is the order of the dates. */
  lemma TextOrderIsDateOrder(y1: nat, m1: nat, d1: nat, y2: nat, m2: nat, d2: nat)
    requires y1 < 10000 && y2 < 10000 && m1 < 100 && m2 < 100 && d1 < 100 && d2 < 100
    ensures Before(DateText(y1, m1, d1), DateText(y2, m2, d2)) <==> Earlier(y1, m1, d1, y2, m2, d2)
  {
    assert Pow10(2) == 100 && Pow10(4) == 10000;
    DigitsOrder(y1, y2, 4);
    DigitsOrder(m1, m2, 2);
    DigitsOrder(d1, d2, 2);
    var ya, yb := Padded(y1, 4), Padded(y2, 4);
    var ma, mb := Padded(m1, 2), Padded(m2, 2);
    var da, db := Padded(d1, 2), Padded(d2, 2);
    BeforeConcat(ya + "-" + ma + "-", da, yb + "-" + mb + "-", db);
    BeforeConcat(ya + "-" + ma, "-", yb + "-" + mb, "-");
    BeforeConcat(ya + "-", ma, yb + "-", mb);
    BeforeConcat(ya, "-", yb, "-");
    SameParts(ya, ma, yb, mb);
  }

  lemma SameParts(ya: string, ma: string, yb: string, mb: string)
    requires |ya| == |yb| && |ma| == |mb|
    ensures ya + "-" + ma + "-" == yb + "-" + mb + "-" <==> ya == yb && ma == mb
    ensures ya + "-" + ma == yb + "-" + mb <==> ya == yb && ma == mb
    ensures ya + "-" == yb + "-" <==> ya == yb
  {
    var a, b := ya + "-" + ma, yb + "-" + mb;
    assert a[..|ya|] == ya && b[..|yb|] == yb && a[|ya| + 1..] == ma && b[|yb| + 1..] == mb;
    assert (a + "-")[..|a|] == a && (b + "-")[..|b|] == b;
    assert (ya + "-")[..|ya|] == ya && (yb + "-")[..|yb|] == yb;
  }

  /** The half-open range of a partition. */
  predicate Within(date: string, b: Bounds) {
    !Before(date, b.start) && Before(date, b.end)
  }

  /** The date is in the i-th partition counted from the starting month. */
  predicate InPartition(year: nat, month: nat, i: nat, y: nat, m: nat, d: nat)
    requires 1 <= month <= 12
  {
    var at := MonthAfter(year, month, i);
    Within(DateText(y, m, d), PartitionBounds(at.0, at.1))
  }

  /** A date lies in the i-th partition exactly when its month is the i-th one. */
  lemma CoverageIsByMonth(year: nat, month: nat, i: nat, y: nat, m: nat, d: nat)
    requires 1 <= month <= 12 && 1 <= m <= 12 && 1 <= d <= 31 && y < 10000
    requires MonthAfter(year, month, i + 1).0 < 10000
    ensures InPartition(year, month, i, y, m, d) <==> MonthNumber(y, m) == MonthNumber(year, month) + i
  {
    var at, next := MonthAfter(year, month, i), MonthAfter(year, month, i + 1);
    MonthAfterCounts(year, month, i);
    MonthAfterCounts(year, month, i + 1);
    TextOrderIsDateOrder(y, m, d, at.0, at.1, 1);
    TextOrderIsDateOrder(y, m, d, next.0, next.1, 1);
  }

  /** Every date of the next n months is in exactly one of the n partitions, and no other date is in any. */
  lemma CoveredExactlyOnce(year: nat, month: nat, n: nat, y: nat, m: nat, d: nat)
    requires 1 <= month <= 12 && 1 <= m <= 12 && 1 <= d <= 31 && y < 10000
    requires MonthAfter(year, month, n).0 < 10000
    ensures (exists i: nat :: i < n && InPartition(year, month, i, y, m, d)) <==>
      MonthNumber(year, month) <= MonthNumber(y, m) < MonthNumber(year, month) + n
    ensures forall i: nat, j: nat ::
      (i < n && j < n && InPartition(year, month, i, y, m, d) && InPartition(year, month, j, y, m, d)) ==> i == j
  {
    forall i: nat | i < n
      ensures InPartition(year, month, i, y, m, d) <==> MonthNumber(y, m) == MonthNumber(year, month) + i
    {
      CoverageIsByMonth(year, month, i, y, m, d);
    }
    var k := MonthNumber(y, m) - MonthNumber(year, month);
    if 0 <= k < n {
      assert InPartition(year, month, k, y, m, d);
    }
  }
}
