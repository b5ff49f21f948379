/** Upload times: how they are printed, how printed times are compared, and why the comparison of
    strings orders files by time. */
module Timestamps {

  /** Strings compare character by character; a proper prefix comes first. */
  predicate Less(a: string, b: string) {
    if a == "" then b != ""
    else if b == "" then false
    else if a[0] != b[0] then a[0] < b[0]
    else Less(a[1..], b[1..])
  }

  lemma {:induction false} LessTotal(a: string, b: string)
    ensures (Less(a, b) || Less(b, a)) <==> a != b
    ensures !(Less(a, b) && Less(b, a))
  {
    if a != "" && b != "" {
      assert a == [a[0]] + a[1..] && b == [b[0]] + b[1..];
      LessTotal(a[1..], b[1..]);
    }
  }

  lemma {:induction false} LessTransitive(a: string, b: string, c: string)
    requires Less(a, b) && !Less(c, b)
    ensures Less(a, c)
  {
    if a != "" && b != "" && c != "" && a[0] == b[0] == c[0] {
      LessTransitive(a[1..], b[1..], c[1..]);
    }
  }

  /** The first difference decides. */
  lemma {:induction false} LessAt(a: string, b: string, k: nat)
    requires k < |a| && k < |b| && a[..k] == b[..k] && a[k] < b[k]
    ensures Less(a, b)
  {
    if k > 0 {
      assert a[0] == a[..k][0] == b[..k][0] == b[0];
      assert a[1..][..k - 1] == a[..k][1..] && b[1..][..k - 1] == b[..k][1..];
      LessAt(a[1..], b[1..], k - 1);
    }
  }

  lemma {:induction false} LessAfterPrefix(p: string, a: string, b: string)
    ensures Less(p + a, p + b) <==> Less(a, b)
  {
    if p == "" {
      assert p + a == a && p + b == b;
    } else {
      assert (p + a)[1..] == p[1..] + a && (p + b)[1..] == p[1..] + b;
      LessAfterPrefix(p[1..], a, b);
    }
  }

  /** Blocks of equal length: the first block decides unless it is the same. */
  lemma {:induction false} LessByBlock(p: string, q: string, a: string, b: string)
    requires |p| == |q|
    ensures Less(p + a, q + b) <==> if p == q then Less(a, b) else Less(p, q)
  {
    if p == "" {
      assert p + a == a && q + b == b;
    } else {
      assert (p + a)[1..] == p[1..] + a && (q + b)[1..] == q[1..] + b;
      assert p == [p[0]] + p[1..] && q == [q[0]] + q[1..];
      LessByBlock(p[1..], q[1..], a, b);
    }
  }

  // ----- Decimal fields -----

  function Pow10(n: nat): (r: nat)
    ensures r >= 1
  {
    if n == 0 then 1 else 10 * Pow10(n - 1)
  }

  function Digit(d: nat): (c: char)
    requires d < 10
    ensures '0' <= c <= '9'
  {
    '0' + d as char
  }

  /** `n` in exactly `width` decimal digits. */
  function Decimal(n: nat, width: nat): (r: string)
    requires n < Pow10(width)
    ensures |r| == width
    ensures forall i :: 0 <= i < width ==> '0' <= r[i] <= '9'
  {
    if width == 0 then "" else Decimal(n / 10, width - 1) + [Digit(n % 10)]
  }

  lemma LessOneDigit(x: nat, y: nat)
    requires x < 10 && y < 10
    ensures Less([Digit(x)], [Digit(y)]) <==> x < y
    ensures Digit(x) == Digit(y) <==> x == y
  {
    assert [Digit(x)][1..] == "" && [Digit(y)][1..] == "";
  }

  lemma LastDigitDecides(a: nat, b: nat)
    ensures a < b <==> if a / 10 == b / 10 then a % 10 < b % 10 else a / 10 < b / 10
    ensures a == b <==> a / 10 == b / 10 && a % 10 == b % 10
  {
  }

  lemma SnocEqual(p: string, x: char, q: string, y: char)
    requires |p| == |q|
    ensures p + [x] == q + [y] <==> p == q && x == y
  {
    assert (p + [x])[..|p|] == p && (q + [y])[..|q|] == q;
    assert (p + [x])[|p|] == x && (q + [y])[|q|] == y;
  }

  lemma {:induction false} DecimalOrder(a: nat, b: nat, width: nat)
    requires a < Pow10(width) && b < Pow10(width)
    ensures Less(Decimal(a, width), Decimal(b, width)) <==> a < b
    ensures Decimal(a, width) == Decimal(b, width) <==> a == b
  {
    if width > 0 {
      var i, j, x, y := a / 10, b / 10, a % 10, b % 10;
      LastDigitDecides(a, b);
      DecimalOrder(i, j, width - 1);
      LessByBlock(Decimal(i, width - 1), Decimal(j, width - 1), [Digit(x)], [Digit(y)]);
      LessOneDigit(x, y);
      SnocEqual(Decimal(i, width - 1), Digit(x), Decimal(j, width - 1), Digit(y));
    }
  }

  // ----- A UTC time in the form of section 5.6 of RFC 3339 -----

  datatype Time = Time(year: nat, month: nat, day: nat, hour: nat, minute: nat, second: nat, nanos: nat)

  predicate Printable(t: Time) {
    t.year < 10000 && t.month < 100 && t.day < 100 && t.hour < 100 && t.minute < 100 && t.second < 100
    && t.nanos < 1_000_000_000
  }

  /** The calendar order: the first differing field decides. */
  predicate Earlier(a: Time, b: Time) {
    if a.year != b.year then a.year < b.year
    else if a.month != b.month then a.month < b.month
    else if a.day != b.day then a.day < b.day
    else if a.hour != b.hour then a.hour < b.hour
    else if a.minute != b.minute then a.minute < b.minute
    else if a.second != b.second then a.second < b.second
    else a.nanos < b.nanos
  }

  lemma Pow10Values()
    ensures Pow10(2) == 100 && Pow10(3) == 1000 && Pow10(4) == 10000
    ensures Pow10(6) == 1_000_000 && Pow10(9) == 1_000_000_000
  {
    assert Pow10(3) == 10 * Pow10(2);
    assert Pow10(6) == 10 * Pow10(5) == 100 * Pow10(4);
    assert Pow10(9) == 10 * Pow10(8) == 100 * Pow10(7) == 1000 * Pow10(6);
  }

  /** No digits, or the fewest of 3, 6 and 9 that show the fraction exactly. */
  function Fraction(nanos: nat): string
    requires nanos < 1_000_000_000
  {
    Pow10Values();
    if nanos == 0 then ""
    else if nanos % 1_000_000 == 0 then "." + Decimal(nanos / 1_000_000, 3)
    else if nanos % 1_000 == 0 then "." + Decimal(nanos / 1_000, 6)
    else "." + Decimal(nanos, 9)
  }

  const OFFSET := "+00:00"

  function Print(t: Time): string
    requires Printable(t)
  {
    Pow10Values();
    Decimal(t.year, 4) + ("-" + (Decimal(t.month, 2) + ("-" + (Decimal(t.day, 2) + ("T" +
    (Decimal(t.hour, 2) + (":" + (Decimal(t.minute, 2) + (":" + (Decimal(t.second, 2) +
    (Fraction(t.nanos) + OFFSET)))))))))))
  }

  // ----- What is printed -----

  /** The number that a string of digits stands for. */
  function Number(s: string): int {
    if s == "" then 0 else 10 * Number(s[..|s| - 1]) + (s[|s| - 1] as int - '0' as int)
  }

  lemma {:induction false} DecimalIsNumber(n: nat, width: nat)
    requires n < Pow10(width)
    ensures Number(Decimal(n, width)) == n
  {
    if width > 0 {
      var front := Decimal(n / 10, width - 1);
      DecimalIsNumber(n / 10, width - 1);
      assert Decimal(n, width)[..width - 1] == front;
    }
  }

  /** A fraction is left out when it is zero; else it is a point and 3, 6 or 9 digits, the fewest that
      show it exactly. */
  lemma FractionShows(nanos: nat)
    requires nanos < 1_000_000_000
    ensures var f := Fraction(nanos);
            && (f == "" <==> nanos == 0)
            && (f != "" ==>
                  && f[0] == '.' && |f| in {4, 7, 10}
                  && Number(f[1..]) * (if |f| == 4 then 1_000_000 else if |f| == 7 then 1_000 else 1) == nanos
                  && (|f| > 4 ==> nanos % 1_000_000 != 0) && (|f| > 7 ==> nanos % 1_000 != 0))
  {
    Pow10Values();
    var f := Fraction(nanos);
    if nanos != 0 {
      assert f[1..] == if nanos % 1_000_000 == 0 then Decimal(nanos / 1_000_000, 3)
                       else if nanos % 1_000 == 0 then Decimal(nanos / 1_000, 6)
                       else Decimal(nanos, 9);
      DecimalIsNumber(nanos, 9);
      DecimalIsNumber(nanos / 1_000, 6);
      DecimalIsNumber(nanos / 1_000_000, 3);
    }
  }

  lemma Field(n: nat, width: nat, rest: string)
    requires n < Pow10(width)
    ensures var s := Decimal(n, width) + rest;
            Number(s[..width]) == n && s[width..] == rest
  {
    DecimalIsNumber(n, width);
    var s := Decimal(n, width) + rest;
    assert s[..width] == Decimal(n, width);
  }

  /** Reads `width` digits and a separator off the front: the number, the separator, and what is left. */
  function Front(s: string, width: nat): (int, char, string)
    requires |s| > width
  {
    (Number(s[..width]), s[width], s[width + 1..])
  }

  lemma FieldAndMark(n: nat, width: nat, mark: char, rest: string)
    requires n < Pow10(width)
    ensures Front(Decimal(n, width) + ([mark] + rest), width) == (n, mark, rest)
  {
    var s := Decimal(n, width) + ([mark] + rest);
    Field(n, width, [mark] + rest);
    assert s[width] == s[width..][0];
    assert s[width + 1..] == s[width..][1..] == rest;
  }

  /** A printed time reads YYYY-MM-DDThh:mm:ss, then the fraction, then the offset of UTC. */
  lemma PrintShows(t: Time)
    requires Printable(t)
    ensures |Print(t)| >= 25
    ensures var (year, a, s1) := Front(Print(t), 4);
            year == t.year && a == '-' && |s1| >= 20 &&
            var (month, b, s2) := Front(s1, 2);
            month == t.month && b == '-' && |s2| >= 17 &&
            var (day, c, s3) := Front(s2, 2);
            day == t.day && c == 'T' && |s3| >= 14 &&
            var (hour, d, s4) := Front(s3, 2);
            hour == t.hour && d == ':' && |s4| >= 11 &&
            var (minute, e, s5) := Front(s4, 2);
            minute == t.minute && e == ':' && |s5| >= 8 &&
            Number(s5[..2]) == t.second && s5[2..] == Fraction(t.nanos) + "+00:00"
  {
    Pow10Values();
    var r5 := Decimal(t.second, 2) + (Fraction(t.nanos) + OFFSET);
    var r4 := Decimal(t.minute, 2) + (":" + r5);
    var r3 := Decimal(t.hour, 2) + (":" + r4);
    var r2 := Decimal(t.day, 2) + ("T" + r3);
    var r1 := Decimal(t.month, 2) + ("-" + r2);
    FieldAndMark(t.year, 4, '-', r1);
    FieldAndMark(t.month, 2, '-', r2);
    FieldAndMark(t.day, 2, 'T', r3);
    FieldAndMark(t.hour, 2, ':', r4);
    FieldAndMark(t.minute, 2, ':', r5);
    Field(t.second, 2, Fraction(t.nanos) + OFFSET);
  }

  // ----- Why the order of strings is the order of times -----

  function Chop(n: nat, drop: nat): nat {
    if drop == 0 then n else Chop(n / 10, drop - 1)
  }

  predicate EndsInZeros(n: nat, count: nat) {
    count == 0 || (n % 10 == 0 && EndsInZeros(n / 10, count - 1))
  }

  /** Cutting the last digits divides by ten that often; they are zeros when nothing is lost. */
  lemma {:induction false} DecimalPrefix(n: nat, width: nat, drop: nat)
    requires n < Pow10(width) && drop <= width
    ensures Chop(n, drop) < Pow10(width - drop)
    ensures Decimal(n, width)[..width - drop] == Decimal(Chop(n, drop), width - drop)
    ensures EndsInZeros(n, drop) ==> forall i :: width - drop <= i < width ==> Decimal(n, width)[i] == '0'
  {
    var all := Decimal(n, width);
    if drop == 0 {
      assert all[..width] == all;
    } else {
      var front := Decimal(n / 10, width - 1);
      assert all == front + [Digit(n % 10)];
      DecimalPrefix(n / 10, width - 1, drop - 1);
      assert all[..width - drop] == front[..width - drop];
    }
  }

  /** Three digits at a time. */
  lemma ChopThree(n: nat, more: nat)
    ensures Chop(n, more + 3) == Chop(n / 1_000, more)
    ensures EndsInZeros(n, more + 3) <==> n % 1_000 == 0 && EndsInZeros(n / 1_000, more)
  {
    var n1 := n / 10;
    var n2 := n1 / 10;
    var n3 := n2 / 10;
    assert n3 == n / 1_000;
    assert Chop(n, more + 3) == Chop(n1, more + 2) == Chop(n2, more + 1) == Chop(n3, more);
    assert EndsInZeros(n, more + 3) <==> n % 10 == 0 && EndsInZeros(n1, more + 2);
    assert EndsInZeros(n1, more + 2) <==> n1 % 10 == 0 && EndsInZeros(n2, more + 1);
    assert EndsInZeros(n2, more + 1) <==> n2 % 10 == 0 && EndsInZeros(n3, more);
    assert n % 1_000 == 0 <==> n % 10 == 0 && n1 % 10 == 0 && n2 % 10 == 0;
  }

  lemma ThousandTwice(n: nat)
    ensures n / 1_000_000 == n / 1_000 / 1_000
    ensures n % 1_000_000 == 0 <==> n % 1_000 == 0 && n / 1_000 % 1_000 == 0
  {
  }

  lemma ChopValues(n: nat, three: nat, six: nat)
    requires three == 3 && six == 6
    ensures Chop(n, three) == n / 1_000 && Chop(n, six) == n / 1_000_000
    ensures n % 1_000 == 0 ==> EndsInZeros(n, three)
    ensures n % 1_000_000 == 0 ==> EndsInZeros(n, six)
  {
    ThousandTwice(n);
    ChopThree(n, six - 6);
    ChopThree(n, six - 3);
    ChopThree(n / 1_000, six - 6);
  }

  lemma {:induction false} ZeroEndsInZeros(count: nat)
    ensures EndsInZeros(0, count)
  {
    if count > 0 {
      ZeroEndsInZeros(count - 1);
    }
  }

  function Shown(nanos: nat): nat {
    if nanos == 0 then 0 else if nanos % 1_000_000 == 0 then 3 else if nanos % 1_000 == 0 then 6 else 9
  }

  /** Every fraction is a cut of the nine digits, and what is cut off is all zeros. */
  lemma FractionIsCut(nanos: nat)
    requires nanos < 1_000_000_000
    ensures nanos < Pow10(9)
    ensures Fraction(nanos) == if Shown(nanos) == 0 then "" else "." + Decimal(nanos, 9)[..Shown(nanos)]
    ensures forall i :: Shown(nanos) <= i < 9 ==> Decimal(nanos, 9)[i] == '0'
  {
    Pow10Values();
    ChopValues(nanos, 3, 6);
    ZeroEndsInZeros(9);
    DecimalPrefix(nanos, 9, 9);
    DecimalPrefix(nanos, 9, 6);
    DecimalPrefix(nanos, 9, 3);
    assert Decimal(nanos, 9)[..9] == Decimal(nanos, 9);
  }

  lemma FirstDifference(a: string, b: string) returns (k: nat)
    requires |a| == |b| && Less(a, b)
    ensures k < |a| && a[..k] == b[..k] && a[k] < b[k]
  {
    if a[0] != b[0] {
      k := 0;
    } else {
      k := FirstDifference(a[1..], b[1..]);
      assert a[..k + 1] == [a[0]] + a[1..][..k] && b[..k + 1] == [b[0]] + b[1..][..k];
      k := k + 1;
    }
  }

  /** Cuts of two digit strings, closed by a character below every digit, compare as the strings
      do when the smaller is cut only where it has nothing but zeros. */
  lemma CutOrder(p: string, q: string, m: nat, n: nat, z: string)
    requires |p| == |q| && m <= |p| && n <= |q| && z != "" && z[0] < '0'
    requires forall i :: 0 <= i < |p| ==> '0' <= p[i] && '0' <= q[i]
    requires forall i :: n <= i < |q| ==> q[i] == '0'
    requires Less(p, q)
    ensures Less(p[..m] + z, q[..n] + z)
  {
    var i := FirstDifference(p, q);
    var k := if i < m then i else m;
    var s, t := p[..m] + z, q[..n] + z;
    assert i < n;
    assert p[..k] == p[..i][..k] && q[..k] == q[..i][..k];
    assert s[..k] == p[..k] && t[..k] == q[..k];
    assert t[k] == q[k] && s[k] == if i < m then p[i] else z[0];
    LessAt(s, t, k);
  }

  lemma CutsWithDot(f: string, g: string, p: string, q: string, m: nat, n: nat)
    requires |p| == |q| && m <= |p| && n <= |q|
    requires forall i :: 0 <= i < |p| ==> '0' <= p[i] && '0' <= q[i]
    requires forall i :: n <= i < |q| ==> q[i] == '0'
    requires Less(p, q)
    requires f == if m == 0 then "" else "." + p[..m]
    requires g == if n == 0 then "" else "." + q[..n]
    ensures Less(f + OFFSET, g + OFFSET)
  {
    CutOrder(p, q, m, n, OFFSET);
    var i := FirstDifference(p, q);
    assert i < n;
    assert g + OFFSET == "." + (q[..n] + OFFSET);
    if m == 0 {
      LessAt(f + OFFSET, g + OFFSET, 0);
    } else {
      assert f + OFFSET == "." + (p[..m] + OFFSET);
      LessAfterPrefix(".", p[..m] + OFFSET, q[..n] + OFFSET);
    }
  }

  /** A shorter fraction never sorts after a longer one that is later: `+` and `.` come before digits. */
  lemma FractionOrderOneWay(a: nat, b: nat)
    requires a < b < 1_000_000_000
    ensures Less(Fraction(a) + OFFSET, Fraction(b) + OFFSET)
  {
    FractionIsCut(a);
    FractionIsCut(b);
    DecimalOrder(a, b, 9);
    CutsWithDot(Fraction(a), Fraction(b), Decimal(a, 9), Decimal(b, 9), Shown(a), Shown(b));
  }

  lemma FractionOrder(a: nat, b: nat)
    requires a < 1_000_000_000 && b < 1_000_000_000
    ensures Less(Fraction(a) + OFFSET, Fraction(b) + OFFSET) <==> a < b
  {
    if a < b {
      FractionOrderOneWay(a, b);
    } else {
      if b < a {
        FractionOrderOneWay(b, a);
      }
      LessTotal(Fraction(a) + OFFSET, Fraction(b) + OFFSET);
    }
  }

  /** One field of fixed width followed by a separator (or nothing) and the rest. */
  lemma FieldDecides(a: nat, b: nat, width: nat, restA: string, restB: string)
    requires a < Pow10(width) && b < Pow10(width)
    ensures Less(Decimal(a, width) + restA, Decimal(b, width) + restB) <==> if a == b then Less(restA, restB) else a < b
  {
    DecimalOrder(a, b, width);
    LessByBlock(Decimal(a, width), Decimal(b, width), restA, restB);
  }

  /** Printed times compare as strings exactly as the times compare. */
  lemma PrintedOrderIsTimeOrder(a: Time, b: Time)
    requires Printable(a) && Printable(b)
    ensures Less(Print(a), Print(b)) <==> Earlier(a, b)
  {
    Pow10Values();
    var a6, b6 := Fraction(a.nanos) + OFFSET, Fraction(b.nanos) + OFFSET;
    var a5, b5 := Decimal(a.second, 2) + a6, Decimal(b.second, 2) + b6;
    var a4, b4 := Decimal(a.minute, 2) + (":" + a5), Decimal(b.minute, 2) + (":" + b5);
    var a3, b3 := Decimal(a.hour, 2) + (":" + a4), Decimal(b.hour, 2) + (":" + b4);
    var a2, b2 := Decimal(a.day, 2) + ("T" + a3), Decimal(b.day, 2) + ("T" + b3);
    var a1, b1 := Decimal(a.month, 2) + ("-" + a2), Decimal(b.month, 2) + ("-" + b2);
    FractionOrder(a.nanos, b.nanos);
    FieldDecides(a.second, b.second, 2, a6, b6);
    FieldDecides(a.minute, b.minute, 2, ":" + a5, ":" + b5);
    FieldDecides(a.hour, b.hour, 2, ":" + a4, ":" + b4);
    FieldDecides(a.day, b.day, 2, "T" + a3, "T" + b3);
    FieldDecides(a.month, b.month, 2, "-" + a2, "-" + b2);
    FieldDecides(a.year, b.year, 4, "-" + a1, "-" + b1);
    LessAfterPrefix(":", a5, b5);
    LessAfterPrefix(":", a4, b4);
    LessAfterPrefix("T", a3, b3);
    LessAfterPrefix("-", a2, b2);
    LessAfterPrefix("-", a1, b1);
  }
}
