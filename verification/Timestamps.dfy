/**
 Times stored as text. Lease expiry and retention compare UTC timestamps byte by byte, with the
 fraction of a second trimmed of trailing zeros. The comparison agrees with time whenever the
 instants lie in different seconds; within one second it is wrong exactly when one trimmed
 fraction continues the other. Section 5.1 of RFC 3339 promises it only for fractions of equal length.
 */
module Timestamps {

  // ---------------------------------------------------------------------------------------------
  // Byte-wise comparison

  predicate Less(a: string, b: string)
    decreases |a|
  {
    if b == [] then false
    else if a == [] then true
    else a[0] < b[0] || (a[0] == b[0] && Less(a[1..], b[1..]))
  }

  /** A common prefix does not matter. */
  lemma {:induction false} LessSkips(p: string, x: string, y: string)
    ensures Less(p + x, p + y) <==> Less(x, y)
    decreases |p|
  {
    if p == [] {
      assert p + x == x && p + y == y;
    } else {
      assert (p + x)[1..] == p[1..] + x && (p + y)[1..] == p[1..] + y;
      LessSkips(p[1..], x, y);
    }
  }

  /** The first different octet decides. */
  lemma {:induction false} LessDecided(p: string, q: string, x: string, y: string)
    requires |p| == |q| && p != q
    ensures Less(p + x, q + y) <==> Less(p, q)
    ensures Less(p, q) || Less(q, p)
    ensures !(Less(p, q) && Less(q, p))
    decreases |p|
  {
    assert (p + x)[1..] == p[1..] + x && (q + y)[1..] == q[1..] + y;
    if p[0] == q[0] {
      assert p == [p[0]] + p[1..] && q == [q[0]] + q[1..];
      LessDecided(p[1..], q[1..], x, y);
    }
  }

  /** The comparison is a strict total order. */
  lemma {:induction false} LessIsTotal(a: string, b: string, c: string)
    ensures !Less(a, a)
    ensures !(Less(a, b) && Less(b, a))
    ensures a != b ==> Less(a, b) || Less(b, a)
    ensures !Less(a, b) && !Less(b, c) ==> !Less(a, c)
    decreases |a| + |b| + |c|
  {
    var x, y, z := if a == [] then a else a[1..], if b == [] then b else b[1..], if c == [] then c else c[1..];
    if a != [] || b != [] || c != [] {
      LessIsTotal(x, y, z);
      assert a != [] ==> a == [a[0]] + x;
      assert b != [] ==> b == [b[0]] + y;
    }
  }

  // ---------------------------------------------------------------------------------------------
  // Fixed-width decimals

  function Power10(n: nat): (r: nat)
    ensures r > 0
  {
    if n == 0 then 1 else 10 * Power10(n - 1)
  }

  function Digit(d: nat): char
    requires d < 10
  {
    "0123456789"[d]
  }

  function Digits(n: nat, width: nat): (s: string)
    ensures |s| == width
  {
    if width == 0 then "" else Digits(n / 10, width - 1) + [Digit(n % 10)]
  }

  lemma LastCharacterDecides(p: string, q: string, x: char, y: char)
    requires |p| == |q|
    ensures p + [x] == q + [y] <==> p == q && x == y
    ensures Less(p + [x], q + [y]) <==> Less(p, q) || (p == q && x < y)
  {
    assert (p + [x])[..|p|] == p && (q + [y])[..|q|] == q;
    assert (p + [x])[|p|] == x && (q + [y])[|q|] == y;
    if p == q {
      LessSkips(p, [x], [y]);
      LessIsTotal(p, p, p);
    } else {
      LessDecided(p, q, [x], [y]);
    }
  }

  lemma LastDigitDecides(a: nat, b: nat)
    ensures a == b <==> a / 10 == b / 10 && a % 10 == b % 10
    ensures a < b <==> a / 10 < b / 10 || (a / 10 == b / 10 && a % 10 < b % 10)
  {
  }

  lemma DigitOrder(d: nat, e: nat)
    requires d < 10 && e < 10
    ensures Digit(d) == Digit(e) <==> d == e
    ensures Digit(d) < Digit(e) <==> d < e
  {
  }

  /** Fixed-width decimals compare like the numbers they spell. */
  lemma {:induction false} DigitsCompare(a: nat, b: nat, width: nat)
    requires a < Power10(width) && b < Power10(width)
    ensures Digits(a, width) == Digits(b, width) <==> a == b
    ensures Less(Digits(a, width), Digits(b, width)) <==> a < b
  {
    if width > 0 {
      DigitsCompare(a / 10, b / 10, width - 1);
      LastDigitDecides(a, b);
      DigitOrder(a % 10, b % 10);
      LastCharacterDecides(Digits(a / 10, width - 1), Digits(b / 10, width - 1), Digit(a % 10), Digit(b % 10));
    }
  }

  // ---------------------------------------------------------------------------------------------
  // Instants and their text

  /** A UTC instant by its calendar fields. */
  datatype Fields = Fields(year: nat, month: nat, day: nat, hour: nat, minute: nat, second: nat, nanos: nat)

  type Instant = t: Fields | t.year < 10000 && t.month < 100 && t.day < 100 && t.hour < 100 && t.minute < 100
                             && t.second < 100 && t.nanos < 1_000_000_000
    witness Fields(0, 0, 0, 0, 0, 0, 0)

  /** The whole-second part as one number; fields in calendar order make it increase with time. */
  function SecondOf(t: Instant): nat
  {
    ((((t.year * 100 + t.month) * 100 + t.day) * 100 + t.hour) * 100 + t.minute) * 100 + t.second
  }

  /** Time order of calendar fields. */
  predicate Before(a: Instant, b: Instant)
  {
    SecondOf(a) < SecondOf(b) || (SecondOf(a) == SecondOf(b) && a.nanos < b.nanos)
  }

  /** Digits without their trailing zeros. */
  function Trim(s: string): (r: string)
    ensures r <= s
  {
    if s != [] && s[|s| - 1] == '0' then Trim(s[..|s| - 1]) else s
  }

  function Fraction(nanos: nat): string { Trim(Digits(nanos, 9)) }

  function SecondText(t: Instant): (s: string)
    ensures |s| == 19
  {
    Digits(t.year, 4) + "-" + Digits(t.month, 2) + "-" + Digits(t.day, 2) + "T"
    + Digits(t.hour, 2) + ":" + Digits(t.minute, 2) + ":" + Digits(t.second, 2)
  }

  function FractionText(fraction: string): string
  {
    if fraction == "" then "Z" else "." + fraction + "Z"
  }

  function Text(t: Instant): string { SecondText(t) + FractionText(Fraction(t.nanos)) }

  lemma DigitsNext(n: nat, d: nat, width: nat)
    requires d < 10
    ensures Digits(10 * n + d, width + 1) == Digits(n, width) + [Digit(d)]
  {
    TensAndOnes(n, d);
  }

  lemma TensAndOnes(n: nat, d: nat)
    requires d < 10
    ensures (10 * n + d) / 10 == n && (10 * n + d) % 10 == d
  {
  }

  lemma ExampleFields()
    ensures Digits(2026, 4) == "2026" && Digits(1, 2) == "01" && Digits(23, 2) == "23" && Digits(59, 2) == "59"
  {
    DigitsNext(0, 2, 0);
    DigitsNext(2, 0, 1);
    DigitsNext(20, 2, 2);
    DigitsNext(202, 6, 3);
    DigitsNext(0, 0, 0);
    DigitsNext(0, 1, 1);
    DigitsNext(2, 3, 1);
    DigitsNext(0, 5, 0);
    DigitsNext(5, 9, 1);
  }

  /** Trailing zeros are trimmed, and nothing else. */
  lemma {:induction false} TrimAdd(s: string, zeros: string)
    requires (s == "" || s[|s| - 1] != '0') && forall i :: 0 <= i < |zeros| ==> zeros[i] == '0'
    ensures Trim(s + zeros) == s
    decreases |zeros|
  {
    if zeros == "" {
      assert s + zeros == s;
    } else {
      var front := zeros[..|zeros| - 1];
      assert (s + zeros)[..|s + zeros| - 1] == s + front;
      TrimAdd(s, front);
    }
  }

  lemma ExampleSecond(nanos: nat)
    requires nanos < 1_000_000_000
    ensures SecondText(Fields(2026, 1, 1, 23, 59, 1, nanos)) == "2026-01-01T23:59:01"
  {
    ExampleFields();
    assert "2026" + "-" + "01" == "2026-01";
    assert "2026-01" + "-" + "01" == "2026-01-01";
    assert "2026-01-01" + "T" + "23" == "2026-01-01T23";
    assert "2026-01-01T23" + ":" + "59" == "2026-01-01T23:59";
    assert "2026-01-01T23:59" + ":" + "01" == "2026-01-01T23:59:01";
  }

  /** The text of an instant: the fields at their widths, and the trimmed fraction behind a point if there is one. */
  lemma ExampleText(fraction: string, nanos: nat)
    requires nanos < 1_000_000_000 && Fraction(nanos) == fraction
    ensures Text(Fields(2026, 1, 1, 23, 59, 1, nanos)) ==
              "2026-01-01T23:59:01" + if fraction == "" then "Z" else "." + fraction + "Z"
  {
    ExampleSecond(nanos);
  }

  // ---------------------------------------------------------------------------------------------
  // Different seconds

  /** Comparing `p` before `x` with `q` before `y`, both of the same width. */
  lemma FieldCompare(a: nat, b: nat, width: nat, x: string, y: string)
    requires a < Power10(width) && b < Power10(width)
    ensures Less(Digits(a, width) + x, Digits(b, width) + y) <==> a < b || (a == b && Less(x, y))
  {
    DigitsCompare(a, b, width);
    if a == b {
      LessSkips(Digits(a, width), x, y);
    } else {
      LessDecided(Digits(a, width), Digits(b, width), x, y);
    }
  }

  lemma SeparatedFieldCompare(sep: string, a: nat, b: nat, x: string, y: string)
    requires a < 100 && b < 100
    ensures Less(sep + Digits(a, 2) + x, sep + Digits(b, 2) + y) <==> a < b || (a == b && Less(x, y))
  {
    assert Power10(2) == 100 by { assert Power10(1) == 10; }
    assert sep + Digits(a, 2) + x == sep + (Digits(a, 2) + x);
    assert sep + Digits(b, 2) + y == sep + (Digits(b, 2) + y);
    LessSkips(sep, Digits(a, 2) + x, Digits(b, 2) + y);
    FieldCompare(a, b, 2, x, y);
  }

  /** The text from a field on. */
  function FromSecond(t: Instant, x: string): string { ":" + Digits(t.second, 2) + x }
  function FromMinute(t: Instant, x: string): string { ":" + Digits(t.minute, 2) + FromSecond(t, x) }
  function FromHour(t: Instant, x: string): string { "T" + Digits(t.hour, 2) + FromMinute(t, x) }
  function FromDay(t: Instant, x: string): string { "-" + Digits(t.day, 2) + FromHour(t, x) }
  function FromMonth(t: Instant, x: string): string { "-" + Digits(t.month, 2) + FromDay(t, x) }

  lemma TextFromYear(t: Instant, x: string)
    ensures SecondText(t) + x == Digits(t.year, 4) + FromMonth(t, x)
  {
  }

  /** Time order of the fields of the day. */
  function TimeOfDay(t: Instant): nat { (t.hour * 100 + t.minute) * 100 + t.second }

  lemma TimeOfDayCompare(a: Instant, b: Instant, x: string, y: string)
    ensures Less(FromHour(a, x), FromHour(b, y))
            <==> TimeOfDay(a) < TimeOfDay(b) || (TimeOfDay(a) == TimeOfDay(b) && Less(x, y))
  {
    SeparatedFieldCompare("T", a.hour, b.hour, FromMinute(a, x), FromMinute(b, y));
    SeparatedFieldCompare(":", a.minute, b.minute, FromSecond(a, x), FromSecond(b, y));
    SeparatedFieldCompare(":", a.second, b.second, x, y);
  }

  lemma SecondTextCompare(a: Instant, b: Instant, x: string, y: string)
    ensures Less(SecondText(a) + x, SecondText(b) + y)
            <==> SecondOf(a) < SecondOf(b) || (SecondOf(a) == SecondOf(b) && Less(x, y))
  {
    TextFromYear(a, x);
    TextFromYear(b, y);
    assert Power10(4) == 10000 by { assert Power10(2) == 100 by { assert Power10(1) == 10; } }
    FieldCompare(a.year, b.year, 4, FromMonth(a, x), FromMonth(b, y));
    SeparatedFieldCompare("-", a.month, b.month, FromDay(a, x), FromDay(b, y));
    SeparatedFieldCompare("-", a.day, b.day, FromHour(a, x), FromHour(b, y));
    TimeOfDayCompare(a, b, x, y);
  }

  /** In different seconds, comparing the texts is comparing the times. */
  lemma TextOrderAcrossSeconds(a: Instant, b: Instant)
    requires SecondOf(a) != SecondOf(b)
    ensures Less(Text(a), Text(b)) <==> Before(a, b)
  {
    SecondTextCompare(a, b, FractionText(Fraction(a.nanos)), FractionText(Fraction(b.nanos)));
  }

  /** What a text comparison always guarantees: the earlier text is not of a later second. */
  lemma TextOrderRespectsSeconds(a: Instant, b: Instant)
    ensures Less(Text(a), Text(b)) ==> SecondOf(a) <= SecondOf(b)
    ensures SecondOf(a) < SecondOf(b) ==> Less(Text(a), Text(b))
  {
    SecondTextCompare(a, b, FractionText(Fraction(a.nanos)), FractionText(Fraction(b.nanos)));
  }

  // ---------------------------------------------------------------------------------------------
  // Within one second

  predicate AllZeros(s: string) { forall i :: 0 <= i < |s| ==> s[i] == '0' }

  predicate AllDigits(s: string) { forall i :: 0 <= i < |s| ==> '0' <= s[i] <= '9' }

  lemma {:induction false} DigitsAreDigits(n: nat, width: nat)
    ensures AllDigits(Digits(n, width))
  {
    if width > 0 {
      DigitsAreDigits(n / 10, width - 1);
    }
  }

  lemma {:induction false} TrimLeavesZeros(s: string)
    ensures AllZeros(s[|Trim(s)|..])
    ensures Trim(s) != [] ==> Trim(s)[|Trim(s)| - 1] != '0'
  {
    if s != [] && s[|s| - 1] == '0' {
      var init := s[..|s| - 1];
      TrimLeavesZeros(init);
      assert s[|Trim(s)|..] == init[|Trim(s)|..] + ['0'];
    }
  }

  lemma {:induction false} ZerosBelow(z: string, s: string)
    requires |z| == |s| && AllZeros(z) && AllDigits(s) && !AllZeros(s)
    ensures Less(z, s)
    decreases |s|
  {
    if s[0] == '0' {
      assert AllDigits(s[1..]) && AllZeros(z[1..]);
      assert s == [s[0]] + s[1..];
      ZerosBelow(z[1..], s[1..]);
    }
  }

  lemma PaddedBelow(f: string, g: string, d: string, e: string)
    requires f <= d && g <= e && f < g && |d| == |e|
    requires AllZeros(d[|f|..]) && g[|g| - 1] != '0' && AllDigits(e)
    ensures Less(d, e)
  {
    var z, r := d[|f|..], e[|f|..];
    assert d == f + z && e == f + r;
    assert r[|g| - 1 - |f|] == e[|g| - 1] == g[|g| - 1];
    ZerosBelow(z, r);
    LessSkips(f, z, r);
  }

  lemma ContinuationIsLater(a: Instant, b: Instant)
    requires Fraction(a.nanos) < Fraction(b.nanos)
    ensures a.nanos < b.nanos
  {
    var d, e := Digits(a.nanos, 9), Digits(b.nanos, 9);
    TrimLeavesZeros(d);
    TrimLeavesZeros(e);
    DigitsAreDigits(b.nanos, 9);
    PaddedBelow(Trim(d), Trim(e), d, e);
    NanosCompare(a.nanos, b.nanos);
  }

  /** The terminating "Z" is above every digit. */
  lemma DigitBelowEnd(rest: string)
    requires rest != "" && '0' <= rest[0] <= '9'
    ensures Less(rest + "Z", "Z") && !Less("Z", rest + "Z")
  {
    assert (rest + "Z")[0] == rest[0];
  }

  lemma PointBelowEnd(g: string)
    requires g != ""
    ensures Less(FractionText(g), FractionText("")) && !Less(FractionText(""), FractionText(g))
  {
    assert FractionText(g)[0] == '.';
  }

  lemma ContinuedText(f: string, g: string)
    requires f != "" && f < g
    ensures FractionText(f) == "." + f + "Z"
    ensures FractionText(g) == "." + f + (g[|f|..] + "Z")
  {
    assert g == f + g[|f|..];
  }

  lemma ContinuationSortsFirst(f: string, g: string)
    requires f < g && AllDigits(g)
    ensures Less(FractionText(g), FractionText(f)) && !Less(FractionText(f), FractionText(g))
  {
    if f == "" {
      PointBelowEnd(g);
    } else {
      var rest := g[|f|..];
      ContinuedText(f, g);
      DigitBelowEnd(rest);
      LessSkips("." + f, "Z", rest + "Z");
      LessSkips("." + f, rest + "Z", "Z");
    }
  }

  /** A fraction that continues another one belongs to the later time but sorts first: the
      terminating "Z" of the shorter text is above every digit and above the point. */
  lemma ContinuationReversesOrder(a: Instant, b: Instant)
    requires SecondOf(a) == SecondOf(b) && Fraction(a.nanos) < Fraction(b.nanos)
    ensures Before(a, b) && !Less(Text(a), Text(b)) && Less(Text(b), Text(a))
  {
    var f, g := Fraction(a.nanos), Fraction(b.nanos);
    ContinuationIsLater(a, b);
    DigitsAreDigits(b.nanos, 9);
    ContinuationSortsFirst(f, g);
    SecondTextCompare(a, b, FractionText(f), FractionText(g));
    SecondTextCompare(b, a, FractionText(g), FractionText(f));
  }

  lemma NanosCompare(a: nat, b: nat)
    requires a < 1_000_000_000 && b < 1_000_000_000
    ensures Less(Digits(a, 9), Digits(b, 9)) <==> a < b
    ensures Digits(a, 9) == Digits(b, 9) <==> a == b
  {
    assert Power10(3) == 1000 by { assert Power10(1) == 10; }
    assert Power10(6) == 1_000_000 by { assert Power10(4) == 10000; }
    assert Power10(9) == 1_000_000_000 by { assert Power10(7) == 10_000_000; }
    DigitsCompare(a, b, 9);
  }

  /** Where neither string continues the other, some octet tells them apart. */
  lemma {:induction false} FirstDifference(f: string, g: string) returns (k: nat)
    requires !(f <= g) && !(g <= f)
    ensures k < |f| && k < |g| && f[..k] == g[..k] && f[k] != g[k]
    decreases |f|
  {
    if f[0] != g[0] {
      k := 0;
    } else {
      assert f == [f[0]] + f[1..] && g == [g[0]] + g[1..];
      assert !(f[1..] <= g[1..]) && !(g[1..] <= f[1..]);
      var j := FirstDifference(f[1..], g[1..]);
      k := j + 1;
      assert f[..k] == [f[0]] + f[1..][..j] && g[..k] == [g[0]] + g[1..][..j];
    }
  }

  lemma DifferenceDecides(k: nat, s: string, t: string)
    requires k < |s| && k < |t| && s[..k] == t[..k] && s[k] != t[k]
    ensures Less(s, t) <==> s[k] < t[k]
  {
    assert s == s[..k] + s[k..] && t == s[..k] + t[k..];
    LessSkips(s[..k], s[k..], t[k..]);
  }

  lemma DifferenceOrdersNanos(a: Instant, b: Instant, k: nat)
    requires k < |Fraction(a.nanos)| && k < |Fraction(b.nanos)|
    requires Fraction(a.nanos)[..k] == Fraction(b.nanos)[..k] && Fraction(a.nanos)[k] != Fraction(b.nanos)[k]
    ensures a.nanos < b.nanos <==> Fraction(a.nanos)[k] < Fraction(b.nanos)[k]
  {
    var d, e := Digits(a.nanos, 9), Digits(b.nanos, 9);
    assert d[..k] == Fraction(a.nanos)[..k] && e[..k] == Fraction(b.nanos)[..k];
    DifferenceDecides(k, d, e);
    NanosCompare(a.nanos, b.nanos);
  }

  lemma DifferenceOrdersTexts(f: string, g: string, k: nat)
    requires k < |f| && k < |g| && f[..k] == g[..k] && f[k] != g[k]
    ensures Less(FractionText(f), FractionText(g)) <==> f[k] < g[k]
  {
    var s, t := FractionText(f), FractionText(g);
    assert s[..k + 1] == "." + f[..k] && t[..k + 1] == "." + g[..k];
    DifferenceDecides(k + 1, s, t);
  }

  lemma NoContinuationKeepsOrder(a: Instant, b: Instant)
    requires SecondOf(a) == SecondOf(b)
    requires !(Fraction(a.nanos) <= Fraction(b.nanos)) && !(Fraction(b.nanos) <= Fraction(a.nanos))
    ensures Less(Text(a), Text(b)) <==> Before(a, b)
  {
    var f, g := Fraction(a.nanos), Fraction(b.nanos);
    var k := FirstDifference(f, g);
    DifferenceOrdersNanos(a, b, k);
    DifferenceOrdersTexts(f, g, k);
    SecondTextCompare(a, b, FractionText(f), FractionText(g));
  }

  lemma SameFractionSameNanos(a: Instant, b: Instant)
    requires Fraction(a.nanos) == Fraction(b.nanos)
    ensures a.nanos == b.nanos
  {
    var d, e := Digits(a.nanos, 9), Digits(b.nanos, 9);
    TrimLeavesZeros(d);
    TrimLeavesZeros(e);
    assert d == e;
    NanosCompare(a.nanos, b.nanos);
  }

  lemma {:induction false} ZeroIsAllZeros(width: nat)
    ensures AllZeros(Digits(0, width))
  {
    if width > 0 {
      ZeroIsAllZeros(width - 1);
    }
  }

  lemma NoFractionIffWholeSecond(t: Instant)
    ensures Fraction(t.nanos) == "" <==> t.nanos == 0
  {
    var whole := t.(nanos := 0);
    ZeroIsAllZeros(9);
    TrimLeavesZeros(Digits(0, 9));
    assert Fraction(0) == "";
    if Fraction(t.nanos) == "" {
      SameFractionSameNanos(t, whole);
    }
  }

  /** Every whole second sorts after all later instants of that second. */
  lemma WholeSecondSortsLast(t: Instant, later: Instant)
    requires t.nanos == 0 && SecondOf(later) == SecondOf(t) && 0 < later.nanos
    ensures Before(t, later) && Less(Text(later), Text(t)) && !Less(Text(t), Text(later))
  {
    NoFractionIffWholeSecond(t);
    NoFractionIffWholeSecond(later);
    ContinuationReversesOrder(t, later);
  }

  /** Two such instants: midnight and a nanosecond later. */
  lemma MidnightSortsAfterItsFirstNanosecond()
    ensures var midnight, later := Fields(2026, 1, 1, 0, 0, 0, 0), Fields(2026, 1, 1, 0, 0, 0, 1);
            Before(midnight, later) && Less(Text(later), Text(midnight))
  {
    WholeSecondSortsLast(Fields(2026, 1, 1, 0, 0, 0, 0), Fields(2026, 1, 1, 0, 0, 0, 1));
  }

  /** Within one second the text comparison of two different instants is right if and only if
      neither trimmed fraction continues the other. */
  lemma TextOrderWithinSecond(a: Instant, b: Instant)
    requires SecondOf(a) == SecondOf(b) && a.nanos != b.nanos
    ensures (Less(Text(a), Text(b)) <==> Before(a, b))
            <==> !(Fraction(a.nanos) < Fraction(b.nanos)) && !(Fraction(b.nanos) < Fraction(a.nanos))
  {
    if Fraction(a.nanos) == Fraction(b.nanos) {
      SameFractionSameNanos(a, b);
    } else if Fraction(a.nanos) < Fraction(b.nanos) {
      ContinuationReversesOrder(a, b);
    } else if Fraction(b.nanos) < Fraction(a.nanos) {
      ContinuationReversesOrder(b, a);
    } else {
      NoContinuationKeepsOrder(a, b);
    }
  }
}
