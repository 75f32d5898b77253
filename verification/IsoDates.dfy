/**
  Text order and calendar order.  History rows are keyed and sorted by their
  day as text; for ISO dates (full-date, section 5.6 of RFC 3339) that order is
  the calendar's.
*/
module IsoDates {
  import opened Text

  /** Strict lexicographic order by code point, SQLite's BINARY collation on this text. */
  predicate TextLess(a: string, b: string) {
    b != [] && (a == [] || a[0] < b[0] || (a[0] == b[0] && TextLess(a[1..], b[1..])))
  }

  lemma TextLessIsStrict(a: string)
    ensures !TextLess(a, a)
  {
  }

  lemma TextLessIsTransitive(a: string, b: string, c: string)
    requires TextLess(a, b) && TextLess(b, c)
    ensures TextLess(a, c)
  {
    if a != [] && a[0] == b[0] == c[0] {
      TextLessIsTransitive(a[1..], b[1..], c[1..]);
    }
  }

  lemma TextLessIsTotal(a: string, b: string)
    ensures TextLess(a, b) || a == b || TextLess(b, a)
  {
    if a != [] && b != [] && a[0] == b[0] {
      TextLessIsTotal(a[1..], b[1..]);
      assert a == [a[0]] + a[1..] && b == [b[0]] + b[1..];
    }
  }

  /** Texts of one width compare by their first parts first. */
  lemma {:induction false} TextLessOfParts(a: string, b: string, x: string, y: string)
    requires |a| == |b|
    ensures TextLess(a + x, b + y) <==> TextLess(a, b) || (a == b && TextLess(x, y))
  {
    if a == [] {
      assert a + x == x && b + y == y;
    } else {
      assert (a + x)[0] == a[0] && (a + x)[1..] == a[1..] + x;
      assert (b + y)[0] == b[0] && (b + y)[1..] == b[1..] + y;
      TextLessOfParts(a[1..], b[1..], x, y);
      assert a == b <==> a[0] == b[0] && a[1..] == b[1..];
    }
  }

  function Digit(n: nat): char
    requires n < 10
  {
    '0' + n as char
  }

  function Pow10(width: nat): nat { if width == 0 then 1 else 10 * Pow10(width - 1) }

  /** The decimal digits of `n`, padded with zeros to `width`. */
  function Padded(n: nat, width: nat): (text: string)
    ensures |text| == width
  {
    if width == 0 then "" else Padded(n / 10, width - 1) + [Digit(n % 10)]
  }

  lemma {:induction false} PaddedOrder(a: nat, b: nat, width: nat)
    requires a < Pow10(width) && b < Pow10(width)
    ensures TextLess(Padded(a, width), Padded(b, width)) <==> a < b
    ensures Padded(a, width) == Padded(b, width) <==> a == b
  {
    if width > 0 {
      PaddedOrder(a / 10, b / 10, width - 1);
      var x, y := [Digit(a % 10)], [Digit(b % 10)];
      TextLessOfParts(Padded(a / 10, width - 1), Padded(b / 10, width - 1), x, y);
      assert x[1..] == [] && y[1..] == [];
      assert Padded(a, width)[..width-1] == Padded(a / 10, width - 1);
      assert Padded(b, width)[..width-1] == Padded(b / 10, width - 1);
      assert Padded(a, width)[width-1] == x[0] && Padded(b, width)[width-1] == y[0];
    }
  }

  datatype Date = Date(year: nat, month: nat, day: nat)

  /** datetime.date's range. */
  predicate Calendar(d: Date) { 1 <= d.year <= 9999 && 1 <= d.month <= 12 && 1 <= d.day <= 31 }

  predicate Earlier(a: Date, b: Date) {
    a.year < b.year || (a.year == b.year && (a.month < b.month || (a.month == b.month && a.day < b.day)))
  }

  /** date.isoformat() */
  function Iso(d: Date): string {
    Padded(d.year, 4) + ("-" + (Padded(d.month, 2) + ("-" + Padded(d.day, 2))))
  }

  /** A padded number reads back. */
  lemma {:induction false} PaddedReadsBack(n: nat, width: nat)
    requires n < Pow10(width) && width > 0
    ensures IsNumeral(Padded(n, width)) && ValueOf(Padded(n, width)) == n
  {
    if width > 1 {
      PaddedReadsBack(n / 10, width - 1);
      assert Padded(n, width)[..width-1] == Padded(n / 10, width - 1);
    } else {
      assert Pow10(1) == 10 && Padded(n / 10, 0) == "";
    }
  }

  /** Year, month and day stand in their places, four, two and two digits with a dash between. */
  lemma IsoReadsBack(d: Date)
    requires Calendar(d)
    ensures var s := Iso(d);
            && |s| == 10 && s[4] == s[7] == '-'
            && IsNumeral(s[..4]) && IsNumeral(s[5..7]) && IsNumeral(s[8..])
            && ValueOf(s[..4]) == d.year && ValueOf(s[5..7]) == d.month && ValueOf(s[8..]) == d.day
  {
    assert Pow10(4) == 10000 && Pow10(2) == 100 by {
      assert Pow10(0) == 1 && Pow10(1) == 10 && Pow10(3) == 1000;
    }
    PaddedReadsBack(d.year, 4);
    PaddedReadsBack(d.month, 2);
    PaddedReadsBack(d.day, 2);
    hide Padded, Pow10, IsNumeral, ValueOf;
    var s := Iso(d);
    assert s[..4] == Padded(d.year, 4) && s[5..7] == Padded(d.month, 2) && s[8..] == Padded(d.day, 2);
  }

  lemma SameMark(x: string, y: string)
    ensures TextLess("-" + x, "-" + y) <==> TextLess(x, y)
    ensures "-" + x == "-" + y <==> x == y
  {
    TextLessOfParts("-", "-", x, y);
    assert ("-" + x)[1..] == x && ("-" + y)[1..] == y;
  }

  lemma SameParts(a: string, b: string, x: string, y: string)
    requires |a| == |b|
    ensures a + x == b + y <==> a == b && x == y
  {
    assert (a + x)[..|a|] == a && (b + y)[..|b|] == b;
    assert (a + x)[|a|..] == x && (b + y)[|b|..] == y;
  }

  /** For all dates in years 1-9999, comparing the stored texts is comparing the days. */
  lemma IsoOrderIsCalendarOrder(a: Date, b: Date)
    requires Calendar(a) && Calendar(b)
    ensures TextLess(Iso(a), Iso(b)) <==> Earlier(a, b)
    ensures Iso(a) == Iso(b) <==> a == b
  {
    assert Pow10(4) == 10000 && Pow10(2) == 100 by {
      assert Pow10(0) == 1 && Pow10(1) == 10 && Pow10(3) == 1000;
    }
    var da, db := Padded(a.day, 2), Padded(b.day, 2);
    var ma, mb := Padded(a.month, 2), Padded(b.month, 2);
    var ya, yb := Padded(a.year, 4), Padded(b.year, 4);
    PaddedOrder(a.day, b.day, 2);
    PaddedOrder(a.month, b.month, 2);
    PaddedOrder(a.year, b.year, 4);
    hide Padded, TextLess, Pow10;
    SameMark(da, db);
    TextLessOfParts(ma, mb, "-" + da, "-" + db);
    SameParts(ma, mb, "-" + da, "-" + db);
    SameMark(ma + ("-" + da), mb + ("-" + db));
    TextLessOfParts(ya, yb, "-" + (ma + ("-" + da)), "-" + (mb + ("-" + db)));
    SameParts(ya, yb, "-" + (ma + ("-" + da)), "-" + (mb + ("-" + db)));
  }
}
