/**
  The health score: the mean of the measured checks as a 0-100 integer, with
  Python's round-half-to-even written out.
*/
module Score {
  import opened Common
  import opened Checks

  /** Twice the points of a check: OK 1, WARNING 1/2, CRITICAL 0. */
  function HalfPoints(s: Status): nat {
    match s case Fine => 2 case Warning => 1 case _ => 0
  }

  function Points(ss: seq<Status>): nat {
    if ss == [] then 0 else HalfPoints(ss[0]) + Points(ss[1..])
  }

  function Measured(ss: seq<Status>): nat {
    if ss == [] then 0 else (if ss[0] != Skipped then 1 else 0) + Measured(ss[1..])
  }

  /** Python's round() of num / den. */
  function RoundHalfEven(num: nat, den: nat): nat
    requires den > 0
  {
    var q, r := num / den, num % den;
    if 2 * r < den || (2 * r == den && q % 2 == 0) then q else q + 1
  }

  /** score(): none when nothing was measured. The mean is 100 * (Points / 2) / Measured. */
  function ScoreOf(ss: seq<Status>): Option<nat> {
    if Measured(ss) == 0 then None else Some(RoundHalfEven(50 * Points(ss), Measured(ss)))
  }

  // -- rounding -------------------------------------------------------------

  lemma QuotientRemainder(num: nat, den: nat)
    requires den > 0
    ensures num == den * (num / den) + num % den && 0 <= num % den < den
  {
  }

  /** For x = den * v: v is within 1/2 of num / den, and even when it is 1/2 away. */
  ghost predicate EvenWithin(num: nat, den: nat, x: int, v: int) {
    2 * num - den <= 2 * x <= 2 * num + den && (2 * x == 2 * num - den || 2 * x == 2 * num + den ==> v % 2 == 0)
  }

  /** `v` is num / den to the nearest integer, and the even one of the two when num / den lies halfway. */
  ghost predicate NearestEven(num: nat, den: nat, v: int) { EvenWithin(num, den, den * v, v) }

  /** Rounding gives a nearest integer, and an even one at a tie. */
  lemma RoundIsNear(num: nat, den: nat)
    requires den > 0
    ensures NearestEven(num, den, RoundHalfEven(num, den))
  {
    QuotientRemainder(num, den);
    var q := num / den;
    assert den * (q + 1) == den * q + den;
  }

  /** Multiples of `den` by different integers are at least `den` apart, and by integers not adjacent twice that. */
  lemma MultiplesAreApart(den: nat, lo: int, hi: int)
    requires lo < hi
    ensures (hi == lo + 1 && den * hi == den * lo + den) || den * hi >= den * lo + 2 * den
  {
    assert den * hi == den * lo + den * (hi - lo);
    if hi > lo + 1 { MultiplyOrder(den, 2, hi - lo); }
  }

  lemma OnlyOneIsWithin(num: nat, den: nat, x: int, lo: int, y: int, hi: int)
    requires den > 0 && lo < hi && EvenWithin(num, den, x, lo)
    requires (hi == lo + 1 && y == x + den) || y >= x + 2 * den
    ensures !EvenWithin(num, den, y, hi)
  {
  }

  /** There is only one such integer. */
  lemma NearestEvenIsUnique(num: nat, den: nat, lo: int, hi: int)
    requires den > 0 && NearestEven(num, den, lo) && NearestEven(num, den, hi)
    ensures lo >= hi
  {
    if lo < hi {
      MultiplesAreApart(den, lo, hi);
      OnlyOneIsWithin(num, den, den * lo, lo, den * hi, hi);
    }
  }

  /** Rounding is fixed by what it means: a nearest integer, even at a tie. */
  lemma RoundIsHalfEven(num: nat, den: nat, v: int)
    requires den > 0
    ensures RoundHalfEven(num, den) == v <==> NearestEven(num, den, v)
  {
    RoundIsNear(num, den);
    if NearestEven(num, den, v) {
      NearestEvenIsUnique(num, den, v, RoundHalfEven(num, den));
      NearestEvenIsUnique(num, den, RoundHalfEven(num, den), v);
    }
    hide RoundHalfEven, NearestEven;
  }

  lemma QuotientsKeepOrder(a: nat, b: nat, den: nat)
    requires den > 0 && a <= b
    ensures a / den < b / den || (a / den == b / den && a % den <= b % den)
  {
    QuotientRemainder(a, den);
    QuotientRemainder(b, den);
    if a / den > b / den { MultiplyOrder(den, b / den + 1, a / den); }
  }

  lemma RoundIsMonotone(a: nat, b: nat, den: nat)
    requires den > 0 && a <= b
    ensures RoundHalfEven(a, den) <= RoundHalfEven(b, den)
  {
    QuotientsKeepOrder(a, b, den);
    RoundOfParts(a / den, a % den, b / den, b % den, den);
  }

  lemma RoundOfParts(p: nat, r: nat, q: nat, s: nat, den: nat)
    requires p < q || (p == q && r <= s)
    ensures (if 2 * r < den || (2 * r == den && p % 2 == 0) then p else p + 1)
         <= (if 2 * s < den || (2 * s == den && q % 2 == 0) then q else q + 1)
  {
  }

  lemma MultiplyOrder(den: nat, x: nat, y: nat)
    requires x <= y
    ensures den * x <= den * y
  {
    assert den * (y - x) >= 0;
  }

  /** A rise of more than one whole unit always shows. */
  lemma RoundShowsRise(a: nat, b: nat, den: nat)
    requires den > 0 && b > a + den
    ensures RoundHalfEven(b, den) > RoundHalfEven(a, den)
  {
    RoundIsNear(a, den);
    RoundIsNear(b, den);
    var x, y := RoundHalfEven(a, den), RoundHalfEven(b, den);
    if y <= x {
      MultiplyOrder(den, y, x);
    }
  }

  lemma RoundIsExact(v: nat, den: nat)
    requires den > 0
    ensures RoundHalfEven(den * v, den) == v
  {
    QuotientRemainder(den * v, den);
    QuotientIsUnique(den, v, den * v / den, den * v % den);
  }

  lemma QuotientIsUnique(den: nat, v: nat, q: nat, r: nat)
    requires den * v == den * q + r && r < den
    ensures q == v && r == 0
  {
    MultiplyOrder(den, if q < v then q + 1 else v, if q < v then v else q);
    MultiplyOrder(den, if q > v then v + 1 else v, if q > v then q else v);
  }

  // -- points ---------------------------------------------------------------

  lemma {:induction false} PointsByCount(ss: seq<Status>)
    ensures Points(ss) == 2 * multiset(ss)[Fine] + multiset(ss)[Warning]
    ensures Measured(ss) == |ss| - multiset(ss)[Skipped]
    ensures |ss| == multiset(ss)[Fine] + multiset(ss)[Warning] + multiset(ss)[Critical] + multiset(ss)[Skipped]
  {
    if ss != [] {
      PointsByCount(ss[1..]);
      assert ss == [ss[0]] + ss[1..];
    }
  }

  lemma {:induction false} PointsOfUpdate(ss: seq<Status>, i: nat, s: Status)
    requires i < |ss| && ss[i] != Skipped && s != Skipped
    ensures Points(ss[i := s]) == Points(ss) - HalfPoints(ss[i]) + HalfPoints(s)
    ensures Measured(ss[i := s]) == Measured(ss) && Points(ss) >= HalfPoints(ss[i]) && Measured(ss) > 0
  {
    if i > 0 {
      assert ss[i := s][0] == ss[0] && ss[i := s][1..] == ss[1..][i-1 := s];
      PointsOfUpdate(ss[1..], i - 1, s);
    } else {
      assert ss[i := s][1..] == ss[1..];
    }
  }

  // -- main results ---------------------------------------------------------

  /**
    The score fixed by the counts: none without a measured check, and otherwise the integer nearest to the mean of
    100 for each OK, 50 for each WARNING and 0 for each CRITICAL, the even one of two equally near.
  */
  lemma ScoreIsRoundedMean(ss: seq<Status>, v: nat)
    ensures var fine, warning, critical := multiset(ss)[Fine], multiset(ss)[Warning], multiset(ss)[Critical];
            var total, n := 100 * fine + 50 * warning, fine + warning + critical;
            && (ScoreOf(ss).None? <==> n == 0)
            && (n > 0 ==>
                  (ScoreOf(ss) == Some(v) <==>
                     && 2 * total - n <= 2 * (n * v) <= 2 * total + n
                     && (2 * (n * v) == 2 * total - n || 2 * (n * v) == 2 * total + n ==> v % 2 == 0)))
  {
    PointsByCount(ss);
    if Measured(ss) > 0 { RoundIsHalfEven(50 * Points(ss), Measured(ss), v); }
    hide RoundHalfEven, Points, Measured;
  }

  /** The score lies in 0-100, within 1/2 of the exact mean, and is even when the mean lies halfway. */
  lemma ScoreIsNearMean(ss: seq<Status>)
    requires Measured(ss) > 0
    ensures var v, n := ScoreOf(ss).value, Measured(ss);
            && 0 <= v <= 100
            && 100 * Points(ss) - n <= 2 * (n * v) <= 100 * Points(ss) + n
            && (2 * (n * v) == 100 * Points(ss) - n || 2 * (n * v) == 100 * Points(ss) + n ==> v % 2 == 0)
  {
    PointsByCount(ss);
    var n := Measured(ss);
    assert Points(ss) <= 2 * n;
    RoundIsNear(50 * Points(ss), n);
    RoundIsMonotone(50 * Points(ss), 50 * (2 * n), n);
    assert 50 * (2 * n) == n * 100;
    RoundIsExact(100, n);
  }

  /** One OK and three WARNING have the mean 62.5, which rounds down to the even 62. */
  lemma HalfwayGoesToEven()
    ensures ScoreOf([Fine, Warning, Warning, Warning]) == Some(62)
  {
    var ss := [Fine, Warning, Warning, Warning];
    assert ss[1..] == [Warning, Warning, Warning] && ss[1..][1..] == [Warning, Warning] &&
           ss[1..][1..][1..] == [Warning];
    assert Points(ss) == 5 && Measured(ss) == 4;
  }

  /** Neither the order of the checks nor the skipped ones among them matter. */
  lemma ScoreOrderFree(a: seq<Status>, b: seq<Status>)
    requires forall s | s != Skipped :: multiset(a)[s] == multiset(b)[s]
    ensures ScoreOf(a) == ScoreOf(b)
  {
    PointsByCount(a);
    PointsByCount(b);
  }

  /** Improving one measured check never lowers the score, and raises it with up to 50 measured checks. */
  lemma ImprovementRaises(ss: seq<Status>, i: nat, better: Status)
    requires i < |ss| && ss[i] != Skipped && better != Skipped && Severity(better) < Severity(ss[i])
    ensures ScoreOf(ss).Some? && ScoreOf(ss[i := better]).Some?
    ensures ScoreOf(ss).value <= ScoreOf(ss[i := better]).value
    ensures Measured(ss) <= 50 ==> ScoreOf(ss).value < ScoreOf(ss[i := better]).value
  {
    PointsOfUpdate(ss, i, better);
    var n, p, q := Measured(ss), Points(ss), Points(ss[i := better]);
    assert q >= p + 1;
    RoundIsMonotone(50 * p, 50 * q, n);
    if n < 50 {
      RoundShowsRise(50 * p, 50 * q, n);
    } else if n == 50 {
      RoundIsExact(p, 50);
      RoundIsExact(q, 50);
    }
  }

  function Repeat(s: Status, n: nat): seq<Status> {
    if n == 0 then [] else [s] + Repeat(s, n - 1)
  }

  lemma {:induction false} RepeatCounts(s: Status, n: nat, rest: seq<Status>)
    requires s != Skipped
    ensures Points(Repeat(s, n) + rest) == n * HalfPoints(s) + Points(rest)
    ensures Measured(Repeat(s, n) + rest) == n + Measured(rest)
  {
    if n == 0 {
      assert Repeat(s, 0) + rest == rest;
    } else {
      RepeatCounts(s, n - 1, rest);
      assert Repeat(s, n) + rest == [s] + (Repeat(s, n - 1) + rest);
    }
  }

  function Mixed(warnings: nat, criticals: nat): seq<Status> { Repeat(Warning, warnings) + Repeat(Critical, criticals) }

  lemma MixedCounts(w: nat, c: nat)
    ensures Points(Mixed(w, c)) == w && Measured(Mixed(w, c)) == w + c
  {
    RepeatCounts(Warning, w, Repeat(Critical, c));
    RepeatCounts(Critical, c, []);
    assert Repeat(Critical, c) + [] == Repeat(Critical, c);
  }

  lemma TwentyFive()
    ensures RoundHalfEven(50 * 25, 51) == RoundHalfEven(50 * 26, 51) == 25
  {
  }

  /** 50 is the limit: with 51 measured checks an improvement can leave the score where it was. */
  lemma FiftyIsSharp()
    ensures Measured(Mixed(25, 26)) == Measured(Mixed(26, 25)) == 51
    ensures ScoreOf(Mixed(25, 26)) == ScoreOf(Mixed(26, 25)) == Some(25)
  {
    MixedCounts(25, 26);
    MixedCounts(26, 25);
    TwentyFive();
    hide Mixed, Points, Measured, RoundHalfEven;
  }

  /** With up to 99 measured checks, 100 means every one is OK and 0 means every one is CRITICAL. */
  lemma ExtremesAreExact(ss: seq<Status>)
    requires 0 < Measured(ss) <= 99
    ensures ScoreOf(ss) == Some(100) <==> forall s | s in ss :: s == Fine || s == Skipped
    ensures ScoreOf(ss) == Some(0) <==> forall s | s in ss :: s == Critical || s == Skipped
  {
    PointsByCount(ss);
    var n, p := Measured(ss), Points(ss);
    RoundIsNear(50 * p, n);
    AllOf(ss, Fine);
    AllOf(ss, Critical);
    if p == 2 * n {
      assert 50 * p == n * 100;
      RoundIsExact(100, n);
    } else if p == 0 {
      assert n * 0 == 0;
      RoundIsExact(0, n);
    }
  }

  /** All measured checks have status `s` exactly when nothing else is counted. */
  lemma AllOf(ss: seq<Status>, s: Status)
    ensures (forall x | x in ss :: x == s || x == Skipped)
            <==> forall t | t != s && t != Skipped :: multiset(ss)[t] == 0
  {
    forall x | x in ss ensures multiset(ss)[x] > 0 {
      assert x in multiset(ss);
    }
    forall t | multiset(ss)[t] > 0 ensures t in ss {
      assert t in multiset(ss);
    }
  }
}
