/**
  The battery page: debounced reloads that lose no status change, and the wear
  history each load records and then reads back for the chart.
*/
module BatteryPage {
  import opened Common
  import opened IsoDates
  import opened WearHistory
  import opened BatteryAnalysis

  // -- the debounce ---------------------------------------------------------

  datatype Effect = Quiet | SubmitGather | ArmTimer

  datatype Event = Load | StatusChanged | TimerFires

  /** `dirty`: a status change arrived after the last gather was submitted. */
  datatype Debounce = Debounce(reloadPending: bool, timers: nat, dirty: bool)

  function Handle(pending: bool, e: Event): (bool, Effect) {
    match e
    case Load => (pending, SubmitGather)
    case StatusChanged => if pending then (pending, Quiet) else (true, ArmTimer)
    case TimerFires => (false, SubmitGather)
  }

  function Next(d: Debounce, e: Event): Debounce
    requires e.TimerFires? ==> d.timers > 0
  {
    var (pending, effect) := Handle(d.reloadPending, e);
    Debounce(pending,
             d.timers - (if e.TimerFires? then 1 else 0) + (if effect.ArmTimer? then 1 else 0),
             effect != SubmitGather && (d.dirty || e.StatusChanged?))
  }

  ghost predicate Valid(d: Debounce, es: seq<Event>)
    decreases |es|
  {
    es == [] || ((es[0].TimerFires? ==> d.timers > 0) && Valid(Next(d, es[0]), es[1..]))
  }

  ghost function After(d: Debounce, es: seq<Event>): Debounce
    requires Valid(d, es)
    decreases |es|
  {
    if es == [] then d else After(Next(d, es[0]), es[1..])
  }

  ghost predicate Covered(d: Debounce) {
    (d.dirty ==> d.reloadPending) && d.timers == if d.reloadPending then 1 else 0
  }

  lemma {:induction false} CoveredFrom(d: Debounce, es: seq<Event>)
    requires Covered(d) && Valid(d, es)
    ensures Covered(After(d, es))
    decreases |es|
  {
    if es != [] {
      CoveredFrom(Next(d, es[0]), es[1..]);
    }
  }

  /** In every run a status change that no gather followed has exactly one timer pending for it, without exception. */
  lemma NoStatusChangeLost(es: seq<Event>)
    requires Valid(Debounce(false, 0, false), es)
    ensures var d := After(Debounce(false, 0, false), es);
            && (d.dirty ==> d.timers == 1)
            && d.timers <= 1 && (d.reloadPending <==> d.timers == 1)
  {
    CoveredFrom(Debounce(false, 0, false), es);
  }

  // -- recording and reading history ----------------------------------------

  const LIMIT := 365

  datatype Point = Point(day: string, wear: real)

  /** The chart leaves out days whose wear is unknown. */
  function Points(history: seq<Snapshot>): seq<Point> {
    if history == [] then []
    else
      var init, last := Points(history[..|history|-1]), history[|history|-1];
      if last.wear.Some? then init + [Point(last.day, last.wear.value)] else init
  }

  /** The table after recording the first batteries' snapshots. */
  function RecordedToday(rows: seq<Snapshot>, wears: seq<Battery>, today: Date): seq<Snapshot> {
    if wears == [] then rows
    else Replaced(RecordedToday(rows, wears[..|wears|-1], today), SnapshotOf(wears[|wears|-1], today))
  }

  /** Each battery's chart, read right after its own record; a repeated name keeps the last reading. */
  function ChartsToday(rows: seq<Snapshot>, wears: seq<Battery>, today: Date): map<string, seq<Point>> {
    if wears == [] then map[]
    else
      var last := wears[|wears|-1];
      ChartsToday(rows, wears[..|wears|-1], today)
        [last.name := Points(Query(RecordedToday(rows, wears, today), last.name, LIMIT))]
  }

  class BatteryViewModel {
    var reloadPending: bool

    constructor ()
      ensures !reloadPending
    {
      reloadPending := false;
    }

    method Load() returns (effect: Effect)
      ensures (reloadPending, effect) == Handle(reloadPending, Event.Load)
    {
      effect := SubmitGather;
    }

    method StatusChanged() returns (effect: Effect)
      modifies this
      ensures (reloadPending, effect) == Handle(old(reloadPending), Event.StatusChanged)
    {
      if reloadPending { return Quiet; }
      reloadPending := true;
      effect := ArmTimer;
    }

    method ReloadTimer() returns (effect: Effect)
      modifies this
      ensures (reloadPending, effect) == Handle(old(reloadPending), TimerFires)
    {
      reloadPending := false;
      effect := SubmitGather;
    }

    /** The days of a battery's history whose wear is known. */
    method ReadPoints(store: SqliteHistoryStore, name: string) returns (points: seq<Point>)
      requires store.Valid()
      ensures points == Points(Query(store.rows, name, LIMIT))
    {
      var rows := store.History(name, LIMIT);
      points := [];
      for k := 0 to |rows|
        invariant points == Points(rows[..k])
      {
        assert rows[..k+1][..k] == rows[..k];
        if rows[k].wear.Some? { points := points + [Point(rows[k].day, rows[k].wear.value)]; }
      }
      assert rows[..|rows|] == rows;
    }

    /** _gather(): record today's snapshot, then read the history, battery by battery. */
    method Gather(store: SqliteHistoryStore, wears: seq<Battery>, today: Date)
      returns (history: map<string, seq<Point>>)
      requires store.Valid()
      modifies store
      ensures store.Valid() && store.rows == RecordedToday(old(store.rows), wears, today)
      ensures history == ChartsToday(old(store.rows), wears, today)
    {
      history := map[];
      for i := 0 to |wears|
        invariant store.Valid() && store.rows == RecordedToday(old(store.rows), wears[..i], today)
        invariant history == ChartsToday(old(store.rows), wears[..i], today)
      {
        assert wears[..i+1][..i] == wears[..i];
        store.RecordWear(SnapshotOf(wears[i], today));
        var points := ReadPoints(store, wears[i].name);
        history := history[wears[i].name := points];
        hide Points, Query, Replaced, SnapshotOf;
      }
      assert wears[..|wears|] == wears;
    }
  }

  ghost predicate AscendingPoints(points: seq<Point>) {
    forall i, k | 0 <= i < k < |points| :: TextLess(points[i].day, points[k].day)
  }

  lemma {:induction false} PointsAscend(history: seq<Snapshot>)
    requires Ascending(history)
    ensures AscendingPoints(Points(history))
    ensures forall p | p in Points(history) :: exists s :: s in history && s.day == p.day && s.wear == Some(p.wear)
  {
    if history != [] {
      var init, last := history[..|history|-1], history[|history|-1];
      PointsAscend(init);
      forall p | p in Points(init) ensures TextLess(p.day, last.day) {
        var s :| s in init && s.day == p.day;
        var i :| 0 <= i < |init| && init[i] == s;
        assert history[i] == s;
      }
    }
  }

  /** The day of an entry that no other entry follows is the last of the listing. */
  lemma NewestIsLast(all: seq<Snapshot>, s: Snapshot, limit: int)
    requires Ascending(all) && s in all && limit != 0
    requires forall x | x in all :: !TextLess(s.day, x.day)
    ensures Newest(all, limit) != [] && Newest(all, limit)[|Newest(all, limit)|-1] == s
  {
    var i :| 0 <= i < |all| && all[i] == s;
    assert all[|all|-1] in all;
  }

  /**
    Recording and reading back: a battery's chart ascends strictly by day, and when no later day is on record
    its last point is the wear just recorded, whenever that is known.
  */
  lemma ChartEndsToday(rows: seq<Snapshot>, b: Battery, today: Date)
    requires UniqueKeys(rows)
    ensures var points := Points(Query(Replaced(rows, SnapshotOf(b, today)), b.name, LIMIT));
            && AscendingPoints(points)
            && ((forall s | s in rows && s.battery == b.name :: !TextLess(Iso(today), s.day)) &&
                SnapshotOf(b, today).wear.Some? ==>
                  points != [] && points[|points|-1] == Point(Iso(today), SnapshotOf(b, today).wear.value))
  {
    var s := SnapshotOf(b, today);
    var table := Replaced(rows, s);
    ReplacedKeepsUnique(rows, s);
    var all := QueryIsNewestOfListing(table, b.name, LIMIT);
    PointsAscend(Newest(all, LIMIT));
    TableHolds(table, s);
    if forall x | x in rows && x.battery == b.name :: !TextLess(Iso(today), x.day) {
      TextLessIsStrict(s.day);
      forall x | x in all ensures !TextLess(s.day, x.day) {
        TableHolds(table, x);
      }
      hide Replaced, Query, TableOf, UniqueKeys, TextLess, Points;
      NewestIsLast(all, s, LIMIT);
      if s.wear.Some? { LastPoint(Newest(all, LIMIT)); }
    }
    hide Replaced, Query, TableOf, UniqueKeys, TextLess, Points;
  }

  lemma LastPoint(history: seq<Snapshot>)
    requires history != [] && history[|history|-1].wear.Some?
    ensures var last := history[|history|-1];
            Points(history) != [] && Points(history)[|Points(history)|-1] == Point(last.day, last.wear.value)
  {
  }

  // -- what a gathering records and charts ----------------------------------

  /** Battery `i` is the last of its name: a repeated name keeps the last reading. */
  ghost predicate LastOfName(wears: seq<Battery>, i: int) {
    0 <= i < |wears| && forall k | i < k < |wears| :: wears[k].name != wears[i].name
  }

  ghost predicate IsNamed(wears: seq<Battery>, name: string) { exists b :: b in wears && b.name == name }

  /** The row recorded for a battery, in its own fields, with the wear when its capacities tell it. */
  ghost predicate RowOf(s: Snapshot, b: Battery, today: Date) {
    && s.day == Iso(today) && s.battery == b.name && s.cycles == b.cycles && s.full == b.full && s.design == b.design
    && (s.wear.Some? <==> b.full.Some? && b.design.Some? && b.design.value > 0)
    && (s.wear.Some? ==> WearIs(s.wear.value, b.full.value, b.design.value))
  }

  /** In percent of the design capacity, what is lost of it, and 0 when nothing is. */
  ghost predicate WearIs(wear: real, full: int, design: int) {
    wear * design as real == if full < design then 100.0 * (design - full) as real else 0.0
  }

  lemma SnapshotIsRow(b: Battery, today: Date)
    ensures RowOf(SnapshotOf(b, today), b, today)
  {
    if b.full.Some? && b.design.Some? && b.design.value > 0 { WearByCapacity(b.full.value, b.design.value); }
  }

  lemma LastOfLonger(init: seq<Battery>, last: Battery, i: int)
    ensures LastOfName(init + [last], i) <==> i == |init| || (LastOfName(init, i) && init[i].name != last.name)
  {
    var wears := init + [last];
    assert i < |init| && LastOfName(wears, i) ==> wears[|init|].name != wears[i].name;
    assert forall k | 0 <= k < |init| :: wears[k] == init[k];
  }

  lemma NamedLonger(init: seq<Battery>, last: Battery, name: string)
    ensures IsNamed(init + [last], name) <==> IsNamed(init, name) || last.name == name
  {
    var wears := init + [last];
    assert forall b :: b in wears <==> b in init || b == last;
  }

  /** The table after a gathering, row by row. */
  ghost predicate InTable(s: Snapshot, rows: seq<Snapshot>, wears: seq<Battery>, today: Date) {
    || (s in rows && !(s.day == Iso(today) && IsNamed(wears, s.battery)))
    || exists i :: LastOfName(wears, i) && s == SnapshotOf(wears[i], today)
  }

  lemma InLongerTable(s: Snapshot, rows: seq<Snapshot>, init: seq<Battery>, last: Battery, today: Date)
    ensures InTable(s, rows, init + [last], today) <==>
            s == SnapshotOf(last, today)
              || (InTable(s, rows, init, today) && !(s.day == Iso(today) && s.battery == last.name))
  {
    var wears := init + [last];
    NamedLonger(init, last, s.battery);
    forall i ensures LastOfName(wears, i) <==> i == |init| || (LastOfName(init, i) && init[i].name != last.name) {
      LastOfLonger(init, last, i);
    }
    assert forall k | 0 <= k < |init| :: wears[k] == init[k];
    assert wears[|init|] == last;
    hide IsNamed, Iso, WearPercent;
  }

  lemma {:induction false} RecordedExactly(rows: seq<Snapshot>, wears: seq<Battery>, today: Date, s: Snapshot)
    ensures s in RecordedToday(rows, wears, today) <==> InTable(s, rows, wears, today)
  {
    if wears != [] {
      var init, last := wears[..|wears|-1], wears[|wears|-1];
      RecordedExactly(rows, init, today, s);
      assert wears == init + [last];
      InLongerTable(s, rows, init, last, today);
      assert KeyOf(SnapshotOf(last, today)) == (Iso(today), last.name);
      hide InTable, SnapshotOf;
    }
  }

  lemma {:induction false} RecordedIsUnique(rows: seq<Snapshot>, wears: seq<Battery>, today: Date)
    requires UniqueKeys(rows)
    ensures UniqueKeys(RecordedToday(rows, wears, today))
  {
    if wears != [] {
      RecordedIsUnique(rows, wears[..|wears|-1], today);
      ReplacedKeepsUnique(RecordedToday(rows, wears[..|wears|-1], today), SnapshotOf(wears[|wears|-1], today));
      hide Replaced, SnapshotOf, UniqueKeys;
    }
  }

  /**
    What a gathering leaves on record: each battery's row of the day, in its own fields, and every row of another day
    or of a battery that was not read.
  */
  lemma GatherRecords(rows: seq<Snapshot>, wears: seq<Battery>, today: Date)
    requires UniqueKeys(rows)
    ensures var after := RecordedToday(rows, wears, today);
            && UniqueKeys(after)
            && (forall i | LastOfName(wears, i) :: exists s :: s in after && RowOf(s, wears[i], today))
            && (forall s | s in rows && !(s.day == Iso(today) && IsNamed(wears, s.battery)) :: s in after)
            && forall s | s in after ::
                 || (s in rows && !(s.day == Iso(today) && IsNamed(wears, s.battery)))
                 || exists i :: LastOfName(wears, i) && RowOf(s, wears[i], today)
  {
    RecordedIsUnique(rows, wears, today);
    forall s ensures s in RecordedToday(rows, wears, today) <==> InTable(s, rows, wears, today) {
      RecordedExactly(rows, wears, today, s);
    }
    forall b ensures RowOf(SnapshotOf(b, today), b, today) { SnapshotIsRow(b, today); }
    forall i | LastOfName(wears, i)
      ensures exists s :: s in RecordedToday(rows, wears, today) && RowOf(s, wears[i], today)
    {
      assert InTable(SnapshotOf(wears[i], today), rows, wears, today);
    }
    hide RecordedToday, RowOf, SnapshotOf, UniqueKeys, IsNamed, LastOfName;
  }

  /** The chart of the battery `last`, read from the table after its record. */
  function ChartOn(after: seq<Snapshot>, last: Battery): seq<Point> { Points(Query(after, last.name, LIMIT)) }

  lemma ChartsGrow(rows: seq<Snapshot>, wears: seq<Battery>, today: Date, name: string)
    requires wears != []
    ensures var last, after := wears[|wears|-1], ChartsToday(rows, wears, today);
            var before := ChartsToday(rows, wears[..|wears|-1], today);
            && (name in after <==> name in before || last.name == name)
            && (last.name == name ==> after[name] == ChartOn(RecordedToday(rows, wears, today), last))
            && (last.name != name && name in before ==> after[name] == before[name])
  {
    hide Points, Query, RecordedToday;
  }

  /** A battery's chart is read right after its own record. */
  lemma {:induction false} ChartIsRead(rows: seq<Snapshot>, wears: seq<Battery>, today: Date, i: int)
    requires LastOfName(wears, i)
    ensures wears[i].name in ChartsToday(rows, wears, today)
    ensures ChartsToday(rows, wears, today)[wears[i].name]
         == ChartOn(RecordedToday(rows, wears[..i+1], today), wears[i])
  {
    hide ChartsToday, ChartOn, RecordedToday;
    ChartsGrow(rows, wears, today, wears[i].name);
    if i == |wears| - 1 {
      assert wears[..i+1] == wears;
    } else {
      var init := wears[..|wears|-1];
      assert init[..i+1] == wears[..i+1];
      ChartIsRead(rows, init, today, i);
    }
  }

  lemma NamedOneMore(wears: seq<Battery>, name: string)
    requires wears != []
    ensures IsNamed(wears, name) <==> IsNamed(wears[..|wears|-1], name) || wears[|wears|-1].name == name
  {
    assert wears == wears[..|wears|-1] + [wears[|wears|-1]];
    NamedLonger(wears[..|wears|-1], wears[|wears|-1], name);
    hide IsNamed;
  }

  lemma {:induction false} ChartsAreOfBatteries(rows: seq<Snapshot>, wears: seq<Battery>, today: Date, name: string)
    ensures name in ChartsToday(rows, wears, today) <==> IsNamed(wears, name)
  {
    if wears != [] {
      hide *;
      ChartsAreOfBatteries(rows, wears[..|wears|-1], today, name);
      ChartsGrow(rows, wears, today, name);
      NamedOneMore(wears, name);
    }
  }

  lemma {:induction false} PointsAreFewer(history: seq<Snapshot>)
    ensures |Points(history)| <= |history|
  {
    if history != [] { PointsAreFewer(history[..|history|-1]); }
  }

  lemma ChartIsShort(rows: seq<Snapshot>, name: string)
    requires UniqueKeys(rows)
    ensures |Points(Query(rows, name, LIMIT))| <= 365
  {
    var all := QueryIsNewestOfListing(rows, name, LIMIT);
    PointsAreFewer(Newest(all, LIMIT));
    hide Query, Points, UniqueKeys, Lists;
  }

  /** No record of a gathering is later than the day, when none was before. */
  lemma NothingLater(rows: seq<Snapshot>, wears: seq<Battery>, today: Date, name: string)
    requires forall s | s in rows && s.battery == name :: !TextLess(Iso(today), s.day)
    ensures forall s | s in RecordedToday(rows, wears, today) && s.battery == name :: !TextLess(Iso(today), s.day)
  {
    forall s | s in RecordedToday(rows, wears, today) && s.battery == name ensures !TextLess(Iso(today), s.day) {
      RecordedExactly(rows, wears, today, s);
      TextLessIsStrict(Iso(today));
    }
    hide RecordedToday, TextLess, Iso;
  }

  /** `points` are at most 365, ascend by day, and end today with the wear of `b` when `ends`. */
  ghost predicate ChartOf(points: seq<Point>, b: Battery, today: Date, ends: bool) {
    && |points| <= 365 && AscendingPoints(points)
    && (ends && b.full.Some? && b.design.Some? && b.design.value > 0 ==>
          && points != []
          && points[|points|-1].day == Iso(today)
          && WearIs(points[|points|-1].wear, b.full.value, b.design.value))
  }

  lemma ChartAfterRecord(before: seq<Snapshot>, b: Battery, today: Date, ends: bool)
    requires UniqueKeys(before)
    requires ends ==> forall s | s in before && s.battery == b.name :: !TextLess(Iso(today), s.day)
    ensures ChartOf(ChartOn(Replaced(before, SnapshotOf(b, today)), b), b, today, ends)
  {
    ReplacedKeepsUnique(before, SnapshotOf(b, today));
    ChartIsShort(Replaced(before, SnapshotOf(b, today)), b.name);
    ChartEndsToday(before, b, today);
    SnapshotIsRow(b, today);
    hide Replaced, Query, Points, SnapshotOf, UniqueKeys, TextLess, Iso, WearIs, AscendingPoints;
  }

  /**
    The charts a gathering returns: one for each name, of at most 365 points ascending by day. When no later day was
    on record for the battery, its chart ends today with the wear just read, whenever that is known.
  */
  lemma ChartsEndToday(rows: seq<Snapshot>, wears: seq<Battery>, today: Date, i: int)
    requires UniqueKeys(rows) && LastOfName(wears, i)
    ensures var charts, b := ChartsToday(rows, wears, today), wears[i];
            var ends := forall s | s in rows && s.battery == b.name :: !TextLess(Iso(today), s.day);
            && (forall name :: name in charts <==> IsNamed(wears, name))
            && b.name in charts && ChartOf(charts[b.name], b, today, ends)
  {
    forall name ensures name in ChartsToday(rows, wears, today) <==> IsNamed(wears, name) {
      ChartsAreOfBatteries(rows, wears, today, name);
    }
    var b, before := wears[i], RecordedToday(rows, wears[..i], today);
    var ends := forall s | s in rows && s.battery == b.name :: !TextLess(Iso(today), s.day);
    ChartIsRead(rows, wears, today, i);
    RecordedGrows(rows, wears, today, i);
    RecordedIsUnique(rows, wears[..i], today);
    if ends { NothingLater(rows, wears[..i], today, b.name); }
    ChartAfterRecord(before, b, today, ends);
    hide *;
  }

  lemma RecordedGrows(rows: seq<Snapshot>, wears: seq<Battery>, today: Date, i: int)
    requires 0 <= i < |wears|
    ensures RecordedToday(rows, wears[..i+1], today)
         == Replaced(RecordedToday(rows, wears[..i], today), SnapshotOf(wears[i], today))
  {
    assert wears[..i+1][..i] == wears[..i];
    hide Replaced, SnapshotOf;
  }
}
