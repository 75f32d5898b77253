/**
  The wear-history table: one row per (day, battery), replaced in place, and
  the "most recent N, ascending" query over it.
*/
module WearHistory {
  import opened Common
  import opened IsoDates

  datatype Snapshot = Snapshot(
    day: string, battery: string, wear: Option<real>,
    cycles: Option<int>, full: Option<int>, design: Option<int>)

  type Key = (string, string)

  function KeyOf(s: Snapshot): Key { (s.day, s.battery) }

  // -- the table ------------------------------------------------------------

  /** The primary key: no two rows share a day and a battery. */
  ghost predicate UniqueKeys(rows: seq<Snapshot>) {
    forall i, k | 0 <= i < k < |rows| :: KeyOf(rows[i]) != KeyOf(rows[k])
  }

  function Without(rows: seq<Snapshot>, key: Key): (r: seq<Snapshot>)
    ensures forall s :: s in r <==> s in rows && KeyOf(s) != key
  {
    if rows == [] then [] else (if KeyOf(rows[0]) == key then [] else [rows[0]]) + Without(rows[1..], key)
  }

  /** INSERT OR REPLACE: a row with the same key makes way for the new one. */
  function Replaced(rows: seq<Snapshot>, s: Snapshot): seq<Snapshot> { Without(rows, KeyOf(s)) + [s] }

  /** The table as a map from key to the latest snapshot. */
  ghost function TableOf(rows: seq<Snapshot>): map<Key, Snapshot> {
    if rows == [] then map[] else TableOf(rows[..|rows|-1])[KeyOf(rows[|rows|-1]) := rows[|rows|-1]]
  }

  lemma {:induction false} WithoutKeepsUnique(rows: seq<Snapshot>, key: Key)
    requires UniqueKeys(rows)
    ensures UniqueKeys(Without(rows, key))
  {
    if rows != [] {
      var rest := rows[1..];
      assert UniqueKeys(rest);
      WithoutKeepsUnique(rest, key);
      forall s | s in Without(rest, key) ensures KeyOf(s) != KeyOf(rows[0]) {
        var i :| 0 <= i < |rest| && rest[i] == s;
        assert rows[i+1] == s;
      }
    }
  }

  lemma ReplacedKeepsUnique(rows: seq<Snapshot>, s: Snapshot)
    requires UniqueKeys(rows)
    ensures UniqueKeys(Replaced(rows, s))
  {
    WithoutKeepsUnique(rows, KeyOf(s));
  }

  lemma {:induction false} TableHolds(rows: seq<Snapshot>, s: Snapshot)
    requires UniqueKeys(rows)
    ensures KeyOf(s) in TableOf(rows) && TableOf(rows)[KeyOf(s)] == s <==> s in rows
  {
    if rows != [] {
      var init, last := rows[..|rows|-1], rows[|rows|-1];
      assert rows == init + [last];
      TableHolds(init, s);
      assert forall i | 0 <= i < |init| :: init[i] == rows[i] && KeyOf(rows[i]) != KeyOf(last);
    }
  }

  lemma {:induction false} TableKeys(rows: seq<Snapshot>, key: Key)
    ensures key in TableOf(rows) ==> TableOf(rows)[key] in rows && KeyOf(TableOf(rows)[key]) == key
    ensures (forall s | s in rows :: KeyOf(s) != key) ==> key !in TableOf(rows)
  {
    if rows != [] {
      TableKeys(rows[..|rows|-1], key);
    }
  }

  /** Recording updates one entry of the map: other days and other batteries are untouched, and once is enough. */
  lemma RecordUpdatesOneEntry(rows: seq<Snapshot>, s: Snapshot)
    requires UniqueKeys(rows)
    ensures TableOf(Replaced(rows, s)) == TableOf(rows)[KeyOf(s) := s]
    ensures TableOf(Replaced(Replaced(rows, s), s)) == TableOf(Replaced(rows, s))
  {
    EntryUpdated(rows, s);
    ReplacedKeepsUnique(rows, s);
    EntryUpdated(Replaced(rows, s), s);
  }

  lemma EntryUpdated(rows: seq<Snapshot>, s: Snapshot)
    requires UniqueKeys(rows)
    ensures TableOf(Replaced(rows, s)) == TableOf(rows)[KeyOf(s) := s]
  {
    var rest := Without(rows, KeyOf(s));
    assert Replaced(rows, s)[..|rest|] == rest;
    WithoutKeepsUnique(rows, KeyOf(s));
    forall key | key != KeyOf(s)
      ensures key in TableOf(rest) <==> key in TableOf(rows)
      ensures key in TableOf(rows) ==> TableOf(rest)[key] == TableOf(rows)[key]
    {
      TableKeys(rest, key);
      TableKeys(rows, key);
      if key in TableOf(rows) { TableHolds(rest, TableOf(rows)[key]); }
      if key in TableOf(rest) { TableHolds(rows, TableOf(rest)[key]); }
    }
  }

  // -- the query ------------------------------------------------------------

  ghost predicate Ascending(q: seq<Snapshot>) {
    forall i, k | 0 <= i < k < |q| :: TextLess(q[i].day, q[k].day)
  }

  ghost predicate Descending(q: seq<Snapshot>) {
    forall i, k | 0 <= i < k < |q| :: TextLess(q[k].day, q[i].day)
  }

  function OfBattery(rows: seq<Snapshot>, battery: string): (r: seq<Snapshot>)
    ensures forall s :: s in r <==> s in rows && s.battery == battery
  {
    if rows == [] then []
    else (if rows[0].battery == battery then [rows[0]] else []) + OfBattery(rows[1..], battery)
  }

  /** Inserts a row into rows sorted by day, latest first. */
  function InsertLatestFirst(s: Snapshot, sorted: seq<Snapshot>): (r: seq<Snapshot>)
    ensures forall x :: x in r <==> x == s || x in sorted
  {
    if sorted == [] || TextLess(sorted[0].day, s.day) then [s] + sorted
    else [sorted[0]] + InsertLatestFirst(s, sorted[1..])
  }

  /** ORDER BY day DESC */
  function LatestFirst(rows: seq<Snapshot>): (r: seq<Snapshot>)
    ensures forall x :: x in r <==> x in rows
  {
    if rows == [] then [] else InsertLatestFirst(rows[0], LatestFirst(rows[1..]))
  }

  /** LIMIT n; a negative limit is no limit in SQLite. */
  function Limited(rows: seq<Snapshot>, limit: int): seq<Snapshot> {
    if 0 <= limit < |rows| then rows[..limit] else rows
  }

  function Reversed(rows: seq<Snapshot>): (r: seq<Snapshot>)
    ensures |r| == |rows| && forall i | 0 <= i < |rows| :: r[i] == rows[|rows| - 1 - i]
  {
    if rows == [] then [] else Reversed(rows[1..]) + [rows[0]]
  }

  function Query(rows: seq<Snapshot>, battery: string, limit: int): seq<Snapshot> {
    Reversed(Limited(LatestFirst(OfBattery(rows, battery)), limit))
  }

  lemma {:induction false} InsertKeepsDescending(s: Snapshot, sorted: seq<Snapshot>)
    requires Descending(sorted) && forall x | x in sorted :: x.day != s.day
    ensures Descending(InsertLatestFirst(s, sorted))
  {
    if sorted == [] {
    } else if TextLess(sorted[0].day, s.day) {
      forall x | x in sorted ensures TextLess(x.day, s.day) {
        var i :| 0 <= i < |sorted| && sorted[i] == x;
        if i > 0 { TextLessIsTransitive(x.day, sorted[0].day, s.day); }
      }
    } else {
      TextLessIsTotal(sorted[0].day, s.day);
      assert sorted[0] in sorted;
      InsertKeepsDescending(s, sorted[1..]);
      var rest := InsertLatestFirst(s, sorted[1..]);
      forall k | 0 <= k < |rest| ensures TextLess(rest[k].day, sorted[0].day) {
        assert rest[k] in rest;
        if rest[k] != s {
          var i :| 0 <= i < |sorted[1..]| && sorted[1..][i] == rest[k];
          assert sorted[i+1] == rest[k];
        }
      }
    }
  }

  ghost predicate DistinctDays(rows: seq<Snapshot>) {
    forall i, k | 0 <= i < k < |rows| :: rows[i].day != rows[k].day
  }

  lemma {:induction false} LatestFirstIsSorted(rows: seq<Snapshot>)
    requires DistinctDays(rows)
    ensures Descending(LatestFirst(rows))
  {
    if rows != [] {
      LatestFirstIsSorted(rows[1..]);
      forall x | x in LatestFirst(rows[1..]) ensures x.day != rows[0].day {
        var i :| 0 <= i < |rows[1..]| && rows[1..][i] == x;
        assert rows[i+1] == x;
      }
      InsertKeepsDescending(rows[0], LatestFirst(rows[1..]));
    }
  }

  lemma {:induction false} BatteryDaysAreDistinct(rows: seq<Snapshot>, battery: string)
    requires UniqueKeys(rows)
    ensures DistinctDays(OfBattery(rows, battery))
  {
    if rows != [] {
      assert UniqueKeys(rows[1..]);
      BatteryDaysAreDistinct(rows[1..], battery);
      forall x | x in OfBattery(rows[1..], battery) ensures KeyOf(x) != KeyOf(rows[0]) {
        var i :| 0 <= i < |rows[1..]| && rows[1..][i] == x;
        assert rows[i+1] == x;
      }
    }
  }

  /** The last `n` of a sequence, or all of it. */
  function Newest(all: seq<Snapshot>, limit: int): seq<Snapshot> {
    if 0 <= limit < |all| then all[|all| - limit..] else all
  }

  /** `all` lists a battery's history: its entries of the table, each once, ascending by day. */
  ghost predicate Lists(table: map<Key, Snapshot>, battery: string, all: seq<Snapshot>) {
    && Ascending(all)
    && forall s :: s in all <==> s.battery == battery && KeyOf(s) in table && table[KeyOf(s)] == s
  }

  /** There is only one such list. */
  lemma {:induction false} ListingIsUnique(a: seq<Snapshot>, b: seq<Snapshot>)
    requires Ascending(a) && Ascending(b) && forall s :: s in a <==> s in b
    ensures a == b
    decreases |a|
  {
    if a == [] {
      if b != [] { var x := SomeMember(b); }
    } else {
      assert a[0] in a && a[0] in b;
      var k :| 0 <= k < |b| && b[k] == a[0];
      assert b[0] in b && b[0] in a;
      var i :| 0 <= i < |a| && a[i] == b[0];
      TextLessIsStrict(a[0].day);
      if k > 0 && i > 0 { TextLessIsTransitive(a[0].day, b[0].day, a[0].day); }
      assert a[0] == b[0];
      HeadIsNotInTail(a);
      HeadIsNotInTail(b);
      forall s ensures s in a[1..] <==> s in b[1..] {
        assert s in a <==> s == a[0] || s in a[1..];
        assert s in b <==> s == b[0] || s in b[1..];
      }
      ListingIsUnique(a[1..], b[1..]);
      assert a == [a[0]] + a[1..] && b == [b[0]] + b[1..];
    }
  }

  lemma SomeMember(b: seq<Snapshot>) returns (x: Snapshot)
    requires b != []
    ensures x in b
  {
    x := b[0];
  }

  lemma HeadIsNotInTail(a: seq<Snapshot>)
    requires a != [] && Ascending(a)
    ensures a[0] !in a[1..] && Ascending(a[1..])
  {
    forall i | 1 <= i < |a| ensures a[i] != a[0] {
      TextLessIsStrict(a[0].day);
    }
  }

  /** What the query returns: the newest `limit` entries of the battery's listing, in ascending order. */
  lemma QueryIsNewestOfListing(rows: seq<Snapshot>, battery: string, limit: int)
    returns (all: seq<Snapshot>)
    requires UniqueKeys(rows)
    ensures Lists(TableOf(rows), battery, all)
    ensures Query(rows, battery, limit) == Newest(all, limit)
  {
    all := Reversed(LatestFirst(OfBattery(rows, battery)));
    ReversedLists(rows, battery);
    LimitReversed(LatestFirst(OfBattery(rows, battery)), limit);
    assert Query(rows, battery, limit) == Reversed(Limited(LatestFirst(OfBattery(rows, battery)), limit));
    hide *;
  }

  /** Limiting before reversing keeps the end of the reversed list. */
  lemma LimitReversed(latest: seq<Snapshot>, limit: int)
    ensures Reversed(Limited(latest, limit)) == Newest(Reversed(latest), limit)
  {
    var a, b := Reversed(Limited(latest, limit)), Newest(Reversed(latest), limit);
    assert |a| == |b|;
    forall i | 0 <= i < |a| ensures a[i] == b[i] { hide Reversed; }
    hide Reversed, Limited, Newest;
  }

  lemma ReversedLists(rows: seq<Snapshot>, battery: string)
    requires UniqueKeys(rows)
    ensures Lists(TableOf(rows), battery, Reversed(LatestFirst(OfBattery(rows, battery))))
  {
    var latest := LatestFirst(OfBattery(rows, battery));
    BatteryDaysAreDistinct(rows, battery);
    LatestFirstIsSorted(OfBattery(rows, battery));
    var all := Reversed(latest);
    forall s ensures s in all <==> s.battery == battery && KeyOf(s) in TableOf(rows) && TableOf(rows)[KeyOf(s)] == s {
      ReversedMembers(latest, s);
      TableHolds(rows, s);
    }
    hide TableOf, LatestFirst, OfBattery, UniqueKeys;
  }

  lemma ReversedMembers(rows: seq<Snapshot>, s: Snapshot)
    ensures s in Reversed(rows) <==> s in rows
  {
    if s in rows {
      var i :| 0 <= i < |rows| && rows[i] == s;
      assert Reversed(rows)[|rows| - 1 - i] == s;
    }
  }

  /** The store: rows in insertion order under the primary key. */
  class SqliteHistoryStore {
    var rows: seq<Snapshot>

    ghost predicate Valid()
      reads this
    {
      UniqueKeys(rows)
    }

    ghost function Table(): map<Key, Snapshot>
      reads this
    {
      TableOf(rows)
    }

    constructor ()
      ensures Valid() && Table() == map[]
    {
      rows := [];
    }

    method RecordWear(s: Snapshot)
      requires Valid()
      modifies this
      ensures Valid() && rows == Replaced(old(rows), s)
      ensures Table() == old(Table())[KeyOf(s) := s]
    {
      ReplacedKeepsUnique(rows, s);
      RecordUpdatesOneEntry(rows, s);
      rows := Without(rows, KeyOf(s)) + [s];
    }

    method History(battery: string, limit: int) returns (history: seq<Snapshot>)
      requires Valid()
      ensures history == Query(rows, battery, limit)
      ensures exists all :: Lists(Table(), battery, all) && history == Newest(all, limit)
    {
      history := Reversed(Limited(LatestFirst(OfBattery(rows, battery)), limit));
      ghost var all := QueryIsNewestOfListing(rows, battery, limit);
    }
  }

  // -- whole histories ------------------------------------------------------

  /** The rows after a sequence of records into an empty store. */
  function Recorded(records: seq<Snapshot>): seq<Snapshot> {
    if records == [] then [] else Replaced(Recorded(records[..|records|-1]), records[|records|-1])
  }

  /**
    After any sequence of records: the query returns, ascending by day, the newest `limit` days of the battery,
    each with the last snapshot recorded for it.
  */
  lemma {:induction false} HistoryRefinesMap(records: seq<Snapshot>, battery: string, limit: int)
    returns (all: seq<Snapshot>)
    ensures UniqueKeys(Recorded(records)) && TableOf(Recorded(records)) == TableOf(records)
    ensures Lists(TableOf(records), battery, all)
    ensures Query(Recorded(records), battery, limit) == Newest(all, limit)
    ensures Ascending(Newest(all, limit))
  {
    RecordedTable(records);
    all := QueryIsNewestOfListing(Recorded(records), battery, limit);
  }

  lemma {:induction false} RecordedTable(records: seq<Snapshot>)
    ensures UniqueKeys(Recorded(records)) && TableOf(Recorded(records)) == TableOf(records)
  {
    if records != [] {
      var before, last := records[..|records|-1], records[|records|-1];
      RecordedTable(before);
      ReplacedKeepsUnique(Recorded(before), last);
      RecordUpdatesOneEntry(Recorded(before), last);
    }
  }
}
