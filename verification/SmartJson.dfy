/**
  Reading a smartctl --json document of any shape into a SMART report: what is
  not where it should be, or not of the right type, reads as absent.
*/
module SmartJson {
  import opened Common

  /** JSON values as Python's json module builds them: objects have unique keys, integers are exact. */
  datatype Json =
    | Null
    | Bool(b: bool)
    | Int(n: int)
    | Float(x: real)
    | Str(s: string)
    | Arr(items: seq<Json>)
    | Obj(fields: map<string, Json>)

  datatype SmartReport = SmartReport(
    deviceName: string,
    passed: Option<bool>,
    temperatureC: Option<int>,
    powerOnHours: Option<int>,
    powerCycles: Option<int>,
    percentageUsed: Option<int>,
    availableSparePct: Option<int>,
    mediaErrors: Option<int>,
    criticalWarning: Option<int>,
    unsafeShutdowns: Option<int>,
    reallocatedSectors: Option<int>,
    pendingSectors: Option<int>,
    model: Option<string>,
    firmwareVersion: Option<string>,
    serialNumber: Option<string>,
    messages: seq<string>)

  const NVME_LOG := "nvme_smart_health_information_log"
  const REALLOCATED_SECTORS := 5
  const PENDING_SECTORS := 197

  /** dict.get: a missing key reads as null. */
  function Get(j: Json, key: string): Json
    requires j.Obj?
  {
    if key in j.fields then j.fields[key] else Null
  }

  /** A value that is an object's member, or null when there is no such object. */
  function Member(j: Json, key: string): Json { if j.Obj? then Get(j, key) else Null }

  function AsInt(j: Json): Option<int> { if j.Int? then Some(j.n) else None }

  // -- integers at a key path -----------------------------------------------

  /** The key path leads from `j` through objects to the value `v`. */
  ghost predicate Leads(j: Json, path: seq<string>, v: Json)
    decreases |path|
  {
    if path == [] then j == v
    else j.Obj? && path[0] in j.fields && Leads(j.fields[path[0]], path[1..], v)
  }

  ghost predicate LeadsTo(j: Json, path: seq<string>, n: int) { Leads(j, path, Int(n)) }

  lemma MemberLeads(j: Json, key: string, v: Json)
    ensures Leads(j, [key], v) ==> Member(j, key) == v
    ensures v != Null && Member(j, key) == v ==> Leads(j, [key], v)
  {
    var path := [key];
    assert path[0] == key && path[1..] == [];
    assert Leads(j, path, v) <==> j.Obj? && key in j.fields && Leads(j.fields[key], [], v);
  }

  lemma PathLeads(j: Json, first: string, second: string, v: Json)
    ensures Leads(j, [first, second], v) ==> Member(Member(j, first), second) == v
    ensures v != Null && Member(Member(j, first), second) == v ==> Leads(j, [first, second], v)
  {
    var path := [first, second];
    assert path[0] == first && path[1..] == [second];
    assert Leads(j, path, v) <==> j.Obj? && first in j.fields && Leads(j.fields[first], [second], v);
    MemberLeads(Member(j, first), second, v);
  }

  function IntAt(j: Json, path: seq<string>): Option<int>
    decreases |path|
  {
    if path == [] then AsInt(j)
    else if !j.Obj? then None
    else IntAt(Get(j, path[0]), path[1..])
  }

  lemma {:induction false} NullHasNoInt(path: seq<string>)
    ensures IntAt(Null, path) == None
  {
  }

  lemma {:induction false} IntAtExact(j: Json, path: seq<string>, n: int)
    ensures IntAt(j, path) == Some(n) <==> LeadsTo(j, path, n)
    decreases |path|
  {
    if path != [] && j.Obj? {
      if path[0] in j.fields {
        IntAtExact(j.fields[path[0]], path[1..], n);
      } else {
        NullHasNoInt(path[1..]);
      }
    }
  }

  /** _get_int() */
  method GetInt(data: Json, path: seq<string>) returns (r: Option<int>)
    requires data.Obj?
    ensures r == IntAt(data, path)
    ensures forall n :: r == Some(n) <==> LeadsTo(data, path, n)
  {
    forall n ensures IntAt(data, path) == Some(n) <==> LeadsTo(data, path, n) { IntAtExact(data, path, n); }
    var node := data;
    assert path[0..] == path;
    for i := 0 to |path|
      invariant IntAt(node, path[i..]) == IntAt(data, path)
    {
      if !node.Obj? { return None; }
      assert path[i..][1..] == path[i+1..];
      node := Get(node, path[i]);
    }
    assert path[|path|..] == [];
    r := AsInt(node);
  }

  // -- ATA attribute table --------------------------------------------------

  /** Python's ==: 5, 5.0 and, for 0 and 1, the booleans are equal. */
  predicate EqualsInt(j: Json, n: int) {
    match j
    case Int(m) => m == n
    case Float(x) => x == n as real
    case Bool(b) => n == if b then 1 else 0
    case _ => false
  }

  /** The usable value a table row holds for an attribute. */
  function RowValue(row: Json, id: int): Option<int> {
    if row.Obj? && EqualsInt(Get(row, "id"), id) then AsInt(Member(Get(row, "raw"), "value")) else None
  }

  function FirstValue(rows: seq<Json>, id: int): Option<int> {
    if rows == [] then None
    else if RowValue(rows[0], id).Some? then RowValue(rows[0], id)
    else FirstValue(rows[1..], id)
  }

  /** A row of an attribute, by a number equal to its id, that leads to the raw value `v`. */
  ghost predicate HoldsRaw(row: Json, id: int, v: int) {
    && (Leads(row, ["id"], Int(id)) || Leads(row, ["id"], Float(id as real))
        || (id == 1 && Leads(row, ["id"], Bool(true))) || (id == 0 && Leads(row, ["id"], Bool(false))))
    && Leads(row, ["raw", "value"], Int(v))
  }

  lemma RowValueExact(row: Json, id: int, v: int)
    ensures RowValue(row, id) == Some(v) <==> HoldsRaw(row, id, v)
  {
    MemberLeads(row, "id", Int(id));
    MemberLeads(row, "id", Float(id as real));
    MemberLeads(row, "id", Bool(true));
    MemberLeads(row, "id", Bool(false));
    PathLeads(row, "raw", "value", Int(v));
    hide Leads;
  }

  /** Row `k` holds the raw value `v` of an attribute, and no row before it holds one. */
  ghost predicate FirstAt(rows: seq<Json>, id: int, v: int, k: nat) {
    k < |rows| && HoldsRaw(rows[k], id, v) && forall i, n | 0 <= i < k :: !HoldsRaw(rows[i], id, n)
  }

  /** The first usable row of the attribute, in the table the document holds, has the raw value `v`. */
  ghost predicate TableHolds(data: Json, id: int, v: int) {
    exists rows, k: nat ::
      Leads(data, ["ata_smart_attributes", "table"], Arr(rows)) && FirstAt(rows, id, v, k)
  }

  function AtaRows(data: Json): seq<Json> {
    var rows := Member(Member(data, "ata_smart_attributes"), "table");
    if rows.Arr? then rows.items else []
  }

  function AtaValue(data: Json, id: int): Option<int> { FirstValue(AtaRows(data), id) }

  /** Malformed rows are skipped: the value is that of the first row that has one. */
  lemma {:induction false} FirstValueExact(rows: seq<Json>, id: int, v: int)
    ensures FirstValue(rows, id) == Some(v) <==> exists k: nat :: FirstAt(rows, id, v, k)
  {
    if rows != [] {
      var rest := rows[1..];
      FirstValueExact(rest, id, v);
      forall n ensures RowValue(rows[0], id) == Some(n) <==> HoldsRaw(rows[0], id, n) { RowValueExact(rows[0], id, n); }
      if RowValue(rows[0], id).Some? {
        assert HoldsRaw(rows[0], id, RowValue(rows[0], id).value);
        if RowValue(rows[0], id) == Some(v) { assert FirstAt(rows, id, v, 0); }
      } else {
        if k: nat :| FirstAt(rest, id, v, k) {
          assert forall i | 0 < i <= k + 1 :: rows[i] == rest[i-1];
          assert FirstAt(rows, id, v, k + 1);
        }
        if k: nat :| FirstAt(rows, id, v, k) {
          assert forall i | 0 <= i < |rest| :: rest[i] == rows[i+1];
          assert FirstAt(rest, id, v, k - 1);
        }
      }
      hide HoldsRaw, RowValue;
    }
  }

  /** The value read for an attribute is that of the document's own table. */
  lemma AtaValueExact(data: Json, id: int, v: int)
    ensures AtaValue(data, id) == Some(v) <==> TableHolds(data, id, v)
  {
    FirstValueExact(AtaRows(data), id, v);
    var table := Member(Member(data, "ata_smart_attributes"), "table");
    forall rows ensures Leads(data, ["ata_smart_attributes", "table"], Arr(rows)) <==> table == Arr(rows) {
      PathLeads(data, "ata_smart_attributes", "table", Arr(rows));
    }
    if table.Arr? { assert table == Arr(table.items); }
    hide FirstAt, Leads, Member, FirstValue;
  }

  /** _ata_raw_value() */
  method AtaRawValue(data: Json, id: int) returns (r: Option<int>)
    requires data.Obj?
    ensures r == AtaValue(data, id)
  {
    var table := if "ata_smart_attributes" in data.fields then data.fields["ata_smart_attributes"] else Obj(map[]);
    var rows := if table.Obj? then Get(table, "table") else Null;
    if !rows.Arr? { return None; }
    assert rows.items[0..] == rows.items;
    for i := 0 to |rows.items|
      invariant FirstValue(rows.items[i..], id) == AtaValue(data, id)
    {
      var row := rows.items[i];
      assert rows.items[i..][1..] == rows.items[i+1..];
      if row.Obj? && EqualsInt(Get(row, "id"), id) {
        var raw := Get(row, "raw");
        if raw.Obj? {
          var value := Get(raw, "value");
          if value.Int? { return Some(value.n); }
        }
      }
    }
    r := None;
  }

  // -- the remaining fields -------------------------------------------------

  function TextAt(data: Json, key: string): Option<string> {
    var value := Member(data, key);
    if value.Str? && value.s != "" then Some(value.s) else None
  }

  function Texts(entries: seq<Json>): seq<string> {
    if entries == [] then []
    else
      var text := Member(entries[|entries|-1], "string");
      Texts(entries[..|entries|-1]) + if text.Str? then [text.s] else []
  }

  function MessageEntries(data: Json): seq<Json> {
    var entries := Member(Member(data, "smartctl"), "messages");
    if entries.Arr? then entries.items else []
  }

  /** _messages() */
  method Messages(data: Json) returns (out: seq<string>)
    requires data.Obj?
    ensures out == Texts(MessageEntries(data))
  {
    var smartctl := Get(data, "smartctl");
    var entries := if smartctl.Obj? then Get(smartctl, "messages") else Null;
    if !entries.Arr? { return []; }
    out := [];
    for i := 0 to |entries.items|
      invariant out == Texts(entries.items[..i])
    {
      var entry := entries.items[i];
      assert entries.items[..i+1][..i] == entries.items[..i];
      if entry.Obj? && Get(entry, "string").Str? { out := out + [Get(entry, "string").s]; }
    }
    assert entries.items[..|entries.items|] == entries.items;
  }

  function Passed(data: Json): Option<bool> {
    var passed := Member(Member(data, "smart_status"), "passed");
    if passed.Bool? then Some(passed.b) else None
  }

  function Report(name: string, data: Json): SmartReport {
    SmartReport(
      name,
      Passed(data),
      IntAt(data, ["temperature", "current"]),
      IntAt(data, ["power_on_time", "hours"]),
      IntAt(data, ["power_cycle_count"]),
      IntAt(data, [NVME_LOG, "percentage_used"]),
      IntAt(data, [NVME_LOG, "available_spare"]),
      IntAt(data, [NVME_LOG, "media_errors"]),
      IntAt(data, [NVME_LOG, "critical_warning"]),
      IntAt(data, [NVME_LOG, "unsafe_shutdowns"]),
      AtaValue(data, REALLOCATED_SECTORS),
      AtaValue(data, PENDING_SECTORS),
      TextAt(data, "model_name"),
      TextAt(data, "firmware_version"),
      TextAt(data, "serial_number"),
      Texts(MessageEntries(data)))
  }

  /** _parse_report() */
  method ParseReport(name: string, data: Json) returns (r: SmartReport)
    requires data.Obj?
    ensures r == Report(name, data)
  {
    var status := Get(data, "smart_status");
    var passed := if status.Obj? then Get(status, "passed") else Null;
    var temperature := GetInt(data, ["temperature", "current"]);
    var hours := GetInt(data, ["power_on_time", "hours"]);
    var cycles := GetInt(data, ["power_cycle_count"]);
    var used := GetInt(data, [NVME_LOG, "percentage_used"]);
    var spare := GetInt(data, [NVME_LOG, "available_spare"]);
    var mediaErrors := GetInt(data, [NVME_LOG, "media_errors"]);
    var warning := GetInt(data, [NVME_LOG, "critical_warning"]);
    var shutdowns := GetInt(data, [NVME_LOG, "unsafe_shutdowns"]);
    var reallocated := AtaRawValue(data, 5);
    var pending := AtaRawValue(data, 197);
    var messages := Messages(data);
    hide IntAt, AtaValue, Texts, TextAt, LeadsTo, Leads;
    r := SmartReport(name, if passed.Bool? then Some(passed.b) else None, temperature, hours, cycles, used, spare,
                     mediaErrors, warning, shutdowns, reallocated, pending,
                     TextAt(data, "model_name"), TextAt(data, "firmware_version"), TextAt(data, "serial_number"),
                     messages);
  }

  /** For every JSON object, each numeric field is read exactly. */
  lemma ReportIsExact(name: string, data: Json, n: int)
    ensures var r, nvme := Report(name, data), "nvme_smart_health_information_log";
            && (r.temperatureC == Some(n) <==> LeadsTo(data, ["temperature", "current"], n))
            && (r.powerOnHours == Some(n) <==> LeadsTo(data, ["power_on_time", "hours"], n))
            && (r.powerCycles == Some(n) <==> LeadsTo(data, ["power_cycle_count"], n))
            && (r.percentageUsed == Some(n) <==> LeadsTo(data, [nvme, "percentage_used"], n))
            && (r.availableSparePct == Some(n) <==> LeadsTo(data, [nvme, "available_spare"], n))
            && (r.mediaErrors == Some(n) <==> LeadsTo(data, [nvme, "media_errors"], n))
            && (r.criticalWarning == Some(n) <==> LeadsTo(data, [nvme, "critical_warning"], n))
            && (r.unsafeShutdowns == Some(n) <==> LeadsTo(data, [nvme, "unsafe_shutdowns"], n))
            && (r.reallocatedSectors == Some(n) <==> TableHolds(data, 5, n))
            && (r.pendingSectors == Some(n) <==> TableHolds(data, 197, n))
  {
    IntAtExact(data, ["temperature", "current"], n);
    IntAtExact(data, ["power_on_time", "hours"], n);
    IntAtExact(data, ["power_cycle_count"], n);
    IntAtExact(data, [NVME_LOG, "percentage_used"], n);
    IntAtExact(data, [NVME_LOG, "available_spare"], n);
    IntAtExact(data, [NVME_LOG, "media_errors"], n);
    IntAtExact(data, [NVME_LOG, "critical_warning"], n);
    IntAtExact(data, [NVME_LOG, "unsafe_shutdowns"], n);
    AtaValueExact(data, 5, n);
    AtaValueExact(data, 197, n);
    hide IntAt, LeadsTo, TableHolds, AtaValue, Texts, TextAt, MessageEntries, Passed;
  }

  /** For every JSON object, the drive's own verdict is the boolean at its place: true, false, or none. */
  lemma PassedIsExact(name: string, data: Json, b: bool)
    ensures Report(name, data).passed == Some(b) <==> Leads(data, ["smart_status", "passed"], Bool(b))
  {
    PathLeads(data, "smart_status", "passed", Bool(b));
    hide IntAt, Leads, Member, AtaValue, Texts, TextAt, MessageEntries;
  }

  lemma TextIsExact(data: Json, key: string, text: string)
    ensures TextAt(data, key) == Some(text) <==> text != "" && Leads(data, [key], Str(text))
  {
    MemberLeads(data, key, Str(text));
    hide Leads, Member;
  }

  /** For every JSON object, each text is the string at its key; an empty one reads as absent. */
  lemma TextsAreExact(name: string, data: Json, text: string)
    ensures var r := Report(name, data);
            && r.deviceName == name
            && (r.model == Some(text) <==> text != "" && Leads(data, ["model_name"], Str(text)))
            && (r.firmwareVersion == Some(text) <==> text != "" && Leads(data, ["firmware_version"], Str(text)))
            && (r.serialNumber == Some(text) <==> text != "" && Leads(data, ["serial_number"], Str(text)))
  {
    TextIsExact(data, "model_name", text);
    TextIsExact(data, "firmware_version", text);
    TextIsExact(data, "serial_number", text);
    hide IntAt, Leads, AtaValue, Texts, TextAt, MessageEntries, Passed;
  }

  /** The strings that the entries which are objects hold under "string", in order. */
  ghost function StringsOf(entries: seq<Json>): seq<string> {
    if entries == [] then []
    else
      (match entries[0]
       case Obj(fields) => if "string" in fields && fields["string"].Str? then [fields["string"].s] else []
       case _ => []) + StringsOf(entries[1..])
  }

  lemma {:induction false} StringsOfConcat(a: seq<Json>, b: seq<Json>)
    ensures StringsOf(a + b) == StringsOf(a) + StringsOf(b)
  {
    if a == [] {
      assert a + b == b;
    } else {
      assert (a + b)[0] == a[0] && (a + b)[1..] == a[1..] + b;
      StringsOfConcat(a[1..], b);
    }
  }

  lemma {:induction false} TextsAreStrings(entries: seq<Json>)
    ensures Texts(entries) == StringsOf(entries)
  {
    if entries != [] {
      var init, last := entries[..|entries|-1], entries[|entries|-1];
      TextsAreStrings(init);
      StringsOfConcat(init, [last]);
      assert entries == init + [last] && [last][1..] == [];
    }
  }

  /** For every JSON object, the messages are the strings of the entries at their place, and none without entries. */
  lemma MessagesAreExact(name: string, data: Json)
    ensures forall entries | Leads(data, ["smartctl", "messages"], Arr(entries)) ::
              Report(name, data).messages == StringsOf(entries)
    ensures (forall entries :: !Leads(data, ["smartctl", "messages"], Arr(entries))) ==>
              Report(name, data).messages == []
  {
    var found := Member(Member(data, "smartctl"), "messages");
    forall entries ensures Leads(data, ["smartctl", "messages"], Arr(entries)) <==> found == Arr(entries) {
      PathLeads(data, "smartctl", "messages", Arr(entries));
    }
    TextsAreStrings(MessageEntries(data));
    if found.Arr? { assert found == Arr(found.items); }
    hide IntAt, Leads, Member, AtaValue, StringsOf, TextAt, Passed;
  }
}
