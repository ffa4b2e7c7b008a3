/**
 `_extract_from_table` in `repo_extractors/declarative.py`: from a timetable table to rows of jamaat
 times, with the window check of `repo_extractors/semantics.py` they must pass. Text parsing is
 given by functions.
 */
module Extraction {
  import opened Wrappers
  import opened CarryForward

  datatype Prayer = Fajr | Dhuhr | Asr | Maghrib | Isha | Jumuah

  // Minutes since midnight.
  type Time = t: int | 0 <= t < 1440 witness 0

  function At(hour: int, minute: int): int {
    hour * 60 + minute
  }

  // PLAUSIBLE_WINDOWS
  function Window(p: Prayer): (int, int) {
    match p
    case Fajr => (At(2, 0), At(7, 30))
    case Dhuhr => (At(11, 30), At(16, 0))
    case Asr => (At(13, 30), At(20, 0))
    case Maghrib => (At(15, 30), At(22, 30))
    case Isha => (At(17, 0), At(23, 59))
    case Jumuah => (At(11, 30), At(15, 30))
  }

  predicate InWindow(t: Time, p: Prayer) {
    Window(p).0 <= t <= Window(p).1
  }

  function InferAmPm(t: Time, p: Prayer): Time {
    if t >= At(13, 0) || InWindow(t, p) then t
    else if t < At(12, 0) && InWindow(t + At(12, 0), p) then t + At(12, 0)
    else t
  }

  // The inferred time shows the same clock face; it is plausible whenever a reading of that face
  // open to the rule is, and inferring again changes nothing.
  lemma InferenceIsSound(t: Time, p: Prayer)
    ensures InferAmPm(t, p) == t || (t < At(12, 0) && InferAmPm(t, p) == t + At(12, 0))
    ensures InWindow(InferAmPm(t, p), p) <==> InWindow(t, p) || (t < At(12, 0) && InWindow(t + At(12, 0), p))
    ensures InWindow(t, p) ==> InferAmPm(t, p) == t
    ensures InferAmPm(InferAmPm(t, p), p) == InferAmPm(t, p)
  {
  }

  // The plausible times, in hours and minutes; none of the windows reaches from a time to the same
  // clock face twelve hours later.
  lemma WindowsAre(hour: nat, minute: nat, p: Prayer)
    requires hour < 24 && minute < 60
    ensures InWindow(At(hour, minute), p) <==>
      match p
      case Fajr => 2 <= hour < 7 || (hour == 7 && minute <= 30)
      case Dhuhr => (hour == 11 && minute >= 30) || 12 <= hour < 16 || (hour == 16 && minute == 0)
      case Asr => (hour == 13 && minute >= 30) || 14 <= hour < 20 || (hour == 20 && minute == 0)
      case Maghrib => (hour == 15 && minute >= 30) || 16 <= hour < 22 || (hour == 22 && minute <= 30)
      case Isha => 17 <= hour < 23 || (hour == 23 && minute <= 59)
      case Jumuah => (hour == 11 && minute >= 30) || 12 <= hour < 15 || (hour == 15 && minute <= 30)
    ensures hour < 12 ==> !(InWindow(At(hour, minute), p) && InWindow(At(hour + 12, minute), p))
  {
  }

  // --- configuration and results ---

  datatype ColumnSpec = Keyword(text: string) | Index(index: int)

  type Date = nat

  // What a subclass configures and the text parsing it relies on.
  datatype Config = Config(
    dateColumn: ColumnSpec, prayerColumns: seq<(Prayer, ColumnSpec)>, startColumns: seq<(Prayer, ColumnSpec)>,
    useCarryForward: bool,
    cleanCell: string -> string, lower: string -> string,
    parseDate: string -> Option<Date>, parseTime: string -> Option<Time>, acceptRow: (seq<string>, Date) -> bool)

  datatype ScheduleRow = ScheduleRow(date: Date, prayer: Prayer, jamaat: Time, start: Option<Time>, number: nat)

  datatype Warning = NoDateColumn | MissingPrayerColumn | UnparseableTime | ImplausibleTime

  datatype Reason = DateColumnNotFound | NoPrayerColumns | NoExtractableRows

  datatype Extracted = Extracted(rows: seq<ScheduleRow>, warnings: seq<Warning>, reason: Option<Reason>)

  // --- finding columns ---

  predicate Contains(text: string, needle: string) {
    exists i :: 0 <= i <= |text| && needle <= text[i..]
  }

  predicate Matches(cfg: Config, cell: string, keyword: string) {
    Contains(cfg.lower(cell), cfg.lower(keyword))
  }

  // A header cell matches when the keyword stands somewhere in it, whatever the case of either.
  lemma MatchesExactly(cfg: Config, cell: string, keyword: string)
    ensures Matches(cfg, cell, keyword) <==>
      exists before: string, after: string :: cfg.lower(cell) == before + cfg.lower(keyword) + after
  {
    var text, needle := cfg.lower(cell), cfg.lower(keyword);
    if Contains(text, needle) {
      var i :| 0 <= i <= |text| && needle <= text[i..];
      assert text == text[..i] + needle + text[i..][|needle|..];
    }
    if before: string, after: string :| text == before + needle + after {
      assert text[|before|..] == needle + after;
    }
  }

  // An index is taken as it is, as rows may be wider than the header; a keyword means the first
  // header cell that contains it.
  ghost predicate IsColumn(cfg: Config, header: seq<string>, spec: ColumnSpec, found: Option<nat>) {
    match spec
    case Index(i) => if i >= 0 then found == Some(i) else found.None?
    case Keyword(text) =>
      var limit := if found.Some? then found.value else |header|;
      && (found.Some? ==> found.value < |header| && Matches(cfg, header[found.value], text))
      && forall j :: 0 <= j < limit && j < |header| ==> !Matches(cfg, header[j], text)
  }

  method ColumnIndex(cfg: Config, header: seq<string>, spec: ColumnSpec) returns (found: Option<nat>)
    ensures IsColumn(cfg, header, spec, found)
  {
    if spec.Index? {
      return if spec.index >= 0 then Some(spec.index) else None;
    }
    for i := 0 to |header|
      invariant forall j :: 0 <= j < i ==> !Matches(cfg, header[j], spec.text)
    {
      if Matches(cfg, header[i], spec.text) { return Some(i); }
    }
    return None;
  }

  // The configured columns that were found, in order, and those that were not.
  ghost predicate AreColumns(
    cfg: Config, header: seq<string>, specs: seq<(Prayer, ColumnSpec)>, columns: seq<(Prayer, nat)>, missing: nat) {
    if specs == [] then columns == [] && missing == 0
    else
      var n, m := |specs| - 1, |columns| - 1;
      || (IsColumn(cfg, header, specs[n].1, None) && missing > 0
          && AreColumns(cfg, header, specs[..n], columns, missing - 1))
      || (columns != [] && columns[m].0 == specs[n].0 && IsColumn(cfg, header, specs[n].1, Some(columns[m].1))
          && AreColumns(cfg, header, specs[..n], columns[..m], missing))
  }

  method FindColumns(cfg: Config, header: seq<string>, specs: seq<(Prayer, ColumnSpec)>)
    returns (columns: seq<(Prayer, nat)>, missing: nat)
    ensures AreColumns(cfg, header, specs, columns, missing)
  {
    hide IsColumn;
    columns, missing := [], 0;
    for i := 0 to |specs|
      invariant AreColumns(cfg, header, specs[..i], columns, missing)
    {
      assert specs[..i + 1][..i] == specs[..i];
      var found := ColumnIndex(cfg, header, specs[i].1);
      if found.None? {
        missing := missing + 1;
      } else {
        ghost var before := columns;
        columns := columns + [(specs[i].0, found.value)];
        assert columns[..|columns| - 1] == before;
      }
    }
    assert specs[..|specs|] == specs;
  }

  // A dictionary of columns; a later entry for the same prayer would replace an earlier one.
  function AsMap(columns: seq<(Prayer, nat)>): map<Prayer, nat> {
    if columns == [] then map[]
    else AsMap(columns[..|columns| - 1])[columns[|columns| - 1].0 := columns[|columns| - 1].1]
  }

  // --- one cell ---

  datatype Reading = Skip | Warn(warning: Warning) | Emit(row: ScheduleRow)

  function CoerceTime(cfg: Config, raw: string, p: Prayer): Option<Time> {
    var parsed := cfg.parseTime(raw);
    if parsed.None? then None else Some(InferAmPm(parsed.value, p))
  }

  function StartTime(cfg: Config, row: seq<string>, p: Prayer, starts: map<Prayer, nat>): Option<Time> {
    if p in starts && starts[p] < |row| && row[starts[p]] != "" then CoerceTime(cfg, row[starts[p]], p) else None
  }

  function ReadCell(
    cfg: Config, row: seq<string>, number: nat, date: Date, p: Prayer, index: nat, starts: map<Prayer, nat>): Reading {
    if index >= |row| || row[index] == "" then Skip
    else
      var jamaat := CoerceTime(cfg, row[index], p);
      if jamaat.None? then Warn(UnparseableTime)
      else if !InWindow(jamaat.value, p) then Warn(ImplausibleTime)
      else Emit(ScheduleRow(date, p, jamaat.value, StartTime(cfg, row, p, starts), number))
  }

  // The date of a row that is not passed over.
  function RowDate(cfg: Config, row: seq<string>, dateIndex: nat): Option<Date> {
    if dateIndex >= |row| then None
    else
      var date := cfg.parseDate(row[dateIndex]);
      if date.None? || !cfg.acceptRow(row, date.value) then None else date
  }

  // --- the rows of a body ---

  // Row `number` of the body (counted from 1) gives the prayer in column `index` this schedule row.
  ghost predicate Emits(
    cfg: Config, body: seq<seq<string>>, dateIndex: nat, columns: seq<(Prayer, nat)>, starts: map<Prayer, nat>,
    r: nat, c: nat, out: ScheduleRow)
    requires r < |body| && c < |columns|
  {
    var date := RowDate(cfg, body[r], dateIndex);
    date.Some? && ReadCell(cfg, body[r], r + 1, date.value, columns[c].0, columns[c].1, starts) == Emit(out)
  }

  // The schedule rows of the first `c` columns of one body row.
  ghost function RowsOfLine(
    cfg: Config, row: seq<string>, number: nat, date: Date, columns: seq<(Prayer, nat)>, starts: map<Prayer, nat>)
    : seq<ScheduleRow>
  {
    if columns == [] then []
    else
      var (p, index) := columns[|columns| - 1];
      var reading := ReadCell(cfg, row, number, date, p, index, starts);
      RowsOfLine(cfg, row, number, date, columns[..|columns| - 1], starts)
      + if reading.Emit? then [reading.row] else []
  }

  // The complaints about the cells of one body row, and of the body.
  ghost function WarningsOfLine(
    cfg: Config, row: seq<string>, number: nat, date: Date, columns: seq<(Prayer, nat)>, starts: map<Prayer, nat>)
    : seq<Warning>
  {
    if columns == [] then []
    else
      var (p, index) := columns[|columns| - 1];
      var reading := ReadCell(cfg, row, number, date, p, index, starts);
      WarningsOfLine(cfg, row, number, date, columns[..|columns| - 1], starts)
      + if reading.Warn? then [reading.warning] else []
  }

  ghost function WarningsOfBody(
    cfg: Config, body: seq<seq<string>>, dateIndex: nat, columns: seq<(Prayer, nat)>, starts: map<Prayer, nat>)
    : seq<Warning>
  {
    if body == [] then []
    else
      var row := body[|body| - 1];
      var date := RowDate(cfg, row, dateIndex);
      WarningsOfBody(cfg, body[..|body| - 1], dateIndex, columns, starts)
      + if date.Some? then WarningsOfLine(cfg, row, |body|, date.value, columns, starts) else []
  }

  ghost function RowsOfBody(
    cfg: Config, body: seq<seq<string>>, dateIndex: nat, columns: seq<(Prayer, nat)>, starts: map<Prayer, nat>)
    : seq<ScheduleRow>
  {
    if body == [] then []
    else
      var row := body[|body| - 1];
      var date := RowDate(cfg, row, dateIndex);
      RowsOfBody(cfg, body[..|body| - 1], dateIndex, columns, starts)
      + if date.Some? then RowsOfLine(cfg, row, |body|, date.value, columns, starts) else []
  }

  // --- the whole table ---

  function CleanedRows(cfg: Config, rows: seq<seq<string>>): seq<seq<string>> {
    seq(|rows|, r requires 0 <= r < |rows| => CleanedRow(cfg, rows[r]))
  }

  function CleanedRow(cfg: Config, row: seq<string>): seq<string> {
    seq(|row|, c requires 0 <= c < |row| => cfg.cleanCell(row[c]))
  }

  function Header(cfg: Config, table: seq<seq<string>>): seq<string> {
    if table == [] then [] else CleanedRow(cfg, table[0])
  }

  function Body(cfg: Config, table: seq<seq<string>>): seq<seq<string>> {
    if table == [] then [] else CleanedRows(cfg, table[1..])
  }

  ghost predicate IsReadBody(cfg: Config, body: seq<seq<string>>, read: seq<seq<string>>) {
    if cfg.useCarryForward && body != [] then IsFilledBody(body, read) else read == body
  }

  // What the extraction of a table is: nothing without a date column or any prayer column, otherwise
  // the schedule rows of the (possibly filled) body, and a reason exactly when there are none.
  ghost predicate IsExtraction(cfg: Config, table: seq<seq<string>>, result: Extracted) {
    var header := Header(cfg, table);
    || (IsColumn(cfg, header, cfg.dateColumn, None)
        && result == Extracted([], [NoDateColumn], Some(DateColumnNotFound)))
    || exists dateIndex, columns, missing, starts, unfound, read ::
         && IsColumn(cfg, header, cfg.dateColumn, Some(dateIndex))
         && AreColumns(cfg, header, cfg.prayerColumns, columns, missing)
         && AreColumns(cfg, header, cfg.startColumns, starts, unfound)
         && IsReadBody(cfg, Body(cfg, table), read)
         && RowsAre(cfg, dateIndex, columns, missing, AsMap(starts), read, result)
  }

  function MissingColumns(missing: nat): seq<Warning> {
    seq(missing, i => MissingPrayerColumn)
  }

  ghost predicate RowsAre(
    cfg: Config, dateIndex: nat, columns: seq<(Prayer, nat)>, missing: nat, starts: map<Prayer, nat>,
    read: seq<seq<string>>, result: Extracted) {
    && result.warnings == MissingColumns(missing) + WarningsOfBody(cfg, read, dateIndex, columns, starts)
    && result.rows == RowsOfBody(cfg, read, dateIndex, columns, starts)
    && result.reason == (if columns == [] then Some(NoPrayerColumns)
                         else if result.rows == [] then Some(NoExtractableRows) else None)
  }

  method ExtractFromTable(cfg: Config, table: seq<seq<string>>) returns (result: Extracted)
    ensures IsExtraction(cfg, table, result)
  {
    hide IsColumn, AreColumns, IsFilledBody, ReadCell, RowDate, CleanedRow, CleanedRows, AsMap;
    var header := Header(cfg, table);
    var dateIndex := ColumnIndex(cfg, header, cfg.dateColumn);
    if dateIndex.None? {
      return Extracted([], [NoDateColumn], Some(DateColumnNotFound));
    }
    var columns, missing := FindColumns(cfg, header, cfg.prayerColumns);
    var warnings := MissingColumns(missing);
    var starts, unfound := FindColumns(cfg, header, cfg.startColumns);
    var body := Body(cfg, table);
    var read := body;
    if cfg.useCarryForward && body != [] { read := FillDown(body); }
    var rows := [];
    if columns == [] {
      NoColumnsNoRows(cfg, read, dateIndex.value, AsMap(starts));
      result := Extracted([], warnings, Some(NoPrayerColumns));
    } else {
      rows, warnings := ReadBody(cfg, read, dateIndex.value, columns, AsMap(starts), warnings);
      result := Extracted(rows, warnings, if rows == [] then Some(NoExtractableRows) else None);
    }
    assert IsReadBody(cfg, body, read);
    assert RowsAre(cfg, dateIndex.value, columns, missing, AsMap(starts), read, result);
  }

  lemma {:induction false} NoColumnsNoRows(
    cfg: Config, body: seq<seq<string>>, dateIndex: nat, starts: map<Prayer, nat>)
    ensures RowsOfBody(cfg, body, dateIndex, [], starts) == []
    ensures WarningsOfBody(cfg, body, dateIndex, [], starts) == []
  {
    if body != [] {
      NoColumnsNoRows(cfg, body[..|body| - 1], dateIndex, starts);
    }
  }

  method ReadBody(
    cfg: Config, body: seq<seq<string>>, dateIndex: nat, columns: seq<(Prayer, nat)>, starts: map<Prayer, nat>,
    before: seq<Warning>) returns (rows: seq<ScheduleRow>, warnings: seq<Warning>)
    ensures rows == RowsOfBody(cfg, body, dateIndex, columns, starts)
    ensures warnings == before + WarningsOfBody(cfg, body, dateIndex, columns, starts)
  {
    hide ReadCell, RowsOfLine, WarningsOfLine;
    rows, warnings := [], before;
    for i := 0 to |body|
      invariant rows == RowsOfBody(cfg, body[..i], dateIndex, columns, starts)
      invariant warnings == before + WarningsOfBody(cfg, body[..i], dateIndex, columns, starts)
    {
      assert body[..i + 1][..i] == body[..i];
      var row := body[i];
      if dateIndex < |row| {
        var date := cfg.parseDate(row[dateIndex]);
        if date.Some? && cfg.acceptRow(row, date.value) {
          var more, complaints := ReadLine(cfg, row, i + 1, date.value, columns, starts);
          rows, warnings := rows + more, warnings + complaints;
        }
      }
    }
    assert body[..|body|] == body;
  }

  method ReadLine(
    cfg: Config, row: seq<string>, number: nat, date: Date, columns: seq<(Prayer, nat)>, starts: map<Prayer, nat>)
    returns (rows: seq<ScheduleRow>, warnings: seq<Warning>)
    ensures rows == RowsOfLine(cfg, row, number, date, columns, starts)
    ensures warnings == WarningsOfLine(cfg, row, number, date, columns, starts)
  {
    rows, warnings := [], [];
    for i := 0 to |columns|
      invariant rows == RowsOfLine(cfg, row, number, date, columns[..i], starts)
      invariant warnings == WarningsOfLine(cfg, row, number, date, columns[..i], starts)
    {
      assert columns[..i + 1][..i] == columns[..i];
      var (p, index) := columns[i];
      var raw := if index < |row| then row[index] else "";
      if raw != "" {
        var jamaat := CoerceTime(cfg, raw, p);
        if jamaat.None? {
          warnings := warnings + [UnparseableTime];
        } else if !InWindow(jamaat.value, p) {
          warnings := warnings + [ImplausibleTime];
        } else {
          var start := StartTime(cfg, row, p, starts);
          rows := rows + [ScheduleRow(date, p, jamaat.value, start, number)];
        }
      }
    }
    assert columns[..|columns|] == columns;
  }

  // --- what the rows are ---

  lemma {:induction false} LineEmits(
    cfg: Config, row: seq<string>, number: nat, date: Date, columns: seq<(Prayer, nat)>, starts: map<Prayer, nat>,
    out: ScheduleRow)
    ensures out in RowsOfLine(cfg, row, number, date, columns, starts) <==>
      exists c ::
        && 0 <= c < |columns|
        && ReadCell(cfg, row, number, date, columns[c].0, columns[c].1, starts) == Emit(out)
  {
    hide ReadCell;
    if columns != [] {
      var n := |columns| - 1;
      LineEmits(cfg, row, number, date, columns[..n], starts, out);
      assert forall c :: 0 <= c < n ==> columns[..n][c] == columns[c];
    }
  }

  // A schedule row is extracted exactly when some cell of a prayer column emits it.
  lemma {:induction false} BodyEmits(
    cfg: Config, body: seq<seq<string>>, dateIndex: nat, columns: seq<(Prayer, nat)>, starts: map<Prayer, nat>,
    out: ScheduleRow)
    ensures out in RowsOfBody(cfg, body, dateIndex, columns, starts) <==>
      exists r, c :: 0 <= r < |body| && 0 <= c < |columns| && Emits(cfg, body, dateIndex, columns, starts, r, c, out)
  {
    hide ReadCell, RowDate, RowsOfLine;
    if body != [] {
      var n := |body| - 1;
      BodyEmits(cfg, body[..n], dateIndex, columns, starts, out);
      forall r, c | 0 <= r < n && 0 <= c < |columns|
        ensures Emits(cfg, body[..n], dateIndex, columns, starts, r, c, out) <==>
          Emits(cfg, body, dateIndex, columns, starts, r, c, out)
      {
        assert body[..n][r] == body[r];
      }
      var date := RowDate(cfg, body[n], dateIndex);
      assert forall c :: 0 <= c < |columns| ==> (Emits(cfg, body, dateIndex, columns, starts, n, c, out) <==>
        date.Some? && ReadCell(cfg, body[n], n + 1, date.value, columns[c].0, columns[c].1, starts) == Emit(out));
      if date.Some? {
        LineEmits(cfg, body[n], n + 1, date.value, columns, starts, out);
      }
    }
  }

  // Which table cells a row of an extraction stands for.
  ghost predicate ReadFrom(
    cfg: Config, read: seq<seq<string>>, dateIndex: nat, index: nat, out: ScheduleRow) {
    && 0 < out.number <= |read| && dateIndex < |read[out.number - 1]| && index < |read[out.number - 1]|
    && var row := read[out.number - 1];
       && cfg.parseDate(row[dateIndex]) == Some(out.date)
       && row[index] != "" && CoerceTime(cfg, row[index], out.prayer) == Some(out.jamaat)
  }

  lemma EmittedIsReadFrom(
    cfg: Config, read: seq<seq<string>>, dateIndex: nat, columns: seq<(Prayer, nat)>,
    starts: map<Prayer, nat>, out: ScheduleRow) returns (c: nat)
    requires out in RowsOfBody(cfg, read, dateIndex, columns, starts)
    ensures c < |columns| && columns[c].0 == out.prayer
    ensures ReadFrom(cfg, read, dateIndex, columns[c].1, out) && InWindow(out.jamaat, out.prayer)
  {
    hide RowsOfBody, CoerceTime, InWindow, StartTime;
    BodyEmits(cfg, read, dateIndex, columns, starts, out);
    var r, k :| 0 <= r < |read| && 0 <= k < |columns| && Emits(cfg, read, dateIndex, columns, starts, r, k, out);
    c := k;
  }

  // --- what the semantic check finds ---

  // The rows outside the plausible window of their prayer.
  method CountOutOfWindow(rows: seq<ScheduleRow>) returns (outOfWindow: nat)
    ensures outOfWindow == |OutOfWindow(rows)|
  {
    outOfWindow := 0;
    for i := 0 to |rows|
      invariant outOfWindow == |OutOfWindow(rows[..i])|
    {
      assert rows[..i + 1][..i] == rows[..i];
      if !InWindow(rows[i].jamaat, rows[i].prayer) { outOfWindow := outOfWindow + 1; }
    }
    assert rows[..|rows|] == rows;
  }

  function OutOfWindow(rows: seq<ScheduleRow>): seq<ScheduleRow> {
    if rows == [] then []
    else
      var last := rows[|rows| - 1];
      OutOfWindow(rows[..|rows| - 1]) + if InWindow(last.jamaat, last.prayer) then [] else [last]
  }

  lemma {:induction false} OutOfWindowAre(rows: seq<ScheduleRow>, out: ScheduleRow)
    ensures multiset(OutOfWindow(rows))[out] == if InWindow(out.jamaat, out.prayer) then 0 else multiset(rows)[out]
  {
    hide InWindow;
    if rows != [] {
      var n := |rows| - 1;
      OutOfWindowAre(rows[..n], out);
      assert rows == rows[..n] + [rows[n]];
    }
  }

  lemma {:induction false} NoneOutOfWindow(rows: seq<ScheduleRow>)
    requires forall out :: out in rows ==> InWindow(out.jamaat, out.prayer)
    ensures OutOfWindow(rows) == []
  {
    if rows != [] {
      NoneOutOfWindow(rows[..|rows| - 1]);
    }
  }

  // The window check never flags what this extraction produces.
  lemma WindowCheckPasses(cfg: Config, table: seq<seq<string>>, result: Extracted)
    requires IsExtraction(cfg, table, result)
    ensures OutOfWindow(result.rows) == []
  {
    hide IsColumn, AreColumns, IsReadBody, InWindow, RowsOfBody, AsMap;
    forall out | out in result.rows ensures InWindow(out.jamaat, out.prayer) {
      var dateIndex, columns, missing, starts, unfound, read :|
        && IsColumn(cfg, Header(cfg, table), cfg.dateColumn, Some(dateIndex))
        && AreColumns(cfg, Header(cfg, table), cfg.prayerColumns, columns, missing)
        && AreColumns(cfg, Header(cfg, table), cfg.startColumns, starts, unfound)
        && IsReadBody(cfg, Body(cfg, table), read)
        && RowsAre(cfg, dateIndex, columns, missing, AsMap(starts), read, result);
      var c := EmittedIsReadFrom(cfg, read, dateIndex, columns, AsMap(starts), out);
    }
    NoneOutOfWindow(result.rows);
  }

  // With carry-forward on, every time comes from its own cell or the nearest one above it that is
  // neither blank nor a ditto mark.
  lemma TimeComesFromCellAbove(
    cfg: Config, body: seq<seq<string>>, read: seq<seq<string>>, dateIndex: nat, columns: seq<(Prayer, nat)>,
    starts: map<Prayer, nat>, out: ScheduleRow) returns (c: nat, j: nat)
    requires body != [] && IsFilledBody(body, read) && out in RowsOfBody(cfg, read, dateIndex, columns, starts)
    ensures c < |columns| && columns[c].0 == out.prayer && 0 < out.number <= |body| && j < out.number
    ensures
      var column := Column(body, columns[c].1);
      && CoerceTime(cfg, Cleaned(column[j]), out.prayer) == Some(out.jamaat)
      && forall k :: j < k < out.number ==> Cleaned(column[k]) == ""
  {
    hide RowsOfBody, CoerceTime, InWindow, NearestAbove, Cleaned;
    c := EmittedIsReadFrom(cfg, read, dateIndex, columns, starts, out);
    var width :| IsWidth(body, width) && FilledTo(body, width, read);
    var r, index := out.number - 1, columns[c].1;
    assert read[r][index] == NearestAbove(Column(body, index), r);
    NearestAboveIs(Column(body, index), r);
    j :| 0 <= j <= r && TakenFrom(Column(body, index), r, j);
  }
}
