/**
 Which schedule rows a table yields, said about the table itself: its header cells, and for every
 cell of the body the text that is read there once blank cells have taken the value above them.
 */
module ExtractedRows {
  import opened Wrappers
  import opened CarryForward
  import opened Extraction

  function CellText(cfg: Config, table: seq<seq<string>>, r: nat, c: nat): string
    requires r < |table|
  {
    if c < |table[r]| then cfg.cleanCell(table[r][c]) else ""
  }

  // The text read in row r, column c: the cell's own, or with carry-forward that of the nearest cell
  // of the body at or above it that is neither blank nor a ditto mark.
  ghost predicate ReadsAs(cfg: Config, table: seq<seq<string>>, r: nat, c: nat, text: string)
    requires 0 < r < |table|
  {
    if !cfg.useCarryForward then text == CellText(cfg, table, r, c)
    else if text == "" then forall k :: 0 < k <= r ==> Cleaned(CellText(cfg, table, k, c)) == ""
    else exists j :: 0 < j <= r && ComesFrom(cfg, table, r, c, j, text)
  }

  ghost predicate ComesFrom(cfg: Config, table: seq<seq<string>>, r: nat, c: nat, j: nat, text: string)
    requires j <= r < |table|
  {
    text == Cleaned(CellText(cfg, table, j, c)) && forall k :: j < k <= r ==> Cleaned(CellText(cfg, table, k, c)) == ""
  }

  // A row as it is read; carry-forward makes every row as wide as the widest of the body.
  ghost predicate IsLine(cfg: Config, table: seq<seq<string>>, r: nat, line: seq<string>)
    requires 0 < r < |table|
  {
    && (if cfg.useCarryForward then IsWidth(table[1..], |line|) else |line| == |table[r]|)
    && forall c :: 0 <= c < |line| ==> ReadsAs(cfg, table, r, c, line[c])
  }

  ghost predicate IsHeader(cfg: Config, table: seq<seq<string>>, header: seq<string>) {
    if table == [] then header == []
    else |header| == |table[0]| && forall c :: 0 <= c < |header| ==> header[c] == cfg.cleanCell(table[0][c])
  }

  // What a cell says for a prayer: nothing if blank or unparseable, else its time after inference.
  predicate Says(cfg: Config, text: string, p: Prayer, time: Option<Time>) {
    if text == "" || cfg.parseTime(text).None? then time.None?
    else time == Some(InferAmPm(cfg.parseTime(text).value, p))
  }

  // One of these settings names this column for the prayer.
  ghost predicate ColumnFor(
    cfg: Config, header: seq<string>, specs: seq<(Prayer, ColumnSpec)>, p: Prayer, index: nat) {
    exists k :: 0 <= k < |specs| && specs[k].0 == p && IsColumn(cfg, header, specs[k].1, Some(index))
  }

  // The column a dictionary keeps for the prayer: that of the last setting found.
  ghost predicate StartColumn(
    cfg: Config, header: seq<string>, specs: seq<(Prayer, ColumnSpec)>, p: Prayer, index: nat) {
    exists k :: 0 <= k < |specs| && LastFound(cfg, header, specs, p, k, index)
  }

  ghost predicate LastFound(
    cfg: Config, header: seq<string>, specs: seq<(Prayer, ColumnSpec)>, p: Prayer, k: nat, index: nat)
    requires k < |specs|
  {
    && specs[k].0 == p && IsColumn(cfg, header, specs[k].1, Some(index))
    && forall l :: k < l < |specs| && specs[l].0 == p ==> IsColumn(cfg, header, specs[l].1, None)
  }

  // The start time beside a jamaat: what the prayer's start column says in this row, if it has one.
  ghost predicate StartIs(cfg: Config, header: seq<string>, line: seq<string>, p: Prayer, start: Option<Time>) {
    || (exists i: nat :: StartColumn(cfg, header, cfg.startColumns, p, i) && i < |line| && Says(cfg, line[i], p, start))
    || (start.None? && forall i: nat :: StartColumn(cfg, header, cfg.startColumns, p, i) ==> i >= |line|)
  }

  // The schedule row says what row `out.number` of the body says in these columns.
  ghost predicate Stands(
    cfg: Config, header: seq<string>, line: seq<string>, dateIndex: nat, index: nat, out: ScheduleRow) {
    && IsColumn(cfg, header, cfg.dateColumn, Some(dateIndex)) && dateIndex < |line|
    && cfg.parseDate(line[dateIndex]) == Some(out.date) && cfg.acceptRow(line, out.date)
    && ColumnFor(cfg, header, cfg.prayerColumns, out.prayer, index) && index < |line|
    && Says(cfg, line[index], out.prayer, Some(out.jamaat)) && InWindow(out.jamaat, out.prayer)
    && StartIs(cfg, header, line, out.prayer, out.start)
  }

  ghost predicate Yields(cfg: Config, table: seq<seq<string>>, out: ScheduleRow) {
    exists header, line, dateIndex: nat, index: nat ::
      && IsHeader(cfg, table, header)
      && 0 < out.number < |table| && IsLine(cfg, table, out.number, line)
      && Stands(cfg, header, line, dateIndex, index, out)
  }

  // --- columns ---

  lemma {:induction false} ColumnsAre(
    cfg: Config, header: seq<string>, specs: seq<(Prayer, ColumnSpec)>, columns: seq<(Prayer, nat)>, missing: nat,
    p: Prayer, i: nat)
    requires AreColumns(cfg, header, specs, columns, missing)
    ensures (p, i) in columns <==> ColumnFor(cfg, header, specs, p, i)
  {
    hide IsColumn;
    if specs != [] {
      var n, m := |specs| - 1, |columns| - 1;
      OneColumn(cfg, header, specs[n].1);
      assert forall k :: 0 <= k < n ==> specs[..n][k] == specs[k];
      if columns != [] && columns[m].0 == specs[n].0 && IsColumn(cfg, header, specs[n].1, Some(columns[m].1))
         && AreColumns(cfg, header, specs[..n], columns[..m], missing) {
        ColumnsAre(cfg, header, specs[..n], columns[..m], missing, p, i);
        assert columns == columns[..m] + [columns[m]];
      } else {
        ColumnsAre(cfg, header, specs[..n], columns, missing - 1, p, i);
      }
    }
  }

  lemma {:induction false} StartColumnsAre(
    cfg: Config, header: seq<string>, specs: seq<(Prayer, ColumnSpec)>, columns: seq<(Prayer, nat)>, missing: nat,
    p: Prayer, i: nat)
    requires AreColumns(cfg, header, specs, columns, missing)
    ensures p in AsMap(columns) && AsMap(columns)[p] == i <==> StartColumn(cfg, header, specs, p, i)
  {
    hide IsColumn;
    if specs != [] {
      var n, m := |specs| - 1, |columns| - 1;
      OneColumn(cfg, header, specs[n].1);
      if columns != [] && columns[m].0 == specs[n].0 && IsColumn(cfg, header, specs[n].1, Some(columns[m].1))
         && AreColumns(cfg, header, specs[..n], columns[..m], missing) {
        StartColumnsAre(cfg, header, specs[..n], columns[..m], missing, p, i);
      } else {
        StartColumnsAre(cfg, header, specs[..n], columns, missing - 1, p, i);
      }
      OneSettingMore(cfg, header, specs, p, i);
    }
  }

  lemma OneSettingMore(cfg: Config, header: seq<string>, specs: seq<(Prayer, ColumnSpec)>, p: Prayer, i: nat)
    requires specs != []
    ensures
      var n := |specs| - 1;
      StartColumn(cfg, header, specs, p, i) <==>
        || (specs[n].0 == p && IsColumn(cfg, header, specs[n].1, Some(i)))
        || (StartColumn(cfg, header, specs[..n], p, i) && (specs[n].0 == p ==> IsColumn(cfg, header, specs[n].1, None)))
  {
    hide IsColumn;
    var n := |specs| - 1;
    forall k | 0 <= k < n
      ensures LastFound(cfg, header, specs, p, k, i) <==>
        LastFound(cfg, header, specs[..n], p, k, i) && (specs[n].0 == p ==> IsColumn(cfg, header, specs[n].1, None))
    {
      assert forall l :: k <= l < n ==> specs[..n][l] == specs[l];
    }
    assert LastFound(cfg, header, specs, p, n, i) <==> specs[n].0 == p && IsColumn(cfg, header, specs[n].1, Some(i));
  }

  // A setting names at most one column.
  lemma OneColumn(cfg: Config, header: seq<string>, spec: ColumnSpec)
    ensures forall a, b :: IsColumn(cfg, header, spec, a) && IsColumn(cfg, header, spec, b) ==> a == b
  {
    hide Matches;
  }

  // --- lines ---

  lemma BodyIs(cfg: Config, table: seq<seq<string>>)
    requires table != []
    ensures |Body(cfg, table)| == |table| - 1
    ensures forall r :: 0 < r < |table| ==> |Body(cfg, table)[r - 1]| == |table[r]|
    ensures forall r, c: nat :: 0 < r < |table| ==> CellAt(Body(cfg, table), r - 1, c) == CellText(cfg, table, r, c)
    ensures forall w :: IsWidth(Body(cfg, table), w) <==> IsWidth(table[1..], w)
  {
    hide IsWidth;
    var body := Body(cfg, table);
    forall w: nat ensures IsWidth(body, w) <==> IsWidth(table[1..], w) {
      SameWidth(body, table[1..], w);
      SameWidth(table[1..], body, w);
    }
  }

  lemma SameWidth(a: seq<seq<string>>, b: seq<seq<string>>, w: nat)
    requires |a| == |b| && forall r :: 0 <= r < |a| ==> |a[r]| == |b[r]|
    ensures IsWidth(a, w) ==> IsWidth(b, w)
  {
    if IsWidth(a, w) {
      forall r | 0 <= r < |b| ensures |b[r]| <= w {
        assert a[r] in a;
      }
      if b != [] {
        var row :| row in a && |row| == w;
        var r :| 0 <= r < |a| && a[r] == row;
        assert b[r] in b;
      }
    }
  }

  // A cell reads as one text only.
  lemma OneReading(cfg: Config, table: seq<seq<string>>, r: nat, c: nat, a: string, b: string)
    requires 0 < r < |table| && ReadsAs(cfg, table, r, c, a) && ReadsAs(cfg, table, r, c, b)
    ensures a == b
  {
    hide Cleaned, CellText;
    if cfg.useCarryForward && a != "" && b != "" {
      var j :| 0 < j <= r && ComesFrom(cfg, table, r, c, j, a);
      var k :| 0 < k <= r && ComesFrom(cfg, table, r, c, k, b);
      assert j == k;
    }
  }

  lemma FilledReads(cfg: Config, table: seq<seq<string>>, r: nat, c: nat)
    requires cfg.useCarryForward && 0 < r < |table| && |Body(cfg, table)| == |table| - 1
    ensures ReadsAs(cfg, table, r, c, NearestAbove(Column(Body(cfg, table), c), r - 1))
  {
    hide Cleaned, CellText, NearestAbove, Body;
    BodyIs(cfg, table);
    var column := Column(Body(cfg, table), c);
    var text := NearestAbove(column, r - 1);
    NearestAboveIs(column, r - 1);
    forall k | 0 < k < |table| ensures column[k - 1] == CellText(cfg, table, k, c) {
    }
    if text != "" {
      var j :| 0 <= j <= r - 1 && TakenFrom(column, r - 1, j);
      assert ComesFrom(cfg, table, r, c, j + 1, text) by {
        forall k | j + 1 < k <= r ensures Cleaned(CellText(cfg, table, k, c)) == "" {
          assert Cleaned(column[k - 1]) == "";
        }
      }
    } else {
      forall k | 0 < k <= r ensures Cleaned(CellText(cfg, table, k, c)) == "" {
        assert Cleaned(column[k - 1]) == "";
      }
    }
  }

  lemma ReadIsLine(cfg: Config, table: seq<seq<string>>, read: seq<seq<string>>, r: nat)
    requires table != [] && IsReadBody(cfg, Body(cfg, table), read) && 0 < r <= |read|
    ensures r < |table| && IsLine(cfg, table, r, read[r - 1])
  {
    hide NearestAbove, Body, CellText, IsWidth, ReadsAs;
    BodyIs(cfg, table);
    var body, line := Body(cfg, table), read[r - 1];
    forall c | 0 <= c < |line| ensures ReadsAs(cfg, table, r, c, line[c]) {
      if cfg.useCarryForward {
        FilledReads(cfg, table, r, c);
      } else {
        PlainReads(cfg, table, r, c);
        assert line[c] == CellAt(body, r - 1, c);
      }
    }
  }

  lemma PlainReads(cfg: Config, table: seq<seq<string>>, r: nat, c: nat)
    requires 0 < r < |table| && !cfg.useCarryForward
    ensures ReadsAs(cfg, table, r, c, CellText(cfg, table, r, c))
  {
  }

  lemma OneLine(cfg: Config, table: seq<seq<string>>, r: nat, a: seq<string>, b: seq<string>)
    requires 0 < r < |table| && IsLine(cfg, table, r, a) && IsLine(cfg, table, r, b)
    ensures a == b
  {
    hide ReadsAs;
    assert table[1..][r - 1] in table[1..];
    assert |a| == |b|;
    forall c | 0 <= c < |a| ensures a[c] == b[c] {
      OneReading(cfg, table, r, c, a[c], b[c]);
    }
  }

  lemma LineIsRead(cfg: Config, table: seq<seq<string>>, read: seq<seq<string>>, r: nat, line: seq<string>)
    requires table != [] && IsReadBody(cfg, Body(cfg, table), read)
    requires 0 < r < |table| && IsLine(cfg, table, r, line) && line != []
    ensures r <= |read| && read[r - 1] == line
  {
    hide NearestAbove, CellText, ReadsAs, Body;
    BodyIs(cfg, table);
    if cfg.useCarryForward {
      var width :| IsWidth(Body(cfg, table), width) && FilledTo(Body(cfg, table), width, read);
      assert table[1..][r - 1] in table[1..];
      assert width == |line|;
    }
    ReadIsLine(cfg, table, read, r);
    OneLine(cfg, table, r, line, read[r - 1]);
  }

  // --- rows ---

  lemma SaysTime(cfg: Config, text: string, p: Prayer, time: Option<Time>)
    ensures text != "" ==> (Says(cfg, text, p, time) <==> time == CoerceTime(cfg, text, p))
  {
  }

  lemma StartOf(
    cfg: Config, header: seq<string>, starts: seq<(Prayer, nat)>, unfound: nat, line: seq<string>, p: Prayer,
    start: Option<Time>)
    requires AreColumns(cfg, header, cfg.startColumns, starts, unfound)
    ensures StartTime(cfg, line, p, AsMap(starts)) == start <==> StartIs(cfg, header, line, p, start)
  {
    hide AreColumns, StartColumn, AsMap, CoerceTime, Says;
    var m := AsMap(starts);
    forall i: nat ensures p in m && m[p] == i <==> StartColumn(cfg, header, cfg.startColumns, p, i) {
      StartColumnsAre(cfg, header, cfg.startColumns, starts, unfound, p, i);
    }
    if p in m && m[p] < |line| {
      assert StartColumn(cfg, header, cfg.startColumns, p, m[p]);
      SaysTime(cfg, line[m[p]], p, start);
      BlankSaysNothing(cfg, p, start);
    }
  }

  lemma HeaderIs(cfg: Config, table: seq<seq<string>>, header: seq<string>)
    ensures IsHeader(cfg, table, header) <==> header == Header(cfg, table)
  {
  }

  lemma EmitsStands(
    cfg: Config, header: seq<string>, read: seq<seq<string>>, dateIndex: nat, columns: seq<(Prayer, nat)>,
    missing: nat, starts: seq<(Prayer, nat)>, unfound: nat, r: nat, c: nat, out: ScheduleRow)
    requires IsColumn(cfg, header, cfg.dateColumn, Some(dateIndex))
    requires AreColumns(cfg, header, cfg.prayerColumns, columns, missing)
    requires AreColumns(cfg, header, cfg.startColumns, starts, unfound)
    requires r < |read| && c < |columns|
    ensures Emits(cfg, read, dateIndex, columns, AsMap(starts), r, c, out) <==>
      && out.number == r + 1 && columns[c].0 == out.prayer
      && Stands(cfg, header, read[r], dateIndex, columns[c].1, out)
  {
    hide AreColumns, IsColumn, ColumnFor, StartIs, StartTime, AsMap, CoerceTime, Says, InWindow;
    var (p, index) := columns[c];
    ColumnsAre(cfg, header, cfg.prayerColumns, columns, missing, p, index);
    StartOf(cfg, header, starts, unfound, read[r], p, out.start);
    if index < |read[r]| {
      SaysTime(cfg, read[r][index], p, Some(out.jamaat));
      BlankSaysNothing(cfg, p, Some(out.jamaat));
    }
  }

  lemma BlankSaysNothing(cfg: Config, p: Prayer, time: Option<Time>)
    ensures Says(cfg, "", p, time) <==> time.None?
  {
  }

  lemma YieldsWhatStands(
    cfg: Config, table: seq<seq<string>>, header: seq<string>, line: seq<string>, dateIndex: nat, index: nat,
    out: ScheduleRow)
    requires header == Header(cfg, table) && 0 < out.number < |table| && IsLine(cfg, table, out.number, line)
    requires Stands(cfg, header, line, dateIndex, index, out)
    ensures Yields(cfg, table, out)
  {
    hide IsHeader, Header, IsLine, Stands;
    HeaderIs(cfg, table, header);
  }

  lemma YieldedInBody(
    cfg: Config, table: seq<seq<string>>, out: ScheduleRow, dateIndex: nat, columns: seq<(Prayer, nat)>,
    missing: nat, starts: seq<(Prayer, nat)>, unfound: nat, read: seq<seq<string>>)
    requires IsColumn(cfg, Header(cfg, table), cfg.dateColumn, Some(dateIndex))
    requires AreColumns(cfg, Header(cfg, table), cfg.prayerColumns, columns, missing)
    requires AreColumns(cfg, Header(cfg, table), cfg.startColumns, starts, unfound)
    requires IsReadBody(cfg, Body(cfg, table), read)
    ensures out in RowsOfBody(cfg, read, dateIndex, columns, AsMap(starts)) <==> Yields(cfg, table, out)
  {
    hide IsHeader, Header, Body, IsReadBody, IsLine, Stands, IsColumn, AreColumns, Emits, RowsOfBody, AsMap;
    var header, rows := Header(cfg, table), RowsOfBody(cfg, read, dateIndex, columns, AsMap(starts));
    BodyEmits(cfg, read, dateIndex, columns, AsMap(starts), out);
    if out in rows {
      var r: nat, c: nat :| r < |read| && c < |columns|
                  && Emits(cfg, read, dateIndex, columns, AsMap(starts), r, c, out);
      EmitsStands(cfg, header, read, dateIndex, columns, missing, starts, unfound, r, c, out);
      NoTableNoBody(cfg, table, read);
      ReadIsLine(cfg, table, read, r + 1);
      YieldsWhatStands(cfg, table, header, read[r], dateIndex, columns[c].1, out);
    }
    if Yields(cfg, table, out) {
      var header', line, dateIndex': nat, index: nat :|
        && IsHeader(cfg, table, header') && 0 < out.number < |table| && IsLine(cfg, table, out.number, line)
        && Stands(cfg, header', line, dateIndex', index, out);
      HeaderIs(cfg, table, header');
      StandsIn(cfg, header, line, dateIndex', index, out);
      OneColumn(cfg, header, cfg.dateColumn);
      assert Some(dateIndex') == Some(dateIndex);
      LineIsRead(cfg, table, read, out.number, line);
      ColumnsAre(cfg, header, cfg.prayerColumns, columns, missing, out.prayer, index);
      var c :| 0 <= c < |columns| && columns[c] == (out.prayer, index);
      EmitsStands(cfg, header, read, dateIndex, columns, missing, starts, unfound, out.number - 1, c, out);
    }
  }

  lemma NoTableNoBody(cfg: Config, table: seq<seq<string>>, read: seq<seq<string>>)
    requires IsReadBody(cfg, Body(cfg, table), read)
    ensures table == [] ==> read == []
  {
  }

  lemma StandsIn(
    cfg: Config, header: seq<string>, line: seq<string>, dateIndex: nat, index: nat, out: ScheduleRow)
    requires Stands(cfg, header, line, dateIndex, index, out)
    ensures IsColumn(cfg, header, cfg.dateColumn, Some(dateIndex)) && line != []
    ensures ColumnFor(cfg, header, cfg.prayerColumns, out.prayer, index)
  {
  }

  // A table yields exactly the rows that stand in it: one for every row of the body with an accepted
  // date and every prayer column whose cell there tells a plausible time, with the start time its
  // prayer's start column tells.
  lemma ExtractedExactly(cfg: Config, table: seq<seq<string>>, result: Extracted, out: ScheduleRow)
    requires IsExtraction(cfg, table, result)
    ensures out in result.rows <==> Yields(cfg, table, out)
  {
    hide IsHeader, Header, Body, IsReadBody, IsLine, Stands, IsColumn, AreColumns, RowsOfBody, AsMap, WarningsOfBody;
    var header := Header(cfg, table);
    if IsColumn(cfg, header, cfg.dateColumn, None) {
      OneColumn(cfg, header, cfg.dateColumn);
      if Yields(cfg, table, out) {
        var header', line, dateIndex: nat, index: nat :|
          && IsHeader(cfg, table, header') && 0 < out.number < |table| && IsLine(cfg, table, out.number, line)
          && Stands(cfg, header', line, dateIndex, index, out);
        HeaderIs(cfg, table, header');
        StandsIn(cfg, header, line, dateIndex, index, out);
        assert false;
      }
    } else {
      var dateIndex, columns, missing, starts, unfound, read :|
        && IsColumn(cfg, header, cfg.dateColumn, Some(dateIndex))
        && AreColumns(cfg, header, cfg.prayerColumns, columns, missing)
        && AreColumns(cfg, header, cfg.startColumns, starts, unfound)
        && IsReadBody(cfg, Body(cfg, table), read)
        && RowsAre(cfg, dateIndex, columns, missing, AsMap(starts), read, result);
      YieldedInBody(cfg, table, out, dateIndex, columns, missing, starts, unfound, read);
    }
  }

  // --- warnings ---

  ghost predicate Warns(
    cfg: Config, body: seq<seq<string>>, dateIndex: nat, columns: seq<(Prayer, nat)>, starts: map<Prayer, nat>,
    r: nat, c: nat, w: Warning)
    requires r < |body| && c < |columns|
  {
    var date := RowDate(cfg, body[r], dateIndex);
    date.Some? && ReadCell(cfg, body[r], r + 1, date.value, columns[c].0, columns[c].1, starts) == Warn(w)
  }

  lemma {:induction false} LineWarns(
    cfg: Config, row: seq<string>, number: nat, date: Date, columns: seq<(Prayer, nat)>, starts: map<Prayer, nat>,
    w: Warning)
    ensures w in WarningsOfLine(cfg, row, number, date, columns, starts) <==>
      exists c ::
        && 0 <= c < |columns|
        && ReadCell(cfg, row, number, date, columns[c].0, columns[c].1, starts) == Warn(w)
  {
    hide ReadCell;
    if columns != [] {
      var n := |columns| - 1;
      LineWarns(cfg, row, number, date, columns[..n], starts, w);
      assert forall c :: 0 <= c < n ==> columns[..n][c] == columns[c];
    }
  }

  lemma {:induction false} BodyWarns(
    cfg: Config, body: seq<seq<string>>, dateIndex: nat, columns: seq<(Prayer, nat)>, starts: map<Prayer, nat>,
    w: Warning)
    ensures w in WarningsOfBody(cfg, body, dateIndex, columns, starts) <==>
      exists r, c :: 0 <= r < |body| && 0 <= c < |columns| && Warns(cfg, body, dateIndex, columns, starts, r, c, w)
  {
    hide ReadCell, RowDate, WarningsOfLine;
    if body != [] {
      var n := |body| - 1;
      BodyWarns(cfg, body[..n], dateIndex, columns, starts, w);
      forall r, c | 0 <= r < n && 0 <= c < |columns|
        ensures Warns(cfg, body[..n], dateIndex, columns, starts, r, c, w) <==>
          Warns(cfg, body, dateIndex, columns, starts, r, c, w)
      {
        assert body[..n][r] == body[r];
      }
      var date := RowDate(cfg, body[n], dateIndex);
      assert forall c :: 0 <= c < |columns| ==> (Warns(cfg, body, dateIndex, columns, starts, n, c, w) <==>
        date.Some? && ReadCell(cfg, body[n], n + 1, date.value, columns[c].0, columns[c].1, starts) == Warn(w));
      if date.Some? {
        LineWarns(cfg, body[n], n + 1, date.value, columns, starts, w);
      }
    }
  }

  // The text of this cell is no time at all, or not one that is plausible for the prayer.
  predicate Bad(cfg: Config, text: string, p: Prayer, w: Warning) {
    && text != ""
    && if cfg.parseTime(text).None? then w == UnparseableTime
       else w == ImplausibleTime && !InWindow(InferAmPm(cfg.parseTime(text).value, p), p)
  }

  // Some prayer cell of a dated, accepted row is bad.
  ghost predicate Complains(cfg: Config, table: seq<seq<string>>, header: seq<string>, w: Warning) {
    exists r: nat, line :: 0 < r < |table| && IsLine(cfg, table, r, line) && LineComplains(cfg, header, line, w)
  }

  ghost predicate LineComplains(cfg: Config, header: seq<string>, line: seq<string>, w: Warning) {
    exists dateIndex: nat, index: nat, p :: BadIn(cfg, header, line, dateIndex, index, p, w)
  }

  ghost predicate BadIn(
    cfg: Config, header: seq<string>, line: seq<string>, dateIndex: nat, index: nat, p: Prayer, w: Warning) {
    && IsColumn(cfg, header, cfg.dateColumn, Some(dateIndex)) && dateIndex < |line|
    && cfg.parseDate(line[dateIndex]).Some? && cfg.acceptRow(line, cfg.parseDate(line[dateIndex]).value)
    && ColumnFor(cfg, header, cfg.prayerColumns, p, index) && index < |line| && Bad(cfg, line[index], p, w)
  }

  lemma WarnsIsBad(
    cfg: Config, header: seq<string>, read: seq<seq<string>>, dateIndex: nat, columns: seq<(Prayer, nat)>,
    missing: nat, starts: map<Prayer, nat>, r: nat, c: nat, w: Warning)
    requires IsColumn(cfg, header, cfg.dateColumn, Some(dateIndex))
    requires AreColumns(cfg, header, cfg.prayerColumns, columns, missing)
    requires r < |read| && c < |columns|
    ensures Warns(cfg, read, dateIndex, columns, starts, r, c, w) <==>
      BadIn(cfg, header, read[r], dateIndex, columns[c].1, columns[c].0, w)
  {
    hide AreColumns, IsColumn, ColumnFor, StartTime, InWindow, InferAmPm;
    ColumnsAre(cfg, header, cfg.prayerColumns, columns, missing, columns[c].0, columns[c].1);
  }

  lemma WarnedInBody(
    cfg: Config, table: seq<seq<string>>, w: Warning, dateIndex: nat, columns: seq<(Prayer, nat)>,
    missing: nat, starts: map<Prayer, nat>, read: seq<seq<string>>)
    requires IsColumn(cfg, Header(cfg, table), cfg.dateColumn, Some(dateIndex))
    requires AreColumns(cfg, Header(cfg, table), cfg.prayerColumns, columns, missing)
    requires IsReadBody(cfg, Body(cfg, table), read)
    ensures w in WarningsOfBody(cfg, read, dateIndex, columns, starts) <==>
      Complains(cfg, table, Header(cfg, table), w)
  {
    hide Header, Body, IsReadBody, IsLine, BadIn, IsColumn, AreColumns, Warns, WarningsOfBody;
    var header := Header(cfg, table);
    BodyWarns(cfg, read, dateIndex, columns, starts, w);
    if w in WarningsOfBody(cfg, read, dateIndex, columns, starts) {
      var r: nat, c: nat :| r < |read| && c < |columns| && Warns(cfg, read, dateIndex, columns, starts, r, c, w);
      WarnsIsBad(cfg, header, read, dateIndex, columns, missing, starts, r, c, w);
      NoTableNoBody(cfg, table, read);
      ReadIsLine(cfg, table, read, r + 1);
      assert LineComplains(cfg, header, read[r], w);
    }
    if Complains(cfg, table, header, w) {
      var r: nat, line :| 0 < r < |table| && IsLine(cfg, table, r, line) && LineComplains(cfg, header, line, w);
      var dateIndex': nat, index: nat, p :| BadIn(cfg, header, line, dateIndex', index, p, w);
      BadNames(cfg, header, line, dateIndex', index, p, w);
      OneColumn(cfg, header, cfg.dateColumn);
      assert Some(dateIndex') == Some(dateIndex);
      LineIsRead(cfg, table, read, r, line);
      ColumnsAre(cfg, header, cfg.prayerColumns, columns, missing, p, index);
      var c :| 0 <= c < |columns| && columns[c] == (p, index);
      WarnsIsBad(cfg, header, read, dateIndex, columns, missing, starts, r - 1, c, w);
    }
  }

  lemma BadNames(
    cfg: Config, header: seq<string>, line: seq<string>, dateIndex: nat, index: nat, p: Prayer, w: Warning)
    requires BadIn(cfg, header, line, dateIndex, index, p, w)
    ensures IsColumn(cfg, header, cfg.dateColumn, Some(dateIndex)) && line != []
    ensures ColumnFor(cfg, header, cfg.prayerColumns, p, index) && (w == UnparseableTime || w == ImplausibleTime)
  {
  }

  // The prayers of which no column is found.
  ghost function Missing(cfg: Config, header: seq<string>, specs: seq<(Prayer, ColumnSpec)>): set<nat> {
    set k: nat | k < |specs| && IsColumn(cfg, header, specs[k].1, None)
  }

  lemma {:induction false} MissingAre(
    cfg: Config, header: seq<string>, specs: seq<(Prayer, ColumnSpec)>, columns: seq<(Prayer, nat)>, missing: nat)
    requires AreColumns(cfg, header, specs, columns, missing)
    ensures |Missing(cfg, header, specs)| == missing
  {
    hide IsColumn;
    if specs != [] {
      var n, m := |specs| - 1, |columns| - 1;
      OneColumn(cfg, header, specs[n].1);
      var before := Missing(cfg, header, specs[..n]);
      assert Missing(cfg, header, specs) == before + (if IsColumn(cfg, header, specs[n].1, None) then {n} else {});
      if columns != [] && columns[m].0 == specs[n].0 && IsColumn(cfg, header, specs[n].1, Some(columns[m].1))
         && AreColumns(cfg, header, specs[..n], columns[..m], missing) {
        MissingAre(cfg, header, specs[..n], columns[..m], missing);
      } else {
        MissingAre(cfg, header, specs[..n], columns, missing - 1);
      }
    }
  }

  lemma {:induction false} MissingCount(missing: nat)
    ensures multiset(MissingColumns(missing))[MissingPrayerColumn] == missing
    ensures forall w :: w in MissingColumns(missing) ==> w == MissingPrayerColumn
  {
    if missing > 0 {
      MissingCount(missing - 1);
      assert MissingColumns(missing) == MissingColumns(missing - 1) + [MissingPrayerColumn];
    }
  }

  // A complaint about a cell is one of two.
  lemma OnlyBadCells(cfg: Config, table: seq<seq<string>>, header: seq<string>, w: Warning)
    requires Complains(cfg, table, header, w)
    ensures w == UnparseableTime || w == ImplausibleTime
  {
    hide IsLine, BadIn;
    var r: nat, line :| 0 < r < |table| && IsLine(cfg, table, r, line) && LineComplains(cfg, header, line, w);
    var dateIndex: nat, index: nat, p :| BadIn(cfg, header, line, dateIndex, index, p, w);
    BadNames(cfg, header, line, dateIndex, index, p, w);
  }

  // What the warnings tell about the table once its date column is found.
  ghost predicate TellsTable(cfg: Config, table: seq<seq<string>>, header: seq<string>, warnings: seq<Warning>) {
    && NoDateColumn !in warnings
    && multiset(warnings)[MissingPrayerColumn] == |Missing(cfg, header, cfg.prayerColumns)|
    && (UnparseableTime in warnings <==> Complains(cfg, table, header, UnparseableTime))
    && (ImplausibleTime in warnings <==> Complains(cfg, table, header, ImplausibleTime))
  }

  lemma WarningsOfRows(
    cfg: Config, table: seq<seq<string>>, dateIndex: nat, columns: seq<(Prayer, nat)>, missing: nat,
    starts: map<Prayer, nat>, read: seq<seq<string>>)
    requires IsColumn(cfg, Header(cfg, table), cfg.dateColumn, Some(dateIndex))
    requires AreColumns(cfg, Header(cfg, table), cfg.prayerColumns, columns, missing)
    requires IsReadBody(cfg, Body(cfg, table), read)
    ensures TellsTable(cfg, table, Header(cfg, table),
      MissingColumns(missing) + WarningsOfBody(cfg, read, dateIndex, columns, starts))
  {
    hide IsColumn, AreColumns, IsReadBody, Complains, Missing, WarningsOfBody, MissingColumns, Header, Body;
    var cells := WarningsOfBody(cfg, read, dateIndex, columns, starts);
    MissingAre(cfg, Header(cfg, table), cfg.prayerColumns, columns, missing);
    MissingCount(missing);
    var header := Header(cfg, table);
    forall w ensures w in cells <==> Complains(cfg, table, header, w) {
      WarnedInBody(cfg, table, w, dateIndex, columns, missing, starts, read);
    }
    forall w | w in cells ensures w == UnparseableTime || w == ImplausibleTime {
      OnlyBadCells(cfg, table, header, w);
    }
    assert MissingPrayerColumn !in cells;
    assert MissingPrayerColumn !in multiset(cells);
  }

  lemma NoneFound(
    cfg: Config, header: seq<string>, specs: seq<(Prayer, ColumnSpec)>, columns: seq<(Prayer, nat)>, missing: nat)
    requires AreColumns(cfg, header, specs, columns, missing)
    ensures columns == [] <==> forall p, i: nat :: !ColumnFor(cfg, header, specs, p, i)
  {
    hide AreColumns, ColumnFor;
    forall p, i: nat ensures (p, i) in columns <==> ColumnFor(cfg, header, specs, p, i) {
      ColumnsAre(cfg, header, specs, columns, missing, p, i);
    }
    assert columns != [] ==> (columns[0].0, columns[0].1) in columns;
  }

  // What the warnings and the reason of an extraction tell about the table: without a date column
  // nothing else is said; with one, how many prayers have no column and which kinds of bad cells
  // there are, and the reason there are no rows, if there are none.
  lemma WarningsTell(cfg: Config, table: seq<seq<string>>, result: Extracted, header: seq<string>)
    requires IsExtraction(cfg, table, result) && IsHeader(cfg, table, header)
    ensures
      if IsColumn(cfg, header, cfg.dateColumn, None)
      then result == Extracted([], [NoDateColumn], Some(DateColumnNotFound))
      else
        && TellsTable(cfg, table, header, result.warnings)
        && result.reason == (if forall p, i: nat :: !ColumnFor(cfg, header, cfg.prayerColumns, p, i)
                             then Some(NoPrayerColumns)
                             else if result.rows == [] then Some(NoExtractableRows) else None)
  {
    hide IsHeader, Header, Body, IsReadBody, IsColumn, AreColumns, RowsOfBody, AsMap, WarningsOfBody, TellsTable,
      ColumnFor, MissingColumns;
    HeaderIs(cfg, table, header);
    OneColumn(cfg, header, cfg.dateColumn);
    if !IsColumn(cfg, header, cfg.dateColumn, None) {
      var dateIndex, columns, missing, starts, unfound, read :|
        && IsColumn(cfg, header, cfg.dateColumn, Some(dateIndex))
        && AreColumns(cfg, header, cfg.prayerColumns, columns, missing)
        && AreColumns(cfg, header, cfg.startColumns, starts, unfound)
        && IsReadBody(cfg, Body(cfg, table), read)
        && RowsAre(cfg, dateIndex, columns, missing, AsMap(starts), read, result);
      WarningsOfRows(cfg, table, dateIndex, columns, missing, AsMap(starts), read);
      NoneFound(cfg, header, cfg.prayerColumns, columns, missing);
    }
  }
}
