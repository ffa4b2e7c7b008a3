/**
 `_TableParser` in `ingest/extract/helpers/html.py`: the tables read off the start, end and data
 events of a page.
 */
module TableParser {
  import opened Wrappers
  import opened Whitespace

  datatype Event = StartTag(tag: string) | EndTag(tag: string) | Data(text: string)

  type Row = seq<string>

  predicate IsCell(tag: string) {
    tag == "td" || tag == "th"
  }

  predicate IsSkipped(tag: string) {
    tag == "script" || tag == "style"
  }

  // The fields of the parser; an open cell holds its chunks of text.
  datatype State = State(
    tables: seq<seq<Row>>, depth: int, rows: Option<seq<Row>>, row: Option<Row>, cell: Option<seq<string>>,
    skip: int)

  const INITIAL := State([], 0, None, None, None, 0)

  function Concat(chunks: seq<string>): string {
    if chunks == [] then "" else chunks[0] + Concat(chunks[1..])
  }

  function CellText(chunks: seq<string>): string {
    NormalizeWhitespace(Concat(chunks))
  }

  // --- one event ---

  function OnStart(p: State, tag: string): State {
    if tag == "table" then p.(depth := p.depth + 1, rows := if p.depth == 0 then Some([]) else p.rows)
    else if tag == "tr" && p.depth != 0 then p.(row := Some([]))
    else if IsCell(tag) && p.depth != 0 then p.(cell := Some([]))
    else if IsSkipped(tag) then p.(skip := p.skip + 1)
    else p
  }

  function OnEnd(p: State, tag: string): State {
    if tag == "table" && p.depth != 0 then
      if p.depth == 1 && p.rows.Some?
      then p.(depth := 0, tables := p.tables + [p.rows.value], rows := None, row := None, cell := None)
      else p.(depth := p.depth - 1)
    else if tag == "tr" && p.row.Some? then
      p.(rows := if p.rows.Some? then Some(p.rows.value + [p.row.value]) else p.rows, row := None)
    else if IsCell(tag) && p.cell.Some? then
      p.(row := Some((if p.row.Some? then p.row.value else []) + [CellText(p.cell.value)]), cell := None)
    else if IsSkipped(tag) && p.skip > 0 then p.(skip := p.skip - 1)
    else p
  }

  function OnData(p: State, text: string): State {
    if p.skip != 0 || p.cell.None? then p else p.(cell := Some(p.cell.value + [text]))
  }

  function On(p: State, e: Event): State {
    match e
    case StartTag(tag) => OnStart(p, tag)
    case EndTag(tag) => OnEnd(p, tag)
    case Data(text) => OnData(p, text)
  }

  function Fed(p: State, events: seq<Event>): State {
    if events == [] then p else On(Fed(p, events[..|events| - 1]), events[|events| - 1])
  }

  class Parser {
    var tables: seq<seq<Row>>
    var tableDepth: int
    var currentRows: Option<seq<Row>>
    var currentRow: Option<Row>
    var currentCell: Option<seq<string>>
    var skipDepth: int

    ghost function Abs(): State
      reads this
    {
      State(tables, tableDepth, currentRows, currentRow, currentCell, skipDepth)
    }

    constructor ()
      ensures Abs() == INITIAL
    {
      tables, tableDepth, currentRows, currentRow, currentCell, skipDepth := [], 0, None, None, None, 0;
    }

    method HandleStartTag(tag: string)
      modifies this
      ensures Abs() == OnStart(old(Abs()), tag)
    {
      if tag == "table" {
        tableDepth := tableDepth + 1;
        if tableDepth == 1 { currentRows := Some([]); }
      } else if tag == "tr" && tableDepth != 0 {
        currentRow := Some([]);
      } else if IsCell(tag) && tableDepth != 0 {
        currentCell := Some([]);
      } else if IsSkipped(tag) {
        skipDepth := skipDepth + 1;
      }
    }

    method HandleEndTag(tag: string)
      modifies this
      ensures Abs() == OnEnd(old(Abs()), tag)
    {
      if tag == "table" && tableDepth != 0 {
        tableDepth := tableDepth - 1;
        if tableDepth == 0 && currentRows.Some? {
          tables := tables + [currentRows.value];
          currentRows, currentRow, currentCell := None, None, None;
        }
      } else if tag == "tr" && currentRow.Some? {
        if currentRows.Some? { currentRows := Some(currentRows.value + [currentRow.value]); }
        currentRow := None;
      } else if IsCell(tag) && currentCell.Some? {
        if currentRow.None? { currentRow := Some([]); }
        currentRow := Some(currentRow.value + [CellText(currentCell.value)]);
        currentCell := None;
      } else if IsSkipped(tag) && skipDepth > 0 {
        skipDepth := skipDepth - 1;
      }
    }

    method HandleData(data: string)
      modifies this
      ensures Abs() == OnData(old(Abs()), data)
    {
      if skipDepth != 0 { return; }
      if currentCell.Some? { currentCell := Some(currentCell.value + [data]); }
    }

    method Feed(events: seq<Event>)
      modifies this
      ensures Abs() == Fed(old(Abs()), events)
    {
      for i := 0 to |events|
        invariant Abs() == Fed(old(Abs()), events[..i])
      {
        assert events[..i + 1][..i] == events[..i];
        match events[i] {
          case StartTag(tag) => HandleStartTag(tag);
          case EndTag(tag) => HandleEndTag(tag);
          case Data(text) => HandleData(text);
        }
      }
      assert events[..|events|] == events;
    }
  }

  // --- every event stream ---

  predicate WellFormed(p: State) {
    && p.depth >= 0 && p.skip >= 0
    && (p.rows.Some? <==> p.depth > 0)
    && (p.row.Some? || p.cell.Some? ==> p.depth > 0)
  }

  // Whatever the events, rows are collected exactly inside a table, and an open row or cell is too.
  lemma {:induction false} AlwaysWellFormed(p: State, events: seq<Event>)
    requires WellFormed(p)
    ensures WellFormed(Fed(p, events))
  {
    if events != [] {
      AlwaysWellFormed(p, events[..|events| - 1]);
    }
  }

  // --- which cells survive ---

  function CellsIn(rows: seq<Row>): nat {
    if rows == [] then 0 else CellsIn(rows[..|rows| - 1]) + |rows[|rows| - 1]|
  }

  function CellsInTables(tables: seq<seq<Row>>): nat {
    if tables == [] then 0 else CellsInTables(tables[..|tables| - 1]) + CellsIn(tables[|tables| - 1])
  }

  function RowLength(p: State): nat {
    if p.row.Some? then |p.row.value| else 0
  }

  // The cells the parser holds, the open one included.
  function Held(p: State): nat {
    CellsInTables(p.tables) + (if p.rows.Some? then CellsIn(p.rows.value) else 0) + RowLength(p) + One(p.cell.Some?)
  }

  // The cells an event opens.
  function Opened(p: State, e: Event): nat {
    One(e.StartTag? && IsCell(e.tag) && p.depth > 0)
  }

  // The cells it throws away: an open cell when another starts, the cells of an open row when
  // another row starts, and both when the outermost table ends.
  function Dropped(p: State, e: Event): nat {
    if e.StartTag? && IsCell(e.tag) && p.depth > 0 then One(p.cell.Some?)
    else if e == StartTag("tr") && p.depth > 0 then RowLength(p)
    else if e == EndTag("table") && p.depth == 1 then RowLength(p) + One(p.cell.Some?)
    else 0
  }

  function AllOpened(p: State, events: seq<Event>): nat {
    if events == [] then 0
    else
      var before := events[..|events| - 1];
      AllOpened(p, before) + Opened(Fed(p, before), events[|events| - 1])
  }

  function AllDropped(p: State, events: seq<Event>): nat {
    if events == [] then 0
    else
      var before := events[..|events| - 1];
      AllDropped(p, before) + Dropped(Fed(p, before), events[|events| - 1])
  }

  lemma EventConservesCells(p: State, e: Event)
    requires WellFormed(p)
    ensures Held(On(p, e)) + Dropped(p, e) == Held(p) + Opened(p, e)
  {
    if e == EndTag("table") && p.depth == 1 {
      assert (p.tables + [p.rows.value])[..|p.tables|] == p.tables;
    } else if e == EndTag("tr") && p.row.Some? {
      assert (p.rows.value + [p.row.value])[..|p.rows.value|] == p.rows.value;
    }
  }

  // Every cell ever opened is in a table, in progress, or was dropped.
  lemma {:induction false} CellsAreConserved(p: State, events: seq<Event>)
    requires WellFormed(p)
    ensures Held(Fed(p, events)) + AllDropped(p, events) == Held(p) + AllOpened(p, events)
  {
    if events != [] {
      var before := events[..|events| - 1];
      CellsAreConserved(p, before);
      AlwaysWellFormed(p, before);
      EventConservesCells(Fed(p, before), events[|events| - 1]);
    }
  }

  lemma {:induction false} FedConcat(p: State, a: seq<Event>, b: seq<Event>)
    ensures Fed(p, a + b) == Fed(Fed(p, a), b)
  {
    if b == [] {
      assert a + b == a;
    } else {
      FedConcat(p, a, b[..|b| - 1]);
      assert (a + b)[..|a + b| - 1] == a + b[..|b| - 1];
    }
  }

  lemma FedOne(p: State, e: Event)
    ensures Fed(p, [e]) == On(p, e)
  {
    assert [e][..0] == [];
    assert Fed(p, []) == p;
  }

  // --- flat tables read back ---

  // What may stand inside a cell or between the elements: text, a whole script or style block, or
  // the tag of an element the parser does not know.
  datatype Piece = Text(text: string) | Block(tag: string, inside: seq<string>) | Markup(opening: bool, tag: string)

  datatype CellSource = CellSource(before: seq<Piece>, open: string, content: seq<Piece>, close: string)

  datatype RowSource = RowSource(before: seq<Piece>, cells: seq<CellSource>, after: seq<Piece>)

  datatype TableSource = TableSource(before: seq<Piece>, rows: seq<RowSource>, after: seq<Piece>)

  predicate PieceOk(x: Piece) {
    match x
    case Text(_) => true
    case Block(tag, _) => tag == "script" || tag == "style"
    case Markup(_, tag) => tag !in {"table", "tr", "td", "th", "script", "style"}
  }

  predicate PiecesOk(xs: seq<Piece>) {
    forall x :: x in xs ==> PieceOk(x)
  }

  predicate RowOk(r: RowSource) {
    PiecesOk(r.before) && PiecesOk(r.after) && forall c :: c in r.cells ==> CellOk(c)
  }

  // Data and header cells; the parser does not ask that the two tags agree.
  predicate CellOk(c: CellSource) {
    && PiecesOk(c.before) && PiecesOk(c.content)
    && (c.open == "td" || c.open == "th") && (c.close == "td" || c.close == "th")
  }

  predicate TableOk(t: TableSource) {
    PiecesOk(t.before) && PiecesOk(t.after) && forall r :: r in t.rows ==> RowOk(r)
  }

  function DataEvents(texts: seq<string>): seq<Event> {
    seq(|texts|, i requires 0 <= i < |texts| => Data(texts[i]))
  }

  function PieceEvents(x: Piece): seq<Event> {
    match x
    case Text(text) => [Data(text)]
    case Block(tag, inside) => [StartTag(tag)] + DataEvents(inside) + [EndTag(tag)]
    case Markup(opening, tag) => [if opening then StartTag(tag) else EndTag(tag)]
  }

  function PiecesEvents(xs: seq<Piece>): seq<Event> {
    if xs == [] then [] else PieceEvents(xs[0]) + PiecesEvents(xs[1..])
  }

  function CellEvents(c: CellSource): seq<Event> {
    PiecesEvents(c.before) + [StartTag(c.open)] + PiecesEvents(c.content) + [EndTag(c.close)]
  }

  function CellsEvents(cs: seq<CellSource>): seq<Event> {
    if cs == [] then [] else CellEvents(cs[0]) + CellsEvents(cs[1..])
  }

  function RowEvents(r: RowSource): seq<Event> {
    PiecesEvents(r.before) + [StartTag("tr")] + CellsEvents(r.cells) + PiecesEvents(r.after) + [EndTag("tr")]
  }

  function RowsEvents(rs: seq<RowSource>): seq<Event> {
    if rs == [] then [] else RowEvents(rs[0]) + RowsEvents(rs[1..])
  }

  function TableEvents(t: TableSource): seq<Event> {
    PiecesEvents(t.before) + [StartTag("table")] + RowsEvents(t.rows) + PiecesEvents(t.after) + [EndTag("table")]
  }

  function PageEvents(ts: seq<TableSource>): seq<Event> {
    if ts == [] then [] else TableEvents(ts[0]) + PageEvents(ts[1..])
  }

  // The text of a cell as a reader sees it: its words, however it was cut into pieces.
  function VisibleTexts(xs: seq<Piece>): seq<string> {
    if xs == [] then [] else (if xs[0].Text? then [xs[0].text] else []) + VisibleTexts(xs[1..])
  }

  function ReadCell(c: CellSource): string {
    Join(Words(VisibleText(c.content)))
  }

  function VisibleText(xs: seq<Piece>): string {
    if xs == [] then ""
    else
      match xs[0]
      case Text(text) => text + VisibleText(xs[1..])
      case _ => VisibleText(xs[1..])
  }

  lemma {:induction false} VisibleIsConcat(xs: seq<Piece>)
    ensures Concat(VisibleTexts(xs)) == VisibleText(xs)
  {
    if xs != [] {
      VisibleIsConcat(xs[1..]);
      if xs[0].Text? {
        assert ([xs[0].text] + VisibleTexts(xs[1..]))[1..] == VisibleTexts(xs[1..]);
      } else {
        assert [] + VisibleTexts(xs[1..]) == VisibleTexts(xs[1..]);
      }
    }
  }

  function ReadCells(cs: seq<CellSource>): Row {
    if cs == [] then [] else [ReadCell(cs[0])] + ReadCells(cs[1..])
  }

  function ReadRows(rs: seq<RowSource>): seq<Row> {
    if rs == [] then [] else [ReadCells(rs[0].cells)] + ReadRows(rs[1..])
  }

  function ReadPage(ts: seq<TableSource>): seq<seq<Row>> {
    if ts == [] then [] else [ReadRows(ts[0].rows)] + ReadPage(ts[1..])
  }

  lemma {:induction false} SkippedData(p: State, texts: seq<string>)
    requires p.skip > 0
    ensures Fed(p, DataEvents(texts)) == p
  {
    if texts != [] {
      SkippedData(p, texts[..|texts| - 1]);
      assert DataEvents(texts)[..|texts| - 1] == DataEvents(texts[..|texts| - 1]);
    }
  }

  lemma BlockRead(p: State, tag: string, inside: seq<string>)
    requires p.skip == 0 && (tag == "script" || tag == "style")
    ensures Fed(p, PieceEvents(Block(tag, inside))) == p
  {
    hide Fed;
    var inner := p.(skip := 1);
    assert On(p, StartTag(tag)) == inner && On(inner, EndTag(tag)) == p;
    FedOne(p, StartTag(tag));
    FedConcat(p, [StartTag(tag)], DataEvents(inside));
    SkippedData(inner, inside);
    FedConcat(p, [StartTag(tag)] + DataEvents(inside), [EndTag(tag)]);
    FedOne(inner, EndTag(tag));
  }

  // A piece adds its text to the open cell, if there is one, and does nothing else.
  lemma PieceRead(p: State, x: Piece)
    requires p.skip == 0 && PieceOk(x)
    ensures Fed(p, PieceEvents(x)) ==
      if x.Text? && p.cell.Some? then p.(cell := Some(p.cell.value + [x.text])) else p
  {
    hide Fed;
    match x {
      case Block(tag, inside) => BlockRead(p, tag, inside);
      case Text(text) => FedOne(p, Data(text));
      case Markup(opening, tag) => FedOne(p, if opening then StartTag(tag) else EndTag(tag));
    }
  }

  lemma {:induction false} PiecesRead(p: State, xs: seq<Piece>)
    requires p.skip == 0 && PiecesOk(xs)
    ensures Fed(p, PiecesEvents(xs)) ==
      if p.cell.Some? then p.(cell := Some(p.cell.value + VisibleTexts(xs))) else p
    decreases |xs|
  {
    hide PieceEvents, PieceOk, On;
    if xs == [] {
      assert p.cell.Some? ==> p.cell.value + [] == p.cell.value;
    } else {
      FedConcat(p, PieceEvents(xs[0]), PiecesEvents(xs[1..]));
      PieceRead(p, xs[0]);
      PiecesRead(Fed(p, PieceEvents(xs[0])), xs[1..]);
      if p.cell.Some? && xs[0].Text? {
        var first, rest := [xs[0].text], VisibleTexts(xs[1..]);
        assert p.cell.value + first + rest == p.cell.value + (first + rest);
      } else if p.cell.Some? {
        assert [] + VisibleTexts(xs[1..]) == VisibleTexts(xs[1..]);
      }
    }
  }

  lemma CellRead(p: State, c: CellSource)
    requires p.skip == 0 && p.cell.None? && p.row.Some? && p.depth > 0 && CellOk(c)
    ensures Fed(p, CellEvents(c)) == p.(row := Some(p.row.value + [ReadCell(c)]))
  {
    hide PiecesOk, Fed, NormalizeWhitespace, Words, Join, Concat;
    var lead, opening, closing := PiecesEvents(c.before), [StartTag(c.open)], [EndTag(c.close)];
    PiecesRead(p, c.before);
    FedConcat(p, lead, opening);
    FedOne(p, StartTag(c.open));
    var inside := p.(cell := Some([]));
    FedConcat(p, lead + opening, PiecesEvents(c.content));
    PiecesRead(inside, c.content);
    assert [] + VisibleTexts(c.content) == VisibleTexts(c.content);
    var full := p.(cell := Some(VisibleTexts(c.content)));
    FedConcat(p, lead + opening + PiecesEvents(c.content), closing);
    FedOne(full, EndTag(c.close));
    VisibleIsConcat(c.content);
    NormalizedIsWords(VisibleText(c.content));
  }

  lemma {:induction false} CellsRead(p: State, cs: seq<CellSource>)
    requires p.skip == 0 && p.cell.None? && p.row.Some? && p.depth > 0
    requires forall c :: c in cs ==> CellOk(c)
    ensures Fed(p, CellsEvents(cs)) == p.(row := Some(p.row.value + ReadCells(cs)))
    decreases |cs|
  {
    hide CellOk, CellEvents, ReadCell, On;
    if cs == [] {
      assert p.row.value + [] == p.row.value;
    } else {
      FedConcat(p, CellEvents(cs[0]), CellsEvents(cs[1..]));
      CellRead(p, cs[0]);
      CellsRead(p.(row := Some(p.row.value + [ReadCell(cs[0])])), cs[1..]);
      var first, rest := [ReadCell(cs[0])], ReadCells(cs[1..]);
      assert p.row.value + first + rest == p.row.value + (first + rest);
    }
  }

  lemma RowRead(p: State, r: RowSource)
    requires p.skip == 0 && p.cell.None? && p.row.None? && p.rows.Some? && p.depth > 0 && RowOk(r)
    ensures Fed(p, RowEvents(r)) == p.(rows := Some(p.rows.value + [ReadCells(r.cells)]))
  {
    hide PiecesOk, CellOk, Fed, ReadCells, CellsEvents, PiecesEvents;
    var lead, opening, closing := PiecesEvents(r.before), [StartTag("tr")], [EndTag("tr")];
    PiecesRead(p, r.before);
    FedConcat(p, lead, opening);
    FedOne(p, StartTag("tr"));
    var inside := p.(row := Some([]));
    FedConcat(p, lead + opening, CellsEvents(r.cells));
    CellsRead(inside, r.cells);
    assert [] + ReadCells(r.cells) == ReadCells(r.cells);
    var full := p.(row := Some(ReadCells(r.cells)));
    FedConcat(p, lead + opening + CellsEvents(r.cells), PiecesEvents(r.after));
    PiecesRead(full, r.after);
    FedConcat(p, lead + opening + CellsEvents(r.cells) + PiecesEvents(r.after), closing);
    FedOne(full, EndTag("tr"));
  }

  lemma {:induction false} RowsRead(p: State, rs: seq<RowSource>)
    requires p.skip == 0 && p.cell.None? && p.row.None? && p.rows.Some? && p.depth > 0
    requires forall r :: r in rs ==> RowOk(r)
    ensures Fed(p, RowsEvents(rs)) == p.(rows := Some(p.rows.value + ReadRows(rs)))
    decreases |rs|
  {
    hide RowOk, RowEvents, ReadCells, On;
    if rs == [] {
      assert p.rows.value + [] == p.rows.value;
    } else {
      FedConcat(p, RowEvents(rs[0]), RowsEvents(rs[1..]));
      RowRead(p, rs[0]);
      var first := [ReadCells(rs[0].cells)];
      RowsRead(p.(rows := Some(p.rows.value + first)), rs[1..]);
      assert p.rows.value + first + ReadRows(rs[1..]) == p.rows.value + (first + ReadRows(rs[1..]));
    }
  }

  // Between tables.
  predicate Outside(p: State) {
    p.depth == 0 && p.rows.None? && p.row.None? && p.cell.None? && p.skip == 0
  }

  lemma TableRead(p: State, t: TableSource)
    requires Outside(p) && TableOk(t)
    ensures Fed(p, TableEvents(t)) == p.(tables := p.tables + [ReadRows(t.rows)])
  {
    hide PiecesOk, Fed, ReadRows, RowsEvents, PiecesEvents, RowOk;
    var lead, opening, closing := PiecesEvents(t.before), [StartTag("table")], [EndTag("table")];
    PiecesRead(p, t.before);
    FedConcat(p, lead, opening);
    FedOne(p, StartTag("table"));
    var inside := p.(depth := 1, rows := Some([]));
    FedConcat(p, lead + opening, RowsEvents(t.rows));
    RowsRead(inside, t.rows);
    assert [] + ReadRows(t.rows) == ReadRows(t.rows);
    var full := inside.(rows := Some(ReadRows(t.rows)));
    FedConcat(p, lead + opening + RowsEvents(t.rows), PiecesEvents(t.after));
    PiecesRead(full, t.after);
    FedConcat(p, lead + opening + RowsEvents(t.rows) + PiecesEvents(t.after), closing);
    FedOne(full, EndTag("table"));
  }

  lemma {:induction false} PageRead(p: State, ts: seq<TableSource>)
    requires Outside(p) && forall t :: t in ts ==> TableOk(t)
    ensures Fed(p, PageEvents(ts)) == p.(tables := p.tables + ReadPage(ts))
    decreases |ts|
  {
    hide TableOk, TableEvents, ReadRows, On;
    if ts == [] {
      assert p.tables + [] == p.tables;
    } else {
      FedConcat(p, TableEvents(ts[0]), PageEvents(ts[1..]));
      TableRead(p, ts[0]);
      var first := [ReadRows(ts[0].rows)];
      PageRead(p.(tables := p.tables + first), ts[1..]);
      assert p.tables + first + ReadPage(ts[1..]) == p.tables + (first + ReadPage(ts[1..]));
    }
  }

  // A page of flat tables, each element closed, reads back as exactly those tables: every cell in
  // its place, its text the words a reader sees, however the text was cut up and whatever scripts,
  // styles and markup stand between and after.
  lemma FlatTablesReadBack(ts: seq<TableSource>, after: seq<Piece>)
    requires PiecesOk(after) && forall t :: t in ts ==> TableOk(t)
    ensures Fed(INITIAL, PageEvents(ts) + PiecesEvents(after)).tables == ReadPage(ts)
  {
    hide Fed, PiecesOk, TableOk;
    PageRead(INITIAL, ts);
    FedConcat(INITIAL, PageEvents(ts), PiecesEvents(after));
    PiecesRead(Fed(INITIAL, PageEvents(ts)), after);
    assert [] + ReadPage(ts) == ReadPage(ts);
  }

  // --- where cells are lost, said of the tags alone ---

  function TableDepth(events: seq<Event>): nat {
    if events == [] then 0
    else
      var depth, last := TableDepth(events[..|events| - 1]), events[|events| - 1];
      if last == StartTag("table") then depth + 1
      else if last == EndTag("table") && depth > 0 then depth - 1
      else depth
  }

  predicate InTable(events: seq<Event>, i: nat)
    requires i <= |events|
  {
    TableDepth(events[..i]) > 0
  }

  predicate OpensCell(events: seq<Event>, i: nat)
    requires i < |events|
  {
    events[i].StartTag? && IsCell(events[i].tag) && InTable(events, i)
  }

  predicate OpensRow(events: seq<Event>, i: nat)
    requires i < |events|
  {
    events[i] == StartTag("tr") && InTable(events, i)
  }

  predicate EndsOutermost(events: seq<Event>, i: nat)
    requires i < |events|
  {
    events[i] == EndTag("table") && TableDepth(events[..i]) == 1
  }

  predicate ClosesCell(e: Event) {
    e.EndTag? && IsCell(e.tag)
  }

  // Some cell was opened before `k` and neither a cell end nor the end of the table came since.
  predicate CellOpenAt(events: seq<Event>, k: nat)
    requires k <= |events|
  {
    exists i :: 0 <= i < k && OpensCell(events, i) && StaysOpen(events, i, k)
  }

  predicate StaysOpen(events: seq<Event>, i: nat, k: nat)
    requires i < k <= |events|
  {
    forall j :: i < j < k ==> !ClosesCell(events[j]) && !EndsOutermost(events, j)
  }

  // Some cell was closed before `k` and neither a row tag nor the end of the table came since.
  predicate RowFilledAt(events: seq<Event>, k: nat)
    requires k <= |events|
  {
    exists i :: 0 <= i < k && ClosesCell(events[i]) && CellOpenAt(events, i) && SameRow(events, i, k)
  }

  predicate SameRow(events: seq<Event>, i: nat, k: nat)
    requires i < k <= |events|
  {
    forall j :: i < j < k ==> !OpensRow(events, j) && events[j] != EndTag("tr") && !EndsOutermost(events, j)
  }

  // Every cell is closed before the next one opens, every row with cells before the next one opens,
  // and both before the outermost table ends.
  predicate ClosedInTime(events: seq<Event>) {
    forall k :: 0 <= k < |events| ==> NothingOpenAt(events, k)
  }

  predicate NothingOpenAt(events: seq<Event>, k: nat)
    requires k < |events|
  {
    && (OpensCell(events, k) || EndsOutermost(events, k) ==> !CellOpenAt(events, k))
    && (OpensRow(events, k) || EndsOutermost(events, k) ==> !RowFilledAt(events, k))
  }

  function OpenedCells(events: seq<Event>): nat {
    if events == [] then 0
    else OpenedCells(events[..|events| - 1]) + One(OpensCell(events, |events| - 1))
  }

  lemma CellOpenStep(events: seq<Event>, k: nat)
    requires k < |events|
    ensures CellOpenAt(events, k + 1) <==>
      OpensCell(events, k) || (CellOpenAt(events, k) && !ClosesCell(events[k]) && !EndsOutermost(events, k))
  {
    hide OpensCell, EndsOutermost;
    if OpensCell(events, k) {
      assert StaysOpen(events, k, k + 1);
    }
    if CellOpenAt(events, k) && !ClosesCell(events[k]) && !EndsOutermost(events, k) {
      var i :| 0 <= i < k && OpensCell(events, i) && StaysOpen(events, i, k);
      assert StaysOpen(events, i, k + 1);
    }
    if CellOpenAt(events, k + 1) && !OpensCell(events, k) {
      var i :| 0 <= i < k + 1 && OpensCell(events, i) && StaysOpen(events, i, k + 1);
      assert StaysOpen(events, i, k);
    }
  }

  lemma RowFilledStep(events: seq<Event>, k: nat)
    requires k < |events|
    ensures RowFilledAt(events, k + 1) <==>
      || (ClosesCell(events[k]) && CellOpenAt(events, k))
      || (RowFilledAt(events, k) && !OpensRow(events, k) && events[k] != EndTag("tr") && !EndsOutermost(events, k))
  {
    hide OpensRow, EndsOutermost, CellOpenAt, ClosesCell;
    if ClosesCell(events[k]) && CellOpenAt(events, k) {
      assert SameRow(events, k, k + 1);
    }
    if RowFilledAt(events, k) && !OpensRow(events, k) && events[k] != EndTag("tr") && !EndsOutermost(events, k) {
      var i :| 0 <= i < k && ClosesCell(events[i]) && CellOpenAt(events, i) && SameRow(events, i, k);
      assert SameRow(events, i, k + 1);
    }
    if RowFilledAt(events, k + 1) && !(ClosesCell(events[k]) && CellOpenAt(events, k)) {
      var i :| 0 <= i < k + 1 && ClosesCell(events[i]) && CellOpenAt(events, i) && SameRow(events, i, k + 1);
      assert SameRow(events, i, k);
    }
  }

  // What the tags say of a point in the stream, against the state of the parser there.
  ghost predicate Agrees(p: State, events: seq<Event>, k: nat)
    requires k <= |events|
  {
    && WellFormed(p) && p.depth == TableDepth(events[..k])
    && (p.cell.Some? <==> CellOpenAt(events, k))
    && (RowLength(p) > 0 <==> RowFilledAt(events, k))
  }

  lemma AgreesStep(p: State, events: seq<Event>, k: nat)
    requires k < |events| && Agrees(p, events, k)
    ensures Agrees(On(p, events[k]), events, k + 1)
  {
    hide CellOpenAt, RowFilledAt, CellText;
    CellOpenStep(events, k);
    RowFilledStep(events, k);
    DepthStep(events, k);
    assert events[k] == EndTag("table") ==> !ClosesCell(events[k]);
  }

  lemma DepthStep(events: seq<Event>, k: nat)
    requires k < |events|
    ensures
      var depth := TableDepth(events[..k]);
      TableDepth(events[..k + 1]) ==
        if events[k] == StartTag("table") then depth + 1
        else if events[k] == EndTag("table") && depth > 0 then depth - 1
        else depth
  {
    assert events[..k + 1][..k] == events[..k];
  }

  lemma {:induction false} TagsAgree(events: seq<Event>, k: nat)
    requires k <= |events|
    ensures Agrees(Fed(INITIAL, events[..k]), events, k)
  {
    hide Agrees, On;
    if k == 0 {
      NothingYet(events);
    } else {
      TagsAgree(events, k - 1);
      AgreesStep(Fed(INITIAL, events[..k - 1]), events, k - 1);
      assert events[..k][..k - 1] == events[..k - 1];
    }
  }

  lemma NothingYet(events: seq<Event>)
    ensures Agrees(INITIAL, events, 0)
  {
  }

  function DroppedAt(events: seq<Event>, i: nat): nat
    requires i < |events|
  {
    Dropped(Fed(INITIAL, events[..i]), events[i])
  }

  lemma DroppedByTags(events: seq<Event>, k: nat)
    requires k < |events|
    ensures DroppedAt(events, k) == 0 <==> NothingOpenAt(events, k)
    ensures Opened(Fed(INITIAL, events[..k]), events[k]) == One(OpensCell(events, k))
  {
    hide CellOpenAt, RowFilledAt, Fed, TableDepth;
    TagsAgree(events, k);
  }

  // The cells opened since the outermost table last ended.
  function OpenedSince(events: seq<Event>): nat {
    if events == [] || EndsOutermost(events, |events| - 1) then 0
    else OpenedSince(events[..|events| - 1]) + One(OpensCell(events, |events| - 1))
  }

  // The cells of the table being read.
  function InProgress(p: State): nat {
    (if p.rows.Some? then CellsIn(p.rows.value) else 0) + RowLength(p) + One(p.cell.Some?)
  }

  lemma EventKeepsProgress(p: State, e: Event)
    requires WellFormed(p) && Dropped(p, e) == 0
    ensures InProgress(On(p, e)) ==
      if e == EndTag("table") && p.depth == 1 then 0 else InProgress(p) + Opened(p, e)
  {
    if e == EndTag("tr") && p.row.Some? {
      assert (p.rows.value + [p.row.value])[..|p.rows.value|] == p.rows.value;
    }
  }

  // While cells and rows are closed in time, the table being read holds what was opened in it.
  lemma {:induction false} ProgressByTags(events: seq<Event>, k: nat)
    requires k <= |events| && ClosedInTime(events)
    ensures InProgress(Fed(INITIAL, events[..k])) == OpenedSince(events[..k])
  {
    hide Fed, InProgress, Dropped, NothingOpenAt, OpensCell, Opened, Agrees, On;
    if k == 0 {
      NothingInProgress(events);
    } else {
      var p := Fed(INITIAL, events[..k - 1]);
      ProgressByTags(events, k - 1);
      DroppedByTags(events, k - 1);
      DroppedByTags(events[..k], k - 1);
      DepthAgrees(events, k - 1);
      EventKeepsProgress(p, events[k - 1]);
      FedMore(events, k - 1);
      assert events[..k][..k - 1] == events[..k - 1];
    }
  }

  lemma NothingInProgress(events: seq<Event>)
    ensures InProgress(Fed(INITIAL, events[..0])) == 0
  {
  }

  lemma DepthAgrees(events: seq<Event>, k: nat)
    requires k <= |events|
    ensures WellFormed(Fed(INITIAL, events[..k])) && Fed(INITIAL, events[..k]).depth == TableDepth(events[..k])
  {
    TagsAgree(events, k);
  }

  lemma FedMore(events: seq<Event>, k: nat)
    requires k < |events|
    ensures Fed(INITIAL, events[..k + 1]) == On(Fed(INITIAL, events[..k]), events[k])
  {
    assert events[..k + 1][..k] == events[..k];
  }

  // Whatever the events: the tables hold every cell that was opened if and only if all cells and rows
  // are closed in time and no cell was opened in a table that has not ended.
  lemma NothingLostExactly(events: seq<Event>)
    ensures CellsInTables(Fed(INITIAL, events).tables) == OpenedCells(events) <==>
      ClosedInTime(events) && OpenedSince(events) == 0
  {
    hide Fed, DroppedAt, AllDropped, AllOpened, CellOpenAt, RowFilledAt, NothingOpenAt, OpenedSince;
    CellsAreConserved(INITIAL, events);
    DroppedNowhere(events, |events|);
    OpenedByTags(events, |events|);
    assert events[..|events|] == events;
    if ClosedInTime(events) {
      ProgressByTags(events, |events|);
    }
  }

  lemma {:induction false} OpenedByTags(events: seq<Event>, k: nat)
    requires k <= |events|
    ensures AllOpened(INITIAL, events[..k]) == OpenedCells(events[..k])
  {
    hide Fed, Opened, OpensCell, NothingOpenAt;
    if k > 0 {
      OpenedByTags(events, k - 1);
      DroppedByTags(events[..k], k - 1);
      assert events[..k][..k - 1] == events[..k - 1];
    }
  }

  lemma {:induction false} DroppedNowhere(events: seq<Event>, k: nat)
    requires k <= |events|
    ensures AllDropped(INITIAL, events[..k]) == 0 <==> forall i :: 0 <= i < k ==> NothingOpenAt(events, i)
  {
    hide Fed, Dropped, NothingOpenAt;
    if k > 0 {
      DroppedNowhere(events, k - 1);
      DroppedByTags(events, k - 1);
      assert events[..k][..k - 1] == events[..k - 1];
    }
  }

  // --- and then they are kept in order ---

  function Flat(rows: seq<Row>): seq<string> {
    if rows == [] then [] else Flat(rows[..|rows| - 1]) + rows[|rows| - 1]
  }

  function FlatTables(tables: seq<seq<Row>>): seq<string> {
    if tables == [] then [] else FlatTables(tables[..|tables| - 1]) + Flat(tables[|tables| - 1])
  }

  function Contents(p: State): seq<string> {
    FlatTables(p.tables) + (if p.rows.Some? then Flat(p.rows.value) else []) + if p.row.Some? then p.row.value else []
  }

  function SkipDepth(events: seq<Event>): nat {
    if events == [] then 0
    else
      var depth, last := SkipDepth(events[..|events| - 1]), events[|events| - 1];
      if last.StartTag? && IsSkipped(last.tag) then depth + 1
      else if last.EndTag? && IsSkipped(last.tag) && depth > 0 then depth - 1
      else depth
  }

  // The pieces of text since a cell was last opened, scripts and styles left out.
  function TextsSinceOpen(events: seq<Event>): seq<string> {
    if events == [] || OpensCell(events, |events| - 1) then []
    else
      var before, last := events[..|events| - 1], events[|events| - 1];
      TextsSinceOpen(before) + if last.Data? && SkipDepth(before) == 0 then [last.text] else []
  }

  // The texts of the cells of the page, in the order of their end tags.
  ghost function CellTexts(events: seq<Event>): seq<string> {
    if events == [] then []
    else
      var before := events[..|events| - 1];
      var closes := ClosesCell(events[|events| - 1]) && CellOpenAt(events, |before|);
      CellTexts(before) + if closes then [CellText(TextsSinceOpen(before))] else []
  }

  // An open cell of the parser holds the text since its tag.
  ghost predicate TextAgrees(p: State, events: seq<Event>, k: nat)
    requires k <= |events|
  {
    p.skip == SkipDepth(events[..k]) && (p.cell.Some? ==> p.cell.value == TextsSinceOpen(events[..k]))
  }

  lemma TextAgreesStep(p: State, events: seq<Event>, k: nat)
    requires k < |events| && Agrees(p, events, k) && TextAgrees(p, events, k)
    ensures TextAgrees(On(p, events[k]), events, k + 1)
  {
    hide CellOpenAt, RowFilledAt, CellText, TableDepth;
    var more := events[..k + 1];
    assert more[..k] == events[..k] && more[k] == events[k];
  }

  lemma {:induction false} TextsAgree(events: seq<Event>, k: nat)
    requires k <= |events|
    ensures TextAgrees(Fed(INITIAL, events[..k]), events, k)
  {
    hide Agrees, On, TextAgrees;
    if k == 0 {
      NoTextYet(events);
    } else {
      TextsAgree(events, k - 1);
      TagsAgree(events, k - 1);
      TextAgreesStep(Fed(INITIAL, events[..k - 1]), events, k - 1);
      FedMore(events, k - 1);
    }
  }

  lemma NoTextYet(events: seq<Event>)
    ensures TextAgrees(INITIAL, events, 0)
  {
  }

  lemma FlatOne(rows: seq<Row>, row: Row)
    ensures Flat(rows + [row]) == Flat(rows) + row
  {
    assert (rows + [row])[..|rows|] == rows;
  }

  lemma FlatTablesOne(tables: seq<seq<Row>>, rows: seq<Row>)
    ensures FlatTables(tables + [rows]) == FlatTables(tables) + Flat(rows)
  {
    assert (tables + [rows])[..|tables|] == tables;
  }

  lemma EventKeepsContents(p: State, e: Event)
    requires WellFormed(p) && Dropped(p, e) == 0
    ensures Contents(On(p, e)) ==
      Contents(p) + if ClosesCell(e) && p.cell.Some? then [CellText(p.cell.value)] else []
  {
    hide CellText, Flat, FlatTables;
    FlatNothing();
    if e == EndTag("table") && p.depth == 1 {
      FlatTablesOne(p.tables, p.rows.value);
    } else if e == EndTag("tr") && p.row.Some? {
      FlatOne(p.rows.value, p.row.value);
    }
  }

  lemma FlatNothing()
    ensures Flat([]) == [] && FlatTables([]) == []
  {
  }

  lemma CellTextsMore(events: seq<Event>, k: nat)
    requires k < |events|
    ensures CellTexts(events[..k + 1]) == CellTexts(events[..k])
      + if ClosesCell(events[k]) && CellOpenAt(events, k) then [CellText(TextsSinceOpen(events[..k]))] else []
  {
    hide CellText, TextsSinceOpen;
    var more := events[..k + 1];
    assert more[..k] == events[..k];
    OpenInPrefix(events, k);
  }

  lemma OpenInPrefix(events: seq<Event>, k: nat)
    requires k < |events|
    ensures CellOpenAt(events[..k + 1], k) <==> CellOpenAt(events, k)
  {
    var more := events[..k + 1];
    forall i | 0 <= i < k
      ensures OpensCell(more, i) <==> OpensCell(events, i)
      ensures StaysOpen(more, i, k) <==> StaysOpen(events, i, k)
    {
      assert more[..i] == events[..i];
      forall j | i < j < k ensures EndsOutermost(more, j) <==> EndsOutermost(events, j) {
        assert more[..j] == events[..j];
      }
    }
  }

  lemma {:induction false} ContentsByTags(events: seq<Event>, k: nat)
    requires k <= |events| && ClosedInTime(events)
    ensures Contents(Fed(INITIAL, events[..k])) == CellTexts(events[..k])
  {
    hide NothingOpenAt, On, Dropped, CellText, ClosesCell, CellTexts, TextsSinceOpen, Contents, RowFilledAt;
    if k == 0 {
      NoContentsYet(events);
    } else {
      ContentsByTags(events, k - 1);
      TagsAgree(events, k - 1);
      TextsAgree(events, k - 1);
      DroppedByTags(events, k - 1);
      EventKeepsContents(Fed(INITIAL, events[..k - 1]), events[k - 1]);
      FedMore(events, k - 1);
      CellTextsMore(events, k - 1);
    }
  }

  lemma NoContentsYet(events: seq<Event>)
    ensures Contents(Fed(INITIAL, events[..0])) == CellTexts(events[..0])
  {
  }

  lemma {:induction false} NoCellsNoText(rows: seq<Row>)
    requires CellsIn(rows) == 0
    ensures Flat(rows) == []
  {
    if rows != [] {
      NoCellsNoText(rows[..|rows| - 1]);
    }
  }

  // When nothing is lost, the cells of the tables are those of the page: in its order, each with the
  // text between its tags.
  lemma KeptInOrder(events: seq<Event>)
    requires ClosedInTime(events) && OpenedSince(events) == 0
    ensures FlatTables(Fed(INITIAL, events).tables) == CellTexts(events)
  {
    hide CellTexts, Fed, NothingOpenAt, OpenedSince;
    ContentsByTags(events, |events|);
    ProgressByTags(events, |events|);
    assert events[..|events|] == events;
    var p := Fed(INITIAL, events);
    if p.rows.Some? {
      NoCellsNoText(p.rows.value);
    }
    assert FlatTables(p.tables) + [] + [] == FlatTables(p.tables);
  }

  lemma FedTwo(p: State, e: Event, f: Event)
    ensures Fed(p, [e, f]) == On(On(p, e), f)
  {
    FedOne(p, e);
    assert [e, f][..1] == [e];
  }

  function PlainCell(text: string): seq<Event> {
    [StartTag("td"), Data(text), EndTag("td")]
  }

  function RowSoFar(p: State): Row {
    if p.row.Some? then p.row.value else []
  }

  lemma PlainCellRead(p: State, text: string)
    requires p.skip == 0 && p.depth > 0
    ensures Fed(p, PlainCell(text)) == p.(row := Some(RowSoFar(p) + [CellText([text])]), cell := None)
  {
    FedConcat(p, [StartTag("td"), Data(text)], [EndTag("td")]);
    assert PlainCell(text) == [StartTag("td"), Data(text)] + [EndTag("td")];
    FedTwo(p, StartTag("td"), Data(text));
    assert [] + [text] == [text];
    FedOne(p.(cell := Some([text])), EndTag("td"));
  }

  // So a nested table is not flattened without loss: the cells before it in its row are gone,
  lemma NestedTableDropsCells(a: string, b: string)
    ensures
      var events := [StartTag("table"), StartTag("tr")] + PlainCell(a) + [StartTag("table"), StartTag("tr")]
        + PlainCell(b) + [EndTag("tr"), EndTag("table")] + [EndTag("tr"), EndTag("table")];
      Fed(INITIAL, events).tables == [[[CellText([b])]]]
  {
    hide Fed, CellText, PlainCell;
    var open, ends := [StartTag("table"), StartTag("tr")], [EndTag("tr"), EndTag("table")];
    FedTwo(INITIAL, StartTag("table"), StartTag("tr"));
    var p1 := State([], 1, Some([]), Some([]), None, 0);
    FedConcat(INITIAL, open, PlainCell(a));
    PlainCellRead(p1, a);
    var p2 := Fed(p1, PlainCell(a));
    FedConcat(INITIAL, open + PlainCell(a), open);
    FedTwo(p2, StartTag("table"), StartTag("tr"));
    var p3 := State([], 2, Some([]), Some([]), None, 0);
    FedConcat(INITIAL, open + PlainCell(a) + open, PlainCell(b));
    PlainCellRead(p3, b);
    var row := [CellText([b])];
    assert [] + row == row && [] + [row] == [row] && [] + [[row]] == [[row]];
    var p4 := State([], 2, Some([]), Some([CellText([b])]), None, 0);
    FedConcat(INITIAL, open + PlainCell(a) + open + PlainCell(b), ends);
    FedTwo(p4, EndTag("tr"), EndTag("table"));
    var p5 := State([], 1, Some([[CellText([b])]]), None, None, 0);
    FedConcat(INITIAL, open + PlainCell(a) + open + PlainCell(b) + ends, ends);
    FedTwo(p5, EndTag("tr"), EndTag("table"));
  }

  // and so is the text of the cell that holds it, whose row is split besides.
  lemma NestedTableDropsItsCell(a: string, b: string, c: string)
    ensures
      var events := [StartTag("table"), StartTag("tr")] + [StartTag("td"), Data(a)]
        + [StartTag("table"), StartTag("tr")] + PlainCell(b) + [EndTag("tr"), EndTag("table")]
        + [EndTag("td")] + PlainCell(c) + [EndTag("tr"), EndTag("table")];
      Fed(INITIAL, events).tables == [[[CellText([b])], [CellText([c])]]]
  {
    hide Fed, CellText, PlainCell;
    var open, cell := [StartTag("table"), StartTag("tr")], [StartTag("td"), Data(a)];
    var ends := [EndTag("tr"), EndTag("table")];
    var rowB, rowC := [CellText([b])], [CellText([c])];
    assert [] + rowB == rowB && [] + rowC == rowC && [] + [rowB] == [rowB] && [rowB] + [rowC] == [rowB, rowC];
    assert [] + [[rowB, rowC]] == [[rowB, rowC]] && [] + [a] == [a];
    FedTwo(INITIAL, StartTag("table"), StartTag("tr"));
    FedConcat(INITIAL, open, cell);
    FedTwo(State([], 1, Some([]), Some([]), None, 0), StartTag("td"), Data(a));
    FedConcat(INITIAL, open + cell, open);
    FedTwo(State([], 1, Some([]), Some([]), Some([a]), 0), StartTag("table"), StartTag("tr"));
    FedConcat(INITIAL, open + cell + open, PlainCell(b));
    PlainCellRead(State([], 2, Some([]), Some([]), Some([a]), 0), b);
    FedConcat(INITIAL, open + cell + open + PlainCell(b), ends);
    FedTwo(State([], 2, Some([]), Some(rowB), None, 0), EndTag("tr"), EndTag("table"));
    var after := State([], 1, Some([rowB]), None, None, 0);
    FedConcat(INITIAL, open + cell + open + PlainCell(b) + ends, [EndTag("td")]);
    FedOne(after, EndTag("td"));
    FedConcat(INITIAL, open + cell + open + PlainCell(b) + ends + [EndTag("td")], PlainCell(c));
    PlainCellRead(after, c);
    FedConcat(INITIAL, open + cell + open + PlainCell(b) + ends + [EndTag("td")] + PlainCell(c), ends);
    FedTwo(State([], 1, Some([rowB]), Some(rowC), None, 0), EndTag("tr"), EndTag("table"));
  }

  // Nor does a page that leaves out the optional row end tags keep its rows,
  lemma OmittedRowEndsLoseRows(a: string, b: string)
    ensures
      var events := [StartTag("table"), StartTag("tr")] + PlainCell(a) + [StartTag("tr")] + PlainCell(b)
        + [EndTag("table")];
      Fed(INITIAL, events).tables == [[]]
  {
    hide Fed, CellText, PlainCell;
    var open := [StartTag("table"), StartTag("tr")];
    FedTwo(INITIAL, StartTag("table"), StartTag("tr"));
    var p1 := State([], 1, Some([]), Some([]), None, 0);
    FedConcat(INITIAL, open, PlainCell(a));
    PlainCellRead(p1, a);
    FedConcat(INITIAL, open + PlainCell(a), [StartTag("tr")]);
    FedOne(Fed(p1, PlainCell(a)), StartTag("tr"));
    FedConcat(INITIAL, open + PlainCell(a) + [StartTag("tr")], PlainCell(b));
    PlainCellRead(p1, b);
    FedConcat(INITIAL, open + PlainCell(a) + [StartTag("tr")] + PlainCell(b), [EndTag("table")]);
    FedOne(Fed(p1, PlainCell(b)), EndTag("table"));
  }

  // or the optional cell end tags its cells.
  lemma OmittedCellEndLosesCell(a: string, b: string)
    ensures
      var events := [StartTag("table"), StartTag("tr")] + [StartTag("td"), Data(a)] + PlainCell(b)
        + [EndTag("tr"), EndTag("table")];
      Fed(INITIAL, events).tables == [[[CellText([b])]]]
  {
    hide Fed, CellText, PlainCell;
    var open, cell := [StartTag("table"), StartTag("tr")], [StartTag("td"), Data(a)];
    var ends := [EndTag("tr"), EndTag("table")];
    var row := [CellText([b])];
    assert [] + row == row && [] + [row] == [row] && [] + [[row]] == [[row]] && [] + [a] == [a];
    FedTwo(INITIAL, StartTag("table"), StartTag("tr"));
    FedConcat(INITIAL, open, cell);
    FedTwo(State([], 1, Some([]), Some([]), None, 0), StartTag("td"), Data(a));
    FedConcat(INITIAL, open + cell, PlainCell(b));
    PlainCellRead(State([], 1, Some([]), Some([]), Some([a]), 0), b);
    FedConcat(INITIAL, open + cell + PlainCell(b), ends);
    FedTwo(State([], 1, Some([]), Some(row), None, 0), EndTag("tr"), EndTag("table"));
  }

  // A page whose table never ends keeps nothing, however tidy its rows.
  lemma UnendedTableIsLost(a: string)
    ensures
      var events := [StartTag("table"), StartTag("tr")] + PlainCell(a) + [EndTag("tr")];
      Fed(INITIAL, events).tables == []
  {
    hide Fed, CellText, PlainCell;
    var open := [StartTag("table"), StartTag("tr")];
    FedTwo(INITIAL, StartTag("table"), StartTag("tr"));
    var p1 := State([], 1, Some([]), Some([]), None, 0);
    FedConcat(INITIAL, open, PlainCell(a));
    PlainCellRead(p1, a);
    FedConcat(INITIAL, open + PlainCell(a), [EndTag("tr")]);
    FedOne(Fed(p1, PlainCell(a)), EndTag("tr"));
  }

  // --- the tables handed on ---

  predicate Blank(row: Row) {
    forall cell :: cell in row ==> Strip(cell) == ""
  }

  function Shown(rows: seq<Row>): seq<Row> {
    if rows == [] then [] else Shown(rows[..|rows| - 1]) + if Blank(rows[|rows| - 1]) then [] else [rows[|rows| - 1]]
  }

  function ShownTables(tables: seq<seq<Row>>): seq<seq<Row>> {
    if tables == [] then []
    else
      var rows := Shown(tables[|tables| - 1]);
      ShownTables(tables[..|tables| - 1]) + if rows == [] then [] else [rows]
  }

  method ExtractTables(events: seq<Event>) returns (tables: seq<seq<Row>>)
    ensures tables == ShownTables(Fed(INITIAL, events).tables)
  {
    hide Fed, Blank;
    var parser := new Parser();
    parser.Feed(events);
    tables := [];
    for i := 0 to |parser.tables|
      invariant tables == ShownTables(parser.tables[..i])
    {
      var raw := parser.tables[i];
      var rows: seq<Row> := [];
      for j := 0 to |raw|
        invariant rows == Shown(raw[..j])
      {
        assert raw[..j + 1][..j] == raw[..j];
        if !Blank(raw[j]) { rows := rows + [raw[j]]; }
      }
      assert raw[..|raw|] == raw;
      assert parser.tables[..i + 1][..i] == parser.tables[..i];
      if rows != [] { tables := tables + [rows]; }
    }
    assert parser.tables[..|parser.tables|] == parser.tables;
  }

  // The tables of two pages, and the rows of two tables, are shown one after the other.
  lemma {:induction false} ShownInTurn(rows: seq<Row>, others: seq<Row>)
    ensures Shown(rows + others) == Shown(rows) + Shown(others)
    decreases |others|
  {
    hide Blank;
    if others == [] {
      assert rows + others == rows;
    } else {
      ShownInTurn(rows, others[..|others| - 1]);
      assert (rows + others)[..|rows + others| - 1] == rows + others[..|others| - 1];
    }
  }

  lemma {:induction false} TablesShownInTurn(tables: seq<seq<Row>>, others: seq<seq<Row>>)
    ensures ShownTables(tables + others) == ShownTables(tables) + ShownTables(others)
    decreases |others|
  {
    hide Shown;
    if others == [] {
      assert tables + others == tables;
    } else {
      TablesShownInTurn(tables, others[..|others| - 1]);
      assert (tables + others)[..|tables + others| - 1] == tables + others[..|others| - 1];
    }
  }

  // A table is shown unless all its cells are blank; it keeps the rows with a cell that is not.
  lemma TableIsShown(rows: seq<Row>)
    ensures (forall row, cell :: row in rows && cell in row ==> Strip(cell) == "") <==> ShownTables([rows]) == []
    ensures ShownTables([rows]) != [] ==> |ShownTables([rows])| == 1
    ensures ShownTables([rows]) != [] ==> forall row ::
      row in ShownTables([rows])[0] <==> row in rows && exists cell :: cell in row && Strip(cell) != ""
  {
    assert [rows][..0] == [];
    assert ShownTables([rows]) == if Shown(rows) == [] then [] else [Shown(rows)];
    ShownHasText(rows);
    hide Shown;
    assert Shown(rows) != [] ==> Shown(rows)[0] in Shown(rows);
  }

  // No table is empty and no row blank: every table has a header.
  lemma {:induction false} EveryShownTableHasText(tables: seq<seq<Row>>)
    ensures forall t :: t in ShownTables(tables) ==> t != [] && forall r :: r in t ==> !Blank(r)
  {
    hide Blank;
    if tables != [] {
      EveryShownTableHasText(tables[..|tables| - 1]);
      ShownHasText(tables[|tables| - 1]);
    }
  }

  lemma {:induction false} ShownHasText(rows: seq<Row>)
    ensures forall r :: r in Shown(rows) <==> r in rows && !Blank(r)
  {
    hide Blank;
    if rows != [] {
      ShownHasText(rows[..|rows| - 1]);
      assert forall r :: r in rows <==> r in rows[..|rows| - 1] || r == rows[|rows| - 1];
    }
  }
}
