/** CSV export: the formula guard and quoting of cells, and a parser for the format of section 2
    of RFC 4180 to read them back. */
module Csv {
  import opened CanonicalJson
  import JsonReader
  import opened Prelude
  import opened Rows
  import opened Values

  function ColumnName(i: nat): string {
    if i == 0 then "schemaVersion"
    else if i == 1 then "id"
    else if i == 2 then "tenantId"
    else if i == 3 then "actorId"
    else if i == 4 then "actorType"
    else if i == 5 then "actorIp"
    else if i == 6 then "action"
    else if i == 7 then "targetType"
    else if i == 8 then "targetId"
    else if i == 9 then "source"
    else if i == 10 then "result"
    else if i == 11 then "changes"
    else if i == 12 then "metadata"
    else "createdAt"
  }

  /** `AUDIT_CSV_COLUMNS_V1` */
  function Columns(): (r: seq<string>)
    ensures |r| == 14 && forall i :: 0 <= i < 14 ==> r[i] == ColumnName(i)
  {
    seq(14, i requires 0 <= i => ColumnName(i))
  }

  /** An exported row; `createdAt` is the timestamp's ISO printing. */
  datatype CsvRow = CsvRow(id: string, entry: Entry, createdAt: string)

  // ----- cells -----

  predicate Blank(c: char) {
    c == '\t' || c == '\r' || c == '\n' || c == ' '
  }

  /** `/^[\t\r\n ]*[=+\-@]/` */
  predicate Formula(s: string) {
    s != "" && (s[0] == '=' || s[0] == '+' || s[0] == '-' || s[0] == '@' || (Blank(s[0]) && Formula(s[1..])))
  }

  function Guard(s: string): string {
    if Formula(s) then "'" + s else s
  }

  predicate Special(c: char) {
    c == '"' || c == ',' || c == '\r' || c == '\n'
  }

  predicate NeedsQuotes(s: string) {
    exists i :: 0 <= i < |s| && Special(s[i])
  }

  function DoubleQuotes(s: string): string {
    if s == "" then ""
    else if s[0] == '"' then "\"\"" + DoubleQuotes(s[1..])
    else [s[0]] + DoubleQuotes(s[1..])
  }

  function EscapeCell(s: string): string {
    var safe := Guard(s);
    if NeedsQuotes(safe) then "\"" + DoubleQuotes(safe) + "\"" else safe
  }

  function EscapeCells(cells: seq<string>): (r: seq<string>)
    ensures |r| == |cells|
  {
    if cells == [] then [] else [EscapeCell(cells[0])] + EscapeCells(cells[1..])
  }

  function GuardAll(cells: seq<string>): (r: seq<string>)
    ensures |r| == |cells| && forall i :: 0 <= i < |cells| ==> r[i] == Guard(cells[i])
  {
    if cells == [] then [] else [Guard(cells[0])] + GuardAll(cells[1..])
  }

  function Header(): string {
    Join(Columns()) + "\r\n"
  }

  function Nullable(s: Option<string>): string {
    if s.Some? then s.value else ""
  }

  function JsonCell(v: Option<Value>): string {
    if v.Some? then JsonText(v.value) else ""
  }

  function Cells(row: CsvRow): (r: seq<string>)
    ensures |r| == 14
  {
    var e := row.entry;
    ["v1", row.id, Nullable(e.tenantId), Nullable(e.actorId), e.actorType, Nullable(e.actorIp), e.action,
     Nullable(e.targetType), Nullable(e.targetId), e.source, e.result, JsonCell(e.changes), JsonCell(e.metadata),
     row.createdAt]
  }

  function Line(cells: seq<string>): string {
    Join(EscapeCells(cells)) + "\r\n"
  }

  function Grid(rows: seq<CsvRow>): (r: seq<seq<string>>)
    ensures |r| == |rows| && forall i :: 0 <= i < |rows| ==> r[i] == Cells(rows[i])
  {
    seq(|rows|, i requires 0 <= i < |rows| => Cells(rows[i]))
  }

  function Lines(grid: seq<seq<string>>): string {
    if grid == [] then "" else Line(grid[0]) + Lines(grid[1..])
  }

  function Document(rows: seq<CsvRow>): string {
    Header() + Lines(Grid(rows))
  }

  function Guarded(grid: seq<seq<string>>): (r: seq<seq<string>>)
    ensures |r| == |grid| && forall i :: 0 <= i < |grid| ==> r[i] == GuardAll(grid[i])
  {
    if grid == [] then [] else [GuardAll(grid[0])] + Guarded(grid[1..])
  }

  function Concat(chunks: seq<string>): string {
    if chunks == [] then "" else Concat(chunks[..|chunks| - 1]) + chunks[|chunks| - 1]
  }

  function AllRows(pages: seq<seq<CsvRow>>): seq<CsvRow> {
    if pages == [] then [] else AllRows(pages[..|pages| - 1]) + pages[|pages| - 1]
  }

  lemma ConcatPush(chunks: seq<string>, chunk: string)
    ensures Concat(chunks + [chunk]) == Concat(chunks) + chunk
  {
    assert (chunks + [chunk])[..|chunks|] == chunks;
  }

  lemma {:induction false} LinesPush(grid: seq<seq<string>>, cells: seq<string>)
    ensures Lines(grid + [cells]) == Lines(grid) + Line(cells)
    decreases |grid|
  {
    if grid == [] {
      assert grid + [cells] == [cells] && [cells][1..] == [];
    } else {
      assert (grid + [cells])[1..] == grid[1..] + [cells];
      LinesPush(grid[1..], cells);
    }
  }

  lemma ChunkEmitted(head: string, chunks: seq<string>, text: string, chunk: string, more: string)
    requires Concat(chunks) == head + text && more == text + chunk
    ensures Concat(chunks + [chunk]) == head + more
  {
    ConcatPush(chunks, chunk);
    assert (head + text) + chunk == head + (text + chunk);
  }

  lemma GridPush(before: seq<CsvRow>, page: seq<CsvRow>, i: nat)
    requires i < |page|
    ensures Grid(before + page[..i + 1]) == Grid(before + page[..i]) + [Cells(page[i])]
  {
  }

  /** The chunks of one page. */
  method PageChunks(page: seq<CsvRow>, chunks0: seq<string>, ghost head: string, ghost before: seq<CsvRow>)
    returns (chunks: seq<string>)
    requires Concat(chunks0) == head + Lines(Grid(before))
    ensures Concat(chunks) == head + Lines(Grid(before + page))
  {
    chunks := chunks0;
    assert before + page[..0] == before;
    var i := 0;
    while i < |page|
      invariant 0 <= i <= |page|
      invariant Concat(chunks) == head + Lines(Grid(before + page[..i]))
    {
      var cells := Cells(page[i]);
      var line := Line(cells);
      GridPush(before, page, i);
      LinesPush(Grid(before + page[..i]), cells);
      ChunkEmitted(head, chunks, Lines(Grid(before + page[..i])), line, Lines(Grid(before + page[..i + 1])));
      chunks := chunks + [line];
      i := i + 1;
    }
    assert page[..i] == page;
  }

  /** The chunks of all pages, after those of the header. */
  method AllChunks(pages: seq<seq<CsvRow>>, headChunks: seq<string>, ghost head: string) returns (chunks: seq<string>)
    requires Concat(headChunks) == head
    ensures Concat(chunks) == head + Lines(Grid(AllRows(pages)))
  {
    chunks := headChunks;
    ghost var before: seq<CsvRow> := [];
    assert Grid([]) == [] && head + "" == head;
    var p := 0;
    while p < |pages|
      invariant 0 <= p <= |pages| && before == AllRows(pages[..p])
      invariant Concat(chunks) == head + Lines(Grid(before))
    {
      chunks := PageChunks(pages[p], chunks, head, before);
      PagesPush(pages, p);
      before := before + pages[p];
      p := p + 1;
    }
    assert pages[..p] == pages;
  }

  function Bom(includeBom: bool): string {
    if includeBom then "\U{FEFF}" else ""
  }

  /** `csvChunks` over the pages of a scan. */
  method CsvChunks(pages: seq<seq<CsvRow>>, includeBom: bool) returns (chunks: seq<string>)
    ensures Concat(chunks) == (if includeBom then "\U{FEFF}" else "") + Document(AllRows(pages))
  {
    var header := Header();
    chunks := if includeBom then [Bom(true), header] else [header];
    HeadChunks(includeBom, header);
    chunks := AllChunks(pages, chunks, Bom(includeBom) + header);
    Assoc(Bom(includeBom), header, Lines(Grid(AllRows(pages))));
  }

  lemma PagesPush(pages: seq<seq<CsvRow>>, p: nat)
    requires p < |pages|
    ensures AllRows(pages[..p + 1]) == AllRows(pages[..p]) + pages[p]
  {
    assert pages[..p + 1][..p] == pages[..p];
  }

  lemma Assoc(a: string, b: string, c: string)
    ensures (a + b) + c == a + (b + c)
  {
  }

  lemma HeadChunks(includeBom: bool, header: string)
    ensures Concat(if includeBom then [Bom(true), header] else [header]) == Bom(includeBom) + header
  {
    ConcatPush([], header);
    if includeBom {
      ConcatPush([], Bom(true));
      ConcatPush([Bom(true)], header);
      assert [Bom(true)] + [header] == [Bom(true), header];
    }
  }

  // ----- reading it back -----

  /** Where a reader of section 2 of RFC 4180 stands: at a field, inside a plain or a quoted
      field, after a quote inside a quoted field, after the CR of a line break. */
  datatype Mode = FieldStart | Plain | Quoted | QuoteSeen | CrSeen

  function Then(row: seq<string>, more: Option<seq<seq<string>>>): Option<seq<seq<string>>> {
    if more.Some? then Some([row] + more.value) else None
  }

  /** The records of `t`, or None if the text breaks the grammar.  TEXTDATA is any character
      that the grammar does not treat specially. */
  function Parse(t: string, mode: Mode, cell: string, row: seq<string>): Option<seq<seq<string>>>
    decreases |t|
  {
    if t == "" then
      match mode
      case FieldStart => if row == [] then Some([]) else Some([row + [""]])
      case Plain => Some([row + [cell]])
      case QuoteSeen => Some([row + [cell]])
      case _ => None
    else
      var c, rest := t[0], t[1..];
      match mode
      case Quoted => if c == '"' then Parse(rest, QuoteSeen, cell, row) else Parse(rest, Quoted, cell + [c], row)
      case CrSeen => if c == '\n' then Then(row + [cell], Parse(rest, FieldStart, "", [])) else None
      case _ =>
        if c == ',' then Parse(rest, FieldStart, "", row + [cell])
        else if c == '\r' then Parse(rest, CrSeen, cell, row)
        else if c == '\n' then None
        else if c == '"' then
          if mode == FieldStart then Parse(rest, Quoted, "", row)
          else if mode == QuoteSeen then Parse(rest, Quoted, cell + [c], row)
          else None
        else if mode == QuoteSeen then None
        else Parse(rest, Plain, cell + [c], row)
  }

  function ParseCsv(t: string): Option<seq<seq<string>>> {
    Parse(t, FieldStart, "", [])
  }

  lemma {:induction false} PlainRun(s: string, rest: string, cell: string, row: seq<string>)
    requires !NeedsQuotes(s)
    ensures Parse(s + rest, Plain, cell, row) == Parse(rest, Plain, cell + s, row)
    decreases |s|
  {
    if s == "" {
      assert s + rest == rest && cell + s == cell;
    } else {
      assert !Special(s[0]);
      assert forall i :: 0 <= i < |s[1..]| ==> s[1..][i] == s[i + 1];
      PlainRun(s[1..], rest, cell + [s[0]], row);
      assert (s + rest)[1..] == s[1..] + rest;
      assert cell + [s[0]] + s[1..] == cell + s;
    }
  }

  lemma QuotedChar(c: char, rest: string, cell: string, row: seq<string>)
    ensures Parse(DoubleQuotes([c]) + rest, Quoted, cell, row) == Parse(rest, Quoted, cell + [c], row)
  {
    assert [c][1..] == "";
    if c == '"' {
      assert DoubleQuotes([c]) == [c, c];
      var t := [c, c] + rest;
      assert t[0] == c && t[1..] == [c] + rest && ([c] + rest)[1..] == rest;
    } else {
      assert DoubleQuotes([c]) == [c];
      assert ([c] + rest)[1..] == rest;
    }
  }

  lemma {:induction false} QuotedRun(s: string, rest: string, cell: string, row: seq<string>)
    ensures Parse(DoubleQuotes(s) + ("\"" + rest), Quoted, cell, row) == Parse(rest, QuoteSeen, cell + s, row)
    decreases |s|
  {
    var tail := "\"" + rest;
    if s == "" {
      assert DoubleQuotes(s) + tail == tail && cell + s == cell && tail[1..] == rest;
    } else {
      var u := DoubleQuotes(s[1..]) + tail;
      assert [s[0]][1..] == "";
      assert DoubleQuotes(s) + tail == DoubleQuotes([s[0]]) + u;
      QuotedChar(s[0], u, cell, row);
      QuotedRun(s[1..], rest, cell + [s[0]], row);
      assert cell + [s[0]] + s[1..] == cell + s;
    }
  }

  /** What follows a cell: a comma or a line break. */
  predicate Break(rest: string) {
    rest != "" && (rest[0] == ',' || rest[0] == '\r')
  }

  lemma QuotedCellParses(safe: string, rest: string, row: seq<string>)
    requires Break(rest)
    ensures Parse(("\"" + DoubleQuotes(safe) + "\"") + rest, FieldStart, "", row) == Parse(rest, Plain, safe, row)
  {
    var t := ("\"" + DoubleQuotes(safe) + "\"") + rest;
    assert t[0] == '"' && t[1..] == DoubleQuotes(safe) + ("\"" + rest);
    QuotedRun(safe, rest, "", row);
    assert "" + safe == safe;
  }

  lemma PlainCellParses(safe: string, rest: string, row: seq<string>)
    requires Break(rest) && !NeedsQuotes(safe)
    ensures Parse(safe + rest, FieldStart, "", row) == Parse(rest, Plain, safe, row)
  {
    var t := safe + rest;
    assert t[0] != '"' && t[0] != '\n' by {
      assert if safe == "" then t[0] == rest[0] else t[0] == safe[0] && !Special(safe[0]);
    }
    PlainRun(safe, rest, "", row);
    assert "" + safe == safe;
  }

  lemma CellParses(s: string, rest: string, row: seq<string>)
    requires Break(rest)
    ensures Parse(EscapeCell(s) + rest, FieldStart, "", row) == Parse(rest, Plain, Guard(s), row)
  {
    if NeedsQuotes(Guard(s)) {
      QuotedCellParses(Guard(s), rest, row);
    } else {
      PlainCellParses(Guard(s), rest, row);
    }
  }

  /** The cells still to come on a line, then the line break and `rest`. */
  function RowThen(cells: seq<string>, rest: string): (r: string)
    ensures Break(r)
  {
    if cells == [] then "\r\n" + rest else "," + (EscapeCell(cells[0]) + RowThen(cells[1..], rest))
  }

  lemma {:induction false} JoinTailThen(cells: seq<string>, rest: string)
    ensures JoinTail(EscapeCells(cells)) + ("\r\n" + rest) == RowThen(cells, rest)
  {
    if cells != [] {
      JoinTailThen(cells[1..], rest);
      CommaThen(EscapeCell(cells[0]), JoinTail(EscapeCells(cells[1..])), "\r\n" + rest);
    }
  }

  lemma {:induction false} RowParses(cells: seq<string>, rest: string, cell: string, row: seq<string>)
    ensures Parse(RowThen(cells, rest), Plain, cell, row) == Then(row + [cell] + GuardAll(cells), ParseCsv(rest))
    decreases |cells|
  {
    var t := RowThen(cells, rest);
    if cells == [] {
      assert t[1..] == "\n" + rest && t[1..][1..] == rest;
      assert row + [cell] + [] == row + [cell];
    } else {
      var more := RowThen(cells[1..], rest);
      assert t[1..] == EscapeCell(cells[0]) + more;
      CellParses(cells[0], more, row + [cell]);
      RowParses(cells[1..], rest, Guard(cells[0]), row + [cell]);
      assert row + [cell] + [Guard(cells[0])] + GuardAll(cells[1..]) == row + [cell] + GuardAll(cells);
    }
  }

  lemma LineIsRow(cells: seq<string>, rest: string)
    requires cells != []
    ensures Line(cells) + rest == EscapeCell(cells[0]) + RowThen(cells[1..], rest)
  {
    JoinTailThen(cells[1..], rest);
    var first, more := EscapeCell(cells[0]), JoinTail(EscapeCells(cells[1..]));
    assert EscapeCells(cells)[1..] == EscapeCells(cells[1..]);
    assert Line(cells) == (first + more) + "\r\n";
    Assoc(first + more, "\r\n", rest);
    Assoc(first, more, "\r\n" + rest);
  }

  lemma LineParses(cells: seq<string>, rest: string)
    requires cells != []
    ensures ParseCsv(Line(cells) + rest) == Then(GuardAll(cells), ParseCsv(rest))
  {
    LineIsRow(cells, rest);
    CellParses(cells[0], RowThen(cells[1..], rest), []);
    RowParses(cells[1..], rest, Guard(cells[0]), []);
    assert [] + [Guard(cells[0])] + GuardAll(cells[1..]) == GuardAll(cells);
  }

  predicate Letters(s: string) {
    s != "" && forall i :: 0 <= i < |s| ==> 'A' <= s[i] <= 'z'
  }

  lemma ColumnsAreLetters()
    ensures forall i :: 0 <= i < 14 ==> Letters(Columns()[i])
  {
  }

  lemma {:induction false} LettersUnescaped(cells: seq<string>)
    requires forall i :: 0 <= i < |cells| ==> Letters(cells[i])
    ensures EscapeCells(cells) == cells && GuardAll(cells) == cells
  {
    if cells != [] {
      assert Letters(cells[0]);
      assert forall i :: 0 <= i < |cells[1..]| ==> cells[1..][i] == cells[i + 1];
      LettersUnescaped(cells[1..]);
    }
  }

  lemma {:induction false} LinesParse(grid: seq<seq<string>>)
    requires forall i :: 0 <= i < |grid| ==> grid[i] != []
    ensures ParseCsv(Lines(grid)) == Some(Guarded(grid))
  {
    if grid != [] {
      LinesParse(grid[1..]);
      LineParses(grid[0], Lines(grid[1..]));
    }
  }

  lemma RecordsParse(columns: seq<string>, grid: seq<seq<string>>)
    requires columns != [] && GuardAll(columns) == columns && EscapeCells(columns) == columns
    requires forall i :: 0 <= i < |grid| ==> grid[i] != []
    ensures ParseCsv((Join(columns) + "\r\n") + Lines(grid)) == Some([columns] + Guarded(grid))
  {
    LineParses(columns, Lines(grid));
    LinesParse(grid);
  }

  lemma ColumnsAreGuarded()
    ensures GuardAll(Columns()) == Columns() && EscapeCells(Columns()) == Columns()
  {
    ColumnsAreLetters();
    LettersUnescaped(Columns());
  }

  /** Round trip: whatever quotes, commas or line breaks the cells hold, a parser of RFC 4180
      gets the header's columns and, row by row, the guarded cells. */
  lemma DocumentParses(rows: seq<CsvRow>)
    ensures ParseCsv(Document(rows)) == Some([Columns()] + Guarded(Grid(rows)))
  {
    ColumnsAreGuarded();
    RecordsParse(Columns(), Grid(rows));
  }

  predicate Starter(c: char) {
    c == '=' || c == '+' || c == '-' || c == '@'
  }

  /** A sign that starts a formula, after tabs, line breaks and spaces only. */
  predicate StartsFormula(s: string) {
    exists i :: 0 <= i < |s| && Starter(s[i]) &&
      forall j :: 0 <= j < i ==> s[j] == ' ' || s[j] == '\t' || s[j] == '\r' || s[j] == '\n'
  }

  lemma {:induction false} FormulaMeaning(s: string)
    ensures Formula(s) <==> StartsFormula(s)
  {
    if s != "" && !Starter(s[0]) {
      var t := s[1..];
      FormulaMeaning(t);
      if StartsFormula(t) && Blank(s[0]) {
        var i :| 0 <= i < |t| && Starter(t[i]) &&
          forall j :: 0 <= j < i ==> t[j] == ' ' || t[j] == '\t' || t[j] == '\r' || t[j] == '\n';
        assert s[i + 1] == t[i] && forall j :: 0 < j < i + 1 ==> s[j] == t[j - 1];
      }
      if StartsFormula(s) {
        var i :| 0 <= i < |s| && Starter(s[i]) &&
          forall j :: 0 <= j < i ==> s[j] == ' ' || s[j] == '\t' || s[j] == '\r' || s[j] == '\n';
        assert t[i - 1] == s[i] && forall j :: 0 <= j < i - 1 ==> t[j] == s[j + 1];
      }
    }
  }

  /** The guard is an apostrophe before exactly the texts that start like a formula. */
  lemma GuardMeaning(s: string)
    ensures Guard(s) == if StartsFormula(s) then "'" + s else s
  {
    FormulaMeaning(s);
  }

  /** Quotes stand only around cells that need them. */
  lemma QuotesOnlyIfNeeded(s: string)
    requires forall i :: 0 <= i < |s| ==> s[i] != '"' && s[i] != ',' && s[i] != '\r' && s[i] != '\n'
    ensures EscapeCell(s) == if StartsFormula(s) then "'" + s else s
  {
    GuardMeaning(s);
  }

  lemma GuardedIsNoFormula(s: string)
    ensures !Formula(Guard(s))
  {
    assert ("'" + s)[0] == '\'';
  }

  predicate FormulaFree(record: seq<string>) {
    forall j :: 0 <= j < |record| ==> !Formula(record[j])
  }

  lemma GuardedCells(cells: seq<string>)
    ensures FormulaFree(GuardAll(cells))
  {
    forall j | 0 <= j < |cells| ensures !Formula(GuardAll(cells)[j]) {
      GuardedIsNoFormula(cells[j]);
    }
  }

  lemma SafeRecord(columns: seq<string>, grid: seq<seq<string>>, i: nat)
    requires GuardAll(columns) == columns && i <= |grid|
    ensures FormulaFree(([columns] + Guarded(grid))[i])
  {
    if i == 0 {
      GuardedCells(columns);
    } else {
      GuardedCells(grid[i - 1]);
    }
  }

  /** No spreadsheet sees a formula in any cell it reads. */
  lemma NoCellIsFormula(rows: seq<CsvRow>, i: nat)
    requires i <= |rows|
    ensures var parsed := ParseCsv(Document(rows));
      parsed.Some? && |parsed.value| == |rows| + 1 && FormulaFree(parsed.value[i])
  {
    DocumentParses(rows);
    ColumnsAreGuarded();
    SafeRecord(Columns(), Grid(rows), i);
  }

  lemma PlainCell(columns: seq<string>, grid: seq<seq<string>>, i: nat, j: nat)
    requires i < |grid| && j < |grid[i]| && !Formula(grid[i][j])
    ensures var record := ([columns] + Guarded(grid))[i + 1];
      |record| == |grid[i]| && record[j] == grid[i][j]
  {
  }

  /** Apart from the guard, cells come back as they were. */
  lemma PlainCellsComeBack(rows: seq<CsvRow>, i: nat, j: nat)
    requires i < |rows| && j < 14 && !Formula(Cells(rows[i])[j])
    ensures var parsed := ParseCsv(Document(rows));
      parsed.Some? && |parsed.value| == |rows| + 1 && |parsed.value[i + 1]| == 14
      && parsed.value[i + 1][j] == Cells(rows[i])[j]
  {
    DocumentParses(rows);
    PlainCell(Columns(), Grid(rows), i, j);
  }

  // ----- which field stands where -----

  /** Where a header has a column. */
  function Position(header: seq<string>, column: string): Option<nat> {
    if header == [] then None
    else if header[0] == column then Some(0)
    else
      var rest := Position(header[1..], column);
      if rest.Some? then Some(rest.value + 1) else None
  }

  /** What a reader finds in a record under a column. */
  function Under(header: seq<string>, record: seq<string>, column: string): Option<string> {
    var at := Position(header, column);
    if at.Some? && at.value < |record| then Some(record[at.value]) else None
  }

  lemma {:induction false} UnderAt(header: seq<string>, record: seq<string>, i: nat)
    requires i < |header| == |record| && forall j, k :: 0 <= j < k < |header| ==> header[j] != header[k]
    ensures Under(header, record, header[i]) == Some(record[i])
  {
    PositionAt(header, i);
  }

  lemma {:induction false} PositionAt(header: seq<string>, i: nat)
    requires i < |header| && forall j, k :: 0 <= j < k < |header| ==> header[j] != header[k]
    ensures Position(header, header[i]) == Some(i)
  {
    if i > 0 {
      assert forall j :: 0 <= j < |header[1..]| ==> header[1..][j] == header[j + 1];
      PositionAt(header[1..], i - 1);
    }
  }

  /** The field a column promises. */
  predicate Shows(row: CsvRow, column: string, text: string) {
    var e := row.entry;
    match column
    case "schemaVersion" => text == "v1"
    case "id" => text == row.id
    case "tenantId" => TextOrEmpty(e.tenantId, text)
    case "actorId" => TextOrEmpty(e.actorId, text)
    case "actorType" => text == e.actorType
    case "actorIp" => TextOrEmpty(e.actorIp, text)
    case "action" => text == e.action
    case "targetType" => TextOrEmpty(e.targetType, text)
    case "targetId" => TextOrEmpty(e.targetId, text)
    case "source" => text == e.source
    case "result" => text == e.result
    case "changes" => JsonOrEmpty(e.changes, text)
    case "metadata" => JsonOrEmpty(e.metadata, text)
    case "createdAt" => text == row.createdAt
    case _ => false
  }

  predicate TextOrEmpty(field: Option<string>, text: string) {
    text == match field case Some(s) => s case None => ""
  }

  /** Nothing, or JSON that says what the value says. */
  predicate JsonOrEmpty(field: Option<Value>, text: string) {
    match field
    case None => text == ""
    case Some(v) =>
      var read := JsonReader.ReadJson(text);
      read.Some? && JsonReader.Means(v, read.value)
  }

  lemma JsonCellSays(field: Option<Value>)
    requires field.Some? ==> WellFormed(field.value)
    ensures JsonOrEmpty(field, JsonCell(field))
  {
    if field.Some? { JsonReader.JsonTextReads(field.value); }
  }

  predicate JsonFields(row: CsvRow) {
    && (row.entry.changes.Some? ==> WellFormed(row.entry.changes.value))
    && (row.entry.metadata.Some? ==> WellFormed(row.entry.metadata.value))
  }

  lemma CellShows(row: CsvRow, i: nat)
    requires JsonFields(row) && i < 14
    ensures Shows(row, ColumnName(i), Cells(row)[i])
  {
    JsonCellSays(row.entry.changes);
    JsonCellSays(row.entry.metadata);
  }

  lemma DistinctColumns()
    ensures forall j, k :: 0 <= j < k < 14 ==> Columns()[j] != Columns()[k]
  {
  }

  /** The first record is the documented list of columns. */
  lemma HeaderIsFirst(rows: seq<CsvRow>)
    ensures var parsed := ParseCsv(Document(rows));
      parsed.Some? && parsed.value != [] && parsed.value[0] ==
        ["schemaVersion", "id", "tenantId", "actorId", "actorType", "actorIp", "action", "targetType", "targetId",
         "source", "result", "changes", "metadata", "createdAt"]
  {
    DocumentParses(rows);
    ColumnList();
  }

  lemma ColumnList()
    ensures Columns() ==
      ["schemaVersion", "id", "tenantId", "actorId", "actorType", "actorIp", "action", "targetType", "targetId",
       "source", "result", "changes", "metadata", "createdAt"]
  {
  }

  /** Every record of a document shows the fields of its row, each under its column and under the
      guard. */
  lemma RecordsShowRows(rows: seq<CsvRow>, i: nat, c: nat)
    requires i < |rows| && JsonFields(rows[i]) && c < 14
    ensures var parsed := ParseCsv(Document(rows));
      && parsed.Some? && |parsed.value| == |rows| + 1
      && var cell := Under(parsed.value[0], parsed.value[i + 1], Columns()[c]);
         cell.Some? && exists text :: Shows(rows[i], Columns()[c], text) && cell.value == Guard(text)
  {
    DocumentParses(rows);
    DistinctColumns();
    var header, record := Columns(), GuardAll(Cells(rows[i]));
    assert ([header] + Guarded(Grid(rows)))[i + 1] == record;
    UnderAt(header, record, c);
    CellShows(rows[i], c);
  }

  // ----- key order -----

  predicate SameJson(a: Option<Value>, b: Option<Value>) {
    (a.None? && b.None?) || (a.Some? && b.Some? && Equiv(a.value, b.value))
  }

  /** Entries that differ only in the key order of their JSON export as identical lines. */
  lemma KeyOrderDoesNotShow(a: CsvRow, b: CsvRow)
    requires a.id == b.id && a.createdAt == b.createdAt
    requires a.entry.(changes := None, metadata := None) == b.entry.(changes := None, metadata := None)
    requires SameJson(a.entry.changes, b.entry.changes) && SameJson(a.entry.metadata, b.entry.metadata)
    requires forall v :: v in [a.entry.changes, a.entry.metadata, b.entry.changes, b.entry.metadata] && v.Some? ==>
      WellFormed(v.value)
    ensures Line(Cells(a)) == Line(Cells(b))
  {
    SameJsonSameCell(a.entry.changes, b.entry.changes);
    SameJsonSameCell(a.entry.metadata, b.entry.metadata);
    assert Cells(a) == Cells(b);
  }

  lemma SameJsonSameCell(a: Option<Value>, b: Option<Value>)
    requires SameJson(a, b) && (a.Some? ==> WellFormed(a.value) && WellFormed(b.value))
    ensures JsonCell(a) == JsonCell(b)
  {
    if a.Some? {
      EquivView(a.value, b.value);
      JsonTextMeaning(a.value, b.value);
    }
  }
}
