/** RFC 4180 CSV reading and writing (dashboard/lib/csv.ts). A string is a sequence of
    characters; `parseCsv` scans it with one character of lookahead. */
module Csv {
  import opened Sequences

  const DELIMITERS: seq<char> := [',', ';', '\t', '|']
  const BOM: char := '\U{FEFF}'

  /** The characters `String.prototype.trim` removes. */
  predicate IsSpace(c: char) {
    || '\t' <= c <= '\r' || c == ' ' || c == '\U{00A0}' || c == '\U{1680}'
    || '\U{2000}' <= c <= '\U{200A}' || c == '\U{2028}' || c == '\U{2029}'
    || c == '\U{202F}' || c == '\U{205F}' || c == '\U{3000}' || c == BOM
  }

  function TrimStart(s: string): (r: string)
    ensures |r| <= |s| && (s != "" && IsSpace(s[0]) ==> |r| < |s|)
    ensures r != "" ==> !IsSpace(r[0])
    ensures s == "" || !IsSpace(s[0]) ==> r == s
  {
    if s != "" && IsSpace(s[0]) then TrimStart(s[1..]) else s
  }

  function TrimEnd(s: string): (r: string)
    ensures r <= s
    ensures r != "" ==> !IsSpace(r[|r| - 1])
    ensures s == "" || !IsSpace(s[|s| - 1]) ==> r == s
  {
    if s != "" && IsSpace(s[|s| - 1]) then TrimEnd(s[..|s| - 1]) else s
  }

  function Trim(s: string): string {
    TrimEnd(TrimStart(s))
  }

  type Row = seq<string>

  predicate Blank(row: Row) {
    forall i :: 0 <= i < |row| ==> Trim(row[i]) == ""
  }

  function NonBlank(rows: seq<Row>): seq<Row> {
    if rows == [] then [] else (if Blank(rows[0]) then [] else [rows[0]]) + NonBlank(rows[1..])
  }

  function TrimAll(row: Row): Row
  {
    seq(|row|, i requires 0 <= i < |row| => Trim(row[i]))
  }

  // ---- Delimiter ----

  /** `text.split(/\r?\n/, 1)[0]` */
  function FirstLine(text: string): string {
    if text == "" || text[0] == '\n' || (|text| > 1 && text[0] == '\r' && text[1] == '\n') then ""
    else [text[0]] + FirstLine(text[1..])
  }

  /** `line.split(delimiter).length - 1` */
  function Count(line: string, delimiter: char): nat {
    if line == "" then 0 else (if line[0] == delimiter then 1 else 0) + Count(line[1..], delimiter)
  }

  /** `best` is the first of the delimiters with the greatest count. */
  ghost predicate IsDetected(line: string, best: char, among: seq<char>) {
    exists j :: 0 <= j < |among| && among[j] == best
      && (forall i :: 0 <= i < |among| ==> Count(line, among[i]) <= Count(line, best))
      && forall i :: 0 <= i < j ==> Count(line, among[i]) < Count(line, best)
  }

  function Best(line: string, delimiters: seq<char>, best: char, bestCount: nat): char {
    if delimiters == [] then best
    else
      var count := Count(line, delimiters[0]);
      if count > bestCount then Best(line, delimiters[1..], delimiters[0], count)
      else Best(line, delimiters[1..], best, bestCount)
  }

  function Detect(text: string): char {
    Best(FirstLine(text), DELIMITERS, ',', 0)
  }

  method DetectDelimiter(text: string) returns (best: char)
    ensures best == Detect(text)
    ensures IsDetected(FirstLine(text), best, DELIMITERS)
  {
    var firstLine := FirstLine(text);
    best := ',';
    var bestCount := 0;
    ghost var at := 0;
    for i := 0 to |DELIMITERS|
      invariant Best(firstLine, DELIMITERS[i..], best, bestCount) == Detect(text)
      invariant 0 <= at <= i && at < |DELIMITERS| && best == DELIMITERS[at]
      invariant bestCount == if i == 0 then 0 else Count(firstLine, best)
      invariant forall j :: 0 <= j < i ==> Count(firstLine, DELIMITERS[j]) <= bestCount
      invariant forall j :: 0 <= j < at ==> Count(firstLine, DELIMITERS[j]) < bestCount
    {
      var count := Count(firstLine, DELIMITERS[i]);
      if count > bestCount {
        best := DELIMITERS[i];
        bestCount := count;
        at := i;
      }
    }
  }

  /** No other delimiter outnumbers the commas of the first line. */
  predicate CommaWins(text: string) {
    forall d :: d in DELIMITERS ==> Count(FirstLine(text), d) <= Count(FirstLine(text), ',')
  }

  lemma {:induction false} BestCounts(line: string, delimiters: seq<char>, best: char)
    ensures var r := Best(line, delimiters, best, Count(line, best));
            && (r == best || (r in delimiters && Count(line, best) < Count(line, r)))
            && forall i :: 0 <= i < |delimiters| ==> Count(line, delimiters[i]) <= Count(line, r)
  {
    if delimiters != [] {
      var d, rest := delimiters[0], delimiters[1..];
      BestCounts(line, rest, if Count(line, d) > Count(line, best) then d else best);
      assert forall i :: 0 < i < |delimiters| ==> delimiters[i] == rest[i - 1];
    }
  }

  lemma CommaDetected(text: string)
    ensures Detect(text) == ',' <==> CommaWins(text)
  {
    BestCounts(FirstLine(text), DELIMITERS[1..], ',');
    assert DELIMITERS == [','] + DELIMITERS[1..];
    assert forall d :: d in DELIMITERS ==> d == ',' || exists i :: 0 <= i < 3 && DELIMITERS[1..][i] == d;
  }

  // ---- Reading ----

  datatype State = State(records: seq<Row>, record: Row, field: string, quoted: bool)

  predicate Follows(s: string, i: nat, c: char) {
    i + 1 < |s| && s[i + 1] == c
  }

  /** One turn of the scanning loop at `c`: the new state, and whether the next character is
      consumed too. */
  function Turn(c: char, quoteNext: bool, newlineNext: bool, delimiter: char, st: State): (State, bool) {
    if st.quoted then
      if c != '"' then (st.(field := st.field + [c]), false)
      else if quoteNext then (st.(field := st.field + ['"']), true)
      else (st.(quoted := false), false)
    else if c == '"' && st.field == "" then (st.(quoted := true), false)
    else if c == delimiter then (st.(record := st.record + [st.field], field := ""), false)
    else if c == '\n' || c == '\r' then
      (State(st.records + [st.record + [st.field]], [], "", false), c == '\r' && newlineNext)
    else (st.(field := st.field + [c]), false)
  }

  /** The turn at the head of `s`: the new state and how far to move. */
  function Step(s: string, delimiter: char, st: State): (r: (State, nat))
    requires s != ""
    ensures 1 <= r.1 <= |s|
  {
    var (st', both) := Turn(s[0], Follows(s, 0, '"'), Follows(s, 0, '\n'), delimiter, st);
    (st', if both then 2 else 1)
  }

  function Run(s: string, delimiter: char, st: State): State
    decreases |s|
  {
    if s == "" then st
    else
      var (st', n) := Step(s, delimiter, st);
      Run(s[n..], delimiter, st')
  }

  function Finish(st: State): seq<Row> {
    if st.field != "" || st.record != [] then st.records + [st.record + [st.field]] else st.records
  }

  const START := State([], [], "", false)

  datatype Parsed = Parsed(headers: Row, rows: seq<Row>, delimiter: char)

  function StripBom(input: string): string {
    if input != "" && input[0] == BOM then input[1..] else input
  }

  function Shape(records: seq<Row>, delimiter: char): Parsed {
    var kept := NonBlank(records);
    if kept == [] then Parsed([], [], delimiter) else Parsed(TrimAll(kept[0]), kept[1..], delimiter)
  }

  function Parse(input: string): Parsed {
    var text := StripBom(input);
    var delimiter := Detect(text);
    Shape(Finish(Run(text, delimiter, START)), delimiter)
  }

  method ParseCsv(input: string) returns (r: Parsed)
    ensures r == Parse(input)
  {
    var text := StripBom(input);
    var delimiter := DetectDelimiter(text);
    var records: seq<Row> := [];
    var record: Row := [];
    var field: string := "";
    var quoted := false;
    var i := 0;
    assert text[0..] == text;
    while i < |text|
      invariant 0 <= i <= |text|
      invariant Run(text[i..], delimiter, State(records, record, field, quoted)) == Run(text, delimiter, START)
    {
      ghost var turn := Turn(text[i], Follows(text, i, '"'), Follows(text, i, '\n'), delimiter,
                             State(records, record, field, quoted));
      ghost var next := if turn.1 then i + 2 else i + 1;
      var c := text[i];
      if quoted {
        if c == '"' {
          if Follows(text, i, '"') {
            field := field + ['"'];
            i := i + 1;
          } else {
            quoted := false;
          }
        } else {
          field := field + [c];
        }
      } else if c == '"' && field == "" {
        quoted := true;
      } else if c == delimiter {
        record := record + [field];
        field := "";
      } else if c == '\n' || c == '\r' {
        if c == '\r' && Follows(text, i, '\n') { i := i + 1; }
        record := record + [field];
        records := records + [record];
        record := [];
        field := "";
      } else {
        field := field + [c];
      }
      i := i + 1;
      assert turn.0 == State(records, record, field, quoted) && i == next;
    }
    if field != "" || |record| > 0 {
      record := record + [field];
      records := records + [record];
    }
    r := Shape(records, delimiter);
  }

  // ---- Writing ----

  predicate IsSpecial(c: char) {
    c == '"' || c == ',' || c == '\r' || c == '\n'
  }

  /** `value.replace(/"/g, '""')` */
  function Doubled(value: string): string {
    if value == "" then ""
    else (if value[0] == '"' then "\"\"" else [value[0]]) + Doubled(value[1..])
  }

  predicate NeedsQuotes(value: string) {
    exists i :: 0 <= i < |value| && IsSpecial(value[i])
  }

  function EscapeCell(value: string): string {
    if NeedsQuotes(value) then "\"" + Doubled(value) + "\"" else value
  }

  function JoinCells(row: Row): string {
    if row == [] then ""
    else if |row| == 1 then EscapeCell(row[0])
    else EscapeCell(row[0]) + "," + JoinCells(row[1..])
  }

  function JoinRows(rows: seq<Row>): string
    requires rows != []
  {
    if |rows| == 1 then JoinCells(rows[0]) else JoinCells(rows[0]) + "\r\n" + JoinRows(rows[1..])
  }

  function ToCsv(headers: Row, rows: seq<Row>): string {
    JoinRows([headers] + rows)
  }

  // ---- Round trip ----

  /** How a quoted cell writes one character. */
  function DoubledChar(c: char): string {
    if c == '"' then "\"\"" else [c]
  }

  function Typed(st: State, value: string): State {
    st.(field := st.field + value)
  }

  lemma TypedCons(st: State, value: string)
    requires value != ""
    ensures Typed(Typed(st, [value[0]]), value[1..]) == Typed(st, value)
  {
    assert st.field + [value[0]] + value[1..] == st.field + value;
  }

  function Closing(value: string, rest: string): string {
    Doubled(value) + (['"'] + rest)
  }

  lemma ClosingCons(value: string, rest: string)
    requires value != ""
    ensures Closing(value, rest) == DoubledChar(value[0]) + Closing(value[1..], rest)
  {
    assert Doubled(value) == DoubledChar(value[0]) + Doubled(value[1..]);
  }

  lemma {:induction false} RunDoubled(value: string, rest: string, st: State)
    requires st.quoted && (rest == "" || rest[0] != '"')
    ensures Run(Closing(value, rest), ',', st) == Run(rest, ',', Typed(st, value).(quoted := false))
  {
    if value == "" {
      RunClosingQuote(rest, st);
    } else {
      ClosingCons(value, rest);
      RunDoubled(value[1..], rest, Typed(st, [value[0]]));
      TypedCons(st, value);
    }
  }

  lemma {:induction false} RunClosingQuote(rest: string, st: State)
    requires st.quoted && (rest == "" || rest[0] != '"')
    ensures Run(Closing("", rest), ',', st) == Run(rest, ',', Typed(st, "").(quoted := false))
  {
    assert "" + (['"'] + rest) == ['"'] + rest;
    assert st.field + "" == st.field;
  }

  lemma {:induction false} RunPlain(value: string, rest: string, st: State)
    requires !st.quoted && forall i :: 0 <= i < |value| ==> !IsSpecial(value[i])
    ensures Run(value + rest, ',', st) == Run(rest, ',', st.(field := st.field + value))
  {
    if value == "" {
      assert value + rest == rest && st.field + value == st.field;
    } else {
      assert value + rest == [value[0]] + (value[1..] + rest);
      var st' := st.(field := st.field + [value[0]]);
      assert st'.field + value[1..] == st.field + value;
      RunPlain(value[1..], rest, st');
    }
  }

  predicate EndsCell(rest: string) {
    rest == "" || rest[0] == ',' || rest[0] == '\r'
  }

  lemma {:induction false} RunQuoted(value: string, rest: string, st: State)
    requires !st.quoted && st.field == "" && (rest == "" || rest[0] != '"')
    ensures Run("\"" + Doubled(value) + "\"" + rest, ',', st) == Run(rest, ',', st.(field := value))
  {
    Regroup("\"", Doubled(value), "\"");
    Regroup("\"", Doubled(value) + "\"", rest);
    Regroup(Doubled(value), "\"", rest);
    RunDoubled(value, rest, st.(quoted := true));
    assert st.field + value == value;
  }

  /** Reading one written cell leaves exactly its value in `field`. */
  lemma {:induction false} RunCell(value: string, rest: string, st: State)
    requires !st.quoted && st.field == "" && EndsCell(rest)
    ensures Run(EscapeCell(value) + rest, ',', st) == Run(rest, ',', st.(field := value))
  {
    if NeedsQuotes(value) {
      RunQuoted(value, rest, st);
    } else {
      RunPlain(value, rest, st);
      assert st.field + value == value;
    }
  }

  /** The record a written row reads back as: an empty row reads as one empty cell. */
  function Cells(row: Row): (r: Row)
    ensures r != []
  {
    if row == [] then [""] else row
  }

  /** After a row's last cell, which nothing has ended yet. */
  function WithCells(st: State, cells: Row): State
    requires cells != []
  {
    st.(record := st.record + cells[..|cells| - 1], field := cells[|cells| - 1])
  }

  lemma WithCellsCons(st: State, cell: string, cells: Row)
    requires cells != []
    ensures WithCells(st.(record := st.record + [cell]), cells) == WithCells(st, [cell] + cells)
  {
    assert ([cell] + cells)[..|cells|] == [cell] + cells[..|cells| - 1];
    assert st.record + [cell] + cells[..|cells| - 1] == st.record + ([cell] + cells[..|cells| - 1]);
  }

  lemma {:induction false} RunRow(row: Row, rest: string, st: State)
    requires !st.quoted && st.field == "" && (rest == "" || rest[0] == '\r')
    ensures Run(JoinCells(row) + rest, ',', st) == Run(rest, ',', WithCells(st, Cells(row)))
  {
    if |row| <= 1 {
      RunShortRow(row, rest, st);
    } else {
      JoinCons(row, rest);
      RunCellComma(row[0], JoinCells(row[1..]) + rest, st);
      RunRow(row[1..], rest, st.(record := st.record + [row[0]]));
      WithCellsCons(st, row[0], row[1..]);
      assert [row[0]] + row[1..] == row;
    }
  }

  lemma {:induction false} JoinCons(row: Row, rest: string)
    requires |row| > 1
    ensures JoinCells(row) + rest == EscapeCell(row[0]) + ([','] + (JoinCells(row[1..]) + rest))
  {
    var head, tail := EscapeCell(row[0]), JoinCells(row[1..]);
    Regroup(head, [','], tail);
    Regroup(head, [','] + tail, rest);
    Regroup([','], tail, rest);
  }

  lemma {:induction false} RunShortRow(row: Row, rest: string, st: State)
    requires |row| <= 1 && !st.quoted && st.field == "" && EndsCell(rest)
    ensures Run(JoinCells(row) + rest, ',', st) == Run(rest, ',', WithCells(st, Cells(row)))
  {
    assert st.record + Cells(row)[..0] == st.record;
    if row == [] {
      assert JoinCells(row) + rest == rest;
    } else {
      RunCell(row[0], rest, st);
    }
  }

  lemma {:induction false} RunCellComma(value: string, rest: string, st: State)
    requires !st.quoted && st.field == ""
    ensures Run(EscapeCell(value) + ([','] + rest), ',', st) == Run(rest, ',', st.(record := st.record + [value]))
  {
    RunCell(value, [','] + rest, st);
  }

  lemma {:induction false} NonBlankAppend(a: seq<Row>, b: seq<Row>)
    ensures NonBlank(a + b) == NonBlank(a) + NonBlank(b)
  {
    if a == [] {
      assert a + b == b;
    } else {
      assert (a + b)[1..] == a[1..] + b;
      NonBlankAppend(a[1..], b);
      Regroup(if Blank(a[0]) then [] else [a[0]], NonBlank(a[1..]), NonBlank(b));
    }
  }

  lemma WithCellsDone(records: seq<Row>, cells: Row)
    requires cells != []
    ensures var st := WithCells(State(records, [], "", false), cells);
            st.record + [st.field] == cells && st.records == records
  {
    assert [] + cells[..|cells| - 1] + [cells[|cells| - 1]] == cells;
  }

  lemma {:induction false} RunLastRow(row: Row, records: seq<Row>)
    ensures NonBlank(Finish(Run(JoinCells(row), ',', State(records, [], "", false))))
         == NonBlank(records) + NonBlank([row])
  {
    var cells, st := Cells(row), State(records, [], "", false);
    assert JoinCells(row) + "" == JoinCells(row);
    RunRow(row, "", st);
    WithCellsDone(records, cells);
    FinishIs(WithCells(st, cells), row);
  }

  lemma FinishIs(end: State, row: Row)
    requires end.record + [end.field] == Cells(row)
    ensures NonBlank(Finish(end)) == NonBlank(end.records) + NonBlank([row])
  {
    var cells := Cells(row);
    NonBlankAppend(end.records, [cells]);
    if end.field == "" && end.record == [] {
      assert cells == [""];
    }
    assert NonBlank(end.records) + [] == NonBlank(end.records);
  }

  lemma {:induction false} RunRowBreak(row: Row, rest: string, records: seq<Row>)
    ensures Run(JoinCells(row) + "\r\n" + rest, ',', State(records, [], "", false))
         == Run(rest, ',', State(records + [Cells(row)], [], "", false))
  {
    var st, tail := State(records, [], "", false), "\r\n" + rest;
    Regroup(JoinCells(row), "\r\n", rest);
    RunRow(row, tail, st);
    WithCellsDone(records, Cells(row));
    assert tail[2..] == rest;
  }

  /** Reading back written rows yields their non-blank ones, in order. */
  lemma {:induction false} RunRows(rows: seq<Row>, records: seq<Row>)
    requires rows != []
    ensures NonBlank(Finish(Run(JoinRows(rows), ',', State(records, [], "", false))))
         == NonBlank(records) + NonBlank(rows)
    decreases |rows|
  {
    if |rows| == 1 {
      RunLastRow(rows[0], records);
      assert rows == [rows[0]];
    } else {
      RunRowBreak(rows[0], JoinRows(rows[1..]), records);
      RunRows(rows[1..], records + [Cells(rows[0])]);
      MoveRow(records, rows);
    }
  }

  lemma {:induction false} MoveRow(records: seq<Row>, rows: seq<Row>)
    requires rows != []
    ensures NonBlank(records + [Cells(rows[0])]) + NonBlank(rows[1..]) == NonBlank(records) + NonBlank(rows)
  {
    NonBlankAppend(records, [Cells(rows[0])]);
    NonBlankAppend([rows[0]], rows[1..]);
    assert [rows[0]] + rows[1..] == rows;
    Regroup(NonBlank(records), NonBlank([rows[0]]), NonBlank(rows[1..]));
  }

  predicate Trimmed(row: Row) {
    forall i :: 0 <= i < |row| ==> Trim(row[i]) == row[i]
  }

  lemma NoLeadingBom(headers: Row, rows: seq<Row>)
    requires Trimmed(headers)
    ensures StripBom(ToCsv(headers, rows)) == ToCsv(headers, rows)
  {
    assert ([headers] + rows)[0] == headers;
  }

  lemma {:induction false} NonBlankShorter(rows: seq<Row>)
    ensures |NonBlank(rows)| <= |rows|
    ensures |NonBlank(rows)| == |rows| ==> NonBlank(rows) == rows
    ensures |NonBlank(rows)| == |rows| <==> forall i :: 0 <= i < |rows| ==> !Blank(rows[i])
  {
    if rows != [] {
      NonBlankShorter(rows[1..]);
      assert forall i :: 0 < i < |rows| ==> rows[i] == rows[1..][i - 1];
      assert forall i :: 0 <= i < |rows| - 1 ==> rows[1..][i] == rows[i + 1];
    }
  }

  /** What `parseCsv` must be given for it to undo `toCsv`. */
  predicate Faithful(headers: Row, rows: seq<Row>) {
    || (headers == [] && rows == [])
    || (Trimmed(headers) && !Blank(headers) && (forall i :: 0 <= i < |rows| ==> !Blank(rows[i]))
        && CommaWins(ToCsv(headers, rows)))
  }

  /** For all cell contents, `parseCsv(toCsv(h, rows))` is h, rows and "," exactly when the
      headers are trimmed, no row is blank, and no other delimiter outnumbers the commas of the
      first line (or the table is empty). */
  lemma RoundTrip(headers: Row, rows: seq<Row>)
    ensures Parse(ToCsv(headers, rows)) == Parsed(headers, rows, ',') <==> Faithful(headers, rows)
  {
    if headers == [] && rows == [] {
      assert ToCsv(headers, rows) == "";
      assert Run("", ',', START) == START;
      CommaDetected("");
    } else if Trimmed(headers) && CommaWins(ToCsv(headers, rows)) {
      ReadBack(headers, rows);
    } else if Parse(ToCsv(headers, rows)) == Parsed(headers, rows, ',') {
      UntrimmedOrOutnumbered(headers, rows);
    }
  }

  lemma ReadBack(headers: Row, rows: seq<Row>)
    requires Trimmed(headers) && CommaWins(ToCsv(headers, rows)) && !(headers == [] && rows == [])
    ensures Parse(ToCsv(headers, rows)) == Parsed(headers, rows, ',') <==>
              !Blank(headers) && forall i :: 0 <= i < |rows| ==> !Blank(rows[i])
  {
    var all := [headers] + rows;
    NoLeadingBom(headers, rows);
    CommaDetected(ToCsv(headers, rows));
    RunRows(all, []);
    ShapeOfRows(headers, rows);
    assert [] + NonBlank(all) == NonBlank(all);
    var records := Finish(Run(JoinRows(all), ',', START));
    assert Shape(records, ',') == Shape(all, ',') by {
      assert NonBlank(records) == NonBlank([]) + NonBlank(all);
    }
  }

  lemma ShapeOfRows(headers: Row, rows: seq<Row>)
    requires Trimmed(headers) && !(headers == [] && rows == [])
    ensures Shape([headers] + rows, ',') == Parsed(headers, rows, ',') <==>
              !Blank(headers) && forall i :: 0 <= i < |rows| ==> !Blank(rows[i])
  {
    var all := [headers] + rows;
    NonBlankShorter(all);
    assert TrimAll(headers) == headers;
    assert all[1..] == rows && all[0] == headers;
    assert forall i :: 0 <= i < |rows| ==> rows[i] == all[i + 1];
    assert forall i :: 0 < i < |all| ==> all[i] == rows[i - 1];
  }

  lemma UntrimmedOrOutnumbered(headers: Row, rows: seq<Row>)
    requires Parse(ToCsv(headers, rows)) == Parsed(headers, rows, ',')
    ensures Trimmed(headers) && CommaWins(ToCsv(headers, rows))
  {
    var text := ToCsv(headers, rows);
    var kept := NonBlank(Finish(Run(StripBom(text), Detect(StripBom(text)), START)));
    forall i | 0 <= i < |headers| ensures Trim(headers[i]) == headers[i] {
      assert headers[i] == Trim(kept[0][i]);
    }
    NoLeadingBom(headers, rows);
    CommaDetected(text);
  }

  /** A byte order mark in front, as spreadsheets write, changes nothing. */
  lemma BomIgnored(text: string)
    requires text == "" || text[0] != BOM
    ensures Parse([BOM] + text) == Parse(text)
  {
    assert ([BOM] + text)[1..] == text;
  }

  // ---- Identifier-like headers always qualify ----

  predicate IdentifierChar(c: char) {
    'a' <= c <= 'z' || 'A' <= c <= 'Z' || '0' <= c <= '9' || c == '_'
  }

  predicate IdentifierLike(s: string) {
    s != "" && forall i :: 0 <= i < |s| ==> IdentifierChar(s[i])
  }

  lemma {:induction false} IdentifierRow(row: Row)
    requires forall i :: 0 <= i < |row| ==> IdentifierLike(row[i])
    ensures forall i :: 0 <= i < |JoinCells(row)| ==> JoinCells(row)[i] == ',' || IdentifierChar(JoinCells(row)[i])
  {
    if |row| >= 1 {
      assert EscapeCell(row[0]) == row[0];
    }
    if |row| > 1 {
      IdentifierRow(row[1..]);
    }
  }

  lemma {:induction false} FirstLineOf(line: string, rest: string)
    requires '\n' !in line && '\r' !in line
    requires rest == "" || "\r\n" <= rest
    ensures FirstLine(line + rest) == line
  {
    if line != "" {
      assert (line + rest)[1..] == line[1..] + rest;
      FirstLineOf(line[1..], rest);
    }
  }

  lemma {:induction false} CountZero(line: string, d: char)
    requires d !in line
    ensures Count(line, d) == 0
  {
    if line != "" { CountZero(line[1..], d); }
  }

  lemma IdentifiersLetCommaWin(headers: Row, rows: seq<Row>)
    requires forall i :: 0 <= i < |headers| ==> IdentifierLike(headers[i])
    ensures CommaWins(ToCsv(headers, rows))
  {
    var line := JoinCells(headers);
    var rest := if rows == [] then "" else "\r\n" + JoinRows(rows);
    assert ([headers] + rows)[1..] == rows;
    assert ToCsv(headers, rows) == line + rest;
    IdentifierRow(headers);
    FirstLineOf(line, rest);
    forall d | d in DELIMITERS ensures Count(line, d) <= Count(line, ',') {
      if d != ',' { CountZero(line, d); }
    }
  }

  /** The headers CSVUploader accepts always qualify. */
  lemma IdentifierHeadersRoundTrip(headers: Row, rows: seq<Row>)
    requires headers != [] && forall i :: 0 <= i < |headers| ==> IdentifierLike(headers[i])
    requires forall i :: 0 <= i < |rows| ==> !Blank(rows[i])
    ensures Parse(ToCsv(headers, rows)) == Parsed(headers, rows, ',')
  {
    forall i | 0 <= i < |headers| ensures Trim(headers[i]) == headers[i] && headers[i] != "" {}
    IdentifiersLetCommaWin(headers, rows);
    RoundTrip(headers, rows);
  }
}
