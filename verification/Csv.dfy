/**
 The hand-written CSV scanner of the customer import. Text is a sequence of UTF-16 code
 units. The scanner is proved to accept exactly the texts of a grammar in the style of
 section 2 of RFC 4180, within its size limits, and to return the rows of that grammar.
 */
module Csv {
  import opened Core

  type Text = seq<CodeUnit>

  const LF: CodeUnit := 10
  const CR: CodeUnit := 13
  const QUOTE: CodeUnit := 34
  const COMMA: CodeUnit := 44

  const MAX_ROWS: nat := 10_000
  const MAX_FIELD: nat := 4096
  const ALLOWED_HEADERS: nat := 9

  datatype Error = InvalidCsv | RowLimit

  datatype Parsed = Rows(rows: seq<seq<Text>>) | Failed(error: Error)

  /** The scanner's variables. */
  datatype Scanner = Scanner(
    rows: seq<seq<Text>>, fields: seq<Text>, field: Text, quoted: bool, quoteClosed: bool, rowHasValue: bool)

  const Start: Scanner := Scanner([], [], [], false, false, false)

  predicate Separates(c: CodeUnit) { c == COMMA || c == CR || c == LF }

  function EndField(s: Scanner): Scanner {
    s.(fields := s.fields + [s.field], field := [], quoteClosed := false, rowHasValue := true)
  }

  function EndRow(s: Scanner): Scanner {
    var fields := s.fields + [s.field];
    var keep := s.rowHasValue || exists i :: 0 <= i < |fields| && |fields[i]| > 0;
    Scanner(if keep then s.rows + [fields] else s.rows, [], [], s.quoted, false, false)
  }

  function Finish(s: Scanner): Parsed {
    if s.quoted then Failed(InvalidCsv)
    else if s.rowHasValue || |s.field| > 0 || |s.fields| > 0 then Rows(s.rows + [s.fields + [s.field]])
    else Rows(s.rows)
  }

  /** What a line break leaves of the text: a carriage return takes a following line feed with it. */
  function AfterBreak(t: Text): Text
    requires t != []
  {
    if t[0] == CR && |t| > 1 && t[1] == LF then t[2..] else t[1..]
  }

  /** Scans the rest of the text from a given state. */
  function Scan(s: Scanner, t: Text): Parsed
    decreases |t|
  {
    if t == [] then Finish(s)
    else if |s.field| > MAX_FIELD || |s.fields| > ALLOWED_HEADERS then Failed(InvalidCsv)
    else
      var c := t[0];
      if s.quoted then
        if c != QUOTE then Scan(s.(field := s.field + [c]), t[1..])
        else if |t| > 1 && t[1] == QUOTE then Scan(s.(field := s.field + [QUOTE]), t[2..])
        else Scan(s.(quoted := false, quoteClosed := true), t[1..])
      else if s.quoteClosed && !Separates(c) then Failed(InvalidCsv)
      else if c == QUOTE then
        if |s.field| != 0 then Failed(InvalidCsv)
        else Scan(s.(quoted := true, rowHasValue := true), t[1..])
      else if c == COMMA then Scan(EndField(s), t[1..])
      else if c == CR || c == LF then
        var next := EndRow(s);
        if |next.rows| > MAX_ROWS + 1 then Failed(RowLimit) else Scan(next, AfterBreak(t))
      else Scan(s.(field := s.field + [c], rowHasValue := true), t[1..])
  }

  /** The scanner as the source runs it: one index over the text and six variables. */
  method Parse(text: Text) returns (r: Parsed)
    ensures r == Scan(Start, text)
  {
    hide EndRow, EndField, AfterBreak, Finish;
    var s := Start;
    var index := 0;
    while index < |text|
      invariant 0 <= index <= |text|
      invariant Scan(s, text[index..]) == Scan(Start, text)
      decreases |text| - index
    {
      var current := text[index];
      SuffixAt(text, index);
      if |s.field| > MAX_FIELD || |s.fields| > ALLOWED_HEADERS {
        return Failed(InvalidCsv);
      }
      if s.quoted {
        if current == QUOTE {
          if index + 1 < |text| && text[index + 1] == QUOTE {
            s := s.(field := s.field + [QUOTE]);
            index := index + 1;
          } else {
            s := s.(quoted := false, quoteClosed := true);
          }
        } else {
          s := s.(field := s.field + [current]);
        }
      } else if s.quoteClosed && !Separates(current) {
        return Failed(InvalidCsv);
      } else if current == QUOTE {
        if |s.field| != 0 {
          return Failed(InvalidCsv);
        }
        s := s.(quoted := true, rowHasValue := true);
      } else if current == COMMA {
        s := EndField(s);
      } else if current == CR || current == LF {
        if current == CR && index + 1 < |text| && text[index + 1] == LF {
          index := index + 1;
        }
        s := EndRow(s);
        if |s.rows| > MAX_ROWS + 1 {
          return Failed(RowLimit);
        }
      } else {
        s := s.(field := s.field + [current], rowHasValue := true);
      }
      index := index + 1;
    }
    assert text[index..] == [];
    r := Finish(s);
  }

  lemma SuffixAt(text: Text, i: nat)
    requires i < |text|
    ensures var t := text[i..];
            t != [] && t[0] == text[i] && t[1..] == text[i + 1..] &&
            (i + 1 < |text| <==> |t| > 1) &&
            (i + 1 < |text| ==> t[1] == text[i + 1] && t[2..] == text[i + 2..]) &&
            AfterBreak(t) == if t[0] == CR && i + 1 < |text| && text[i + 1] == LF
                             then text[i + 2..] else text[i + 1..]
  {
  }

  // ------------------------------------------------------------ the grammar

  /** One field as written: between quotes, or bare. */
  datatype Cell = Cell(value: Text, quoted: bool)

  datatype Break = CrLf | LfOnly | CrOnly

  datatype Line = Line(cells: seq<Cell>, ending: Break)

  /** Terminated lines, then the cells of a last line without a terminator. */
  datatype Document = Document(lines: seq<Line>, tail: seq<Cell>)

  function Escape(v: Text): Text {
    if v == [] then [] else (if v[0] == QUOTE then [QUOTE, QUOTE] else [v[0]]) + Escape(v[1..])
  }

  function WriteCell(c: Cell): Text {
    if c.quoted then [QUOTE] + Escape(c.value) + [QUOTE] else c.value
  }

  function WriteCells(cells: seq<Cell>): Text {
    if cells == [] then []
    else if |cells| == 1 then WriteCell(cells[0])
    else WriteCells(cells[..|cells| - 1]) + [COMMA] + WriteCell(cells[|cells| - 1])
  }

  function WriteBreak(b: Break): Text {
    match b
    case CrLf => [CR, LF]
    case LfOnly => [LF]
    case CrOnly => [CR]
  }

  function Write(d: Document): Text
    decreases |d.lines|
  {
    if d.lines == [] then WriteCells(d.tail)
    else WriteCells(d.lines[0].cells) + WriteBreak(d.lines[0].ending) + Write(d.(lines := d.lines[1..]))
  }

  function Values(cells: seq<Cell>): seq<Text> {
    seq(|cells|, i requires 0 <= i < |cells| => cells[i].value)
  }

  /** A line holding nothing at all carries no row. */
  predicate Blank(cells: seq<Cell>) { cells == [Cell([], false)] }

  function RowsOf(cells: seq<Cell>): seq<seq<Text>> {
    if Blank(cells) then [] else [Values(cells)]
  }

  function DocumentRows(d: Document): seq<seq<Text>>
    decreases |d.lines|
  {
    if d.lines == [] then RowsOf(d.tail)
    else RowsOf(d.lines[0].cells) + DocumentRows(d.(lines := d.lines[1..]))
  }

  predicate Plain(v: Text) { forall i :: 0 <= i < |v| ==> v[i] != QUOTE && !Separates(v[i]) }

  /** A bare cell holds no quote, comma or line break. */
  predicate Writable(c: Cell) { !c.quoted ==> Plain(c.value) }

  predicate CellFits(c: Cell) { Writable(c) && |c.value| <= MAX_FIELD }

  predicate CellsFit(cells: seq<Cell>) { forall i :: 0 <= i < |cells| ==> CellFits(cells[i]) }

  predicate LineFits(cells: seq<Cell>) {
    1 <= |cells| <= ALLOWED_HEADERS + 1 && CellsFit(cells)
  }

  /** The limits are read before each code unit, so the last field of the text escapes by one. */
  predicate TailFits(cells: seq<Cell>) {
    && 1 <= |cells|
    && var last := cells[|cells| - 1];
    && CellsFit(cells[..|cells| - 1])
    && Writable(last)
    && |last.value| <= (if last.quoted then MAX_FIELD else MAX_FIELD + 1)
    && |cells| <= (if Blank([last]) then ALLOWED_HEADERS + 2 else ALLOWED_HEADERS + 1)
  }

  predicate AllLinesFit(lines: seq<Line>) {
    forall i :: 0 <= i < |lines| ==> LineFits(lines[i].cells)
  }

  function LineRows(lines: seq<Line>): seq<seq<Text>> {
    DocumentRows(Document(lines, [Cell([], false)]))
  }

  predicate WithinLimits(d: Document, before: nat) {
    && AllLinesFit(d.lines)
    && TailFits(d.tail)
    && before + |LineRows(d.lines)| <= MAX_ROWS + 1
  }

  // ------------------------------------- every written document is read back

  lemma {:induction false} ScanQuoted(s: Scanner, v: Text, rest: Text)
    requires s.quoted && |s.fields| <= ALLOWED_HEADERS && |s.field| + |v| <= MAX_FIELD
    requires rest == [] || rest[0] != QUOTE
    ensures Scan(s, Escape(v) + [QUOTE] + rest)
         == Scan(s.(field := s.field + v, quoted := false, quoteClosed := true), rest)
    decreases |v|
  {
    hide EndRow, EndField, Finish, AfterBreak;
    var t := Escape(v) + [QUOTE] + rest;
    if v == [] {
      assert t[1..] == rest && s.field + v == s.field;
    } else {
      var next := s.(field := s.field + [v[0]]);
      assert next.field + v[1..] == s.field + v;
      assert t[if v[0] == QUOTE then 2 else 1..] == Escape(v[1..]) + [QUOTE] + rest;
      ScanQuoted(next, v[1..], rest);
    }
  }

  lemma {:induction false} ScanBare(s: Scanner, v: Text, rest: Text)
    requires !s.quoted && !s.quoteClosed && |s.fields| <= ALLOWED_HEADERS
    requires |s.field| + |v| <= MAX_FIELD + 1 && Plain(v)
    ensures Scan(s, v + rest) == Scan(s.(field := s.field + v, rowHasValue := s.rowHasValue || v != []), rest)
    decreases |v|
  {
    hide EndRow, EndField, Finish, AfterBreak;
    if v == [] {
      assert v + rest == rest && s.field + v == s.field;
    } else {
      var next := s.(field := s.field + [v[0]], rowHasValue := true);
      assert next.field + v[1..] == s.field + v;
      assert (v + rest)[1..] == v[1..] + rest;
      ScanBare(next, v[1..], rest);
    }
  }

  /** The scanner between two fields of a row. */
  predicate AtFieldStart(s: Scanner) { !s.quoted && !s.quoteClosed && s.field == [] }

  predicate Stops(rest: Text) { rest == [] || Separates(rest[0]) }

  function AfterCell(s: Scanner, c: Cell): Scanner {
    s.(field := c.value, quoteClosed := c.quoted, rowHasValue := s.rowHasValue || c.quoted || c.value != [])
  }

  lemma ScanCell(s: Scanner, c: Cell, rest: Text)
    requires AtFieldStart(s) && |s.fields| <= ALLOWED_HEADERS && Stops(rest)
    requires Writable(c) && |c.value| <= (if c.quoted then MAX_FIELD else MAX_FIELD + 1)
    ensures Scan(s, WriteCell(c) + rest) == Scan(AfterCell(s, c), rest)
  {
    hide EndRow, EndField, Finish, AfterBreak;
    assert [] + c.value == c.value;
    if c.quoted {
      var body := Escape(c.value) + [QUOTE] + rest;
      assert WriteCell(c) + rest == [QUOTE] + body;
      assert ([QUOTE] + body)[1..] == body;
      ScanQuoted(s.(quoted := true, rowHasValue := true), c.value, rest);
    } else {
      ScanBare(s, c.value, rest);
    }
  }

  /** The scanner at the end of a row's cells, from the row's start. */
  function AfterCells(s: Scanner, cells: seq<Cell>): Scanner
    requires cells != []
  {
    var n := |cells| - 1;
    s.(fields := Values(cells[..n]), field := cells[n].value, quoteClosed := cells[n].quoted,
       rowHasValue := !Blank(cells))
  }

  predicate AtRowStart(s: Scanner) { AtFieldStart(s) && s.fields == [] && !s.rowHasValue }

  lemma {:induction false} ScanCells(s: Scanner, cells: seq<Cell>, rest: Text)
    requires AtRowStart(s) && TailFits(cells) && Stops(rest)
    requires Blank([cells[|cells| - 1]]) && |cells| == ALLOWED_HEADERS + 2 ==> rest == []
    ensures Scan(s, WriteCells(cells) + rest) == Scan(AfterCells(s, cells), rest)
    decreases |cells|
  {
    hide EndRow, Finish, AfterBreak, WriteCell;
    var n := |cells| - 1;
    if n == 0 {
      ScanCell(s, cells[0], rest);
      assert AfterCells(s, cells).fields == s.fields;
    } else {
      var init, last := cells[..n], cells[n];
      var more := [COMMA] + (WriteCell(last) + rest);
      assert WriteCells(cells) + rest == WriteCells(init) + more;
      assert CellFits(init[n - 1]) && CellsFit(init[..n - 1]);
      ScanCells(s, init, more);
      var mid := AfterCells(s, init);
      assert more[1..] == WriteCell(last) + rest;
      assert EndField(mid).fields == Values(init);
      assert Scan(mid, more) == Scan(EndField(mid), WriteCell(last) + rest) by {
        assert CellFits(init[n - 1]) && |mid.fields| == n - 1;
      }
      assert AfterCell(EndField(mid), last) == AfterCells(s, cells);
      if |cells| == ALLOWED_HEADERS + 2 {
        assert WriteCell(last) + rest == rest by { BlankWritesNothing(last); }
      } else {
        ScanCell(EndField(mid), last, rest);
      }
    }
  }

  lemma BlankWritesNothing(c: Cell)
    requires Blank([c])
    ensures WriteCell(c) == []
  {
    assert [c][0] == Cell([], false);
  }

  lemma RowEnds(s: Scanner, cells: seq<Cell>)
    requires AtRowStart(s) && cells != []
    ensures EndRow(AfterCells(s, cells)) == s.(rows := s.rows + RowsOf(cells))
    ensures Finish(AfterCells(s, cells)) == Rows(s.rows + RowsOf(cells))
  {
    var n := |cells| - 1;
    assert Values(cells[..n]) + [cells[n].value] == Values(cells);
    if Blank(cells) {
      assert s.rows + [] == s.rows;
      assert AfterCells(s, cells).fields == [] && cells[n].value == [];
    }
  }

  lemma FitsAsTail(cells: seq<Cell>)
    requires LineFits(cells)
    ensures TailFits(cells) && |cells| < ALLOWED_HEADERS + 2
  {
    assert CellFits(cells[|cells| - 1]);
  }

  lemma BreakSeparates(b: Break, rest: Text)
    ensures var t := WriteBreak(b) + rest;
            Stops(t) && t != [] && (t[0] == CR || t[0] == LF) &&
            AfterBreak(t) == if b == CrOnly && rest != [] && rest[0] == LF then rest[1..] else rest
  {
    var t := WriteBreak(b) + rest;
    if b == CrLf {
      assert t[2..] == rest;
    } else {
      assert t[1..] == rest;
      if b == CrOnly && rest != [] && rest[0] == LF {
        assert t[2..] == rest[1..];
      }
    }
  }

  /** One terminated line, scanned up to what its terminator leaves. */
  lemma ScanLine(s: Scanner, line: Line, rest: Text)
    requires AtRowStart(s) && LineFits(line.cells)
    requires |s.rows| + |RowsOf(line.cells)| <= MAX_ROWS + 1
    ensures Scan(s, WriteCells(line.cells) + WriteBreak(line.ending) + rest)
         == Scan(s.(rows := s.rows + RowsOf(line.cells)), AfterBreak(WriteBreak(line.ending) + rest))
  {
    hide EndField, WriteCells, WriteCell, Finish, EndRow;
    var t := WriteBreak(line.ending) + rest;
    BreakSeparates(line.ending, rest);
    FitsAsTail(line.cells);
    assert WriteCells(line.cells) + WriteBreak(line.ending) + rest == WriteCells(line.cells) + t;
    ScanCells(s, line.cells, t);
    var n := |line.cells| - 1;
    assert CellFits(line.cells[n]) && |Values(line.cells[..n])| == n;
    RowEnds(s, line.cells);
  }

  lemma {:induction false} LinesThenTail(lines: seq<Line>, tail: seq<Cell>)
    ensures DocumentRows(Document(lines, tail)) == LineRows(lines) + RowsOf(tail)
  {
    if lines != [] {
      LinesThenTail(lines[1..], tail);
    }
  }

  /** A document whose text starts with a line feed starts with an empty line. */
  lemma LeadingLineFeed(d: Document)
    requires AllLinesFit(d.lines) && TailFits(d.tail)
    requires Write(d) != [] && Write(d)[0] == LF
    ensures d.lines != [] && Blank(d.lines[0].cells) && d.lines[0].ending == LfOnly
    ensures Write(d)[1..] == Write(d.(lines := d.lines[1..]))
  {
    var cells := if d.lines == [] then d.tail else d.lines[0].cells;
    if d.lines != [] { FitsAsTail(cells); }
    assert WriteCells(cells) != [] ==> Write(d)[0] == WriteCells(cells)[0];
    if WriteCells(cells) != [] {
      CellsStartSafely(cells);
    } else {
      NothingWritten(cells);
    }
  }

  lemma {:induction false} CellsStartSafely(cells: seq<Cell>)
    requires TailFits(cells) && WriteCells(cells) != []
    ensures WriteCells(cells)[0] != LF && WriteCells(cells)[0] != CR
    decreases |cells|
  {
    var n := |cells| - 1;
    if n > 0 {
      var init := cells[..n];
      if WriteCells(init) != [] {
        assert CellFits(init[n - 1]) && CellsFit(init[..n - 1]);
        CellsStartSafely(init);
      }
    }
  }

  lemma NothingWritten(cells: seq<Cell>)
    requires cells != [] && WriteCells(cells) == []
    ensures Blank(cells)
  {
    var n := |cells| - 1;
    assert n > 0 ==> |WriteCells(cells)| > 0;
    assert n == 0 ==> cells == [cells[0]];
  }

  lemma {:induction false} ScanDocument(s: Scanner, d: Document)
    requires AtRowStart(s) && WithinLimits(d, |s.rows|)
    ensures Scan(s, Write(d)) == Rows(s.rows + DocumentRows(d))
    decreases |d.lines|
  {
    hide Scan, EndRow, Finish, WriteCells, WriteBreak, AfterBreak, LineFits, TailFits;
    if d.lines == [] {
      assert Write(d) == WriteCells(d.tail) + [];
      assert d.tail != [] by { TailNotEmpty(d.tail); }
      ScanCells(s, d.tail, []);
      RowEnds(s, d.tail);
      ScanNothing(AfterCells(s, d.tail));
    } else {
      var line, rest := d.lines[0], d.(lines := d.lines[1..]);
      var next := s.(rows := s.rows + RowsOf(line.cells));
      assert LineRows(d.lines) == RowsOf(line.cells) + LineRows(rest.lines);
      ScanLine(s, line, Write(rest));
      assert next.rows + DocumentRows(rest) == s.rows + DocumentRows(d);
      BreakSeparates(line.ending, Write(rest));
      if line.ending == CrOnly && Write(rest) != [] && Write(rest)[0] == LF {
        // The two terminators read as one; the empty line between them carries no row.
        LeadingLineFeed(rest);
        var after := rest.(lines := rest.lines[1..]);
        assert DocumentRows(rest) == DocumentRows(after);
        assert LineRows(rest.lines) == LineRows(after.lines);
        ScanDocument(next, after);
      } else {
        ScanDocument(next, rest);
      }
    }
  }

  lemma TailNotEmpty(cells: seq<Cell>)
    requires TailFits(cells)
    ensures cells != []
  {
  }

  lemma ScanNothing(s: Scanner)
    ensures Scan(s, []) == Finish(s)
  {
  }

  // ------------------------------------ everything accepted is a document

  /** Where the scanner stands inside the current field. */
  datatype Position = InBare(value: Text) | InQuotes(value: Text) | Closed(value: Text)

  function WritePartial(p: Position): Text {
    match p
    case InBare(v) => v
    case InQuotes(v) => [QUOTE] + Escape(v)
    case Closed(v) => [QUOTE] + Escape(v) + [QUOTE]
  }

  function WritePrefix(cells: seq<Cell>, p: Position): Text {
    if cells == [] then WritePartial(p) else WriteCells(cells) + [COMMA] + WritePartial(p)
  }

  /** The scanner's variables describe the cells read so far in the current row. */
  predicate Tracks(s: Scanner, cells: seq<Cell>, p: Position) {
    && s.fields == Values(cells)
    && s.field == p.value
    && s.quoted == p.InQuotes?
    && s.quoteClosed == p.Closed?
    && s.rowHasValue == (cells != [] || p != InBare([]))
    && CellsFit(cells)
    && (p.InBare? ==> Plain(p.value))
    && |p.value| <= (if p.Closed? then MAX_FIELD else MAX_FIELD + 1)
    && |cells| <= (if p == InBare([]) then ALLOWED_HEADERS + 1 else ALLOWED_HEADERS)
  }

  function CellAt(p: Position): Cell { Cell(p.value, p.Closed?) }

  lemma {:induction false} EscapeAppend(v: Text, c: CodeUnit)
    ensures Escape(v + [c]) == Escape(v) + if c == QUOTE then [QUOTE, QUOTE] else [c]
  {
    if v != [] {
      EscapeAppend(v[1..], c);
      assert (v + [c])[1..] == v[1..] + [c];
    }
  }

  lemma EscapeNothing()
    ensures Escape([]) == []
  {
  }

  lemma PrefixEnds(cells: seq<Cell>, p: Position)
    requires !p.InQuotes?
    ensures WriteCells(cells + [CellAt(p)]) == WritePrefix(cells, p)
  {
    var all := cells + [CellAt(p)];
    assert all[..|cells|] == cells;
  }

  lemma {:induction false} Move(cells: seq<Cell>, p: Position, q: Position, step: Text)
    requires WritePartial(q) == WritePartial(p) + step
    ensures WritePrefix(cells, q) == WritePrefix(cells, p) + step
  {
  }

  /** The document that an accepted text writes, rebuilt by following the scanner. */
  lemma {:induction false} Recognise(s: Scanner, cells: seq<Cell>, p: Position, t: Text) returns (d: Document)
    requires Tracks(s, cells, p) && |s.rows| <= MAX_ROWS + 1
    requires Scan(s, t).Rows?
    ensures WithinLimits(d, |s.rows|)
    ensures Write(d) == WritePrefix(cells, p) + t
    ensures Scan(s, t).rows == s.rows + DocumentRows(d)
    decreases |t|
  {
    hide WithinLimits, Write, WritePrefix, DocumentRows, EndRow, Finish;
    if t == [] {
      d := RecogniseEnd(s, cells, p);
    } else if s.quoted || !Separates(t[0]) {
      var q, n := StepInside(s, cells, p, t);
      assert t == t[..n] + t[n..];
      assert WritePrefix(cells, p) + t == WritePrefix(cells, q) + t[n..];
      d := Recognise(s.(field := q.value, quoted := q.InQuotes?, quoteClosed := q.Closed?, rowHasValue := true),
                     cells, q, t[n..]);
    } else if t[0] == COMMA {
      var more := cells + [CellAt(p)];
      CommaTracks(s, cells, p, t[1..]);
      d := Recognise(EndField(s), more, InBare([]), t[1..]);
      assert t == [COMMA] + t[1..];
    } else {
      d := RecogniseBreak(s, cells, p, t);
    }
  }

  lemma StepInside(s: Scanner, cells: seq<Cell>, p: Position, t: Text) returns (q: Position, n: nat)
    requires Tracks(s, cells, p) && t != [] && (s.quoted || !Separates(t[0]))
    requires Scan(s, t).Rows?
    ensures 1 <= n <= |t|
    ensures WritePrefix(cells, q) == WritePrefix(cells, p) + t[..n]
    ensures var next := s.(field := q.value, quoted := q.InQuotes?, quoteClosed := q.Closed?, rowHasValue := true);
            Tracks(next, cells, q) && Scan(s, t) == Scan(next, t[n..])
  {
    hide WritePrefix, EndRow, Finish, EndField, AfterBreak, CellsFit, Escape;
    var c := t[0];
    assert Escape([]) == [] by { EscapeNothing(); }
    EscapeAppend(p.value, c);
    assert t[..1] == [c];
    n := 1;
    if s.quoted {
      if c != QUOTE {
        q := InQuotes(p.value + [c]);
      } else if |t| > 1 && t[1] == QUOTE {
        q := InQuotes(p.value + [QUOTE]);
        n := 2;
        assert t[..2] == [QUOTE, QUOTE];
      } else {
        q := Closed(p.value);
      }
    } else if c == QUOTE {
      q := InQuotes([]);
    } else {
      q := InBare(p.value + [c]);
    }
    Move(cells, p, q, t[..n]);
  }

  lemma CommaTracks(s: Scanner, cells: seq<Cell>, p: Position, rest: Text)
    requires Tracks(s, cells, p) && !s.quoted
    requires |s.field| <= MAX_FIELD && |s.fields| <= ALLOWED_HEADERS
    ensures Tracks(EndField(s), cells + [CellAt(p)], InBare([]))
    ensures WritePrefix(cells + [CellAt(p)], InBare([])) + rest == WritePrefix(cells, p) + ([COMMA] + rest)
  {
    hide WriteCells;
    PrefixEnds(cells, p);
    assert Values(cells + [CellAt(p)]) == Values(cells) + [p.value];
  }

  lemma TrackedRow(s: Scanner, cells: seq<Cell>, p: Position) returns (row: seq<Cell>)
    requires Tracks(s, cells, p) && !s.quoted
    ensures row == cells + [CellAt(p)] && row != []
    ensures TailFits(row) && Blank(row) == (cells == [] && p == InBare([]))
    ensures s.fields + [s.field] == Values(row)
    ensures s.rowHasValue == !Blank(row)
    ensures WriteCells(row) == WritePrefix(cells, p)
  {
    row := cells + [CellAt(p)];
    PrefixEnds(cells, p);
    assert row[..|cells|] == cells && row[|cells|] == CellAt(p);
    assert Values(row) == Values(cells) + [p.value];
    assert Blank([CellAt(p)]) <==> p == InBare([]) by { assert [CellAt(p)][0] == CellAt(p); }
    if Blank(row) {
      assert row[0] == Cell([], false);
    }
  }

  lemma RecogniseEnd(s: Scanner, cells: seq<Cell>, p: Position) returns (d: Document)
    requires Tracks(s, cells, p) && |s.rows| <= MAX_ROWS + 1 && Finish(s).Rows?
    ensures WithinLimits(d, |s.rows|)
    ensures Write(d) == WritePrefix(cells, p) + []
    ensures Finish(s).rows == s.rows + DocumentRows(d)
  {
    hide WriteCells, WritePrefix, TailFits, Finish, Values, Tracks, RowsOf, Blank;
    FinishedUnquoted(s);
    var row := TrackedRow(s, cells, p);
    d := Document([], row);
    FinishedRow(s, row);
    NoLineRows();
    assert WritePrefix(cells, p) + [] == WritePrefix(cells, p);
  }

  lemma NoLineRows()
    ensures LineRows([]) == []
  {
    assert Blank([Cell([], false)]);
  }

  lemma FinishedUnquoted(s: Scanner)
    requires Finish(s).Rows?
    ensures !s.quoted
  {
  }

  lemma FinishedRow(s: Scanner, row: seq<Cell>)
    requires row != [] && !s.quoted && s.fields + [s.field] == Values(row) && s.rowHasValue == !Blank(row)
    ensures Finish(s) == Rows(s.rows + RowsOf(row))
  {
    if Blank(row) {
      assert (s.fields + [s.field])[|s.fields|] == s.field;
      assert s.rows + [] == s.rows;
    }
  }

  function BreakAt(t: Text): Break
    requires t != []
  {
    if t[0] == LF then LfOnly else if |t| > 1 && t[1] == LF then CrLf else CrOnly
  }

  lemma BreakWritten(t: Text)
    requires t != [] && (t[0] == CR || t[0] == LF)
    ensures WriteBreak(BreakAt(t)) + AfterBreak(t) == t
    ensures |AfterBreak(t)| < |t|
  {
  }

  /** What a line break does to the tracked row. */
  lemma BreakTracks(s: Scanner, cells: seq<Cell>, p: Position) returns (row: seq<Cell>)
    requires Tracks(s, cells, p) && !s.quoted && |s.field| <= MAX_FIELD && |s.fields| <= ALLOWED_HEADERS
    ensures LineFits(row) && WriteCells(row) == WritePrefix(cells, p)
    ensures Tracks(EndRow(s), [], InBare([]))
    ensures EndRow(s).rows == s.rows + RowsOf(row)
  {
    hide WriteCells, WritePrefix;
    row := TrackedRow(s, cells, p);
    assert forall i :: 0 <= i < |row| ==> CellFits(row[i]);
    if Blank(row) {
      assert s.fields == [] && s.field == [];
      assert s.rows + [] == s.rows;
    }
  }

  lemma RecogniseBreak(s: Scanner, cells: seq<Cell>, p: Position, t: Text) returns (d: Document)
    requires Tracks(s, cells, p) && |s.rows| <= MAX_ROWS + 1
    requires t != [] && !s.quoted && (t[0] == CR || t[0] == LF)
    requires Scan(s, t).Rows?
    ensures WithinLimits(d, |s.rows|)
    ensures Write(d) == WritePrefix(cells, p) + t
    ensures Scan(s, t).rows == s.rows + DocumentRows(d)
    decreases |t|, 0
  {
    hide WriteCells, WritePrefix, TailFits, LineFits, Finish, EndField, EndRow, AfterBreak, WriteBreak, BreakAt, Write,
         WithinLimits, DocumentRows, RowsOf;
    var row := BreakTracks(s, cells, p);
    var line := Line(row, BreakAt(t));
    BreakWritten(t);
    var later := Recognise(EndRow(s), [], InBare([]), AfterBreak(t));
    EmptyPrefix();
    assert [] + AfterBreak(t) == AfterBreak(t);
    d := Prepend(line, later);
    PrependMeans(line, later, |s.rows|);
    Reassociate(WriteCells(row), WriteBreak(line.ending), AfterBreak(t));
    Reassociate(s.rows, RowsOf(row), DocumentRows(later));
  }

  lemma Reassociate<T>(a: seq<T>, b: seq<T>, c: seq<T>)
    ensures a + b + c == a + (b + c)
  {
  }

  lemma EmptyPrefix()
    ensures WritePrefix([], InBare([])) == []
  {
  }

  function Prepend(line: Line, d: Document): Document {
    d.(lines := [line] + d.lines)
  }

  lemma PrependMeans(line: Line, d: Document, before: nat)
    ensures Write(Prepend(line, d)) == WriteCells(line.cells) + WriteBreak(line.ending) + Write(d)
    ensures DocumentRows(Prepend(line, d)) == RowsOf(line.cells) + DocumentRows(d)
    ensures LineFits(line.cells) && WithinLimits(d, before + |RowsOf(line.cells)|)
            ==> WithinLimits(Prepend(line, d), before)
  {
    hide WriteCells, TailFits, LineFits;
    var all := Prepend(line, d);
    assert all.lines[0] == line && all.lines[1..] == d.lines;
    assert all.(lines := all.lines[1..]) == d;
  }

  // -------------------------------------------------------------- theorems

  /** Reading accepts exactly the texts of documents within the limits, and returns their rows. */
  lemma ParseAcceptsExactlyDocuments(text: Text, rows: seq<seq<Text>>)
    ensures Scan(Start, text) == Rows(rows) <==>
            exists d :: WithinLimits(d, 0) && Write(d) == text && DocumentRows(d) == rows
  {
    hide Scan, Write, DocumentRows, WithinLimits;
    if Scan(Start, text) == Rows(rows) {
      var d := Recognise(Start, [], InBare([]), text);
      EmptyPrefix();
      assert [] + DocumentRows(d) == DocumentRows(d) && [] + text == text;
    }
    forall d | WithinLimits(d, 0) && Write(d) == text && DocumentRows(d) == rows
      ensures Scan(Start, text) == Rows(rows)
    {
      ScanDocument(Start, d);
      assert [] + DocumentRows(d) == DocumentRows(d);
    }
  }

  /** Every field between quotes, inner quotes doubled, every row ended by CR LF. */
  function Printed(rows: seq<seq<Text>>): Document {
    Document(seq(|rows|, i requires 0 <= i < |rows| => Line(QuotedCells(rows[i]), CrLf)), [Cell([], false)])
  }

  function QuotedCells(row: seq<Text>): seq<Cell> {
    seq(|row|, i requires 0 <= i < |row| => Cell(row[i], true))
  }

  predicate RowFits(row: seq<Text>) {
    1 <= |row| <= 10 && forall i :: 0 <= i < |row| ==> |row[i]| <= 4096
  }

  lemma {:induction false} PrintedRows(rows: seq<seq<Text>>)
    requires forall i :: 0 <= i < |rows| ==> RowFits(rows[i])
    ensures DocumentRows(Printed(rows)) == rows
    ensures AllLinesFit(Printed(rows).lines)
    decreases |rows|
  {
    if rows != [] {
      PrintedRows(rows[1..]);
      var d := Printed(rows);
      assert d.lines[1..] == Printed(rows[1..]).lines;
      assert d.(lines := d.lines[1..]) == Printed(rows[1..]);
      var cells := QuotedCells(rows[0]);
      assert !Blank(cells) by { assert cells[0].quoted; }
      assert Values(cells) == rows[0];
      assert rows == [rows[0]] + rows[1..];
    }
  }

  /** Printing then parsing is the identity, whatever the fields hold. */
  lemma PrintThenParse(rows: seq<seq<Text>>)
    requires |rows| <= 10_001
    requires forall i :: 0 <= i < |rows| ==> RowFits(rows[i])
    ensures Scan(Start, Write(Printed(rows))) == Rows(rows)
  {
    hide Scan, Write;
    PrintedRows(rows);
    var d := Printed(rows);
    assert LineRows(d.lines) == rows;
    assert TailFits(d.tail);
    ScanDocument(Start, d);
    assert [] + rows == rows;
  }

  // ------------------------------------------------ where the limits end

  lemma DocumentParses(d: Document)
    requires WithinLimits(d, 0)
    ensures Scan(Start, Write(d)) == Rows(DocumentRows(d))
  {
    ScanDocument(Start, d);
    assert [] + DocumentRows(d) == DocumentRows(d);
  }

  /** A bare text one unit above the field limit is one field, and is refused as soon as anything follows. */
  lemma LastFieldEscapesByOne(v: Text, c: CodeUnit)
    requires |v| == 4097 && Plain(v)
    ensures Scan(Start, v) == Rows([[v]])
    ensures Scan(Start, v + [c]) == Failed(InvalidCsv)
  {
    hide EndRow, EndField, AfterBreak;
    var full := Start.(field := v, rowHasValue := true);
    assert [] + v == v && v + [] == v;
    ScanBare(Start, v, []);
    ScanBare(Start, v, [c]);
    var row: seq<Text> := [v];
    assert full.fields + [v] == row && full.rows + [row] == [row];
  }

  /** Ten fields fit on every line. */
  lemma TenFieldsFit(row: seq<Text>)
    requires |row| == 10 && forall i :: 0 <= i < |row| ==> |row[i]| <= 4096
    ensures Scan(Start, Write(Printed([row]))) == Rows([row])
  {
    assert RowFits(row);
    PrintThenParse([row]);
  }

  /** A comma that ends the text opens an eleventh, empty field. */
  lemma FinalCommaAddsField(row: seq<Text>)
    requires |row| == 10 && forall i :: 0 <= i < |row| ==> |row[i]| <= 4096
    ensures Scan(Start, WriteCells(QuotedCells(row)) + [COMMA]) == Rows([row + [[]]])
  {
    hide Scan;
    var cells := QuotedCells(row) + [Cell([], false)];
    var n := |row|;
    assert cells[..n] == QuotedCells(row) && cells[n] == Cell([], false);
    assert WriteCells(cells) == WriteCells(QuotedCells(row)) + [COMMA] + [];
    assert [cells[n]][0] == Cell([], false);
    assert TailFits(cells);
    assert !Blank(cells) by { assert |cells| > 1; }
    assert Values(cells) == row + [[]];
    NoLineRows();
    var d := Document([], cells);
    DocumentParses(d);
    assert DocumentRows(d) == [row + [[]]];
    assert Write(d) == WriteCells(QuotedCells(row)) + [COMMA];
  }

  /** Rows ended by CR LF, except the last, which is not ended. */
  function PrintedOpen(rows: seq<seq<Text>>): Document
    requires rows != []
  {
    Printed(rows[..|rows| - 1]).(tail := QuotedCells(rows[|rows| - 1]))
  }

  /** The row limit is read at line breaks, so an unterminated row may be the 10,002nd. */
  lemma LastRowEscapesByOne(rows: seq<seq<Text>>)
    requires |rows| == 10_002 && forall i :: 0 <= i < |rows| ==> RowFits(rows[i])
    ensures Scan(Start, Write(PrintedOpen(rows))) == Rows(rows)
  {
    hide Scan, Write, DocumentRows, TailFits, RowFits, LineFits;
    var n := |rows| - 1;
    var init, last := rows[..n], rows[n];
    var d := PrintedOpen(rows);
    PrintedRows(init);
    assert LineRows(d.lines) == init;
    LinesThenTail(d.lines, d.tail);
    QuotedRow(last);
    assert rows == init + [last];
    DocumentParses(d);
  }

  lemma QuotedRow(row: seq<Text>)
    requires RowFits(row)
    ensures TailFits(QuotedCells(row)) && RowsOf(QuotedCells(row)) == [row]
  {
    var cells := QuotedCells(row);
    assert cells[0].quoted;
    assert Values(cells) == row;
    assert CellFits(cells[|cells| - 1]);
  }
}
