/** `parseCsv` of the tenant import against the two CSV printers of the exports. */
module Csv {
  import opened Sequences
  import opened Wrappers

  type Grid = seq<seq<string>>

  const QUOTE := '"'

  // -- The parser ----------------------------------------------------------------------------------

  datatype Parser = Parser(rows: Grid, row: seq<string>, cell: string, inQuotes: bool)

  const START := Parser([], [], "", false)

  function PushCell(p: Parser): Parser {
    p.(row := p.row + [p.cell], cell := "")
  }

  function PushRow(p: Parser): Parser {
    var q := PushCell(p);
    q.(rows := q.rows + [q.row], row := [])
  }

  function AddChar(p: Parser, c: char): Parser {
    p.(cell := p.cell + [c])
  }

  function Flush(p: Parser): Grid {
    if |p.cell| > 0 || |p.row| > 0 then PushRow(p).rows else p.rows
  }

  /** The rows that the parser in state `p` delivers for the remaining input `s`. */
  function ParseFrom(s: string, p: Parser): Grid
    decreases |s|
  {
    if s == [] then Flush(p)
    else if p.inQuotes then
      if s[0] == QUOTE then
        if |s| > 1 && s[1] == QUOTE then ParseFrom(s[2..], AddChar(p, QUOTE))
        else ParseFrom(s[1..], p.(inQuotes := false))
      else ParseFrom(s[1..], AddChar(p, s[0]))
    else if s[0] == QUOTE then ParseFrom(s[1..], p.(inQuotes := true))
    else if s[0] == ',' then ParseFrom(s[1..], PushCell(p))
    else if s[0] == '\r' then ParseFrom(s[1..], p)
    else if s[0] == '\n' then ParseFrom(s[1..], PushRow(p))
    else ParseFrom(s[1..], AddChar(p, s[0]))
  }

  function Parse(s: string): Grid {
    ParseFrom(s, START)
  }

  method ParseCsv(input: string) returns (rows: Grid)
    ensures rows == Parse(input)
  {
    rows := [];
    var row: seq<string> := [];
    var cell := "";
    var inQuotes := false;
    var i := 0;
    while i < |input|
      invariant 0 <= i <= |input|
      invariant ParseFrom(input[i..], Parser(rows, row, cell, inQuotes)) == Parse(input)
      decreases |input| - i
    {
      var ch := input[i];
      ghost var rest := input[i..];
      assert rest[0] == ch && rest[1..] == input[i + 1..];
      if inQuotes {
        if ch == QUOTE {
          if i + 1 < |input| && input[i + 1] == QUOTE {
            assert rest[2..] == input[i + 2..];
            cell := cell + [QUOTE];
            i := i + 2;
            continue;
          }
          inQuotes := false;
          i := i + 1;
          continue;
        }
        cell := cell + [ch];
        i := i + 1;
        continue;
      }
      if ch == QUOTE {
        inQuotes := true;
      } else if ch == ',' {
        row := row + [cell];
        cell := "";
      } else if ch == '\r' {
      } else if ch == '\n' {
        row := row + [cell];
        rows := rows + [row];
        row := [];
        cell := "";
      } else {
        cell := cell + [ch];
      }
      i := i + 1;
    }
    if |cell| > 0 || |row| > 0 {
      row := row + [cell];
      rows := rows + [row];
    }
  }

  lemma ConcatEmpty(s: string)
    ensures "" + s == s && s + "" == s
  {
  }

  lemma Behind(c: char, rest: string)
    ensures ([c] + rest)[0] == c && ([c] + rest)[1..] == rest
  {
  }

  // -- Printed cells -------------------------------------------------------------------------------

  function Doubled(s: string): string {
    if s == [] then [] else (if s[0] == QUOTE then [QUOTE, QUOTE] else [s[0]]) + Doubled(s[1..])
  }

  /** A cell as printed, in quotes or bare. */
  function PrintCell(s: string, quoted: bool): string {
    if quoted then [QUOTE] + Doubled(s) + [QUOTE] else s
  }

  predicate Bare(s: string) {
    forall c :: c in s ==> c != QUOTE && c != ',' && c != '\n'
  }

  function DropCR(s: string): string {
    if s == [] then [] else (if s[0] == '\r' then [] else [s[0]]) + DropCR(s[1..])
  }

  lemma {:induction false} DropCRIsIdentityIff(s: string)
    ensures DropCR(s) == s <==> '\r' !in s
    ensures |DropCR(s)| <= |s|
  {
    if s != [] {
      DropCRIsIdentityIff(s[1..]);
      if s[0] != '\r' {
        assert DropCR(s)[1..] == DropCR(s[1..]);
      }
    }
  }

  /** Which cells a printer quotes; a cell it leaves bare must not contain quotes, commas or line feeds. */
  type Quoting = string -> bool

  ghost predicate Sound(quote: Quoting) {
    forall s :: !quote(s) ==> Bare(s)
  }

  /** What the parser reads back from a printed cell. */
  function ReadBack(s: string, quote: Quoting): string {
    if quote(s) then s else DropCR(s)
  }

  predicate Separated(rest: string) {
    rest == [] || rest[0] != QUOTE
  }

  lemma ParseClosingQuote(rest: string, p: Parser)
    requires p.inQuotes && Separated(rest)
    ensures ParseFrom([QUOTE] + rest, p) == ParseFrom(rest, p.(inQuotes := false))
  {
    Behind(QUOTE, rest);
  }

  lemma ParseDoubledChar(c: char, rest: string, p: Parser)
    requires p.inQuotes
    ensures ParseFrom((if c == QUOTE then [QUOTE, QUOTE] else [c]) + rest, p) == ParseFrom(rest, AddChar(p, c))
  {
    if c == QUOTE {
      assert ([QUOTE, QUOTE] + rest)[2..] == rest;
    } else {
      Behind(c, rest);
    }
  }

  lemma AddCharAndMore(p: Parser, c: char, more: string)
    ensures var q := AddChar(p, c); q.(cell := q.cell + more) == p.(cell := p.cell + ([c] + more))
  {
    ConcatAssociates(p.cell, [c], more);
  }

  lemma {:induction false} ParseQuoted(s: string, rest: string, p: Parser)
    requires p.inQuotes && Separated(rest)
    ensures ParseFrom(Doubled(s) + ([QUOTE] + rest), p) == ParseFrom(rest, p.(cell := p.cell + s, inQuotes := false))
    decreases |s|
  {
    var end := [QUOTE] + rest;
    if s == [] {
      ConcatEmpty(end);
      ConcatEmpty(p.cell);
      ParseClosingQuote(rest, p);
    } else {
      var c, more := s[0], s[1..];
      var first := if c == QUOTE then [QUOTE, QUOTE] else [c];
      ConcatAssociates(first, Doubled(more), end);
      ParseDoubledChar(c, Doubled(more) + end, p);
      ParseQuoted(more, rest, AddChar(p, c));
      AddCharAndMore(p, c, more);
      assert s == [c] + more;
    }
  }

  function ReadBare(p: Parser, c: char): Parser {
    if c == '\r' then p else AddChar(p, c)
  }

  lemma ParseBareChar(c: char, rest: string, p: Parser)
    requires !p.inQuotes && c != QUOTE && c != ',' && c != '\n'
    ensures ParseFrom([c] + rest, p) == ParseFrom(rest, ReadBare(p, c))
  {
    Behind(c, rest);
  }

  lemma {:induction false} ParseBare(s: string, rest: string, p: Parser)
    requires !p.inQuotes && Bare(s)
    ensures ParseFrom(s + rest, p) == ParseFrom(rest, p.(cell := p.cell + DropCR(s)))
    decreases |s|
  {
    if s == [] {
      ConcatEmpty(rest);
      ConcatEmpty(p.cell);
    } else {
      var c, more := s[0], s[1..];
      assert c in s && forall d :: d in more ==> d in s;
      assert s == [c] + more;
      ConcatAssociates([c], more, rest);
      ParseBareChar(c, more + rest, p);
      ParseBare(more, rest, ReadBare(p, c));
      AddCharAndMore(p, c, DropCR(more));
      ConcatEmpty(DropCR(more));
    }
  }

  lemma ParseCell(s: string, rest: string, p: Parser, quote: Quoting)
    requires !p.inQuotes && p.cell == "" && Separated(rest) && Sound(quote)
    ensures ParseFrom(PrintCell(s, quote(s)) + rest, p) == ParseFrom(rest, p.(cell := ReadBack(s, quote)))
  {
    if quote(s) {
      ConcatAssociates([QUOTE] + Doubled(s), [QUOTE], rest);
      ConcatAssociates([QUOTE], Doubled(s), [QUOTE] + rest);
      ParseOpeningQuote(Doubled(s) + ([QUOTE] + rest), p);
      ParseQuoted(s, rest, p.(inQuotes := true));
      ConcatEmpty(s);
    } else {
      ParseBare(s, rest, p);
      ConcatEmpty(DropCR(s));
    }
  }

  lemma ParseOpeningQuote(rest: string, p: Parser)
    requires !p.inQuotes
    ensures ParseFrom([QUOTE] + rest, p) == ParseFrom(rest, p.(inQuotes := true))
  {
    Behind(QUOTE, rest);
  }

  // -- Printed rows --------------------------------------------------------------------------------

  function PrintRow(cells: seq<string>, quote: Quoting): string {
    if cells == [] then ""
    else if |cells| == 1 then PrintCell(cells[0], quote(cells[0]))
    else PrintCell(cells[0], quote(cells[0])) + "," + PrintRow(cells[1..], quote)
  }

  function ReadRow(cells: seq<string>, quote: Quoting): (r: seq<string>)
    ensures |r| == |cells|
  {
    if cells == [] then [] else [ReadBack(cells[0], quote)] + ReadRow(cells[1..], quote)
  }

  lemma ParseComma(rest: string, p: Parser)
    requires !p.inQuotes
    ensures ParseFrom("," + rest, p) == ParseFrom(rest, PushCell(p))
  {
    Behind(',', rest);
  }

  lemma ParseLineFeed(rest: string, p: Parser)
    requires !p.inQuotes
    ensures ParseFrom("\n" + rest, p) == ParseFrom(rest, PushRow(p))
  {
    Behind('\n', rest);
  }

  lemma ParseCarriageReturn(rest: string, p: Parser)
    requires !p.inQuotes
    ensures ParseFrom("\r" + rest, p) == ParseFrom(rest, p)
  {
    Behind('\r', rest);
  }

  /** The state after the cells `read` of one row: all but the last are pushed. */
  function AfterCells(p: Parser, read: seq<string>): Parser
    requires read != []
  {
    p.(row := p.row + read[..|read| - 1], cell := read[|read| - 1])
  }

  lemma AfterFirstCell(p: Parser, read: seq<string>)
    requires |read| > 1
    ensures AfterCells(PushCell(p.(cell := read[0])), read[1..]) == AfterCells(p.(cell := ""), read)
  {
    var more := read[1..];
    assert p.row + [read[0]] + more[..|more| - 1] == p.row + read[..|read| - 1];
  }

  lemma PrintRowSplits(cells: seq<string>, rest: string, quote: Quoting)
    requires |cells| > 1
    ensures PrintRow(cells, quote) + rest
         == PrintCell(cells[0], quote(cells[0])) + ("," + (PrintRow(cells[1..], quote) + rest))
  {
    var first := PrintCell(cells[0], quote(cells[0]));
    var more := PrintRow(cells[1..], quote);
    ConcatAssociates(first + ",", more, rest);
    ConcatAssociates(first, ",", more + rest);
  }

  lemma {:induction false} ParseRow(cells: seq<string>, rest: string, p: Parser, quote: Quoting)
    requires cells != [] && !p.inQuotes && p.cell == "" && Separated(rest) && Sound(quote)
    ensures ParseFrom(PrintRow(cells, quote) + rest, p) == ParseFrom(rest, AfterCells(p, ReadRow(cells, quote)))
    decreases |cells|
  {
    var read := ReadRow(cells, quote);
    if |cells| == 1 {
      ParseCell(cells[0], rest, p, quote);
      assert AfterCells(p, read) == p.(cell := read[0]);
    } else {
      var more := PrintRow(cells[1..], quote) + rest;
      PrintRowSplits(cells, rest, quote);
      ParseCell(cells[0], "," + more, p, quote);
      ParseComma(more, p.(cell := read[0]));
      ParseRow(cells[1..], rest, PushCell(p.(cell := read[0])), quote);
      assert read[1..] == ReadRow(cells[1..], quote);
      AfterFirstCell(p, read);
    }
  }

  /** Lines, each ended by a line feed. */
  function PrintLines(grid: Grid, quote: Quoting): string {
    if grid == [] then "" else PrintRow(grid[0], quote) + "\n" + PrintLines(grid[1..], quote)
  }

  function ReadGrid(grid: Grid, quote: Quoting): (r: Grid)
    ensures |r| == |grid|
  {
    if grid == [] then [] else [ReadRow(grid[0], quote)] + ReadGrid(grid[1..], quote)
  }

  ghost predicate HasColumns(grid: Grid, n: nat) {
    forall r :: r in grid ==> |r| >= n
  }

  lemma LastCell(p: Parser, read: seq<string>)
    requires read != [] && p.row == [] && p.cell == ""
    ensures PushRow(AfterCells(p, read)) == p.(rows := p.rows + [read])
  {
    assert [] + read[..|read| - 1] + [read[|read| - 1]] == read;
  }

  lemma RowsAssociate(before: Grid, row: seq<string>, after: Grid)
    ensures before + [row] + after == before + ([row] + after)
  {
  }

  lemma {:induction false} ParseLines(grid: Grid, p: Parser, quote: Quoting)
    requires HasColumns(grid, 1) && Sound(quote) && !p.inQuotes && p.row == [] && p.cell == ""
    ensures ParseFrom(PrintLines(grid, quote), p) == p.rows + ReadGrid(grid, quote)
    decreases |grid|
  {
    if grid != [] {
      var read := ReadRow(grid[0], quote);
      assert grid[0] in grid;
      var more := PrintLines(grid[1..], quote);
      ConcatAssociates(PrintRow(grid[0], quote), "\n", more);
      ParseRow(grid[0], "\n" + more, p, quote);
      ParseLineFeed(more, AfterCells(p, read));
      LastCell(p, read);
      ParseLines(grid[1..], p.(rows := p.rows + [read]), quote);
      RowsAssociate(p.rows, read, ReadGrid(grid[1..], quote));
    } else {
      assert p.rows + [] == p.rows;
    }
  }

  /** Lines separated by carriage return and line feed, the last one not ended. */
  function PrintCrLf(grid: Grid, quote: Quoting): string {
    if grid == [] then ""
    else if |grid| == 1 then PrintRow(grid[0], quote)
    else PrintRow(grid[0], quote) + "\r\n" + PrintCrLf(grid[1..], quote)
  }

  lemma CrLfIsTwo()
    ensures "\r\n" == "\r" + "\n"
  {
  }

  lemma PrintCrLfSplits(grid: Grid, quote: Quoting)
    requires |grid| > 1
    ensures PrintCrLf(grid, quote) == PrintRow(grid[0], quote) + ("\r" + ("\n" + PrintCrLf(grid[1..], quote)))
  {
    var first := PrintRow(grid[0], quote);
    var more := PrintCrLf(grid[1..], quote);
    ConcatAssociates(first, "\r\n", more);
    CrLfIsTwo();
    ConcatAssociates("\r", "\n", more);
  }

  /** The last line ends with the input; the flush delivers it because a second column has been pushed. */
  lemma ParseLastLine(cells: seq<string>, p: Parser, quote: Quoting)
    requires |cells| >= 2 && Sound(quote) && !p.inQuotes && p.row == [] && p.cell == ""
    ensures ParseFrom(PrintRow(cells, quote), p) == p.rows + [ReadRow(cells, quote)]
  {
    var read := ReadRow(cells, quote);
    assert PrintRow(cells, quote) + "" == PrintRow(cells, quote);
    ParseRow(cells, "", p, quote);
    LastCell(p, read);
  }

  lemma {:induction false} ParseCrLf(grid: Grid, p: Parser, quote: Quoting)
    requires HasColumns(grid, 2) && Sound(quote) && !p.inQuotes && p.row == [] && p.cell == ""
    ensures ParseFrom(PrintCrLf(grid, quote), p) == p.rows + ReadGrid(grid, quote)
    decreases |grid|
  {
    if grid == [] {
      assert p.rows + [] == p.rows;
    } else {
      assert grid[0] in grid;
      var read := ReadRow(grid[0], quote);
      if |grid| == 1 {
        ParseLastLine(grid[0], p, quote);
        assert ReadGrid(grid, quote) == [read];
      } else {
        var more := PrintCrLf(grid[1..], quote);
        PrintCrLfSplits(grid, quote);
        ParseRow(grid[0], "\r" + ("\n" + more), p, quote);
        ParseCarriageReturn("\n" + more, AfterCells(p, read));
        ParseLineFeed(more, AfterCells(p, read));
        LastCell(p, read);
        ParseCrLf(grid[1..], p.(rows := p.rows + [read]), quote);
        RowsAssociate(p.rows, read, ReadGrid(grid[1..], quote));
      }
    }
  }

  // -- What is read back -----------------------------------------------------------------------------

  /** No bare cell holds a carriage return. */
  predicate Faithful(cells: seq<string>, quote: Quoting) {
    forall s :: s in cells ==> quote(s) || '\r' !in s
  }

  lemma {:induction false} ReadRowIsIdentityIff(cells: seq<string>, quote: Quoting)
    ensures ReadRow(cells, quote) == cells <==> Faithful(cells, quote)
  {
    if cells != [] {
      ReadRowIsIdentityIff(cells[1..], quote);
      DropCRIsIdentityIff(cells[0]);
      assert cells == [cells[0]] + cells[1..];
      assert ReadRow(cells, quote)[1..] == ReadRow(cells[1..], quote);
    }
  }

  lemma {:induction false} ReadGridIsIdentityIff(grid: Grid, quote: Quoting)
    ensures ReadGrid(grid, quote) == grid <==> forall r :: r in grid ==> Faithful(r, quote)
  {
    if grid != [] {
      ReadGridIsIdentityIff(grid[1..], quote);
      ReadRowIsIdentityIff(grid[0], quote);
      assert grid == [grid[0]] + grid[1..];
      assert ReadGrid(grid, quote)[1..] == ReadGrid(grid[1..], quote);
    }
  }

  // -- The export printer, `toCsv` -------------------------------------------------------------------

  /** A database row: column names in order, with values rendered as text; `None` for null. */
  type Record = seq<(string, Option<string>)>

  function Names(r: Record): seq<string> {
    if r == [] then [] else [r[0].0] + Names(r[1..])
  }

  /** The text of a column; empty when the row lacks it or holds null. */
  function Lookup(r: Record, name: string): string {
    if r == [] then ""
    else if r[0].0 == name then r[0].1.GetOr("")
    else Lookup(r[1..], name)
  }

  function Cells(r: Record, names: seq<string>): (cells: seq<string>)
    ensures |cells| == |names|
  {
    if names == [] then [] else [Lookup(r, names[0])] + Cells(r, names[1..])
  }

  function AllCells(rows: seq<Record>, names: seq<string>): (grid: Grid)
    ensures |grid| == |rows|
  {
    if rows == [] then [] else [Cells(rows[0], names)] + AllCells(rows[1..], names)
  }

  lemma {:induction false} AllCellsHaveColumns(rows: seq<Record>, names: seq<string>)
    ensures HasColumns(AllCells(rows, names), |names|)
  {
    if rows != [] {
      AllCellsHaveColumns(rows[1..], names);
    }
  }

  /** The header followed by the rows. */
  function GridOf(rows: seq<Record>): Grid {
    if rows == [] then [] else [Names(rows[0])] + AllCells(rows, Names(rows[0]))
  }

  function ExportQuotes(): Quoting {
    s => ',' in s || QUOTE in s || '\n' in s || '\r' in s
  }

  function Unquoted(): Quoting {
    s => false
  }

  /** Names are printed as they are, values escaped. */
  function ToCsv(rows: seq<Record>): string {
    if rows == [] then ""
    else PrintRow(Names(rows[0]), Unquoted()) + "\n" + PrintLines(AllCells(rows, Names(rows[0])), ExportQuotes())
  }

  /** `Array.prototype.join`. */
  function Join(lines: seq<string>, separator: string): string {
    if lines == [] then ""
    else if |lines| == 1 then lines[0]
    else lines[0] + separator + Join(lines[1..], separator)
  }

  function LinesOf(grid: Grid, quote: Quoting): (lines: seq<string>)
    ensures |lines| == |grid|
  {
    if grid == [] then [] else [PrintRow(grid[0], quote)] + LinesOf(grid[1..], quote)
  }

  lemma {:induction false} JoinedLines(first: string, grid: Grid, quote: Quoting)
    ensures Join([first] + LinesOf(grid, quote), "\n") + "\n" == first + "\n" + PrintLines(grid, quote)
    decreases |grid|
  {
    var lines := [first] + LinesOf(grid, quote);
    if grid == [] {
      assert lines == [first];
      assert first + "\n" + "" == first + "\n";
    } else {
      var next := PrintRow(grid[0], quote);
      var joined := Join(lines[1..], "\n");
      JoinedLines(next, grid[1..], quote);
      assert lines[1..] == [next] + LinesOf(grid[1..], quote);
      ConcatAssociates(first + "\n", joined, "\n");
    }
  }

  lemma PushLine(lines: seq<string>, line: string, header: string, all: seq<string>, k: nat)
    requires |lines| == k + 1 && k < |all| && line == all[k] && lines == [header] + all[..k]
    ensures lines + [line] == [header] + all[..k + 1]
  {
  }

  lemma {:induction false} LineAt(rows: seq<Record>, names: seq<string>, quote: Quoting, k: nat)
    requires k < |rows|
    ensures LinesOf(AllCells(rows, names), quote)[k] == PrintRow(Cells(rows[k], names), quote)
  {
    if k > 0 {
      LineAt(rows[1..], names, quote, k - 1);
    }
  }

  method CollectLines(header: string, rows: seq<Record>, names: seq<string>, quote: Quoting)
    returns (lines: seq<string>)
    ensures lines == [header] + LinesOf(AllCells(rows, names), quote)
  {
    ghost var all := LinesOf(AllCells(rows, names), quote);
    lines := [header];
    for k := 0 to |rows|
      invariant |lines| == k + 1 && lines == [header] + all[..k]
    {
      var line := PrintRow(Cells(rows[k], names), quote);
      LineAt(rows, names, quote, k);
      PushLine(lines, line, header, all, k);
      lines := lines + [line];
    }
    assert all[..|rows|] == all;
  }

  method WriteCsv(rows: seq<Record>) returns (csv: string)
    ensures csv == ToCsv(rows)
  {
    if |rows| == 0 {
      return "";
    }
    var headers := Names(rows[0]);
    var header := PrintRow(headers, Unquoted());
    var lines := CollectLines(header, rows, headers, ExportQuotes());
    JoinedLines(header, AllCells(rows, headers), ExportQuotes());
    csv := Join(lines, "\n") + "\n";
  }

  predicate PlainNames(names: seq<string>) {
    forall n :: n in names ==> Bare(n) && '\r' !in n
  }

  lemma {:induction false} PlainRow(names: seq<string>)
    requires PlainNames(names)
    ensures PrintRow(names, Unquoted()) == PrintRow(names, ExportQuotes())
  {
    if names != [] {
      assert names[0] in names;
      PlainRow(names[1..]);
    }
  }

  lemma ToCsvIsPrintLines(rows: seq<Record>)
    requires rows != [] && PlainNames(Names(rows[0]))
    ensures ToCsv(rows) == PrintLines(GridOf(rows), ExportQuotes())
  {
    PlainRow(Names(rows[0]));
    assert GridOf(rows)[1..] == AllCells(rows, Names(rows[0]));
  }

  /** The parser never takes back a row. */
  lemma {:induction false} RowsAreKept(s: string, p: Parser)
    ensures p.rows <= ParseFrom(s, p)
    decreases |s|
  {
    if s == [] {
    } else if p.inQuotes {
      if s[0] == QUOTE {
        if |s| > 1 && s[1] == QUOTE {
          RowsAreKept(s[2..], AddChar(p, QUOTE));
        } else {
          RowsAreKept(s[1..], p.(inQuotes := false));
        }
      } else {
        RowsAreKept(s[1..], AddChar(p, s[0]));
      }
    } else if s[0] == QUOTE {
      RowsAreKept(s[1..], p.(inQuotes := true));
    } else if s[0] == ',' {
      RowsAreKept(s[1..], PushCell(p));
    } else if s[0] == '\r' {
      RowsAreKept(s[1..], p);
    } else if s[0] == '\n' {
      RowsAreKept(s[1..], PushRow(p));
    } else {
      RowsAreKept(s[1..], AddChar(p, s[0]));
    }
  }

  /** A header without columns is read back as one empty name. */
  lemma NoColumnsIsOneEmptyColumn(rows: seq<Record>)
    requires rows != [] && Names(rows[0]) == []
    ensures Parse(ToCsv(rows)) != GridOf(rows)
  {
    var more := PrintLines(AllCells(rows, []), ExportQuotes());
    assert ToCsv(rows) == "\n" + more;
    ParseLineFeed(more, START);
    RowsAreKept(more, PushRow(START));
    assert PushCell(START).row == [""];
    assert PushRow(START).rows == [[""]];
    assert Parse(ToCsv(rows))[0] == [""];
    assert GridOf(rows)[0] == [];
  }

  // -- Names that are not plain ----------------------------------------------------------------------

  /** The first row so far, joined again: what the parser has kept of the text it has read. */
  function Rejoined(p: Parser): string {
    PrintRow(p.row + [p.cell], Unquoted())
  }

  lemma {:induction false} PrintRowSnoc(cells: seq<string>, last: string)
    ensures PrintRow(cells + [last], Unquoted()) == if cells == [] then last else PrintRow(cells, Unquoted()) + "," + last
  {
    if |cells| == 1 {
      assert (cells + [last])[1..] == [last];
    } else if |cells| > 1 {
      assert (cells + [last])[1..] == cells[1..] + [last];
      PrintRowSnoc(cells[1..], last);
      ConcatAssociates(cells[0] + ",", PrintRow(cells[1..], Unquoted()) + ",", last);
      ConcatAssociates(cells[0] + ",", PrintRow(cells[1..], Unquoted()), ",");
    }
  }

  /** A kept character is appended. */
  lemma RejoinedGrows(p: Parser, c: char)
    ensures Rejoined(AddChar(p, c)) == Rejoined(p) + [c]
    ensures Rejoined(PushCell(p)) == Rejoined(p) + ","
  {
    PrintRowSnoc(p.row, p.cell);
    PrintRowSnoc(p.row, p.cell + [c]);
    PrintRowSnoc(p.row + [p.cell], "");
    if p.row != [] {
      ConcatAssociates(PrintRow(p.row, Unquoted()) + ",", p.cell, [c]);
    }
    ConcatEmpty(Rejoined(p) + ",");
  }

  /** The first row goes on from what is already kept of it. */
  lemma {:induction false} FirstRowExtends(s: string, p: Parser)
    requires p.rows == [] && Rejoined(p) != ""
    ensures ParseFrom(s, p) != [] && Rejoined(p) <= PrintRow(ParseFrom(s, p)[0], Unquoted())
    decreases |s|
  {
    if s == [] {
      PrintRowSnoc(p.row, p.cell);
    } else if p.inQuotes {
      if s[0] == QUOTE {
        if |s| > 1 && s[1] == QUOTE {
          RejoinedGrows(p, QUOTE);
          FirstRowExtends(s[2..], AddChar(p, QUOTE));
        } else {
          FirstRowExtends(s[1..], p.(inQuotes := false));
        }
      } else {
        RejoinedGrows(p, s[0]);
        FirstRowExtends(s[1..], AddChar(p, s[0]));
      }
    } else if s[0] == QUOTE {
      FirstRowExtends(s[1..], p.(inQuotes := true));
    } else if s[0] == ',' {
      RejoinedGrows(p, ',');
      FirstRowExtends(s[1..], PushCell(p));
    } else if s[0] == '\r' {
      FirstRowExtends(s[1..], p);
    } else if s[0] == '\n' {
      RowsAreKept(s[1..], PushRow(p));
    } else {
      RejoinedGrows(p, s[0]);
      FirstRowExtends(s[1..], AddChar(p, s[0]));
    }
  }

  /** The first row that the parser delivers, joined again. */
  function FirstRow(s: string, p: Parser): string {
    var rows := ParseFrom(s, p);
    if rows == [] then "" else PrintRow(rows[0], Unquoted())
  }

  /** The first line feed of `s` is at `n`. */
  predicate FirstLine(s: string, n: nat) {
    n < |s| && s[n] == '\n' && '\n' !in s[..n]
  }

  lemma RestOfLine(s: string, n: nat, k: nat)
    requires FirstLine(s, n) && k <= n
    ensures FirstLine(s[k..], n - k) && s[k..][..n - k] == s[k..n]
    ensures forall c :: c in s[k..n] ==> c in s[..n]
  {
    assert forall c :: c in s[k..n] ==> c in s[..n];
  }

  ghost predicate HoldsLineFeed(row: string, lo: int, hi: int) {
    exists j :: 0 <= j < |row| && lo <= j < hi && row[j] == '\n'
  }

  predicate NothingDropped(line: string) {
    QUOTE !in line && '\r' !in line
  }

  /** How the first row relates to the line that is left to read: it ends with the line and keeps every
      character, or it lags behind the line, or it holds a line feed where the line has none yet. */
  ghost predicate Lags(s: string, p: Parser, n: nat, row: string)
    requires n <= |s|
  {
    || (!p.inQuotes && |row| == |Rejoined(p)| + n && NothingDropped(s[..n]))
    || |row| < |Rejoined(p)| + n
    || HoldsLineFeed(row, |Rejoined(p)|, |Rejoined(p)| + n + if p.inQuotes then 1 else 0)
  }

  lemma LagsMore(s: string, p: Parser, n: nat, k: nat, q: Parser, row: string)
    requires k <= n <= |s| && Lags(s[k..], q, n - k, row)
    requires |Rejoined(p)| <= |Rejoined(q)| <= |Rejoined(p)| + k
    requires q.inQuotes == p.inQuotes && (p.inQuotes || NothingDropped(s[..k]) || |Rejoined(q)| < |Rejoined(p)| + k)
    ensures Lags(s, p, n, row)
  {
    assert s[..n] == s[..k] + s[k..][..n - k];
  }

  lemma QuoteLags(s: string, p: Parser, n: nat, row: string)
    requires 1 <= n <= |s| && Lags(s[1..], p.(inQuotes := !p.inQuotes), n - 1, row)
    ensures Lags(s, p, n, row)
  {
  }

  lemma {:induction false} FirstRowLags(s: string, p: Parser, n: nat)
    requires p.rows == [] && FirstLine(s, n)
    ensures ParseFrom(s, p) != [] && Lags(s, p, n, FirstRow(s, p))
    decreases |s|
  {
    var row := FirstRow(s, p);
    if n == 0 {
      if p.inQuotes {
        RejoinedGrows(p, '\n');
        FirstRowExtends(s[1..], AddChar(p, '\n'));
        assert row[|Rejoined(p)|] == '\n';
      } else {
        RowsAreKept(s[1..], PushRow(p));
      }
    } else {
      RestOfLine(s, n, 1);
      assert s[0] in s[..n];
      RejoinedGrows(p, s[0]);
      if s[0] == QUOTE {
        if p.inQuotes && s[1] == QUOTE {
          RestOfLine(s, n, 2);
          FirstRowLags(s[2..], AddChar(p, QUOTE), n - 2);
          LagsMore(s, p, n, 2, AddChar(p, QUOTE), row);
        } else {
          FirstRowLags(s[1..], p.(inQuotes := !p.inQuotes), n - 1);
          QuoteLags(s, p, n, row);
        }
      } else {
        var q := if p.inQuotes then AddChar(p, s[0]) else if s[0] == ',' then PushCell(p) else ReadBare(p, s[0]);
        FirstRowLags(s[1..], q, n - 1);
        assert s[..1] == [s[0]];
        LagsMore(s, p, n, 1, q, row);
      }
    }
  }

  ghost predicate NoCommas(cells: seq<string>) {
    forall c :: c in cells ==> ',' !in c
  }

  /** A line without quotes is split at its commas. */
  lemma {:induction false} FirstRowHasNoCommas(s: string, p: Parser, n: nat)
    requires p.rows == [] && !p.inQuotes && FirstLine(s, n) && QUOTE !in s[..n]
    requires NoCommas(p.row + [p.cell])
    ensures ParseFrom(s, p) != [] && NoCommas(ParseFrom(s, p)[0])
    decreases |s|
  {
    if n == 0 {
      RowsAreKept(s[1..], PushRow(p));
    } else {
      RestOfLine(s, n, 1);
      assert s[0] in s[..n];
      assert p.cell in p.row + [p.cell];
      FirstRowHasNoCommas(s[1..], if s[0] == ',' then PushCell(p) else ReadBare(p, s[0]), n - 1);
    }
  }

  lemma {:induction false} CellsAreInRow(cells: seq<string>, cell: string)
    requires cell in cells
    ensures forall c :: c in cell ==> c in PrintRow(cells, Unquoted())
  {
    if |cells| > 1 {
      assert cells == [cells[0]] + cells[1..];
      if cell != cells[0] {
        CellsAreInRow(cells[1..], cell);
      }
    }
  }

  lemma FirstLineFeed(s: string, h: nat) returns (n: nat)
    requires h < |s| && s[h] == '\n'
    ensures n <= h && FirstLine(s, n)
  {
    n := 0;
    while s[n] != '\n'
      invariant n <= h && '\n' !in s[..n]
      decreases h - n
    {
      n := n + 1;
    }
  }

  /** Whatever follows a header line, names that come back as they were are plain. */
  lemma NamesComeBackPlain(names: seq<string>, more: string)
    requires names != []
    requires var r := Parse(PrintRow(names, Unquoted()) + ("\n" + more)); r != [] && r[0] == names
    ensures PlainNames(names)
  {
    var header := PrintRow(names, Unquoted());
    var s := header + ("\n" + more);
    assert s[|header|] == '\n';
    var n := FirstLineFeed(s, |header|);
    FirstRowLags(s, START, n);
    assert s[..n] <= header;
    assert !HoldsLineFeed(header, 0, n) by {
      assert forall j :: 0 <= j < n ==> header[j] == s[..n][j];
    }
    assert n == |header| && s[..n] == header;
    FirstRowHasNoCommas(s, START, n);
    forall name | name in names ensures Bare(name) && '\r' !in name {
      CellsAreInRow(names, name);
    }
  }

  /** Parsing an export gives back the header and every cell, whatever commas, quotes, carriage returns
      and line feeds the cells contain: quoting and doubling as in section 2, rules 5 to 7, of RFC 4180.
      It does so exactly when there is a column and no column name, which is printed as it is, contains any
      of these characters. */
  lemma ExportRoundTripIff(rows: seq<Record>)
    ensures Parse(ToCsv(rows)) == GridOf(rows) <==>
      (rows != [] ==> Names(rows[0]) != [] && PlainNames(Names(rows[0])))
  {
    if rows != [] {
      var names, grid := Names(rows[0]), GridOf(rows);
      if names == [] {
        NoColumnsIsOneEmptyColumn(rows);
      } else if PlainNames(names) {
        PlainNamesRoundTrip(rows);
      } else if Parse(ToCsv(rows)) == grid {
        var more := PrintLines(AllCells(rows, names), ExportQuotes());
        ConcatAssociates(PrintRow(names, Unquoted()), "\n", more);
        NamesComeBackPlain(names, more);
      }
    }
  }

  lemma PlainNamesRoundTrip(rows: seq<Record>)
    requires rows != [] && Names(rows[0]) != [] && PlainNames(Names(rows[0]))
    ensures Parse(ToCsv(rows)) == GridOf(rows)
  {
    var grid := GridOf(rows);
    ToCsvIsPrintLines(rows);
    AllCellsHaveColumns(rows, Names(rows[0]));
    assert HasColumns(grid, 1);
    ParseLines(grid, START, ExportQuotes());
    ReadGridIsIdentityIff(grid, ExportQuotes());
    assert START.rows + grid == grid;
  }

  const SPLIT_ROW: Record := [("a,b", Some("x"))]

  /** Names are not escaped, so a comma in a name splits it. */
  lemma CommaInNameSplits()
    ensures Parse(ToCsv([SPLIT_ROW])) == [["a", "b"], ["x"]]
    ensures GridOf([SPLIT_ROW]) == [["a,b"], ["x"]]
  {
    assert SPLIT_ROW[1..] == [];
    assert Names(SPLIT_ROW) == ["a,b"];
    assert ["a,b"][1..] == [];
    assert Cells(SPLIT_ROW, ["a,b"]) == ["x"];
    assert [SPLIT_ROW][1..] == [];
    assert AllCells([SPLIT_ROW], ["a,b"]) == [["x"]];
    var grid: Grid := [["a", "b"], ["x"]];
    assert grid[1..] == [["x"]] && ["a", "b"][1..] == ["b"];
    assert PrintRow(["b"], ExportQuotes()) == "b";
    assert PrintRow(["a", "b"], ExportQuotes()) == "a" + "," + "b" == "a,b";
    assert PrintRow(["a,b"], Unquoted()) == "a,b";
    assert ToCsv([SPLIT_ROW]) == PrintLines(grid, ExportQuotes());
    ParseLines(grid, START, ExportQuotes());
    ReadGridIsIdentityIff(grid, ExportQuotes());
    assert START.rows + grid == grid;
  }

  // -- The audit log printer -------------------------------------------------------------------------

  function AuditQuotes(): Quoting {
    s => ',' in s || '\n' in s || QUOTE in s
  }

  function AuditCsv(grid: Grid): string {
    PrintCrLf(grid, AuditQuotes())
  }

  /** With two or more columns the audit log parses to the same grid exactly when no cell holds a
      carriage return without also holding a comma, a quote or a line feed. */
  lemma AuditRoundTripIff(grid: Grid)
    requires HasColumns(grid, 2)
    ensures Parse(AuditCsv(grid)) == grid <==> forall r :: r in grid ==> Faithful(r, AuditQuotes())
  {
    ParseCrLf(grid, START, AuditQuotes());
    ReadGridIsIdentityIff(grid, AuditQuotes());
    assert START.rows + ReadGrid(grid, AuditQuotes()) == ReadGrid(grid, AuditQuotes());
  }
}
