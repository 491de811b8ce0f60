/** What the CSV printers write and what the parser makes of any text, character by character. */
module CsvRules {
  import opened Wrappers
  import opened Sequences
  import opened Csv

  // -- What a text says ------------------------------------------------------------------------------

  /** A character of a cell, the end of a cell, or the end of a line. */
  datatype Token = Text(c: char) | Comma | LineEnd

  function Quotes(s: string): nat {
    if s == [] then 0 else Quotes(s[..|s| - 1]) + if s[|s| - 1] == '"' then 1 else 0
  }

  /** An odd number of quotes before position `k`. */
  predicate Inside(s: string, k: nat)
    requires k <= |s|
  {
    Quotes(s[..k]) % 2 == 1
  }

  /** What the character at `k` says. A quote only counts when it follows a quote that would have ended the
      quoted part; outside quotes, commas and line feeds separate and carriage returns are dropped. */
  function Says(s: string, k: nat): seq<Token>
    requires k < |s|
  {
    if s[k] == '"' then if !Inside(s, k) && k > 0 && s[k - 1] == '"' then [Text('"')] else []
    else PlainSays(s[k], Inside(s, k))
  }

  /** A character that is no quote. */
  function PlainSays(c: char, inQuotes: bool): seq<Token> {
    if inQuotes then [Text(c)]
    else if c == ',' then [Comma]
    else if c == '\n' then [LineEnd]
    else if c == '\r' then []
    else [Text(c)]
  }

  function SaysFrom(s: string, k: nat): seq<Token>
    requires k <= |s|
    decreases |s| - k
  {
    if k == |s| then [] else Says(s, k) + SaysFrom(s, k + 1)
  }

  // -- What a grid says ------------------------------------------------------------------------------

  function CellTokens(cell: string): seq<Token> {
    seq(|cell|, i requires 0 <= i < |cell| => Text(cell[i]))
  }

  /** The cells of a row with commas between them. */
  function RowTokens(cells: seq<string>): seq<Token> {
    if cells == [] then []
    else if |cells| == 1 then CellTokens(cells[0])
    else RowTokens(cells[..|cells| - 1]) + [Comma] + CellTokens(cells[|cells| - 1])
  }

  /** The rows of a grid, each with the end of its line. */
  function GridTokens(rows: Grid): seq<Token> {
    if rows == [] then [] else GridTokens(rows[..|rows| - 1]) + RowTokens(rows[|rows| - 1]) + [LineEnd]
  }

  /** The last line need not be ended. */
  function Ended(tokens: seq<Token>): seq<Token> {
    if tokens == [] || tokens[|tokens| - 1] == LineEnd then tokens else tokens + [LineEnd]
  }

  // -- The parser's state ----------------------------------------------------------------------------

  function StateTokens(p: Parser): seq<Token> {
    GridTokens(p.rows) + RowTokens(p.row + [p.cell])
  }

  /** What the cells of a row say when another one follows. */
  function RowStart(row: seq<string>): seq<Token> {
    if row == [] then [] else RowTokens(row) + [Comma]
  }

  lemma RowTokensOfSnoc(row: seq<string>, cell: string)
    ensures RowTokens(row + [cell]) == RowStart(row) + CellTokens(cell)
  {
    assert (row + [cell])[..|row|] == row;
  }

  lemma AddedChar(p: Parser, c: char)
    ensures StateTokens(AddChar(p, c)) == StateTokens(p) + [Text(c)]
  {
    RowTokensOfSnoc(p.row, p.cell);
    RowTokensOfSnoc(p.row, p.cell + [c]);
    assert CellTokens(p.cell + [c]) == CellTokens(p.cell) + [Text(c)];
    ConcatAssociates(RowStart(p.row), CellTokens(p.cell), [Text(c)]);
    ConcatAssociates(GridTokens(p.rows), RowTokens(p.row + [p.cell]), [Text(c)]);
  }

  lemma PushedCell(p: Parser)
    ensures StateTokens(PushCell(p)) == StateTokens(p) + [Comma]
  {
    var row := p.row + [p.cell];
    RowTokensOfSnoc(row, "");
    assert CellTokens("") == [];
    ConcatAssociates(GridTokens(p.rows), RowTokens(row), [Comma]);
  }

  lemma PushedRow(p: Parser)
    ensures GridTokens(PushRow(p).rows) == StateTokens(p) + [LineEnd]
    ensures StateTokens(PushRow(p)) == StateTokens(p) + [LineEnd]
  {
    assert (p.rows + [p.row + [p.cell]])[..|p.rows|] == p.rows;
    assert PushRow(p).row + [PushRow(p).cell] == [""];
    assert CellTokens("") == [];
  }

  ghost predicate HasRows(rows: Grid) {
    forall r :: r in rows ==> r != []
  }

  lemma Flushed(p: Parser)
    requires HasRows(p.rows)
    ensures HasRows(Flush(p)) && GridTokens(Flush(p)) == Ended(StateTokens(p))
  {
    RowTokensOfSnoc(p.row, p.cell);
    PushedRow(p);
    if |p.cell| > 0 {
      assert CellTokens(p.cell)[|p.cell| - 1] != LineEnd;
    } else {
      assert CellTokens(p.cell) == [];
    }
  }

  // -- The parser ------------------------------------------------------------------------------------

  lemma InsideNext(s: string, k: nat)
    requires k < |s|
    ensures Inside(s, k + 1) <==> (Inside(s, k) != (s[k] == '"'))
  {
    assert s[..k + 1][..k] == s[..k];
  }

  /** Position `k` is not the second of two quotes that stand for one. */
  predicate Between(s: string, k: nat)
    requires k <= |s|
  {
    k == |s| || k == 0 || s[k] != '"' || s[k - 1] != '"' || Inside(s, k)
  }

  lemma SaysOneQuote(s: string, k: nat)
    requires k + 1 < |s| && s[k] == '"' && s[k + 1] == '"' && Inside(s, k)
    ensures SaysFrom(s, k) == [Text('"')] + SaysFrom(s, k + 2)
  {
    InsideNext(s, k);
  }

  /** What the parser does at a position between two characters of the text. */
  lemma ParserStep(s: string, k: nat, p: Parser) returns (n: nat, q: Parser)
    requires k < |s| && Between(s, k) && p.inQuotes == Inside(s, k) && HasRows(p.rows)
    ensures k < n <= |s| && Between(s, n) && q.inQuotes == Inside(s, n) && HasRows(q.rows)
    ensures ParseFrom(s[k..], p) == ParseFrom(s[n..], q)
    ensures StateTokens(q) + SaysFrom(s, n) == StateTokens(p) + SaysFrom(s, k)
  {
    var c := s[k];
    InsideNext(s, k);
    if c == '"' && p.inQuotes && k + 1 < |s| && s[k + 1] == '"' {
      n, q := k + 2, AddChar(p, '"');
      PairStep(s, k, p);
    } else if c == '"' {
      n, q := k + 1, p.(inQuotes := !p.inQuotes);
      assert s[k..][1..] == s[n..];
      assert SaysFrom(s, k) == SaysFrom(s, n);
    } else {
      q := PlainStep(s, k, p);
      n := k + 1;
    }
  }

  /** Two quotes inside quotes. */
  lemma PairStep(s: string, k: nat, p: Parser)
    requires k + 1 < |s| && s[k] == '"' && s[k + 1] == '"' && p.inQuotes && Inside(s, k)
    ensures Inside(s, k + 2)
    ensures ParseFrom(s[k..], p) == ParseFrom(s[k + 2..], AddChar(p, '"'))
    ensures StateTokens(AddChar(p, '"')) + SaysFrom(s, k + 2) == StateTokens(p) + SaysFrom(s, k)
  {
    InsideNext(s, k);
    InsideNext(s, k + 1);
    assert s[k..][2..] == s[k + 2..];
    SaysOneQuote(s, k);
    AddedChar(p, '"');
    ConcatAssociates(StateTokens(p), [Text('"')], SaysFrom(s, k + 2));
  }

  /** The same for a character that is no quote. */
  lemma PlainStep(s: string, k: nat, p: Parser) returns (q: Parser)
    requires k < |s| && s[k] != '"' && p.inQuotes == Inside(s, k) && HasRows(p.rows)
    ensures q.inQuotes == p.inQuotes && HasRows(q.rows)
    ensures ParseFrom(s[k..], p) == ParseFrom(s[k + 1..], q)
    ensures StateTokens(q) + SaysFrom(s, k + 1) == StateTokens(p) + SaysFrom(s, k)
  {
    var c := s[k];
    assert s[k..][1..] == s[k + 1..];
    q := AfterPlain(p, c);
    PlainTokens(p, c);
    ConcatAssociates(StateTokens(p), Says(s, k), SaysFrom(s, k + 1));
  }

  function AfterPlain(p: Parser, c: char): Parser {
    if !p.inQuotes && c == ',' then PushCell(p)
    else if !p.inQuotes && c == '\n' then PushRow(p)
    else if !p.inQuotes && c == '\r' then p
    else AddChar(p, c)
  }

  lemma PlainTokens(p: Parser, c: char)
    ensures StateTokens(AfterPlain(p, c)) == StateTokens(p) + PlainSays(c, p.inQuotes)
  {
    AddedChar(p, c);
    PushedCell(p);
    PushedRow(p);
  }

  lemma {:induction false} ParserReads(s: string, k: nat, p: Parser)
    requires k <= |s| && Between(s, k) && p.inQuotes == Inside(s, k) && HasRows(p.rows)
    ensures HasRows(ParseFrom(s[k..], p))
    ensures GridTokens(ParseFrom(s[k..], p)) == Ended(StateTokens(p) + SaysFrom(s, k))
    decreases |s| - k
  {
    if k == |s| {
      Flushed(p);
      assert StateTokens(p) + [] == StateTokens(p);
    } else {
      var n, q := ParserStep(s, k, p);
      ParserReads(s, n, q);
    }
  }

  /** For any text, well-formed or not: the rows that the parser delivers have cells, and say, character for
      character, what the text says. */
  lemma ParserReadsEverything(s: string)
    ensures HasRows(Parse(s)) && GridTokens(Parse(s)) == Ended(SaysFrom(s, 0))
  {
    ParserReads(s, 0, START);
    assert s[0..] == s;
    assert START.row + [START.cell] == [""] && CellTokens("") == [];
  }

  // -- No other grid says the same -------------------------------------------------------------------

  lemma {:induction false} RowsHaveNoLineEnd(cells: seq<string>)
    ensures LineEnd !in RowTokens(cells)
  {
    if |cells| > 1 {
      RowsHaveNoLineEnd(cells[..|cells| - 1]);
    }
  }

  lemma EndsNoLater(a: seq<Token>, b: seq<Token>, c: seq<Token>, d: seq<Token>, x: Token)
    requires a + b == c + d && x !in b && (c == [] || c[|c| - 1] == x)
    ensures |c| <= |a|
  {
    var all := a + b;
    assert forall i :: |a| <= i < |all| ==> all[i] in b;
    assert c != [] ==> (c + d)[|c| - 1] == x;
  }

  /** Where a sequence that ends in a part without the separator can be split. */
  lemma SplitIsUnique(a: seq<Token>, b: seq<Token>, c: seq<Token>, d: seq<Token>, x: Token)
    requires a + b == c + d && x !in b && x !in d
    requires a == [] || a[|a| - 1] == x
    requires c == [] || c[|c| - 1] == x
    ensures a == c && b == d
  {
    var all := a + b;
    EndsNoLater(a, b, c, d, x);
    EndsNoLater(c, d, a, b, x);
    assert all[..|a|] == a && all[..|c|] == c && all[|a|..] == b && all[|c|..] == d;
  }

  lemma CellTokensDiffer(a: string, b: string)
    requires CellTokens(a) == CellTokens(b)
    ensures a == b
  {
    forall i | 0 <= i < |a| ensures a[i] == b[i] {
      assert CellTokens(a)[i] == CellTokens(b)[i];
    }
  }

  lemma {:induction false} RowTokensDiffer(a: seq<string>, b: seq<string>)
    requires a != [] && b != [] && RowTokens(a) == RowTokens(b)
    ensures a == b
  {
    var s, t, x, y := a[..|a| - 1], b[..|b| - 1], a[|a| - 1], b[|b| - 1];
    assert a == s + [x] && b == t + [y];
    RowTokensOfSnoc(s, x);
    RowTokensOfSnoc(t, y);
    SplitIsUnique(RowStart(s), CellTokens(x), RowStart(t), CellTokens(y), Comma);
    CellTokensDiffer(x, y);
    if s != [] && t != [] {
      assert RowStart(s)[..|RowTokens(s)|] == RowTokens(s) && RowStart(t)[..|RowTokens(t)|] == RowTokens(t);
      RowTokensDiffer(s, t);
    }
  }

  lemma LastLineIsUnique(a: seq<Token>, b: seq<Token>, c: seq<Token>, d: seq<Token>)
    requires a + b + [LineEnd] == c + d + [LineEnd] && LineEnd !in b && LineEnd !in d
    requires a == [] || a[|a| - 1] == LineEnd
    requires c == [] || c[|c| - 1] == LineEnd
    ensures a == c && b == d
  {
    assert (a + b + [LineEnd])[..|a + b|] == a + b && (c + d + [LineEnd])[..|c + d|] == c + d;
    SplitIsUnique(a, b, c, d, LineEnd);
  }

  lemma InitHasRows(a: Grid)
    requires a != [] && HasRows(a)
    ensures HasRows(a[..|a| - 1]) && a[|a| - 1] != []
  {
    var init := a[..|a| - 1];
    assert a[|a| - 1] in a;
    forall r | r in init ensures r != [] {
      assert r in a;
    }
  }

  lemma {:induction false} GridTokensDiffer(a: Grid, b: Grid)
    requires HasRows(a) && HasRows(b) && GridTokens(a) == GridTokens(b)
    ensures a == b
  {
    if a != [] && b != [] {
      var s, t, x, y := a[..|a| - 1], b[..|b| - 1], a[|a| - 1], b[|b| - 1];
      assert a == s + [x] && b == t + [y];
      InitHasRows(a);
      InitHasRows(b);
      RowsHaveNoLineEnd(x);
      RowsHaveNoLineEnd(y);
      LastLineIsUnique(GridTokens(s), RowTokens(x), GridTokens(t), RowTokens(y));
      RowTokensDiffer(x, y);
      GridTokensDiffer(s, t);
    }
  }

  /** So the parser delivers the one grid that says what the text says. */
  lemma ParsedIff(s: string, rows: Grid)
    requires HasRows(rows)
    ensures Parse(s) == rows <==> GridTokens(rows) == Ended(SaysFrom(s, 0))
  {
    ParserReadsEverything(s);
    if GridTokens(rows) == Ended(SaysFrom(s, 0)) {
      GridTokensDiffer(Parse(s), rows);
    }
  }

  // -- The printers ----------------------------------------------------------------------------------

  /** An exported value is quoted when it holds a comma, a quote, a line feed or a carriage return; then its
      quotes are doubled. A value of the audit log that holds a carriage return only is not quoted. */
  lemma PrintedCellIs(s: string)
    ensures PrintCell(s, ExportQuotes()(s))
      == if ',' in s || '"' in s || '\n' in s || '\r' in s then "\"" + Doubled(s) + "\"" else s
    ensures PrintCell(s, AuditQuotes()(s)) == if ',' in s || '"' in s || '\n' in s then "\"" + Doubled(s) + "\"" else s
  {
  }

  lemma {:induction false} DoubledIs(a: string, b: string, c: char)
    ensures Doubled("") == "" && Doubled("\"") == "\"\"" && (c != '"' ==> Doubled([c]) == [c])
    ensures Doubled(a + b) == Doubled(a) + Doubled(b)
  {
    if a == [] {
      assert a + b == b;
    } else {
      assert (a + b)[1..] == a[1..] + b;
      DoubledIs(a[1..], b, c);
    }
  }

  /** A row is its cells with commas between them. */
  lemma {:induction false} PrintedRowIs(cells: seq<string>, last: string, quote: Quoting)
    ensures PrintRow([last], quote) == PrintCell(last, quote(last))
    ensures cells != [] ==> PrintRow(cells + [last], quote) == PrintRow(cells, quote) + "," + PrintCell(last, quote(last))
  {
    if |cells| == 1 {
      assert (cells + [last])[1..] == [last];
    } else if |cells| > 1 {
      assert (cells + [last])[1..] == cells[1..] + [last];
      PrintedRowIs(cells[1..], last, quote);
      var first, more := PrintCell(cells[0], quote(cells[0])), PrintRow(cells[1..], quote);
      assert first + "," + (more + "," + PrintCell(last, quote(last))) == first + "," + more + "," + PrintCell(last, quote(last));
    }
  }

  /** Every line of an export ends with a line feed, the lines of the audit log have a carriage return and a line
      feed between them. */
  lemma {:induction false} PrintedLinesAre(grid: Grid, last: seq<string>, quote: Quoting)
    ensures PrintLines([], quote) == ""
    ensures PrintLines(grid + [last], quote) == PrintLines(grid, quote) + PrintRow(last, quote) + "\n"
    ensures PrintCrLf([], quote) == "" && PrintCrLf([last], quote) == PrintRow(last, quote)
    ensures grid != [] ==> PrintCrLf(grid + [last], quote) == PrintCrLf(grid, quote) + "\r\n" + PrintRow(last, quote)
  {
    if grid == [] {
      assert grid + [last] == [last];
    } else {
      assert (grid + [last])[1..] == grid[1..] + [last];
      PrintedLinesAre(grid[1..], last, quote);
      LinesAssociate(PrintRow(grid[0], quote) + "\n", PrintLines(grid[1..], quote), PrintRow(last, quote) + "\n");
      ConcatAssociates(PrintLines(grid[1..], quote), PrintRow(last, quote), "\n");
      ConcatAssociates(PrintLines(grid, quote), PrintRow(last, quote), "\n");
      if |grid| > 1 {
        ConcatAssociates(PrintRow(grid[0], quote) + "\r\n", PrintCrLf(grid[1..], quote) + "\r\n", PrintRow(last, quote));
        ConcatAssociates(PrintRow(grid[0], quote) + "\r\n", PrintCrLf(grid[1..], quote), "\r\n");
      }
    }
  }

  lemma LinesAssociate(a: string, b: string, c: string)
    ensures a + (b + c) == a + b + c
  {
  }

  // -- What is exported ------------------------------------------------------------------------------

  lemma {:induction false} NameAt(r: Record, n: nat)
    requires n < |r|
    ensures |Names(r)| == |r| && Names(r)[n] == r[n].0
  {
    if n > 0 {
      NameAt(r[1..], n - 1);
    } else if |r| > 1 {
      NameAt(r[1..], 0);
    }
  }

  /** Column `m` is the first one of the row with that name. */
  ghost predicate FirstNamed(r: Record, m: int, name: string) {
    0 <= m < |r| && r[m].0 == name && forall j :: 0 <= j < m ==> r[j].0 != name
  }

  lemma {:induction false} LookupIs(r: Record, name: string)
    ensures forall m :: FirstNamed(r, m, name) ==> Lookup(r, name) == if r[m].1.Some? then r[m].1.value else ""
    ensures (forall m :: 0 <= m < |r| ==> r[m].0 != name) ==> Lookup(r, name) == ""
  {
    if r != [] {
      LookupIs(r[1..], name);
      forall m | FirstNamed(r, m, name) && m > 0 ensures FirstNamed(r[1..], m - 1, name) && r[1..][m - 1] == r[m] {
      }
    }
  }

  lemma {:induction false} CellAt(r: Record, names: seq<string>, n: nat)
    requires n < |names|
    ensures Cells(r, names)[n] == Lookup(r, names[n])
  {
    if n > 0 {
      CellAt(r, names[1..], n - 1);
    }
  }

  lemma {:induction false} CellsAt(rows: seq<Record>, names: seq<string>, k: nat)
    requires k < |rows|
    ensures AllCells(rows, names)[k] == Cells(rows[k], names)
  {
    if k > 0 {
      CellsAt(rows[1..], names, k - 1);
    }
  }

  /** The grid of an export: the names of the first row's columns, and under each name the value that a row has
      under it, or nothing when it has none or null. */
  lemma ExportedGridIs(rows: seq<Record>, k: nat, n: nat)
    requires k < |rows| && n < |rows[0]|
    ensures var grid, name := GridOf(rows), rows[0][n].0;
      && |grid| == |rows| + 1 && |grid[0]| == |rows[0]| && grid[0][n] == name
      && |grid[k + 1]| == |rows[0]|
      && (forall m :: FirstNamed(rows[k], m, name) ==>
           grid[k + 1][n] == if rows[k][m].1.Some? then rows[k][m].1.value else "")
      && ((forall m :: 0 <= m < |rows[k]| ==> rows[k][m].0 != name) ==> grid[k + 1][n] == "")
  {
    NameAt(rows[0], n);
    CellsAt(rows, Names(rows[0]), k);
    CellAt(rows[k], Names(rows[0]), n);
    LookupIs(rows[k], rows[0][n].0);
  }

  /** The export round trip with its characters: it holds exactly when there is a column, and no column name
      holds a quote, a comma, a line feed or a carriage return. */
  lemma ExportRoundTripOfColumns(rows: seq<Record>)
    ensures Parse(ToCsv(rows)) == GridOf(rows) <==>
      (rows != [] ==> rows[0] != [] && forall n :: 0 <= n < |rows[0]| ==>
        '"' !in rows[0][n].0 && ',' !in rows[0][n].0 && '\n' !in rows[0][n].0 && '\r' !in rows[0][n].0)
  {
    ExportRoundTripIff(rows);
    if rows != [] {
      forall n | 0 <= n < |rows[0]| ensures |Names(rows[0])| == |rows[0]| && Names(rows[0])[n] == rows[0][n].0 {
        NameAt(rows[0], n);
      }
      assert rows[0] == [] ==> Names(rows[0]) == [];
      PlainIff(rows[0]);
    }
  }

  predicate PlainName(name: string) {
    '"' !in name && ',' !in name && '\n' !in name && '\r' !in name
  }

  lemma PlainNameIff(name: string)
    ensures PlainName(name) <==> Bare(name) && '\r' !in name
  {
  }

  lemma {:induction false} PlainIff(r: Record)
    ensures PlainNames(Names(r)) <==> forall n :: 0 <= n < |r| ==> PlainName(r[n].0)
  {
    if r != [] {
      PlainIff(r[1..]);
      PlainNameIff(r[0].0);
      assert Names(r) == [r[0].0] + Names(r[1..]);
      assert PlainNames(Names(r)) <==> PlainName(r[0].0) && PlainNames(Names(r[1..]));
      assert forall n :: 0 < n < |r| ==> r[n] == r[1..][n - 1];
      assert forall n :: 0 <= n < |r[1..]| ==> r[1..][n] == r[n + 1];
    }
  }

  /** The audit round trip with its characters. */
  lemma AuditRoundTripOfCells(grid: Grid)
    requires forall r :: r in grid ==> |r| >= 2
    ensures Parse(AuditCsv(grid)) == grid <==>
      forall r, c :: r in grid && c in r && '\r' in c ==> ',' in c || '\n' in c || '"' in c
  {
    AuditRoundTripIff(grid);
  }
}
