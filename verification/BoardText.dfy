/** `board_io/`: boards as text, written and read. */
module BoardText {
  import opened Pieces

  datatype Man = Man(color: Color, kind: Kind)

  /** What a board text says: its size and who stands where. */
  datatype Layout = Layout(height: nat, width: nat, men: map<Position, Man>)

  datatype Parse = Rows(rows: seq<seq<string>>) | RowWidthMismatch | UnknownToken

  const EMPTY_CELL := "."

  // ----- tokens --------------------------------------------------------------------------------------

  function ColorLetter(color: Color): char {
    if color.White? then 'w' else 'b'
  }

  function KindLetter(kind: Kind): char {
    match kind
    case King => 'K'
    case Queen => 'Q'
    case Rook => 'R'
    case Bishop => 'B'
    case Knight => 'N'
    case Pawn => 'P'
  }

  function TokenOf(man: Man): string {
    [ColorLetter(man.color), KindLetter(man.kind)]
  }

  function ManOf(token: string): Option<Man> {
    if |token| != 2 || (token[0] != 'w' && token[0] != 'b') then None
    else
      var color := if token[0] == 'w' then White else Black;
      match token[1]
      case 'K' => Some(Man(color, King))
      case 'Q' => Some(Man(color, Queen))
      case 'R' => Some(Man(color, Rook))
      case 'B' => Some(Man(color, Bishop))
      case 'N' => Some(Man(color, Knight))
      case 'P' => Some(Man(color, Pawn))
      case _ => None
  }

  predicate ValidToken(token: string) {
    token == EMPTY_CELL || ManOf(token).Some?
  }

  // ----- splitting and joining -------------------------------------------------------------------------

  predicate IsSpace(c: char) {
    c == ' ' || c == '\t' || c == '\n' || c == '\r' || c == 0xB as char || c == 0xC as char
  }

  function Join(parts: seq<string>, separator: char): string {
    if parts == [] then ""
    else if |parts| == 1 then parts[0]
    else parts[0] + [separator] + Join(parts[1..], separator)
  }

  function WordEnd(s: string): (n: nat)
    ensures n <= |s|
    ensures forall i :: 0 <= i < n ==> !IsSpace(s[i])
    ensures n < |s| ==> IsSpace(s[n])
  {
    if s == "" || IsSpace(s[0]) then 0 else 1 + WordEnd(s[1..])
  }

  /** `str.split()`. */
  function Words(s: string): seq<string>
    decreases |s|
  {
    if s == "" then []
    else if IsSpace(s[0]) then Words(s[1..])
    else [s[..WordEnd(s)]] + Words(s[WordEnd(s)..])
  }

  function LineEnd(s: string): (n: nat)
    ensures n <= |s|
    ensures forall i :: 0 <= i < n ==> s[i] != '\n'
    ensures n < |s| ==> s[n] == '\n'
  {
    if s == "" || s[0] == '\n' then 0 else 1 + LineEnd(s[1..])
  }

  /** `str.split("\n")`. */
  function Lines(s: string): seq<string>
    decreases |s|
  {
    var n := LineEnd(s);
    if n == |s| then [s] else [s[..n]] + Lines(s[n + 1..])
  }

  ghost predicate IsWord(s: string) {
    s != "" && forall i :: 0 <= i < |s| ==> !IsSpace(s[i])
  }

  ghost predicate IsLine(s: string) {
    forall i :: 0 <= i < |s| ==> s[i] != '\n'
  }

  lemma {:induction false} WordEndUnique(s: string, n: nat)
    requires n <= |s| && (forall i :: 0 <= i < n ==> !IsSpace(s[i])) && (n < |s| ==> IsSpace(s[n]))
    ensures WordEnd(s) == n
  {
    if n > 0 {
      WordEndUnique(s[1..], n - 1);
    }
  }

  lemma {:induction false} LineEndUnique(s: string, n: nat)
    requires n <= |s| && (forall i :: 0 <= i < n ==> s[i] != '\n') && (n < |s| ==> s[n] == '\n')
    ensures LineEnd(s) == n
  {
    if n > 0 {
      LineEndUnique(s[1..], n - 1);
    }
  }

  /** Words joined by spaces are read back as those words. */
  lemma {:induction false} WordsReadBack(words: seq<string>)
    requires forall i :: 0 <= i < |words| ==> IsWord(words[i])
    ensures Words(Join(words, ' ')) == words
  {
    if words != [] {
      var s, w := Join(words, ' '), words[0];
      if |words| == 1 {
        WordEndUnique(s, |w|);
        assert s[..|w|] == w && s[|w|..] == "";
      } else {
        var rest := Join(words[1..], ' ');
        assert s == w + [' '] + rest;
        WordEndUnique(s, |w|);
        assert s[..|w|] == w && s[|w|..] == [' '] + rest;
        assert ([' '] + rest)[1..] == rest;
        WordsReadBack(words[1..]);
        assert Words([' '] + rest) == Words(rest);
      }
    }
  }

  /** Lines joined by line breaks are read back as those lines. */
  lemma {:induction false} LinesReadBack(lines: seq<string>)
    requires lines != [] && forall i :: 0 <= i < |lines| ==> IsLine(lines[i])
    ensures Lines(Join(lines, '\n')) == lines
  {
    var s, l := Join(lines, '\n'), lines[0];
    if |lines| == 1 {
      LineEndUnique(s, |l|);
    } else {
      var rest := Join(lines[1..], '\n');
      assert s == l + ['\n'] + rest;
      LineEndUnique(s, |l|);
      assert s[..|l|] == l && s[|l| + 1..] == rest;
      LinesReadBack(lines[1..]);
    }
  }

  lemma {:induction false} JoinIsLine(words: seq<string>)
    requires forall i :: 0 <= i < |words| ==> IsWord(words[i])
    ensures IsLine(Join(words, ' '))
  {
    if |words| == 1 {
      assert IsWord(words[0]);
    } else if words != [] {
      JoinIsLine(words[1..]);
      assert IsWord(words[0]);
    }
  }

  // ----- writing -----------------------------------------------------------------------------------------

  function CellText(men: map<Position, Man>, cell: Position): string {
    if cell in men then TokenOf(men[cell]) else EMPTY_CELL
  }

  function RowTokens(layout: Layout, row: nat): (tokens: seq<string>)
    ensures |tokens| == layout.width
  {
    seq(layout.width, col requires 0 <= col < layout.width => CellText(layout.men, Position(row, col)))
  }

  function Grid(layout: Layout): (grid: seq<seq<string>>)
    ensures |grid| == layout.height
  {
    seq(layout.height, row requires 0 <= row < layout.height => RowTokens(layout, row))
  }

  function RowTexts(grid: seq<seq<string>>): (texts: seq<string>)
    ensures |texts| == |grid|
  {
    seq(|grid|, row requires 0 <= row < |grid| => Join(grid[row], ' '))
  }

  function Text(layout: Layout): string {
    Join(RowTexts(Grid(layout)), '\n')
  }

  function Painted(pieces: seq<(Position, Man)>): map<Position, Man>
    decreases |pieces|
  {
    if pieces == [] then map[] else Painted(pieces[..|pieces| - 1])[pieces[|pieces| - 1].0 := pieces[|pieces| - 1].1]
  }

  /** `BoardPrinter.render`, for a snapshot with nothing in flight. */
  method Render(height: nat, width: nat, pieces: seq<(Position, Man)>) returns (text: string)
    requires forall i :: 0 <= i < |pieces| ==> 0 <= pieces[i].0.row < height && 0 <= pieces[i].0.col < width
    ensures text == Text(Layout(height, width, Painted(pieces)))
  {
    var grid := seq(height, row requires 0 <= row < height => seq(width, col requires 0 <= col < width => EMPTY_CELL));
    EmptyGrid(height, width, grid);
    for i := 0 to |pieces|
      invariant grid == Grid(Layout(height, width, Painted(pieces[..i])))
    {
      var (cell, man) := pieces[i];
      ghost var before := Layout(height, width, Painted(pieces[..i]));
      grid := grid[cell.row := grid[cell.row][cell.col := TokenOf(man)]];
      assert pieces[..i + 1][..i] == pieces[..i];
      PaintOne(before, cell, man);
    }
    assert pieces[..|pieces|] == pieces;
    text := Join(RowTexts(grid), '\n');
  }

  lemma EmptyGrid(height: nat, width: nat, grid: seq<seq<string>>)
    requires |grid| == height
    requires forall row :: 0 <= row < height ==> |grid[row]| == width
    requires forall row, col :: 0 <= row < height && 0 <= col < width ==> grid[row][col] == EMPTY_CELL
    ensures grid == Grid(Layout(height, width, map[]))
  {
    forall row | 0 <= row < height ensures grid[row] == RowTokens(Layout(height, width, map[]), row) {
    }
  }

  lemma PaintOne(layout: Layout, cell: Position, man: Man)
    requires 0 <= cell.row < layout.height && 0 <= cell.col < layout.width
    ensures Grid(layout)[cell.row := Grid(layout)[cell.row][cell.col := TokenOf(man)]] ==
      Grid(layout.(men := layout.men[cell := man]))
  {
    var after := layout.(men := layout.men[cell := man]);
    forall row | 0 <= row < layout.height
      ensures Grid(after)[row] ==
        if row == cell.row then Grid(layout)[row][cell.col := TokenOf(man)] else Grid(layout)[row]
    {
      forall col | 0 <= col < layout.width
        ensures RowTokens(after, row)[col] ==
          if row == cell.row && col == cell.col then TokenOf(man) else RowTokens(layout, row)[col]
      {
      }
    }
  }

  // ----- reading -----------------------------------------------------------------------------------------

  predicate AllValid(tokens: seq<string>) {
    forall i :: 0 <= i < |tokens| ==> ValidToken(tokens[i])
  }

  /** `build_board`, after the rows already read: blank lines are skipped, every row must be
      as wide as the first, and every token known. */
  function ReadRows(rows: seq<seq<string>>, lines: seq<string>): Parse
    decreases |lines|
  {
    if lines == [] then Rows(rows)
    else
      var tokens := Words(lines[0]);
      if tokens == [] then ReadRows(rows, lines[1..])
      else if rows != [] && |tokens| != |rows[0]| then RowWidthMismatch
      else if !AllValid(tokens) then UnknownToken
      else ReadRows(rows + [tokens], lines[1..])
  }

  method BuildBoard(lines: seq<string>) returns (parse: Parse)
    ensures parse == ReadRows([], lines)
  {
    var rows: seq<seq<string>> := [];
    var width: Option<nat> := None;
    for i := 0 to |lines|
      invariant ReadRows(rows, lines[i..]) == ReadRows([], lines)
      invariant width == if rows == [] then None else Some(|rows[0]|)
    {
      assert lines[i..][1..] == lines[i + 1..];
      var tokens := Words(lines[i]);
      if tokens != [] {
        if width.None? {
          width := Some(|tokens|);
        } else if |tokens| != width.value {
          return RowWidthMismatch;
        }
        for n := 0 to |tokens|
          invariant forall m :: 0 <= m < n ==> ValidToken(tokens[m])
        {
          if !ValidToken(tokens[n]) {
            return UnknownToken;
          }
        }
        rows := rows + [tokens];
      }
    }
    parse := Rows(rows);
  }

  /** `Board.__init__`: the men on the non-empty tokens. */
  function LayoutOf(rows: seq<seq<string>>): Layout
    requires forall i :: 0 <= i < |rows| ==> |rows[i]| == |rows[0]| && AllValid(rows[i])
  {
    var width := if rows == [] then 0 else |rows[0]|;
    Layout(|rows|, width,
           map row: int, col: int | 0 <= row < |rows| && 0 <= col < width && ManOf(rows[row][col]).Some? ::
             Position(row, col) := ManOf(rows[row][col]).value)
  }

  ghost predicate InBounds(layout: Layout) {
    forall c :: c in layout.men ==> 0 <= c.row < layout.height && 0 <= c.col < layout.width
  }

  // ----- the round trip ------------------------------------------------------------------------------------

  lemma CellTextIsWord(men: map<Position, Man>, cell: Position)
    ensures IsWord(CellText(men, cell)) && ValidToken(CellText(men, cell))
    ensures ManOf(CellText(men, cell)) == if cell in men then Some(men[cell]) else None
  {
  }

  lemma RowReadsBack(layout: Layout, row: nat)
    ensures var tokens := RowTokens(layout, row);
      Words(Join(tokens, ' ')) == tokens && IsLine(Join(tokens, ' ')) && AllValid(tokens)
  {
    var tokens := RowTokens(layout, row);
    forall col | 0 <= col < |tokens| ensures IsWord(tokens[col]) && ValidToken(tokens[col]) {
      CellTextIsWord(layout.men, Position(row, col));
    }
    WordsReadBack(tokens);
    JoinIsLine(tokens);
  }

  /** Reading the texts of the rows from `done` on completes the grid. */
  lemma {:induction false} RowsReadBack(layout: Layout, done: nat)
    requires layout.width >= 1 && done <= layout.height
    ensures ReadRows(Grid(layout)[..done], RowTexts(Grid(layout))[done..]) == Rows(Grid(layout))
    decreases layout.height - done
  {
    hide Words, Join, AllValid;
    var grid, texts := Grid(layout), RowTexts(Grid(layout));
    if done == layout.height {
      assert grid[..done] == grid && texts[done..] == [];
    } else {
      RowReadsBack(layout, done);
      assert texts[done..][0] == Join(grid[done], ' ') && texts[done..][1..] == texts[done + 1..];
      assert grid[..done] + [grid[done]] == grid[..done + 1];
      assert |grid[done]| == layout.width && (done > 0 ==> |grid[..done][0]| == layout.width);
      RowsReadBack(layout, done + 1);
    }
  }

  lemma LayoutOfGrid(layout: Layout)
    requires layout.width >= 1 && layout.height >= 1 && InBounds(layout)
    ensures forall i :: 0 <= i < |Grid(layout)| ==> |Grid(layout)[i]| == |Grid(layout)[0]| && AllValid(Grid(layout)[i])
    ensures LayoutOf(Grid(layout)) == layout
  {
    var grid := Grid(layout);
    forall row | 0 <= row < |grid| ensures AllValid(grid[row]) {
      RowReadsBack(layout, row);
    }
    forall row, col | 0 <= row < layout.height && 0 <= col < layout.width
      ensures ManOf(grid[row][col]) ==
        if Position(row, col) in layout.men then Some(layout.men[Position(row, col)]) else None
    {
      CellTextIsWord(layout.men, Position(row, col));
    }
    var men := LayoutOf(grid).men;
    forall c ensures c in men <==> c in layout.men {
      assert c == Position(c.row, c.col);
    }
    assert men.Keys == layout.men.Keys;
  }

  /** Writing a board and reading the lines back gives the same board: same size, and the same
      colour and kind on every cell. */
  lemma RoundTrip(layout: Layout)
    requires layout.width >= 1 && layout.height >= 1 && InBounds(layout)
    ensures ReadRows([], Lines(Text(layout))) == Rows(Grid(layout))
    ensures forall i :: 0 <= i < |Grid(layout)| ==> |Grid(layout)[i]| == |Grid(layout)[0]| && AllValid(Grid(layout)[i])
    ensures LayoutOf(Grid(layout)) == layout
  {
    var texts := RowTexts(Grid(layout));
    forall row | 0 <= row < |texts| ensures IsLine(texts[row]) {
      RowReadsBack(layout, row);
    }
    LinesReadBack(texts);
    RowsReadBack(layout, 0);
    assert Grid(layout)[..0] == [] && texts[0..] == texts;
    LayoutOfGrid(layout);
  }

  /** A board of no columns is written as blank lines, which are read as no board at all. */
  lemma {:induction false} NoColumns(rows: seq<seq<string>>, lines: seq<string>)
    requires forall i :: 0 <= i < |lines| ==> lines[i] == ""
    ensures ReadRows(rows, lines) == Rows(rows)
    decreases |lines|
  {
    if lines != [] {
      NoColumns(rows, lines[1..]);
    }
  }

  // ----- what the reader accepts ------------------------------------------------------------------------------

  ghost predicate Rectangular(rows: seq<seq<string>>) {
    forall i :: 0 <= i < |rows| ==> |rows[i]| == |rows[0]| && |rows[i]| >= 1 && AllValid(rows[i])
  }

  /** Whatever is accepted is a rectangle of known tokens. */
  lemma {:induction false} AcceptedIsRectangular(rows: seq<seq<string>>, lines: seq<string>)
    requires Rectangular(rows) && ReadRows(rows, lines).Rows?
    ensures Rectangular(ReadRows(rows, lines).rows)
    decreases |lines|
  {
    if lines != [] {
      var tokens := Words(lines[0]);
      if tokens == [] {
        AcceptedIsRectangular(rows, lines[1..]);
      } else {
        AcceptedIsRectangular(rows + [tokens], lines[1..]);
      }
    }
  }

  // ----- exactly which boards survive --------------------------------------------------------------------------

  /** A text without rows or without columns is read as a board of no rows. */
  lemma NothingReadBack(layout: Layout)
    requires layout.width == 0 || layout.height == 0
    ensures ReadRows([], Lines(Text(layout))) == Rows([])
  {
    if layout.height == 0 {
      assert RowTexts(Grid(layout)) == [] && Lines("") == [""];
      NoColumns([], [""]);
    } else {
      var texts := RowTexts(Grid(layout));
      forall row | 0 <= row < |texts| ensures texts[row] == "" {
        assert Grid(layout)[row] == [];
      }
      LinesReadBack(texts);
      NoColumns([], texts);
    }
  }

  /** Every board in bounds is read back as some board, and as itself exactly when it has a
      cell, or neither rows nor columns. */
  lemma SurvivesExactly(layout: Layout)
    requires InBounds(layout)
    ensures var parse := ReadRows([], Lines(Text(layout)));
      && parse.Rows? && Rectangular(parse.rows)
      && (LayoutOf(parse.rows) == layout <==>
        (layout.width >= 1 && layout.height >= 1) || (layout.width == 0 && layout.height == 0))
  {
    if layout.width >= 1 && layout.height >= 1 {
      RoundTrip(layout);
      AcceptedIsRectangular([], Lines(Text(layout)));
    } else {
      NothingReadBack(layout);
      var none: seq<seq<string>> := [];
      assert LayoutOf(none) == Layout(0, 0, map[]);
      assert layout.men == map[] by {
        if c :| c in layout.men { assert false; }
      }
    }
  }

  // ----- which texts are accepted --------------------------------------------------------------------------------

  /** The lines that say something, split into words. */
  function Wordy(lines: seq<string>): seq<seq<string>>
    decreases |lines|
  {
    if lines == [] then []
    else (if Words(lines[0]) == [] then [] else [Words(lines[0])]) + Wordy(lines[1..])
  }

  /** The row is as wide as the first one and has nothing but known tokens. */
  ghost predicate GoodRow(rows: seq<seq<string>>, n: nat)
    requires n < |rows|
  {
    |rows[n]| == |rows[0]| && AllValid(rows[n])
  }

  ghost predicate AllGood(rows: seq<seq<string>>) {
    forall n :: 0 <= n < |rows| ==> GoodRow(rows, n)
  }

  /** The first bad row decides the refusal, its width before its tokens. */
  ghost predicate RefusedAt(rows: seq<seq<string>>, n: nat, parse: Parse) {
    && n < |rows| && !GoodRow(rows, n) && (forall m :: 0 <= m < n ==> GoodRow(rows, m))
    && parse == if |rows[n]| != |rows[0]| then RowWidthMismatch else UnknownToken
  }

  /** All good rows are read; otherwise the text is refused. */
  ghost predicate ReadsTo(rows: seq<seq<string>>, parse: Parse) {
    if AllGood(rows) then parse == Rows(rows) else exists n: nat :: RefusedAt(rows, n, parse)
  }

  lemma {:induction false} ReadsOn(rows: seq<seq<string>>, lines: seq<string>)
    requires AllGood(rows)
    ensures ReadsTo(rows + Wordy(lines), ReadRows(rows, lines))
    decreases |lines|
  {
    hide Words, AllValid, AllGood, RefusedAt, ReadsTo;
    if lines == [] {
      assert rows + Wordy(lines) == rows;
      GoodIsRead(rows);
    } else {
      var tokens, all := Words(lines[0]), rows + Wordy(lines);
      if tokens == [] {
        assert Wordy(lines) == Wordy(lines[1..]) && ReadRows(rows, lines) == ReadRows(rows, lines[1..]);
        ReadsOn(rows, lines[1..]);
      } else {
        assert all == (rows + [tokens]) + Wordy(lines[1..]);
        if (rows == [] || |tokens| == |rows[0]|) && AllValid(tokens) {
          NextRowGood(rows, tokens);
          ReadsOn(rows + [tokens], lines[1..]);
        } else {
          NextRowBad(rows, tokens, Wordy(lines[1..]));
          BadIsRefused(all, |rows|, ReadRows(rows, lines));
        }
      }
    }
  }

  lemma GoodIsRead(rows: seq<seq<string>>)
    requires AllGood(rows)
    ensures ReadsTo(rows, Rows(rows))
  {
  }

  lemma BadIsRefused(rows: seq<seq<string>>, n: nat, parse: Parse)
    requires !AllGood(rows) && RefusedAt(rows, n, parse)
    ensures ReadsTo(rows, parse)
  {
    hide RefusedAt, AllGood;
  }

  lemma NextRowGood(rows: seq<seq<string>>, tokens: seq<string>)
    requires AllGood(rows) && (rows != [] ==> |tokens| == |rows[0]|) && AllValid(tokens)
    ensures AllGood(rows + [tokens])
  {
    hide AllValid;
    forall m | 0 <= m < |rows| ensures GoodRow(rows + [tokens], m) {
      assert GoodRow(rows, m);
    }
  }

  lemma NextRowBad(rows: seq<seq<string>>, tokens: seq<string>, rest: seq<seq<string>>)
    requires AllGood(rows) && ((rows != [] && |tokens| != |rows[0]|) || !AllValid(tokens))
    ensures var all := (rows + [tokens]) + rest;
      && !AllGood(all)
      && RefusedAt(all, |rows|, if rows != [] && |tokens| != |rows[0]| then RowWidthMismatch else UnknownToken)
  {
    hide AllValid;
    var all := (rows + [tokens]) + rest;
    assert all[|rows|] == tokens && forall m :: 0 <= m < |rows| ==> all[m] == rows[m];
    forall m | 0 <= m < |rows| ensures GoodRow(all, m) {
      assert GoodRow(rows, m);
    }
    assert !GoodRow(all, |rows|);
  }

  /** A text is accepted exactly when all its lines that say something are equally wide and of
      known tokens, and these are then its rows. Otherwise the first other line decides why it
      is refused: for its width, or else for a token. */
  lemma ReadsExactly(lines: seq<string>)
    ensures ReadsTo(Wordy(lines), ReadRows([], lines))
  {
    ReadsOn([], lines);
    assert [] + Wordy(lines) == Wordy(lines);
  }

  /** The letters of the pieces, and the dot for an empty cell. */
  lemma Letters()
    ensures TokenOf(Man(White, King)) == "wK" && TokenOf(Man(Black, King)) == "bK"
    ensures TokenOf(Man(White, Queen)) == "wQ" && TokenOf(Man(Black, Rook)) == "bR"
    ensures TokenOf(Man(White, Bishop)) == "wB" && TokenOf(Man(Black, Knight)) == "bN"
    ensures TokenOf(Man(White, Pawn)) == "wP"
    ensures ManOf("wK") == Some(Man(White, King)) && ManOf("bQ") == Some(Man(Black, Queen))
    ensures ManOf("wR") == Some(Man(White, Rook)) && ManOf("bB") == Some(Man(Black, Bishop))
    ensures ManOf("wN") == Some(Man(White, Knight)) && ManOf("bP") == Some(Man(Black, Pawn))
    ensures ValidToken(".") && ManOf(".") == None
    ensures !ValidToken("") && !ValidToken("w") && !ValidToken("K") && !ValidToken("xK")
  {
  }

  /** One row of three cells, with a king between two empty cells. */
  lemma OneKing()
    ensures Text(Layout(1, 3, map[Position(0, 1) := Man(White, King)])) == ". wK ."
  {
    var layout := Layout(1, 3, map[Position(0, 1) := Man(White, King)]);
    assert RowTokens(layout, 0) == [".", "wK", "."];
    assert Grid(layout) == [[".", "wK", "."]];
    assert [".", "wK", "."][1..] == ["wK", "."] && ["wK", "."][1..] == ["."];
    assert Join([".", "wK", "."], ' ') == ". wK .";
    assert RowTexts(Grid(layout)) == [". wK ."];
  }
}
