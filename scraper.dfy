/** The results-table extraction of scripts/scraper.py: which rows of the
    table become games, what each game holds, and the query parameter that
    selects a season. A row arrives already taken apart by the HTML parser:
    its class list, its whole text and the texts of its cells. */
module Scraper {
  import opened Wrappers
  import opened PyText
  import opened RecordPattern

  /** One `<tr>` of the results table. `classes` is `None` when the row has
      no `class` attribute; `text` is the row's whole text; `cells` holds the
      text of each `<td>`, not yet stripped. */
  datatype Row = Row(classes: Option<seq<string>>, text: string, cells: seq<string>)

  /** One game as the scraper stores it. */
  datatype Game = Game(
    date: string, opponent: string, location: string, homeAway: string,
    pitcher: string, result: string, score: string,
    wins: nat, losses: nat, draws: nat, netWins: int)

  /** Why a row gives no game. `MissingCell` is the `IndexError` a row with
      15 to 21 cells raises, `BadDate` the `ValueError` of `int()` on a date
      part; the source catches both and moves on to the next row. */
  datatype SkipReason = TooFewCells | Cancelled | MissingCell | NotPlayed | NoDate | BadDate

  datatype RowOutcome = Emitted(game: Game) | Skipped(reason: SkipReason)

  /** The word the table shows for a called-off game ("中止"). */
  const CancelledMark: string := "\U{4E2D}\U{6B62}"

  /** The full-width letter that marks a home game ("Ｈ"). */
  const HomeMark: string := "\U{FF28}"

  /** A row with no `class` attribute, or with neither `Index` nor `Index2`
      among its classes. */
  predicate IsDataRow(row: Row) {
    row.classes.None? || ("Index" !in row.classes.value && "Index2" !in row.classes.value)
  }

  /** The list comprehension that drops the header rows. */
  function DataRows(rows: seq<Row>): (d: seq<Row>)
    ensures |d| <= |rows|
    ensures forall k :: 0 <= k < |d| ==> IsDataRow(d[k])
    decreases |rows|
  {
    if rows == [] then []
    else if IsDataRow(rows[0]) then [rows[0]] + DataRows(rows[1..])
    else DataRows(rows[1..])
  }

  /** `"H"` when the home/away cell holds the full-width `Ｈ`, otherwise `"V"`. */
  function HomeAway(cell: string): string {
    if Contains(cell, HomeMark) then "H" else "V"
  }

  /** The body of the loop over the data rows, one row at a time, with every
      `continue` and every exception the `except` clause catches. */
  function ExtractRow(row: Row): RowOutcome {
    var cells := row.cells;
    if |cells| < 15 then Skipped(TooFewCells)
    else if Contains(row.text, CancelledMark) then Skipped(Cancelled)
    else if |cells| < 18 then Skipped(MissingCell)
    else if Strip(cells[17]) == [] then Skipped(NotPlayed)
    else if |cells| < 22 then Skipped(MissingCell)
    else
      var rec := ParseRecord(Strip(cells[21]));
      var parts := Split(Strip(cells[0]), '/');
      if |parts| < 2 then Skipped(NoDate)
      else
        match (PyInt(parts[0]), PyInt(parts[1]))
        case (Some(month), Some(day)) =>
          Emitted(Game(
            IntToDecimal(month) + "/" + IntToDecimal(day),
            Strip(cells[2]), Strip(cells[3]), HomeAway(Strip(cells[4])),
            Strip(cells[7]), Strip(cells[17]), Strip(cells[18]),
            rec.wins, rec.losses, rec.draws, rec.netWins))
        case _ => Skipped(BadDate)
  }

  /** What the loop body decides for each row, in row order. */
  function Outcomes(rows: seq<Row>): seq<RowOutcome> {
    seq(|rows|, k requires 0 <= k < |rows| => ExtractRow(rows[k]))
  }

  /** The games of the emitted outcomes, in order. */
  function EmittedGames(os: seq<RowOutcome>): seq<Game>
    decreases |os|
  {
    if os == [] then []
    else
      var last := os[|os| - 1];
      EmittedGames(os[..|os| - 1]) + (if last.Emitted? then [last.game] else [])
  }

  /** The games a sequence of data rows yields, in row order. */
  function GamesOf(rows: seq<Row>): seq<Game> {
    EmittedGames(Outcomes(rows))
  }

  /** What `parse_game_data` returns: nothing when the page has no `Base`
      table, otherwise the games of its data rows. */
  function TableGames(table: Option<seq<Row>>): seq<Game> {
    match table
    case None => []
    case Some(rows) => GamesOf(DataRows(rows))
  }

  /** `parse_game_data`: the loop over the data rows that appends each game
      and skips a row with `continue` or through the `except` clause. */
  method ParseGameData(table: Option<seq<Row>>) returns (games: seq<Game>)
    ensures games == TableGames(table)
    ensures table.None? ==> games == []
  {
    if table.None? {
      return [];
    }
    var dataRows := DataRows(table.value);
    games := [];
    for k := 0 to |dataRows|
      invariant games == GamesOf(dataRows[..k])
    {
      assert Outcomes(dataRows[..k + 1]) == Outcomes(dataRows[..k]) + [ExtractRow(dataRows[k])];
      var outcome := ExtractRow(dataRows[k]);
      if outcome.Skipped? {
        continue;
      }
      games := games + [outcome.game];
    }
    assert dataRows[..|dataRows|] == dataRows;
  }

  /** The query parameter `y` for a season: the site serves the 2025 season
      under `y=0`. */
  function YParam(year: int): int {
    if year == 2025 then 0 else year
  }

  // ----- Header rows -----

  /** A row is processed exactly when it has no class attribute or neither
      header class, and the data rows keep their order. */
  lemma {:induction false} DataRowsKeep(rows: seq<Row>, r: Row)
    ensures r in DataRows(rows) <==> r in rows && IsDataRow(r)
    decreases |rows|
  {
    if rows != [] {
      DataRowsKeep(rows[1..], r);
      assert r in rows <==> r == rows[0] || r in rows[1..];
    }
  }

  /** Dropping header rows commutes with putting tables end to end. */
  lemma {:induction false} DataRowsAppend(a: seq<Row>, b: seq<Row>)
    ensures DataRows(a + b) == DataRows(a) + DataRows(b)
    decreases |a|
  {
    if a != [] {
      assert (a + b)[0] == a[0] && (a + b)[1..] == a[1..] + b;
      DataRowsAppend(a[1..], b);
    } else {
      assert a + b == b;
    }
  }

  /** A row with class `Index` or `Index2` never yields a game. */
  lemma HeaderRowIgnored(r: Row, rows: seq<Row>)
    requires r.classes.Some? && ("Index" in r.classes.value || "Index2" in r.classes.value)
    ensures DataRows([r] + rows) == DataRows(rows)
    ensures TableGames(Some([r] + rows)) == TableGames(Some(rows))
  {
    assert ([r] + rows)[1..] == rows;
  }

  // ----- The games of a table -----

  /** The outcomes of two stretches of rows are the outcomes of each. */
  lemma OutcomesAppend(a: seq<Row>, b: seq<Row>)
    ensures Outcomes(a + b) == Outcomes(a) + Outcomes(b)
  {
  }

  lemma {:induction false} EmittedGamesAppend(a: seq<RowOutcome>, b: seq<RowOutcome>)
    ensures EmittedGames(a + b) == EmittedGames(a) + EmittedGames(b)
    decreases |b|
  {
    if b == [] {
      assert a + b == a;
    } else {
      var c := a + b;
      var init := b[..|b| - 1];
      var tail := if b[|b| - 1].Emitted? then [b[|b| - 1].game] else [];
      assert c[..|c| - 1] == a + init;
      assert c[|c| - 1] == b[|b| - 1];
      EmittedGamesAppend(a, init);
      calc {
        EmittedGames(c);
        EmittedGames(a + init) + tail;
        EmittedGames(a) + EmittedGames(init) + tail;
        EmittedGames(a) + (EmittedGames(init) + tail);
        EmittedGames(a) + EmittedGames(b);
      }
    }
  }

  /** The games of two stretches of rows are the games of each, in order. */
  lemma GamesOfAppend(a: seq<Row>, b: seq<Row>)
    ensures GamesOf(a + b) == GamesOf(a) + GamesOf(b)
  {
    OutcomesAppend(a, b);
    EmittedGamesAppend(Outcomes(a), Outcomes(b));
  }

  /** The games of a single row. */
  lemma GamesOfOne(r: Row)
    ensures GamesOf([r]) == (if ExtractRow(r).Emitted? then [ExtractRow(r).game] else [])
  {
    var os := Outcomes([r]);
    assert os == [ExtractRow(r)];
    assert os[..0] == [];
    assert EmittedGames(os) == EmittedGames(os[..0]) + (if os[0].Emitted? then [os[0].game] else []);
  }

  /** A skipped row contributes nothing, and the rows after it are still
      processed. */
  lemma SkippedRowIgnored(before: seq<Row>, r: Row, after: seq<Row>)
    requires ExtractRow(r).Skipped?
    ensures GamesOf(before + [r] + after) == GamesOf(before) + GamesOf(after)
  {
    GamesOfAppend(before + [r], after);
    GamesOfAppend(before, [r]);
    GamesOfOne(r);
    assert GamesOf(before) + [] == GamesOf(before);
  }

  /** An emitted row contributes its game, between the games before it and
      those after it. */
  lemma EmittedRowKept(before: seq<Row>, r: Row, after: seq<Row>)
    requires ExtractRow(r).Emitted?
    ensures GamesOf(before + [r] + after) == GamesOf(before) + [ExtractRow(r).game] + GamesOf(after)
  {
    GamesOfAppend(before + [r], after);
    GamesOfAppend(before, [r]);
    GamesOfOne(r);
  }

  lemma {:induction false} EmittedGamesBound(os: seq<RowOutcome>)
    ensures |EmittedGames(os)| <= |os|
    decreases |os|
  {
    if os != [] {
      EmittedGamesBound(os[..|os| - 1]);
    }
  }

  lemma {:induction false} EmittedGamesFrom(os: seq<RowOutcome>, g: Game)
    ensures g in EmittedGames(os) <==> Emitted(g) in os
    decreases |os|
  {
    if os != [] {
      var init := os[..|os| - 1];
      EmittedGamesFrom(init, g);
      assert os == init + [os[|os| - 1]];
    }
  }

  /** Every game comes from a row that yields it, and every row that yields a
      game contributes it. */
  lemma GamesOfFrom(rows: seq<Row>, g: Game)
    ensures g in GamesOf(rows) <==> exists k :: 0 <= k < |rows| && ExtractRow(rows[k]) == Emitted(g)
  {
    var os := Outcomes(rows);
    EmittedGamesFrom(os, g);
    if Emitted(g) in os {
      var k :| 0 <= k < |os| && os[k] == Emitted(g);
      assert ExtractRow(rows[k]) == Emitted(g);
    }
    if k :| 0 <= k < |rows| && ExtractRow(rows[k]) == Emitted(g) {
      assert os[k] == Emitted(g);
    }
  }

  /** No table yields more games than it has rows. */
  lemma TableGamesBound(rows: seq<Row>)
    ensures |TableGames(Some(rows))| <= |rows|
  {
    EmittedGamesBound(Outcomes(DataRows(rows)));
  }

  // ----- One row -----

  /** A row with fewer than 22 cells never yields a game. Below 15 cells it
      is passed over. From 15 to 21 cells it is skipped as called off, or as
      not yet played, or because reading cell 17, 18 or 21 raises. */
  lemma ShortRowSkipped(row: Row)
    requires |row.cells| < 22
    ensures ExtractRow(row).Skipped?
    ensures |row.cells| < 15 ==> ExtractRow(row) == Skipped(TooFewCells)
  {
  }

  /** A row whose text contains "中止" anywhere never yields a game, whatever
      its cells hold; with 15 cells or more that is the reason it is skipped. */
  lemma CancelledRowSkipped(row: Row, i: nat)
    requires OccursAt(row.text, CancelledMark, i)
    ensures ExtractRow(row).Skipped?
    ensures |row.cells| >= 15 ==> ExtractRow(row) == Skipped(Cancelled)
  {
    ContainsAt(row.text, CancelledMark);
  }

  /** A game not yet played — its result cell holds only whitespace — yields
      no game. */
  lemma UnplayedRowSkipped(row: Row)
    requires |row.cells| >= 18 && AllSpaces(row.cells[17])
    ensures ExtractRow(row).Skipped?
  {
    StripEmpty(row.cells[17]);
  }

  /** A date cell without `/` yields no game. */
  lemma DateWithoutSlashSkipped(row: Row)
    requires |row.cells| >= 1 && '/' !in Strip(row.cells[0])
    ensures ExtractRow(row).Skipped?
  {
    if |row.cells| >= 22 {
      SplitCount(Strip(row.cells[0]), '/');
    }
  }

  /** Which rows yield a game: at least 22 cells, no "中止", a result, a date
      with a `/` whose first two pieces are integers. Nothing about the
      record cell decides it. */
  lemma RowEmittedIff(row: Row)
    ensures ExtractRow(row).Emitted? <==>
      && |row.cells| >= 22
      && !Contains(row.text, CancelledMark)
      && !AllSpaces(row.cells[17])
      && |Split(Strip(row.cells[0]), '/')| >= 2
      && PyInt(Split(Strip(row.cells[0]), '/')[0]).Some?
      && PyInt(Split(Strip(row.cells[0]), '/')[1]).Some?
  {
    if |row.cells| >= 22 {
      StripEmpty(row.cells[17]);
    }
  }

  /** The fields of an emitted game: each is the stripped text of its cell,
      the four record numbers are the ones the record cell reads as, and the
      home/away mark is `"H"` exactly when the cell holds `Ｈ`. */
  lemma EmittedGameFields(row: Row)
    requires ExtractRow(row).Emitted?
    ensures |row.cells| >= 22
    ensures var g := ExtractRow(row).game;
      && g.opponent == Strip(row.cells[2]) && g.location == Strip(row.cells[3])
      && g.pitcher == Strip(row.cells[7]) && g.result == Strip(row.cells[17])
      && g.score == Strip(row.cells[18])
      && (g.homeAway == "H" <==> Contains(Strip(row.cells[4]), HomeMark))
      && (g.homeAway == "H" || g.homeAway == "V")
      && Record(g.wins, g.losses, g.draws, g.netWins) == ParseRecord(Strip(row.cells[21]))
  {
  }

  /** A record cell neither pattern can read does not cost the game: it is
      kept with all four numbers zero. */
  lemma UnreadableRecordKept(row: Row)
    requires ExtractRow(row).Emitted?
    requires forall k :: 0 <= k < |Strip(row.cells[21])| ==> !IsDigit(Strip(row.cells[21])[k])
    ensures var g := ExtractRow(row).game; g.wins == 0 && g.losses == 0 && g.draws == 0 && g.netWins == 0
  {
    DigitFreeReadsZero(Strip(row.cells[21]));
  }

  /** Replacing the record cell never changes whether the row yields a game. */
  lemma RecordCellNeverSkips(row: Row, text: string)
    requires |row.cells| >= 22
    ensures ExtractRow(row).Emitted? == ExtractRow(row.(cells := row.cells[21 := text])).Emitted?
  {
  }

  /** The date of a game is month and day as integers, so leading zeros go:
      a date cell "03/05" gives "3/5". Anything after a second `/` is ignored. */
  lemma DateNormalised(row: Row, month: string, day: string, rest: string)
    requires |row.cells| >= 22 && !Contains(row.text, CancelledMark) && !AllSpaces(row.cells[17])
    requires |month| > 0 && AllDigits(month) && |day| > 0 && AllDigits(day)
    requires rest == [] || rest[0] == '/'
    requires Strip(row.cells[0]) == month + "/" + day + rest
    ensures ExtractRow(row).Emitted?
    ensures ExtractRow(row).game.date == DropLeadingZeros(month) + "/" + DropLeadingZeros(day)
  {
    StripEmpty(row.cells[17]);
    DateParts(month, day, rest);
    PyIntOfDigits(month);
    PyIntOfDigits(day);
    DecimalOfDigits(month);
    DecimalOfDigits(day);
  }

  /** The first two pieces of "month/day…" are the month and the day. */
  lemma DateParts(month: string, day: string, rest: string)
    requires AllDigits(month) && AllDigits(day)
    requires rest == [] || rest[0] == '/'
    ensures |Split(month + "/" + day + rest, '/')| >= 2
    ensures Split(month + "/" + day + rest, '/')[0] == month
    ensures Split(month + "/" + day + rest, '/')[1] == day
  {
    assert '/' !in month by {
      assert forall k :: 0 <= k < |month| ==> month[k] != '/';
    }
    assert '/' !in day by {
      assert forall k :: 0 <= k < |day| ==> day[k] != '/';
    }
    assert month + "/" + day + rest == month + ['/'] + (day + rest);
    SplitFirst(month, day + rest, '/');
    if rest == [] {
      assert day + rest == day;
      SplitNone(day, '/');
    } else {
      assert day + rest == day + ['/'] + rest[1..];
      SplitFirst(day, rest[1..], '/');
    }
  }

  lemma SplitNone(s: string, sep: char)
    requires sep !in s
    ensures Split(s, sep) == [s]
  {
    JoinSplit(s, sep);
    SplitCount(s, sep);
  }

  /** Every season other than 2025 is asked for by its own number, and no
      two seasons other than year 0 share a query. */
  lemma YParamIdentifiesSeason(a: int, b: int)
    requires a != 0 && b != 0
    ensures YParam(a) == YParam(b) <==> a == b
    ensures YParam(a) == 0 <==> a == 2025
  {
  }
}
