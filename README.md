# baystars_stats: results-table extraction and season merging

The repository scrapes the season results of the Yokohama DeNA BayStars from
a statistics site and charts the team's net wins (wins minus losses, the
"貯金") game by game. Two parts of it hold its decision logic, and this
project models both and proves what they do.

- **Scraper** (`scripts/scraper.py`). `parse_game_data` walks the rows of
  the results table. It drops every row with class `Index` or `Index2` (the header rows) and
  skips these rows:
  - rows that are too short;
  - called-off games ("中止");
  - games not yet played;
  - rows whose date has no `/`;
  - rows whose first two date pieces are not integers.
  From every other row it builds one game record. The record column
  ("9(1)10 -1", "1 - 0 +1") is read with two regular expressions through
  `re.search`. `y_param` chooses the season's query parameter.
- **Data processor** (`scripts/data_processor.py`).
  - `load_data` merges the historical file and the current-year file. The
    current-year file wins for a season that both contain.
  - `process_data` turns each season into the parallel series the chart
    plots, and flags the season in progress.
  - `run` chains the two.

The modules follow the program:

| module | file | contents |
|---|---|---|
| `Wrappers` | wrappers.dfy | `Option` |
| `PyText` | pytext.dfy | the Python string behaviour the scraper relies on |
| `RecordPattern` | record_pattern.dfy | the two record patterns, a matcher for them and `ParseRecord` |
| `Scraper` | scraper.dfy | rows, games, the per-row rules, `ParseGameData`, `YParam` |
| `DataProcessor` | data_processor.dfy | `LoadData`, `Reshape`, `ProcessData`, `Run` |

The Python string behaviour in `PyText` is:
- the `\d` and `\s` classes;
- `str.strip`, `int()`, `str()` of an integer;
- `str.split`;
- substring `in`.

**How the record reading is modelled.**
- `re.search` is modelled by a matcher written by hand.
  - It tries each start position from the left.
  - At each start it takes, for every greedy `\d+` and `\s*` in order, the
    longest run it can and then backs off when needed.
- This matcher is proved against a declarative description.
  - `IsMatch` says when a choice of group positions matches.
  - `IsFirstMatch` says which match `re.search` reports: the leftmost one,
    and at that start the one reached first by backtracking. That is the
    one whose group ends are largest at the first place they differ.
- `SearchIsReSearch` proves that the matcher computes exactly that match.

**The parsing loops are imperative.**
- `ParseGameData` is a `for` loop with `continue` that appends to `games`.
  It is proved equal to the function `TableGames`, and the lemmas about
  rows and games are proved about `TableGames`.
- `LoadData` is the two `dict.update` calls.
- `ProcessData` is a loop that fills the result map key by key. It is
  proved against `Reshape`.

A row reaches the model already taken apart by the HTML parser. It carries
its class list (`None` without a `class` attribute), its whole text and the
text of each cell. The cell texts are not yet stripped: the source strips
them itself.

Five details of the code decide which rows the model emits:
- **The 15-cell check comes first.** The code tests for fewer than 15
  cells before it looks for "中止" (scripts/scraper.py:82-88).
- **The date is normalised.** The code stores the date as
  `f"{int(month)}/{int(day)}"`, which drops leading zeros ("03/05" becomes
  "3/5"). A date part that is not an integer raises `ValueError`, and the
  row is skipped (scripts/scraper.py:150-156, 169-171).
- **A row with 15 to 21 cells is always skipped.** There are three ways:
  - a called-off row is skipped by the "中止" test before any cell is read;
  - a row with 18 to 21 cells whose result cell is empty is skipped by the
    unplayed-game test;
  - any other such row reaches `cells[17]`, `cells[18]` or `cells[21]`,
    which raises `IndexError`, and the `except` clause skips it.
- **`int()` and whitespace.** `int()` skips surrounding whitespace, but
  not the information separators U+001C to U+001F, which `str.strip()` does
  remove. A date piece with such a character, such as `"3\x1f"`, makes
  `int()` raise, and the row is skipped (`PyText.PyIntRejectsSeparator`).
- **An unreadable record cell keeps its row.** The game is emitted with
  all four numbers zero (`UnreadableRecordKept`).

## Model

| member | source | states |
|---|---|---|
| `RecordPattern.MatchSignedLongest` | scripts/scraper.py:122 | the matcher for `[+-]?\d+` finds a match whenever there is one, and none is longer than the one it finds |
| `RecordPattern.MatchAtFirst` | scripts/scraper.py:122-125 | of all matches of either pattern at one start, the anchored matcher finds one, and it finds the one Python's backtracking reaches first |
| `RecordPattern.SearchFirst` | scripts/scraper.py:122-125 | the search from position `i` returns the leftmost match at or after `i`, the first one tried at that start; it fails only when no match starts at or after `i` |
| `RecordPattern.SearchIsReSearch` | scripts/scraper.py:122-125 | the search succeeds exactly when the pattern matches somewhere in the text, and then it returns the match `re.search` reports |
| `RecordPattern.FirstMatchUnique` | scripts/scraper.py:122-125 | the match `re.search` reports is determined by the pattern and the text |
| `RecordPattern.ParseRecordSpec` | scripts/scraper.py:122-145 | the draws pattern is tried first; if it matches, the record is its reported match's groups; otherwise, if the standard pattern matches, the record is that match's groups with draws 0; if neither matches, all four numbers are 0 |
| `RecordPattern.SearchSkipsNonDigits` | scripts/scraper.py:122-125 | no match of either pattern starts at a non-digit, so the search passes over a stretch without digits unchanged |
| `RecordPattern.MatchDrawsAtRuns` | scripts/scraper.py:122 | at `w(d)l n`, where every number and gap is a whole run, the draws pattern takes each number whole |
| `RecordPattern.MatchStandardAtRuns` | scripts/scraper.py:125 | at `w - l n`, where every number and gap is a whole run, the standard pattern takes each of them whole |
| `RecordPattern.ReadDrawsAt` | scripts/scraper.py:122-132 | a record text laid out as `w(d)l n` after a stretch without digits reads as wins `w`, draws `d`, losses `l` and net wins `n` (a `+` or `-` sign included) |
| `RecordPattern.NoParenNoDraws` | scripts/scraper.py:122 | the draws pattern never matches a text without `(` |
| `RecordPattern.ReadStandardAt` | scripts/scraper.py:125-138 | a record text without `(`, laid out as `w - l n` after a stretch without digits, reads as wins `w`, losses `l`, draws 0 and the captured net wins `n`; `n` is not recomputed from `w` and `l` |
| `RecordPattern.DrawsRecordExample` | scripts/scraper.py:121-122 | `"9(1)10 -1"` reads as 9 wins, 10 losses, 1 draw, net wins -1 |
| `RecordPattern.StandardRecordExample` | scripts/scraper.py:124-125 | `"1 - 0 +1"` reads as 1 win, 0 losses, 0 draws, net wins +1 |
| `RecordPattern.DigitFreeReadsZero` | scripts/scraper.py:139-145 | a record text without a digit matches neither pattern and reads as all zeros |
| `RecordPattern.GarbageRecordExample` | scripts/scraper.py:139-145 | `"garbage"` reads as all zeros |
| `RecordPattern.GiveBackExample` | scripts/scraper.py:122-132 | without a net-wins number, `"9(1)10"` still matches the draws pattern: the losses group gives back its last digit to the net-wins group, so the record reads as 9 wins, 1 loss, 1 draw and net wins 0 |
| `Scraper.DataRows` | scripts/scraper.py:78 | the header filter yields no more rows than it is given, and every row it yields is a data row |
| `Scraper.DataRowsKeep` | scripts/scraper.py:78 | a row is kept exactly when it is in the table and has no `class` attribute or neither `Index` nor `Index2` |
| `Scraper.DataRowsAppend` | scripts/scraper.py:78 | the header filter keeps the order of the rows: filtering two stretches end to end is filtering each |
| `Scraper.HeaderRowIgnored` | scripts/scraper.py:78 | a row with class `Index` or `Index2` contributes no game and changes nothing about the rest of the table |
| `Scraper.ParseGameData` | scripts/scraper.py:64-173 | the loop returns the games of the table's data rows, the function `TableGames`; without a `Base` table it returns no games |
| `Scraper.GamesOfAppend` | scripts/scraper.py:80-168 | the games of two stretches of rows are the games of the first followed by those of the second |
| `Scraper.GamesOfOne` | scripts/scraper.py:80-171 | a single row yields its game when it is emitted, and nothing when it is skipped |
| `Scraper.SkippedRowIgnored` | scripts/scraper.py:80-171 | a skipped row contributes no game, and the rows after it are still processed |
| `Scraper.EmittedRowKept` | scripts/scraper.py:168 | an emitted row's game sits between the games of the rows before it and those of the rows after it |
| `Scraper.GamesOfFrom` | scripts/scraper.py:80-168 | a game is in the output exactly when some row yields it |
| `Scraper.TableGamesBound` | scripts/scraper.py:75-168 | a table yields at most one game per row |
| `Scraper.ShortRowSkipped` | scripts/scraper.py:82-171 | a row with fewer than 22 cells never yields a game; below 15 cells it is passed over before the `try` |
| `Scraper.CancelledRowSkipped` | scripts/scraper.py:82-88 | a row whose text contains "中止" never yields a game; with 15 cells or more, that is why it is skipped |
| `Scraper.UnplayedRowSkipped` | scripts/scraper.py:106-110 | a row whose result cell holds only whitespace yields no game |
| `Scraper.DateWithoutSlashSkipped` | scripts/scraper.py:148-153 | a row whose stripped date cell has no `/` yields no game |
| `Scraper.RowEmittedIff` | scripts/scraper.py:80-171 | with `int()` taken without its digit-count limit (see "## Left out"), a row yields a game exactly when all of these hold: it has at least 22 cells; its text has no "中止"; its result cell is not all whitespace; its date splits on `/` into at least two pieces; the first two pieces are integers |
| `Scraper.EmittedGameFields` | scripts/scraper.py:94-167 | an emitted game has these fields: opponent, location, pitcher, result and score are the stripped texts of cells 2, 3, 7, 17 and 18; the four record numbers are those the stripped cell 21 reads as; home/away is `"H"` exactly when cell 4 holds `Ｈ`, and `"V"` otherwise |
| `Scraper.UnreadableRecordKept` | scripts/scraper.py:139-168 | an emitted row whose record cell has no digit keeps its game, with all four numbers zero |
| `Scraper.RecordCellNeverSkips` | scripts/scraper.py:116-145 | with `int()` taken without its digit-count limit (see "## Left out"), the record cell never decides whether the row yields a game |
| `Scraper.DateNormalised` | scripts/scraper.py:147-156 | for a row that passes the other tests (at least 22 cells, no "中止", a result cell that is not blank) and has a date cell "month/day", possibly followed by more `/`-separated text: the row yields a game whose date is the month and the day without their leading zeros, joined by `/` |
| `Scraper.YParamIdentifiesSeason` | scripts/scraper.py:45 | among years other than 0, two seasons share a query parameter only when they are the same season, and the parameter is 0 exactly for 2025 |
| `DataProcessor.LoadData` | scripts/data_processor.py:25-51 | the result is `None` exactly when neither file has an entry; otherwise its seasons are those of both files; a season in the current-year file has that file's games, whole; any other season has the historical games |
| `DataProcessor.ProcessData` | scripts/data_processor.py:53-87 | the result is `None` exactly for no data or an empty map; otherwise it has the same season keys, and the series of each season are its games reshaped |
| `DataProcessor.Run` | scripts/data_processor.py:190-198 | `run` reports success exactly when either file has an entry, and exactly then it yields processed seasons; their keys are the seasons of both files, and each is reshaped from the current-year file's games when that file has the season, otherwise from the historical games |
| `DataProcessor.ReshapeSeries` | scripts/data_processor.py:61-74 | each series has one entry per game; game `i` (from 0) is numbered `i + 1`, and its entry in each series is the matching field of that game |
| `DataProcessor.ReshapeAppend` | scripts/data_processor.py:63-74 | a further game appends one entry to each series and changes none of the earlier ones, so the series keep the games' order |
| `DataProcessor.CurrentYearFlag` | scripts/data_processor.py:59-84 | a season stored under its year number is flagged exactly when that year is the current year |
| `DataProcessor.OneCurrentSeason` | scripts/data_processor.py:77-85 | at most one season is flagged as the current one |
| `PyText.StripEmpty` | scripts/scraper.py:106-110 | a stripped cell is empty exactly when the cell is whitespace only |
| `PyText.ContainsAt` | scripts/scraper.py:87-100 | substring `in` holds exactly when the text occurs at some position |
| `PyText.SplitCount` | scripts/scraper.py:148-149 | `split('/')` gives at least two pieces exactly when the text contains `/` |
| `PyText.JoinSplit` | scripts/scraper.py:148 | the pieces of `split` joined by the separator give back the text |
| `PyText.PyIntRejectsSeparator` | scripts/scraper.py:150-151 | `int()` of a text that holds one of U+001C to U+001F raises `ValueError`, even where `strip()` would remove that character |
| `PyText.SeparatorExample` | scripts/scraper.py:150-151 | `"3\x1f".strip()` is `"3"`, but `int("3\x1f")` raises |
| `PyText.PyIntOfDecimal` | scripts/data_processor.py:84 | `int(str(i)) == i` for every integer `i`, so `str` of the current year names it uniquely |
| `PyText.DecimalOfDigits` | scripts/scraper.py:150-156 | `str(int(t))` of a digit string `t` is `t` without its leading zeros |

## Left out

- HTTP fetching with `requests` (scripts/scraper.py:40-62) is network I/O. The model takes the table rows as input.
- HTML parsing with BeautifulSoup (scripts/scraper.py:66-81) belongs to a foreign library. A row arrives as its class list, its whole text and its cell texts.
- `scrape_all_years` (scripts/scraper.py:176-195) and the two orchestration scripts are a fetch-then-save loop over years. Reading and writing JSON files, `Path` and `mkdir` are also left out. `LoadData` takes each file's content as an optional map; a missing file is `None`.
- Malformed JSON is left out: the source does not handle it. So is a stored game that lacks one of the keys `process_data` reads, which raises `KeyError` in the source. In the model every game has every field.
- `save_processed_data` and `create_plotly_visualization` (scripts/data_processor.py:89-188) and docs/js/main.js are file output, chart styling and browser UI.
- `datetime.now()` (scripts/data_processor.py:59, scripts/scraper.py:34) is a clock reading. The current year is a parameter.
- Console logging with `print`, including the record parse-failure message, is left out. The reason a row is skipped is kept in `Scraper.RowOutcome`.
- Dictionary insertion order is abstracted away: seasons are a `map`. The order of the games inside a season is kept.
- `PyText.PyInt`, `RecordPattern.Captured`, `Scraper.RecordCellNeverSkips`, `Scraper.RowEmittedIff`: `int()` is modelled without the limit on the length of a decimal string that newer Python versions apply (3.11 on, and security releases of 3.7 to 3.10: a `str` of more than 4300 digits raises `ValueError`). In those versions a row whose date piece or record group has more than 4300 digits raises inside the `try` and is skipped (scripts/scraper.py:129-137, 150-151, 169-171). The model emits it. The limit is configurable at run time (`sys.set_int_max_str_digits`), so it is not a fixed constant of the program.
- `\d` and `int()` are modelled on ASCII digits only. Python also accepts other Unicode decimal digits there, and `int()` also accepts underscores between digits.
- The standard pattern is searched even when the draws pattern matched. That search has no effect, so `ParseRecord` only tries it when the draws pattern fails.
- `Scraper.YParamIdentifiesSeason`: it excludes year 0, because year 0 is asked for with `y=0` as well. So the rule "`y` is 0 exactly for 2025" holds only for years other than 0.
