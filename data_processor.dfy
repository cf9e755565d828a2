/** The season merge and reshaping of scripts/data_processor.py: the stored
    seasons are merged, the current season's file winning, and each season's
    games become the parallel series the chart plots. The two JSON files
    arrive as optional maps (`None` for a missing file) and the current year
    as a number instead of a clock reading. */
module DataProcessor {
  import opened Wrappers
  import opened PyText
  import opened Scraper

  /** The content of a data file: season key ("2024") to that season's games. */
  type Seasons = map<string, seq<Game>>

  /** One season as the chart receives it: parallel series, one entry per
      game, and whether this is the season in progress. */
  datatype YearSeries = YearSeries(
    gameNumbers: seq<int>, netWins: seq<int>, dates: seq<string>,
    opponents: seq<string>, results: seq<string>, scores: seq<string>,
    isCurrentYear: bool)

  /** The entries of a file, none when it is missing. */
  function Entries(file: Option<Seasons>): Seasons {
    if file.Some? then file.value else map[]
  }

  /** `load_data`: start from an empty map, add the historical file's
      entries, then the current-year file's; an empty result is `None`. */
  method LoadData(historical: Option<Seasons>, current: Option<Seasons>) returns (all: Option<Seasons>)
    ensures all.None? <==> Entries(historical) == map[] && Entries(current) == map[]
    ensures all.Some? ==> all.value.Keys == Entries(historical).Keys + Entries(current).Keys
    ensures all.Some? ==> forall y :: y in Entries(current) ==> all.value[y] == Entries(current)[y]
    ensures all.Some? ==> forall y :: y in Entries(historical) && y !in Entries(current) ==>
      all.value[y] == Entries(historical)[y]
  {
    var allData: Seasons := map[];
    if historical.Some? {
      allData := allData + historical.value;
    }
    if current.Some? {
      allData := allData + current.value;
    }
    if allData == map[] {
      assert forall y :: y !in Entries(historical) && y !in Entries(current) by {
        forall y ensures y !in Entries(historical) && y !in Entries(current) {
          assert y !in allData;
        }
      }
      return None;
    }
    return Some(allData);
  }

  /** The series of one season: games numbered from 1, and for each game
      its net wins, date, opponent, result and score, in game order. The
      flag compares the season key with the current year written in decimal. */
  function Reshape(year: string, games: seq<Game>, currentYear: int): YearSeries {
    YearSeries(
      seq(|games|, i => i + 1),
      seq(|games|, i requires 0 <= i < |games| => games[i].netWins),
      seq(|games|, i requires 0 <= i < |games| => games[i].date),
      seq(|games|, i requires 0 <= i < |games| => games[i].opponent),
      seq(|games|, i requires 0 <= i < |games| => games[i].result),
      seq(|games|, i requires 0 <= i < |games| => games[i].score),
      year == IntToDecimal(currentYear))
  }

  /** `process_data`: `None` for no data; otherwise every season key is
      reshaped, and nothing else is added. */
  method ProcessData(data: Option<Seasons>, currentYear: int) returns (processed: Option<map<string, YearSeries>>)
    ensures processed.None? <==> Entries(data) == map[]
    ensures processed.Some? ==> processed.value.Keys == data.value.Keys
    ensures processed.Some? ==> forall y :: y in processed.value ==>
      processed.value[y] == Reshape(y, data.value[y], currentYear)
  {
    if data.None? || data.value == map[] {
      return None;
    }
    var seasons := data.value;
    var result: map<string, YearSeries> := map[];
    var todo := seasons.Keys;
    while todo != {}
      invariant todo <= seasons.Keys
      invariant result.Keys == seasons.Keys - todo
      invariant forall y :: y in result ==> result[y] == Reshape(y, seasons[y], currentYear)
      decreases |todo|
    {
      var y :| y in todo;
      result := result[y := Reshape(y, seasons[y], currentYear)];
      todo := todo - {y};
    }
    return Some(result);
  }

  /** `run` without the file writing and the chart: it reports whether there
      was any data, and hands on the merged seasons, each one reshaped. */
  method Run(historical: Option<Seasons>, current: Option<Seasons>, currentYear: int)
    returns (ok: bool, processed: Option<map<string, YearSeries>>)
    ensures ok <==> Entries(historical) != map[] || Entries(current) != map[]
    ensures ok <==> processed.Some?
    ensures processed.Some? ==> processed.value.Keys == Entries(historical).Keys + Entries(current).Keys
    ensures processed.Some? ==> forall y :: y in processed.value ==>
      processed.value[y] == Reshape(y, if y in Entries(current) then Entries(current)[y] else Entries(historical)[y], currentYear)
  {
    var data := LoadData(historical, current);
    if data.None? {
      return false, None;
    }
    processed := ProcessData(data, currentYear);
    ok := true;
  }

  /** Each series has one entry per game; game `i` (from 0) is numbered
      `i + 1` and its entries are that game's fields. */
  lemma ReshapeSeries(year: string, games: seq<Game>, currentYear: int)
    ensures var r := Reshape(year, games, currentYear);
      && |r.gameNumbers| == |r.netWins| == |r.dates| == |games|
      && |r.opponents| == |r.results| == |r.scores| == |games|
      && forall i :: 0 <= i < |games| ==>
           && r.gameNumbers[i] == i + 1 && r.netWins[i] == games[i].netWins
           && r.dates[i] == games[i].date && r.opponents[i] == games[i].opponent
           && r.results[i] == games[i].result && r.scores[i] == games[i].score
  {
  }

  /** A further game appends one entry to every series and changes none of
      the earlier ones: the series follow the games' order. */
  lemma ReshapeAppend(year: string, games: seq<Game>, g: Game, currentYear: int)
    ensures var r := Reshape(year, games, currentYear);
      var r' := Reshape(year, games + [g], currentYear);
      && r'.gameNumbers == r.gameNumbers + [|games| + 1]
      && r'.netWins == r.netWins + [g.netWins]
      && r'.dates == r.dates + [g.date]
      && r'.opponents == r.opponents + [g.opponent]
      && r'.results == r.results + [g.result]
      && r'.scores == r.scores + [g.score]
      && r'.isCurrentYear == r.isCurrentYear
  {
    var r := Reshape(year, games, currentYear);
    var r' := Reshape(year, games + [g], currentYear);
    assert r'.gameNumbers == r.gameNumbers + [|games| + 1];
    assert r'.netWins == r.netWins + [g.netWins];
    assert r'.dates == r.dates + [g.date];
    assert r'.opponents == r.opponents + [g.opponent];
    assert r'.results == r.results + [g.result];
    assert r'.scores == r.scores + [g.score];
  }

  /** A season stored under its own year number is flagged exactly when that
      year is the current one. */
  lemma CurrentYearFlag(year: int, games: seq<Game>, currentYear: int)
    ensures Reshape(IntToDecimal(year), games, currentYear).isCurrentYear <==> year == currentYear
  {
    PyIntOfDecimal(year);
    PyIntOfDecimal(currentYear);
  }

  /** At most one season is flagged as the current one. */
  lemma OneCurrentSeason(data: Seasons, currentYear: int, a: string, b: string)
    requires a in data && b in data
    requires Reshape(a, data[a], currentYear).isCurrentYear
    requires Reshape(b, data[b], currentYear).isCurrentYear
    ensures a == b
  {
  }
}
