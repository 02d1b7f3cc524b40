/** The scraper the backend cache runs (`backend/scrapper/scrapper.py`):
    live rows with period and clock split from the stage block, and detail
    pages with five period slots, totals, the top three players, the
    whitelisted team statistics and the team names. */
module BackendScraper {
  import opened Outcome
  import opened Text
  import opened Seqs
  import opened MatchData
  import opened Scrape

  /* ---------------- live rows ---------------- */

  /** Period and clock: the stripped stage-block text split on newlines;
      two or more lines give the first two, one line gives it and `""`, no
      stage block gives `("", "")`. */
  function Stage(blocks: seq<string>): (r: (string, string))
    ensures |blocks| == 0 ==> r == ("", "")
    ensures '\n' !in r.0 && '\n' !in r.1
    ensures |blocks| > 0 && '\n' !in Strip(blocks[0]) ==> r == (Strip(blocks[0]), "")
    ensures |blocks| > 0 && '\n' in Strip(blocks[0]) ==>
              var t := Strip(blocks[0]);
              var n := |r.0| + 1 + |r.1|;
              n <= |t| && t[..n] == r.0 + "\n" + r.1 && (n == |t| || t[n] == '\n')
  {
    if |blocks| == 0 then ("", "")
    else
      var parts := Split(Strip(blocks[0]), '\n');
      SplitFirstTwo(Strip(blocks[0]), '\n');
      if |parts| >= 2 then (parts[0], parts[1]) else (parts[0], "")
  }

  function StageOf(e: RawEntry): (string, string) {
    Stage(e.stageBlocks)
  }

  /** `get_live_matches` of this scraper. */
  function LiveMatchesOf(section: Option<seq<RawEntry>>): (r: Result<seq<LiveMatch>>)
    ensures section.None? ==> r == Success([])
    ensures section.Some? ==> (r.Failure? <==> exists i :: 0 <= i < |section.value| && Breaks(section.value[i]))
    ensures r.Success? ==> forall m :: m in r.value ==>
              exists e :: e in section.value && Selected(e) && |e.participants| >= 2
                          && m == Record(e, StageOf)
    ensures section.Some? && r.Success? ==> r.value == FilterMap(section.value, e => Emitted(e, StageOf))
  {
    LiveMatches(section, StageOf)
  }

  /* ---------------- team statistics ---------------- */

  /** The three statistics kept, by label. */
  const StatLabels: seq<string> := ["Field Goals Attempted", "Field Goals %", "Total Rebounds"]

  /** One `wcl-row_` row: the label, home and away texts, each `None` when
      its lookup raised (the row is then skipped). */
  datatype RawStat = RawStat(labelText: Option<string>, home: Option<string>, away: Option<string>)

  function KeepStat(row: RawStat): Option<StatRow> {
    if row.labelText.Some? && Strip(row.labelText.value) in StatLabels
       && row.home.Some? && row.away.Some?
    then Some(StatRow(Strip(row.labelText.value), Strip(row.home.value), Strip(row.away.value)))
    else None
  }

  /** The whitelisted rows, in page order. */
  function KeptStats(rows: seq<RawStat>): seq<StatRow> {
    FilterMap(rows, KeepStat)
  }

  /** `team_statistics`: the whitelisted rows in page order, or
      `"Not found"` when none remains; never missing. */
  function TeamStats(rows: seq<RawStat>): (r: Listing<StatRow>)
    ensures !r.Missing?
    ensures r.NotFound? <==> forall row :: row in rows ==> KeepStat(row).None?
    ensures r.Rows? ==> |r.items| > 0 && forall s :: s in r.items ==> s.labelText in StatLabels
    ensures r.Rows? ==> forall row :: row in rows && KeepStat(row).Some? ==> KeepStat(row).value in r.items
    ensures r.Rows? ==> forall s :: s in r.items ==> exists row :: row in rows && KeepStat(row) == Some(s)
    ensures r.Rows? ==> r.items == KeptStats(rows)
  {
    var kept := KeptStats(rows);
    if |kept| == 0 then NotFound else Rows(kept)
  }

  /** Row order survives: the rows kept from a page in two halves are the
      rows kept from each half, in order. */
  lemma KeptStatsInOrder(a: seq<RawStat>, b: seq<RawStat>)
    ensures KeptStats(a + b) == KeptStats(a) + KeptStats(b)
  {
    FilterMapAppend(a, b, KeepStat);
  }

  /* ---------------- detail page ---------------- */

  /** What the browser found on a detail page. `periods` lists, for period
      1 to 5, the texts found for that period's cell. */
  datatype DetailPage = DetailPage(
    partsPresent: bool,
    participants: seq<string>,
    homePeriods: seq<seq<string>>, awayPeriods: seq<seq<string>>,
    homeTotals: seq<string>, awayTotals: seq<string>,
    playerTable: Option<PlayerCells>,
    statRows: seq<RawStat>)

  /** `get_match_details` of this scraper. */
  function DetailOf(p: DetailPage): (r: MatchDetail)
    ensures r.ContainerMissing? <==> !p.partsPresent
    ensures r.Detail? ==> |r.homeQuarters| == Periods && |r.awayQuarters| == Periods
    ensures r.Detail? ==> r.homeQuarters == FivePeriods(p.homePeriods) && r.awayQuarters == FivePeriods(p.awayPeriods)
    ensures r.Detail? ==> r.homeTotal == FirstTextOr(p.homeTotals, "0")
                          && r.awayTotal == FirstTextOr(p.awayTotals, "0")
    ensures r.Detail? ==> (r.topPlayers.NotFound? <==> p.playerTable.None?)
                          && (r.topPlayers.Rows? ==> |r.topPlayers.items| <= 3)
                          && r.topPlayers == PlayerListing(p.playerTable)
    ensures r.Detail? ==> r.teamStats == TeamStats(p.statRows)
    ensures r.Detail? && |p.participants| < 2 ==> r.homeTeam == "Unknown" && r.awayTeam == "Unknown"
    ensures r.Detail? && |p.participants| >= 2 ==>
              r.homeTeam == Strip(p.participants[0]) && r.awayTeam == Strip(p.participants[1])
  {
    if !p.partsPresent then ContainerMissing
    else
      var (home, away) := if |p.participants| >= 2
                          then (Strip(p.participants[0]), Strip(p.participants[1]))
                          else ("Unknown", "Unknown");
      Detail(FivePeriods(p.homePeriods), FivePeriods(p.awayPeriods),
             FirstTextOr(p.homeTotals, "0"), FirstTextOr(p.awayTotals, "0"),
             PlayerListing(p.playerTable), TeamStats(p.statRows), home, away)
  }
}
