/** The oldest scraper (`scrapper/scrapper.py`): live rows read period and
    clock from the `event__stage` element with `"N/A"` defaults, and detail
    pages take team names from the first home/away cells, five period
    slots, totals and the top three players. */
module LegacyScraper {
  import opened Outcome
  import opened Text
  import opened Seqs
  import opened MatchData
  import opened Scrape

  const NotAvailable := "N/A"

  /** Quarter and time: `"N/A"` for both without a stage element; with
      one, the first line of its stripped text and the second line, or
      `"N/A"` when there is no second line. */
  function Stage(stages: seq<string>): (r: (string, string))
    ensures |stages| == 0 ==> r == (NotAvailable, NotAvailable)
    ensures |stages| > 0 && '\n' !in Strip(stages[0]) ==> r == (Strip(stages[0]), NotAvailable)
    ensures |stages| > 0 && '\n' in Strip(stages[0]) ==>
              '\n' !in r.0 && '\n' !in r.1 &&
              var t := Strip(stages[0]);
              var n := |r.0| + 1 + |r.1|;
              n <= |t| && t[..n] == r.0 + "\n" + r.1 && (n == |t| || t[n] == '\n')
  {
    if |stages| == 0 then (NotAvailable, NotAvailable)
    else
      var parts := Split(Strip(stages[0]), '\n');
      SplitFirstTwo(Strip(stages[0]), '\n');
      (parts[0], if |parts| > 1 then parts[1] else NotAvailable)
  }

  function StageOf(e: RawEntry): (string, string) {
    Stage(e.stages)
  }

  /** `get_live_matches` of this scraper. */
  function LiveMatchesOf(section: Option<seq<RawEntry>>): (r: Result<seq<LiveMatch>>)
    ensures section.None? ==> r == Success([])
    ensures section.Some? ==> (r.Failure? <==> exists i :: 0 <= i < |section.value| && Breaks(section.value[i]))
    ensures r.Success? ==> forall m :: m in r.value ==>
              exists e :: e in section.value && Selected(e) && |e.participants| >= 2
                          && m == Record(e, StageOf)
    ensures section.Some? && r.Success? ==> r.value == FilterMap(section.value, e => Emitted(e, StageOf))
  {
    LiveMatches(section, StageOf)
  }

  /** What the browser found on a detail page; the team-name cells are
      `None` when `find_element` raised. */
  datatype LegacyPage = LegacyPage(
    partsPresent: bool,
    homeCell: Option<string>, awayCell: Option<string>,
    homePeriods: seq<seq<string>>, awayPeriods: seq<seq<string>>,
    homeTotals: seq<string>, awayTotals: seq<string>,
    playerTable: Option<PlayerCells>)

  /** `get_match_details` of this scraper: it raises when a team-name cell
      is missing, and never produces `team_statistics`. */
  function DetailOf(p: LegacyPage): (r: Result<MatchDetail>)
    ensures r.Failure? <==> p.partsPresent && (p.homeCell.None? || p.awayCell.None?)
    ensures !p.partsPresent ==> r == Success(ContainerMissing)
    ensures r.Success? && r.value.Detail? ==>
              var d := r.value;
              && |d.homeQuarters| == Periods && |d.awayQuarters| == Periods
              && d.homeQuarters == FivePeriods(p.homePeriods) && d.awayQuarters == FivePeriods(p.awayPeriods)
              && d.homeTotal == FirstTextOr(p.homeTotals, "0") && d.awayTotal == FirstTextOr(p.awayTotals, "0")
              && (d.topPlayers.NotFound? <==> p.playerTable.None?)
              && (d.topPlayers.Rows? ==> |d.topPlayers.items| <= 3)
              && d.topPlayers == PlayerListing(p.playerTable)
              && d.teamStats.Missing?
              && d.homeTeam == Strip(p.homeCell.value) && d.awayTeam == Strip(p.awayCell.value)
  {
    if !p.partsPresent then Success(ContainerMissing)
    else if p.homeCell.None? || p.awayCell.None? then Failure
    else
      Success(Detail(FivePeriods(p.homePeriods), FivePeriods(p.awayPeriods),
                     FirstTextOr(p.homeTotals, "0"), FirstTextOr(p.awayTotals, "0"),
                     PlayerListing(p.playerTable), Missing,
                     Strip(p.homeCell.value), Strip(p.awayCell.value)))
  }
}
