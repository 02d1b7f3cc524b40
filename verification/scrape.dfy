/** Post-processing shared by the three Flashscore scrapers, applied to the
    texts of elements the browser already found: the detail URL built from
    a match id, the score text, the live-entry filter, the first-text-or-
    default rule, the five period slots and the top-three player rows.
    Element lookups are given as the list of texts found (empty when the
    lookup found nothing). */
module Scrape {
  import opened Outcome
  import opened Text
  import opened Seqs
  import opened MatchData

  const UrlPrefix := "https://www.flashscore.com/match/"
  const UrlSuffix := "/#/match-summary/match-summary"

  /** The prefix of a Flashscore row id that the detail URL omits. */
  const IdMarker := "g_3_"

  /* ---------------- detail URL ---------------- */

  /** The detail URL of a match id: fixed prefix, the id with every
      `"g_3_"` removed, fixed suffix. */
  function MatchUrl(id: string): (r: string)
    ensures StartsWith(r, UrlPrefix)
    ensures |r| == |UrlPrefix| + |RemoveAll(id, IdMarker)| + |UrlSuffix|
  {
    var url := UrlPrefix + RemoveAll(id, IdMarker) + UrlSuffix;
    assert url[..|UrlPrefix|] == UrlPrefix;
    url
  }

  /** Reads the cleaned id back out of a detail URL. */
  function UrlMatchId(url: string): Option<string> {
    if |url| >= |UrlPrefix| + |UrlSuffix| && url[..|UrlPrefix|] == UrlPrefix
       && url[|url| - |UrlSuffix|..] == UrlSuffix
    then Some(url[|UrlPrefix|..|url| - |UrlSuffix|])
    else None
  }

  /** The detail URL carries exactly the cleaned id. */
  lemma MatchUrlRoundTrip(id: string)
    ensures UrlMatchId(MatchUrl(id)) == Some(RemoveAll(id, IdMarker))
  {
    var clean := RemoveAll(id, IdMarker);
    var url := UrlPrefix + clean + UrlSuffix;
    assert url[..|UrlPrefix|] == UrlPrefix;
    assert url[|url| - |UrlSuffix|..] == UrlSuffix;
    assert url[|UrlPrefix|..|url| - |UrlSuffix|] == clean;
  }

  /** Two ids get the same URL exactly when they clean to the same id. */
  lemma MatchUrlInjective(a: string, b: string)
    ensures MatchUrl(a) == MatchUrl(b) <==> RemoveAll(a, IdMarker) == RemoveAll(b, IdMarker)
  {
    MatchUrlRoundTrip(a);
    MatchUrlRoundTrip(b);
  }

  /** A row id `"g_3_" + core` whose core has no marker yields the core. */
  lemma MatchUrlOfRowId(core: string)
    requires !Contains(core, IdMarker)
    ensures UrlMatchId(MatchUrl(IdMarker + core)) == Some(core)
  {
    RemoveAllLeading(IdMarker, core);
    RemoveAllAbsent(core, IdMarker);
    MatchUrlRoundTrip(IdMarker + core);
  }

  /* ---------------- score text ---------------- */

  /** `"-"` unless at least two score texts were found, else
      `"a - b"` of the first two, stripped. */
  function ScoreText(scores: seq<string>): (r: string)
    ensures r == "-" <==> |scores| < 2
    ensures |scores| >= 2 ==> r == Strip(scores[0]) + " - " + Strip(scores[1])
  {
    if |scores| >= 2 then Strip(scores[0]) + " - " + Strip(scores[1]) else "-"
  }

  /** Space-free scores can be read back from the score text. */
  lemma ScoreTextSplits(scores: seq<string>)
    requires |scores| >= 2 && ' ' !in Strip(scores[0]) && ' ' !in Strip(scores[1])
    ensures Split(ScoreText(scores), ' ') == [Strip(scores[0]), "-", Strip(scores[1])]
  {
    SplitDashed(Strip(scores[0]), Strip(scores[1]));
  }

  /* ---------------- single texts and period slots ---------------- */

  /** `e[0].text.strip() if e else default`. */
  function FirstTextOr(found: seq<string>, default: string): (r: string)
    ensures |found| == 0 ==> r == default
    ensures |found| > 0 ==> r == Strip(found[0])
  {
    if |found| > 0 then Strip(found[0]) else default
  }

  /** The number of period slots: four quarters and overtime. */
  const Periods := 5

  /** Period scores: slot `i` holds the first text found for period `i + 1`,
      or `"0"` when none was found; always five slots. */
  function FivePeriods(found: seq<seq<string>>): (r: seq<string>)
    ensures |r| == Periods
    ensures forall i :: 0 <= i < Periods ==>
              r[i] == (if i < |found| && |found[i]| > 0 then Strip(found[i][0]) else "0")
  {
    seq(Periods, i requires 0 <= i < Periods => if i < |found| then FirstTextOr(found[i], "0") else "0")
  }

  /** Periods beyond the fifth (further overtimes) never reach the slots. */
  lemma FivePeriodsIgnoresExtra(found: seq<seq<string>>)
    ensures FivePeriods(found) == FivePeriods(found[..Min(Periods, |found|)])
  {
  }

  /** A period whose cell was not looked up reads like a cell without text:
      both give `"0"`. */
  lemma FivePeriodsMissingIsEmpty(found: seq<seq<string>>)
    requires |found| < Periods
    ensures FivePeriods(found) == FivePeriods(found + [[]])
  {
  }

  /** Only the first text found for a period counts. */
  lemma FivePeriodsFirstTextOnly(found: seq<seq<string>>, i: nat, more: seq<string>)
    requires i < |found| && |found[i]| > 0
    ensures FivePeriods(found) == FivePeriods(found[i := found[i] + more])
  {
  }

  /* ---------------- top players ---------------- */

  /** The player-table cells found: names, teams and points columns. */
  datatype PlayerCells = PlayerCells(names: seq<string>, teams: seq<string>, points: seq<string>)

  function Min(a: nat, b: nat): nat {
    if a <= b then a else b
  }

  /** Rows zipped from the three columns, at most three of them. */
  function TopPlayers(c: PlayerCells): (r: seq<Player>)
    ensures |r| == Min(3, Min(|c.names|, Min(|c.teams|, |c.points|)))
    ensures |r| <= 3
    ensures forall i :: 0 <= i < |r| ==>
              r[i] == Player(Strip(c.names[i]), Strip(c.teams[i]), Strip(c.points[i]))
  {
    var n := Min(3, Min(|c.names|, Min(|c.teams|, |c.points|)));
    seq(n, i requires 0 <= i < n => Player(Strip(c.names[i]), Strip(c.teams[i]), Strip(c.points[i])))
  }

  /** Only the first three cells of each column matter. */
  lemma TopPlayersFirstThreeCells(c: PlayerCells)
    ensures TopPlayers(c) == TopPlayers(PlayerCells(c.names[..Min(3, |c.names|)],
                                                    c.teams[..Min(3, |c.teams|)],
                                                    c.points[..Min(3, |c.points|)]))
  {
  }

  /** The player table within the wait: `Some` with its cells, or `None`
      when the wait raised and the section became `"Not found"`. */
  function PlayerListing(table: Option<PlayerCells>): (r: Listing<Player>)
    ensures table.None? <==> r.NotFound?
    ensures table.Some? ==> r == Rows(TopPlayers(table.value))
  {
    match table
    case None => NotFound
    case Some(c) => Rows(TopPlayers(c))
  }

  /* ---------------- live entries ---------------- */

  /** One `event__match` row of the live section: whether a live marker was
      found, the participant, score, stage-block and stage texts, and the
      `id` attribute (`""` when absent). */
  datatype RawEntry = RawEntry(live: bool, participants: seq<string>, scores: seq<string>,
                               id: string, stageBlocks: seq<string>, stages: seq<string>)

  /** The guard `if live_status` then `if teams and match_id`. */
  predicate Selected(e: RawEntry) {
    e.live && |e.participants| > 0 && e.id != ""
  }

  /** The record of a selected entry with two participants, given the
      variant's (quarter, time) reading of the entry. */
  function Record(e: RawEntry, stage: RawEntry -> (string, string)): LiveMatch
    requires |e.participants| >= 2
  {
    var (quarter, time) := stage(e);
    LiveMatch(Strip(e.participants[0]), Strip(e.participants[1]), ScoreText(e.scores),
              quarter, time, MatchUrl(e.id))
  }

  /** A selected entry with a single participant makes `teams[1]` raise
      `IndexError`, which nothing in `get_live_matches` catches. */
  predicate Breaks(e: RawEntry) {
    Selected(e) && |e.participants| < 2
  }

  /** The record an entry contributes when the scrape does not raise. */
  function Emitted(e: RawEntry, stage: RawEntry -> (string, string)): Option<LiveMatch> {
    if Selected(e) && |e.participants| >= 2 then Some(Record(e, stage)) else None
  }

  /** The loop of `get_live_matches` over the rows of the live section: it
      raises exactly when some selected row has one participant; otherwise
      it lists, in row order, one record per selected row. */
  function ScrapeLive(es: seq<RawEntry>, stage: RawEntry -> (string, string)): (r: Result<seq<LiveMatch>>)
    ensures r.Failure? <==> exists i :: 0 <= i < |es| && Breaks(es[i])
    ensures r.Success? ==> r.value == FilterMap(es, e => Emitted(e, stage))
    decreases |es|
  {
    if |es| == 0 then Success([])
    else
      var e := es[0];
      var rest := ScrapeLive(es[1..], stage);
      assert forall i :: 1 <= i < |es| ==> es[i] == es[1..][i - 1];
      if Breaks(e) then Failure
      else if rest.Failure? then Failure
      else if Selected(e) then Success([Record(e, stage)] + rest.value)
      else Success(rest.value)
  }

  /** `get_live_matches`: a live section that never appears gives `[]`. */
  function LiveMatches(section: Option<seq<RawEntry>>, stage: RawEntry -> (string, string)): (r: Result<seq<LiveMatch>>)
    ensures section.None? ==> r == Success([])
    ensures section.Some? ==> r == ScrapeLive(section.value, stage)
  {
    match section
    case None => Success([])
    case Some(es) => ScrapeLive(es, stage)
  }
}
