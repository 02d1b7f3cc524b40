/** The first scraper (`scrapper.py`): live rows whose minute is stripped
    and zero-padded, and detail pages whose period scores are picked by
    CSS class, whose totals fall back to `"Not found"`, and whose top
    players are the first three name cells. */
module RootScraper {
  import opened Outcome
  import opened Text
  import opened Seqs
  import opened MatchData
  import opened Scrape

  /* ---------------- live rows ---------------- */

  /** `minute.zfill(2)` when `minute.isdigit()`, else the minute as is. */
  function PadMinute(m: string): (r: string)
    ensures !IsDigits(m) ==> r == m
    ensures IsDigits(m) ==> IsDigits(r) && |r| == (if |m| >= 2 then |m| else 2)
    ensures IsDigits(m) ==> r[|r| - |m|..] == m && DigitsValue(r) == DigitsValue(m)
  {
    if IsDigits(m) then
      var r := ZFill(m, 2);
      assert r == Zeros(|r| - |m|) + m;
      LeadingZerosValue(|r| - |m|, m);
      r
    else m
  }

  /** Quarter and minute: the stage-block text is stripped and split on
      newlines; the first line (stripped) is the quarter, the second line
      (stripped, then padded) the minute, `""` without a second line or
      without a stage block. */
  function Stage(blocks: seq<string>): (r: (string, string))
    ensures |blocks| == 0 ==> r == ("", "")
    ensures |blocks| > 0 && '\n' !in Strip(blocks[0]) ==> r == (Strip(blocks[0]), "")
    ensures |blocks| > 0 && '\n' in Strip(blocks[0]) ==>
              var ps := Split(Strip(blocks[0]), '\n');
              |ps| >= 2 && r == (Strip(ps[0]), PadMinute(Strip(ps[1])))
  {
    if |blocks| == 0 then ("", "")
    else
      var parts := Split(Strip(blocks[0]), '\n');
      SplitFirstTwo(Strip(blocks[0]), '\n');
      StripIdempotent(blocks[0]);
      var quarter := Strip(parts[0]);
      var minute := if |parts| >= 2 then Strip(parts[1]) else "";
      (quarter, PadMinute(minute))
  }

  function StageOf(e: RawEntry): (string, string) {
    Stage(e.stageBlocks)
  }

  /** `get_live_matches` of this scraper; the record's `time` field is the
      dictionary's `"minute"` key. */
  function LiveMatchesOf(section: Option<seq<RawEntry>>): (r: Result<seq<LiveMatch>>)
    ensures section.None? ==> r == Success([])
    ensures section.Some? ==> (r.Failure? <==> exists i :: 0 <= i < |section.value| && Breaks(section.value[i]))
    ensures r.Success? ==> forall m :: m in r.value ==>
              exists e :: e in section.value && Selected(e) && |e.participants| >= 2
                          && m == Record(e, StageOf)
    ensures section.Some? && r.Success? ==> r.value == FilterMap(section.value, e => Emitted(e, StageOf))
  {
    LiveMatches(section, StageOf)
  }

  /* ---------------- detail page ---------------- */

  /** A `.smh__part.smh__home` (or away) element: its class attribute and
      its text. */
  datatype ClassedText = ClassedText(classes: string, text: string)

  /** A period cell: class mentions `"smh__part--"` but not `"smh__score"`. */
  predicate IsPeriodCell(e: ClassedText) {
    Contains(e.classes, "smh__part--") && !Contains(e.classes, "smh__score")
  }

  function PeriodText(e: ClassedText): Option<string> {
    if IsPeriodCell(e) then Some(Strip(e.text)) else None
  }

  /** The period scores: the stripped texts of the period cells, in page
      order, and nothing else. */
  function PeriodScores(es: seq<ClassedText>): (r: seq<string>)
    ensures |r| <= |es|
    ensures forall e :: e in es && IsPeriodCell(e) ==> Strip(e.text) in r
    ensures forall s :: s in r ==> exists e :: e in es && IsPeriodCell(e) && s == Strip(e.text)
  {
    FilterMap(es, PeriodText)
  }

  /** Page order survives the class filter. */
  lemma PeriodScoresInOrder(a: seq<ClassedText>, b: seq<ClassedText>)
    ensures PeriodScores(a + b) == PeriodScores(a) + PeriodScores(b)
  {
    FilterMapAppend(a, b, PeriodText);
  }

  /** What the browser found: the container wait, the home and away period
      elements, the total cells (`None` when `find_element` raised) and the
      player name cells. */
  datatype RootPage = RootPage(partsPresent: bool,
                               home: seq<ClassedText>, away: seq<ClassedText>,
                               homeTotal: Option<string>, awayTotal: Option<string>,
                               playerCells: seq<string>)

  /** This scraper's detail dictionary; top players are bare name texts. */
  datatype RootDetail =
    | RootDetail(homeQuarters: seq<string>, awayQuarters: seq<string>,
                 homeTotal: string, awayTotal: string, topPlayers: seq<string>)
    | RootContainerMissing

  /** `player_cells[:3]`, stripped. */
  function FirstThree(cells: seq<string>): (r: seq<string>)
    ensures |r| == Min(3, |cells|)
    ensures forall i :: 0 <= i < |r| ==> r[i] == Strip(cells[i])
  {
    var n := Min(3, |cells|);
    seq(n, i requires 0 <= i < n => Strip(cells[i]))
  }

  /** On a table whose three columns are equally long, the shared
      scrapers' top-player names are this scraper's first three name
      cells. */
  lemma TopPlayerNamesAreFirstThree(c: PlayerCells)
    requires |c.names| == |c.teams| == |c.points|
    ensures |TopPlayers(c)| == |FirstThree(c.names)|
    ensures forall i :: 0 <= i < |TopPlayers(c)| ==> TopPlayers(c)[i].name == FirstThree(c.names)[i]
  {
  }

  function TotalText(t: Option<string>): (r: string)
    ensures t.None? ==> r == NotFoundText
    ensures t.Some? ==> r == Strip(t.value)
  {
    match t
    case None => NotFoundText
    case Some(s) => Strip(s)
  }

  /** `get_match_details` of this scraper. */
  function DetailOf(p: RootPage): (r: RootDetail)
    ensures r.RootContainerMissing? <==> !p.partsPresent
    ensures r.RootDetail? ==> r.homeQuarters == PeriodScores(p.home) && r.awayQuarters == PeriodScores(p.away)
    ensures r.RootDetail? ==> r.homeTotal == TotalText(p.homeTotal) && r.awayTotal == TotalText(p.awayTotal)
    ensures r.RootDetail? ==> |r.topPlayers| <= 3 && r.topPlayers == FirstThree(p.playerCells)
  {
    if !p.partsPresent then RootContainerMissing
    else RootDetail(PeriodScores(p.home), PeriodScores(p.away),
                    TotalText(p.homeTotal), TotalText(p.awayTotal), FirstThree(p.playerCells))
  }
}
