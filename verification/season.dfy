/** Season arithmetic of the EuroLeague wrappers: the season a date falls
    in, and the latest round with a played game. Dates are given as a
    year and a month; the season's game metadata as the outcome of the
    fetch. */
module Season {
  import opened Outcome

  /** A season starts in September. */
  const SeasonStartMonth := 9

  /** Months counted on one line, so that dates compare as integers. */
  function MonthIndex(year: int, month: int): int {
    year * 12 + (month - 1)
  }

  /** `get_current_season_code`: the starting year of the season the date
      falls in. It is the year itself or the one before, and the date lies
      in `[September of r, September of r + 1)`. */
  function SeasonCode(year: int, month: int): (r: int)
    requires 1 <= month <= 12
    ensures r == year || r == year - 1
    ensures MonthIndex(r, SeasonStartMonth) <= MonthIndex(year, month) < MonthIndex(r + 1, SeasonStartMonth)
  {
    if month >= SeasonStartMonth then year else year - 1
  }

  /** Later dates never fall in earlier seasons. */
  lemma SeasonCodeMonotone(y1: int, m1: int, y2: int, m2: int)
    requires 1 <= m1 <= 12 && 1 <= m2 <= 12
    requires MonthIndex(y1, m1) <= MonthIndex(y2, m2)
    ensures SeasonCode(y1, m1) <= SeasonCode(y2, m2)
  {
  }

  /** The season code is the only year whose September-to-August span
      contains the date. */
  lemma SeasonCodeUnique(year: int, month: int, s: int)
    requires 1 <= month <= 12
    requires MonthIndex(s, SeasonStartMonth) <= MonthIndex(year, month) < MonthIndex(s + 1, SeasonStartMonth)
    ensures s == SeasonCode(year, month)
  {
  }

  /** One row of the season's game metadata. */
  datatype GameMeta = GameMeta(gameday: int, played: bool, homeTeam: string, awayTeam: string,
                               homeScore: int, awayScore: int)

  /** The largest gameday among played games, absent when none was played. */
  function MaxPlayed(gs: seq<GameMeta>): (r: Option<int>)
    ensures r.None? <==> forall i :: 0 <= i < |gs| ==> !gs[i].played
    ensures r.Some? ==> exists i :: 0 <= i < |gs| && gs[i].played && gs[i].gameday == r.value
    ensures r.Some? ==> forall i :: 0 <= i < |gs| && gs[i].played ==> gs[i].gameday <= r.value
    decreases |gs|
  {
    if |gs| == 0 then None
    else
      var rest := MaxPlayed(gs[1..]);
      assert forall i :: 1 <= i < |gs| ==> gs[i] == gs[1..][i - 1];
      if !gs[0].played then rest
      else match rest
        case None => Some(gs[0].gameday)
        case Some(m) => Some(if gs[0].gameday >= m then gs[0].gameday else m)
  }

  /** `get_latest_round`: the largest played gameday of the season, `None`
      when the fetch fails or nothing has been played. */
  function LatestRound(meta: Result<seq<GameMeta>>): (r: Option<int>)
    ensures meta.Failure? ==> r.None?
    ensures meta.Success? ==> (r.None? <==> forall g :: g in meta.value ==> !g.played)
    ensures r.Some? ==> (exists g :: g in meta.value && g.played && g.gameday == r.value)
                        && forall g :: g in meta.value && g.played ==> g.gameday <= r.value
  {
    match meta
    case Failure => None
    case Success(gs) => MaxPlayed(gs)
  }

  /** The latest round does not depend on the order of the rows. */
  lemma LatestRoundOrderFree(a: seq<GameMeta>, b: seq<GameMeta>)
    requires multiset(a) == multiset(b)
    ensures LatestRound(Success(a)) == LatestRound(Success(b))
  {
    SameElements(a, b);
    var ra, rb := LatestRound(Success(a)), LatestRound(Success(b));
    if ra.Some? && rb.Some? {
      var ga :| ga in a && ga.played && ga.gameday == ra.value;
      var gb :| gb in b && gb.played && gb.gameday == rb.value;
      assert ga in b && gb in a;
    }
  }

  /** Rows with the same multiset have the same members. */
  lemma SameElements(a: seq<GameMeta>, b: seq<GameMeta>)
    requires multiset(a) == multiset(b)
    ensures forall g :: g in a <==> g in b
  {
    forall g ensures g in a <==> g in b {
      assert g in a <==> g in multiset(a);
      assert g in b <==> g in multiset(b);
    }
  }
}
