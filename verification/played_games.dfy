/** The played-matches wrapper: the games of the latest round that have
    been played, as records with status `"Finished"`. The season metadata
    fetch is a function from season code to outcome; the wrapper calls it
    twice (once inside `get_latest_round`), and both calls see its result
    for the same season. */
module PlayedGames {
  import opened Outcome
  import opened Seqs
  import opened Season

  const Finished := "Finished"

  /** One entry of the served list. */
  datatype PlayedRecord = PlayedRecord(homeTeam: string, awayTeam: string,
                                       homeScore: int, awayScore: int, status: string)

  /** The record of a game row: names and scores copied, status fixed. */
  function RecordOf(g: GameMeta): PlayedRecord {
    PlayedRecord(g.homeTeam, g.awayTeam, g.homeScore, g.awayScore, Finished)
  }

  /** The row filter: `gameday == round`, then `played`. Comparing with a
      missing round selects nothing. */
  function InRound(round: Option<int>): GameMeta -> Option<PlayedRecord> {
    (g: GameMeta) => if round == Some(g.gameday) && g.played then Some(RecordOf(g)) else None
  }

  /** The records of the played games of `round`, in row order. */
  function PlayedIn(gs: seq<GameMeta>, round: Option<int>): (r: seq<PlayedRecord>)
    ensures round.None? ==> r == []
    ensures forall rec :: rec in r ==> rec.status == Finished
    ensures forall rec :: rec in r ==>
              exists g :: g in gs && g.played && Some(g.gameday) == round && rec == RecordOf(g)
    ensures forall g :: g in gs && g.played && Some(g.gameday) == round ==> RecordOf(g) in r
  {
    FilterMap(gs, InRound(round))
  }

  /** Row order survives the filter. */
  lemma PlayedInOrder(a: seq<GameMeta>, b: seq<GameMeta>, round: Option<int>)
    ensures PlayedIn(a + b, round) == PlayedIn(a, round) + PlayedIn(b, round)
  {
    FilterMapAppend(a, b, InRound(round));
  }

  /** How many rows are played games of `round`. */
  function CountPlayedIn(gs: seq<GameMeta>, round: Option<int>): nat
    decreases |gs|
  {
    if |gs| == 0 then 0
    else (if round == Some(gs[0].gameday) && gs[0].played then 1 else 0) + CountPlayedIn(gs[1..], round)
  }

  /** One record per played game of the round. */
  lemma {:induction false} PlayedInLength(gs: seq<GameMeta>, round: Option<int>)
    ensures |PlayedIn(gs, round)| == CountPlayedIn(gs, round)
    decreases |gs|
  {
    if |gs| > 0 {
      PlayedInLength(gs[1..], round);
    }
  }

  /** `get_played_matches`: the played games of the latest round of the
      current season, `[]` when the fetch fails. When the fetch succeeds
      and some game has been played the list is not empty, and every
      record comes from a played game of the latest round. */
  function GetPlayedMatches(year: int, month: int, fetch: int -> Result<seq<GameMeta>>): (r: seq<PlayedRecord>)
    requires 1 <= month <= 12
    ensures fetch(SeasonCode(year, month)).Failure? ==> r == []
    ensures fetch(SeasonCode(year, month)).Success? ==>
              var gs := fetch(SeasonCode(year, month)).value;
              && (|r| == 0 <==> forall g :: g in gs ==> !g.played)
              && (forall rec :: rec in r ==> exists g :: g in gs && g.played && rec == RecordOf(g)
                                                         && forall h :: h in gs && h.played ==> h.gameday <= g.gameday)
              && (forall g :: g in gs && g.played && (forall h :: h in gs && h.played ==> h.gameday <= g.gameday)
                              ==> RecordOf(g) in r)
              && r == PlayedIn(gs, LatestRound(Success(gs)))
  {
    var season := SeasonCode(year, month);
    var round := LatestRound(fetch(season));
    match fetch(season)
    case Failure => []
    case Success(gs) =>
      forall g | g in gs && g.played && (forall h :: h in gs && h.played ==> h.gameday <= g.gameday)
        ensures Some(g.gameday) == round
      {
        var h :| h in gs && h.played && h.gameday == round.value;
      }
      PlayedIn(gs, round)
  }
}
