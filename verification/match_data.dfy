/** The records exchanged between the scrapers, the cache and the two
    front ends: live-match summaries, match-detail snapshots and standings
    entries. Every scraped value is text, as the scrapers produce it. */
module MatchData {

  /** One live match as listed by `get_live_matches`: team names, score
      text, period label, clock text and the detail-page URL, which also
      keys the detail caches. */
  datatype LiveMatch = LiveMatch(team1: string, team2: string, score: string,
                                 quarter: string, time: string, url: string)

  datatype Player = Player(name: string, team: string, points: string)

  /** One team-statistics row; `labelText` is the row's `label` key. */
  datatype StatRow = StatRow(labelText: string, home: string, away: string)

  /** An optional list in a detail snapshot: the key may be missing
      altogether, hold the `"Not found"` sentinel, or hold a list. */
  datatype Listing<+T> = Missing | NotFound | Rows(items: seq<T>)

  /** A match-detail snapshot, or an `{"error": ...}` object: the one the
      scraper returns when the period-score container never appears, or
      the Flask route's reply for a missing URL or an uncached match, which
      the live view stores like any other detail. */
  datatype MatchDetail =
    | Detail(homeQuarters: seq<string>, awayQuarters: seq<string>,
             homeTotal: string, awayTotal: string,
             topPlayers: Listing<Player>, teamStats: Listing<StatRow>,
             homeTeam: string, awayTeam: string)
    | ContainerMissing

  /** A standings entry; only the fields the front ends read. */
  datatype Team = Team(name: string, crest: string)

  /** The `"Not found"` sentinel. */
  const NotFoundText := "Not found"
}
