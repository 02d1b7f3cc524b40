/** The played-matches view: one card per record with the teams resolved
    by first word, the score text `"home - away"` and the status
    `"Finished"`, or a notice when the list is empty. */
module PlayedCards {
  import opened Outcome
  import opened Text
  import opened MatchData
  import opened TeamLookup
  import opened PlayedGames

  /** A `MatchCard`: status, score text, and each side's standings team
      with the feed name to fall back on. */
  datatype Card = Card(status: string, score: string,
                       home: Option<Team>, homeFallback: string,
                       away: Option<Team>, awayFallback: string)

  /** "No played matches found", or the cards. */
  datatype PlayedView = NoPlayedMatches | Cards(cards: seq<Card>)

  /** Reads a card's score text back into the two scores. */
  function ParseCardScore(s: string): Option<(int, int)> {
    var ps := Split(s, ' ');
    if |ps| == 3 && ps[1] == "-" then Some((ParseDecimal(ps[0]), ParseDecimal(ps[2]))) else None
  }

  /** The template `${home} - ${away}` on two integers: both scores can be
      read back from it. */
  function CardScore(home: int, away: int): (r: string)
    ensures ParseCardScore(r) == Some((home, away))
  {
    SplitDashed(Decimal(home), Decimal(away));
    DecimalRoundTrip(home);
    DecimalRoundTrip(away);
    Decimal(home) + " - " + Decimal(away)
  }

  /** Different score pairs never share a score text. */
  lemma CardScoreInjective(h1: int, a1: int, h2: int, a2: int)
    requires CardScore(h1, a1) == CardScore(h2, a2)
    ensures h1 == h2 && a1 == a2
  {
    assert ParseCardScore(CardScore(h1, a1)) == Some((h1, a1));
  }

  /** The card of one record; its status is `"Finished"` whatever the
      record says. */
  function CardOf(rec: PlayedRecord, standings: seq<Team>): (r: Card)
    ensures r.status == Finished
    ensures ParseCardScore(r.score) == Some((rec.homeScore, rec.awayScore))
    ensures r.homeFallback == rec.homeTeam && r.awayFallback == rec.awayTeam
    ensures r.home.Some? ==> r.home.value in standings && NormalizeName(r.home.value.name) == NormalizeName(rec.homeTeam)
    ensures r.away.Some? ==> r.away.value in standings && NormalizeName(r.away.value.name) == NormalizeName(rec.awayTeam)
  {
    Card(Finished, CardScore(rec.homeScore, rec.awayScore),
         PlayedTeam(rec.homeTeam, standings), rec.homeTeam,
         PlayedTeam(rec.awayTeam, standings), rec.awayTeam)
  }

  /** The rendered list: the notice exactly when there is no record, else
      one card per record, in order. */
  function ViewOf(records: seq<PlayedRecord>, standings: seq<Team>): (r: PlayedView)
    ensures r.NoPlayedMatches? <==> |records| == 0
    ensures r.Cards? ==> |r.cards| == |records|
                         && forall i :: 0 <= i < |records| ==> r.cards[i] == CardOf(records[i], standings)
  {
    if |records| == 0 then NoPlayedMatches
    else Cards(seq(|records|, i requires 0 <= i < |records| => CardOf(records[i], standings)))
  }
}
