/** The plain-DOM detail poller: one global subscription (current URL and
    team names) and one repeating timer. Selecting a match replaces the
    subscription, clears the previous timer, loads the selection once
    immediately and installs a new timer whose ticks reload whatever is
    selected at the time they fire. Timer handles are abstract positive
    tokens handed out in increasing order, as browsers do. */
module DetailPoller {
  import opened Outcome
  import opened MatchData

  /** What a load request asks for: `loadMatchDetails(url, team1, team2)`. */
  datatype Load = Load(url: string, team1: string, team2: string)

  /** `currentDetailURL`, `currentDetailTeams`, `detailInterval`, plus the
      timers still scheduled and the next handle the browser will issue. */
  datatype Poller = Poller(current: Option<Load>, interval: Option<nat>,
                           scheduled: set<nat>, nextHandle: nat)

  const Initial := Poller(None, None, {}, 1)

  /** At most one timer is scheduled, it is the stored handle, handles are
      positive (so `if (detailInterval)` sees every stored one), and a
      subscription exists exactly when a timer does. */
  predicate Valid(p: Poller) {
    && p.nextHandle >= 1
    && (p.interval.None? ==> p.scheduled == {})
    && (p.interval.Some? ==> 1 <= p.interval.value < p.nextHandle && p.scheduled == {p.interval.value})
    && (p.interval.Some? <==> p.current.Some?)
  }

  lemma InitialValid()
    ensures Valid(Initial)
  {
  }

  /** `fetchMatchDetails(url, team1, team2)`: the new poller state and the
      one immediate load it issues. */
  function Select(p: Poller, url: string, team1: string, team2: string): (r: (Poller, Load))
    ensures Valid(p) ==> Valid(r.0)
    ensures r.0.current == Some(Load(url, team1, team2))
    ensures r.1 == Load(url, team1, team2)
    ensures Valid(p) ==> r.0.scheduled == {p.nextHandle} && p.nextHandle !in p.scheduled
    ensures r.0.nextHandle > p.nextHandle
  {
    var cleared := if p.interval.Some? then p.scheduled - {p.interval.value} else p.scheduled;
    var h := p.nextHandle;
    (Poller(Some(Load(url, team1, team2)), Some(h), cleared + {h}, h + 1),
     Load(url, team1, team2))
  }

  /** Timer `h` firing: a scheduled timer reloads the current selection;
      a cleared (or never issued) one does nothing. */
  function Fire(p: Poller, h: nat): (r: Option<Load>)
    ensures r.Some? ==> h in p.scheduled && Some(r.value) == p.current
    ensures Valid(p) ==> (r.Some? <==> h in p.scheduled)
    ensures Valid(p) && p.interval.Some? ==> (r.Some? <==> h == p.interval.value)
  {
    if h in p.scheduled then p.current else None
  }

  datatype Selection = Selection(url: string, team1: string, team2: string)

  /** A session of successive selections. */
  function SelectAll(p: Poller, sels: seq<Selection>): (r: Poller)
    ensures Valid(p) ==> Valid(r)
    ensures r.nextHandle >= p.nextHandle
    decreases |sels|
  {
    if |sels| == 0 then p
    else
      var s := sels[0];
      SelectAll(Select(p, s.url, s.team1, s.team2).0, sels[1..])
  }

  /** After any session, at most one timer is live, every tick loads the
      most recent selection, and no earlier handle can ever fire again. */
  lemma {:induction false} SessionFiresLastSelection(p: Poller, sels: seq<Selection>)
    requires Valid(p) && |sels| > 0
    ensures var r := SelectAll(p, sels);
            var last := sels[|sels| - 1];
            && |r.scheduled| == 1
            && (forall h :: h in r.scheduled ==> Fire(r, h) == Some(Load(last.url, last.team1, last.team2)))
            && (forall h: nat :: h + 1 < r.nextHandle ==> Fire(r, h).None?)
    decreases |sels|
  {
    var q := Select(p, sels[0].url, sels[0].team1, sels[0].team2).0;
    if |sels| > 1 {
      assert sels[1..][|sels[1..]| - 1] == sels[|sels| - 1];
      SessionFiresLastSelection(q, sels[1..]);
    } else {
      assert SelectAll(p, sels) == SelectAll(q, []);
    }
  }

  /* ---------------- empty states of the detail box ---------------- */

  /** What a player or team-statistics section of the detail box shows. */
  datatype Box<+T> = EmptyNotice | Table(rows: seq<T>)

  /** `!x || x === "Not found" || x.length === 0`: missing, the sentinel and
      the empty list all give the notice, and a table is never empty. */
  function BoxOf<T>(l: Listing<T>): (r: Box<T>)
    ensures r.EmptyNotice? <==> l.Missing? || l.NotFound? || (l.Rows? && |l.items| == 0)
    ensures r.Table? ==> l == Rows(r.rows) && |r.rows| > 0
  {
    match l
    case Rows(xs) => if |xs| == 0 then EmptyNotice else Table(xs)
    case _ => EmptyNotice
  }

  /** `${xs[i]}` in a template: the element, or the text "undefined". */
  function Cell(xs: seq<string>, i: nat): string {
    if i < |xs| then xs[i] else "undefined"
  }

  /** One row of the period table: team name, periods 1-4 and overtime,
      total. */
  function ScoreRow(team: string, quarters: seq<string>, total: string): (r: seq<string>)
    ensures |r| == 7 && r[0] == team && r[6] == total
    ensures forall i :: 0 <= i < 5 && i < |quarters| ==> r[i + 1] == quarters[i]
    ensures |quarters| == 5 ==> r == [team] + quarters + [total]
  {
    [team, Cell(quarters, 0), Cell(quarters, 1), Cell(quarters, 2), Cell(quarters, 3),
     Cell(quarters, 4), total]
  }

  /** The detail box after a load resolves. */
  datatype DetailBox = Blank | Rendered(home: seq<string>, away: seq<string>,
                                        players: Box<Player>, stats: Box<StatRow>)

  /** Rendering a snapshot for the teams of its load: a snapshot without
      period scores (the scraper's error object) throws while the box is
      already cleared, leaving it blank. */
  function RenderDetail(load: Load, d: MatchDetail): (r: DetailBox)
    ensures r.Blank? <==> d.ContainerMissing?
    ensures r.Rendered? ==> d.Detail? && r.home == ScoreRow(load.team1, d.homeQuarters, d.homeTotal)
                            && r.away == ScoreRow(load.team2, d.awayQuarters, d.awayTotal)
    ensures r.Rendered? ==> r.players == BoxOf(d.topPlayers) && r.stats == BoxOf(d.teamStats)
  {
    match d
    case ContainerMissing => Blank
    case Detail(hq, aq, ht, at, tp, ts, _, _) =>
      Rendered(ScoreRow(load.team1, hq, ht), ScoreRow(load.team2, aq, at), BoxOf(tp), BoxOf(ts))
  }
}
