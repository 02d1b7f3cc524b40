/** The React live-match view: the list of live matches, a per-URL
    visibility map for the detail panels, a detail cache merged one key at
    a time, the choice of URLs each refresh tick fetches, the immediate
    fetch a toggle may fire, and the conditions under which the panel and
    its "no data" notices render. Fetches are modelled by the requests an
    action issues and by the outcomes later applied to the state. */
module LiveView {
  import opened Outcome
  import opened MatchData

  type Url = string

  /** `detailsVisibility`: URL to "panel open" flag. */
  type Visibility = map<Url, bool>

  /** `matchDetails`: URL to the last detail snapshot received. */
  type DetailCache = map<Url, MatchDetail>

  datatype ViewState = ViewState(matches: seq<LiveMatch>, details: DetailCache,
                                 visibility: Visibility, lastUpdated: Option<string>,
                                 loading: bool)

  /** The state the view mounts with. */
  const Initial := ViewState([], map[], map[], None, true)

  /** `detailsVisibility[url]` read as a boolean: an absent entry is false. */
  predicate Visible(vis: Visibility, url: Url) {
    url in vis && vis[url]
  }

  /* ---------------- toggling ---------------- */

  /** `{...prev, [url]: !prev[url]}`: flips the flag of `url`, creating the
      entry as `true` when absent, and keeps every other entry. */
  function Toggle(vis: Visibility, url: Url): (r: Visibility)
    ensures url in r && Visible(r, url) != Visible(vis, url)
    ensures r.Keys == vis.Keys + {url}
    ensures forall u :: u in vis && u != url ==> r[u] == vis[u]
  {
    vis[url := !Visible(vis, url)]
  }

  /** Two toggles restore the flag; an absent entry comes back as `false`. */
  lemma ToggleTwice(vis: Visibility, url: Url)
    ensures Visible(Toggle(Toggle(vis, url), url), url) == Visible(vis, url)
    ensures url in vis ==> Toggle(Toggle(vis, url), url) == vis
    ensures url !in vis ==> Toggle(Toggle(vis, url), url) == vis[url := false]
  {
  }

  /** `handleViewDetails`: the new state and the detail fetch the handler
      itself fires, which happens exactly when nothing is cached for `url`,
      in either direction of the toggle. The refresh effect then adds its
      own fetches (`ClickFetches`). */
  function HandleViewDetails(s: ViewState, url: Url): (r: (ViewState, Option<Url>))
    ensures r.0.visibility == Toggle(s.visibility, url)
    ensures r.0.matches == s.matches && r.0.details == s.details
    ensures r.0.lastUpdated == s.lastUpdated && r.0.loading == s.loading
    ensures r.1.Some? <==> url !in s.details
    ensures r.1.Some? ==> r.1.value == url
  {
    var fetch := if url in s.details then None else Some(url);
    (s.(visibility := Toggle(s.visibility, url)), fetch)
  }

  /* ---------------- detail cache ---------------- */

  /** A detail fetch for `url` resolving: `{...prev, [url]: data}` on
      success; a failed fetch is only logged. */
  function CompleteDetail(cache: DetailCache, url: Url, outcome: Result<MatchDetail>): (r: DetailCache)
    ensures outcome.Success? ==> url in r && r[url] == outcome.value
    ensures outcome.Success? ==> r.Keys == cache.Keys + {url}
    ensures outcome.Failure? ==> r == cache
    ensures forall u :: u != url ==> (u in r <==> u in cache) && (u in cache ==> r[u] == cache[u])
  {
    match outcome
    case Success(d) => cache[url := d]
    case Failure => cache
  }

  /** One resolved detail fetch: which URL, and what came back. */
  datatype Completion = Completion(url: Url, outcome: Result<MatchDetail>)

  /** Detail fetches resolving in the order given (any order the network
      chooses), each merged on its own. */
  function ApplyCompletions(cache: DetailCache, cs: seq<Completion>): DetailCache
    decreases |cs|
  {
    if |cs| == 0 then cache
    else ApplyCompletions(CompleteDetail(cache, cs[0].url, cs[0].outcome), cs[1..])
  }

  /** The snapshot of the last successful completion for `url`, if any. */
  function LastSuccess(cs: seq<Completion>, url: Url): Option<MatchDetail>
    decreases |cs|
  {
    if |cs| == 0 then None
    else
      var c := cs[|cs| - 1];
      if c.url == url && c.outcome.Success? then Some(c.outcome.value)
      else LastSuccess(cs[..|cs| - 1], url)
  }

  lemma {:induction false} ApplyCompletionsSnoc(cache: DetailCache, cs: seq<Completion>, c: Completion)
    ensures ApplyCompletions(cache, cs + [c])
            == CompleteDetail(ApplyCompletions(cache, cs), c.url, c.outcome)
    decreases |cs|
  {
    if |cs| > 0 {
      assert (cs + [c])[1..] == cs[1..] + [c];
      ApplyCompletionsSnoc(CompleteDetail(cache, cs[0].url, cs[0].outcome), cs[1..], c);
    }
  }

  /** Out-of-order resolution cannot cross-contaminate: each URL ends with
      its own last successful snapshot, or keeps its previous entry (or
      absence) when none of its fetches succeeded. */
  lemma {:induction false} ApplyCompletionsPerUrl(cache: DetailCache, cs: seq<Completion>, url: Url)
    ensures var r := ApplyCompletions(cache, cs);
            match LastSuccess(cs, url)
            case Some(d) => url in r && r[url] == d
            case None => (url in r <==> url in cache) && (url in cache ==> r[url] == cache[url])
    decreases |cs|
  {
    if |cs| > 0 {
      var init := cs[..|cs| - 1];
      var c := cs[|cs| - 1];
      assert cs == init + [c];
      ApplyCompletionsSnoc(cache, init, c);
      ApplyCompletionsPerUrl(cache, init, url);
    }
  }

  /* ---------------- refresh ticks ---------------- */

  /** `fetchDetailsForVisibleMatches`: with no live matches nothing is
      fetched; otherwise exactly the URLs whose flag is true, once each. */
  function RefreshTargets(matches: seq<LiveMatch>, vis: Visibility): (r: set<Url>)
    ensures |matches| == 0 ==> r == {}
    ensures forall u :: u in r <==> |matches| > 0 && Visible(vis, u)
  {
    if |matches| == 0 then {} else set u | u in vis && vis[u]
  }

  /** A toggle changes the refresh set only at the toggled URL: it joins the
      set when it was hidden and leaves it when it was shown. */
  lemma ToggleRefreshTargets(matches: seq<LiveMatch>, vis: Visibility, url: Url)
    requires |matches| > 0
    ensures url in RefreshTargets(matches, Toggle(vis, url)) <==> url !in RefreshTargets(matches, vis)
    ensures forall u :: u != url ==>
              (u in RefreshTargets(matches, Toggle(vis, url)) <==> u in RefreshTargets(matches, vis))
  {
  }

  /** Every detail fetch a click issues before any timer fires: the
      handler's own fetch, then the immediate run of the refresh effect,
      which React repeats because `detailsVisibility` changed. With a
      non-empty list the clicked URL is fetched by the effect whenever the
      click opens it, cached or not, and every other open URL is fetched
      again. */
  function ClickFetches(s: ViewState, url: Url): (r: multiset<Url>)
    ensures r[url] == (if url in s.details then 0 else 1)
                      + (if |s.matches| > 0 && !Visible(s.visibility, url) then 1 else 0)
    ensures forall u :: u != url ==> r[u] == (if |s.matches| > 0 && Visible(s.visibility, u) then 1 else 0)
  {
    var (t, fetch) := HandleViewDetails(s, url);
    (if fetch.Some? then multiset{fetch.value} else multiset{}) + multiset(RefreshTargets(t.matches, t.visibility))
  }

  /** Opening an uncached match while the list is not empty fetches its
      detail twice: once from the handler, once from the effect. */
  lemma OpeningFetchesTwice(s: ViewState, url: Url)
    requires |s.matches| > 0 && !Visible(s.visibility, url) && url !in s.details
    ensures ClickFetches(s, url)[url] == 2
  {
  }

  /** What `/api/live_matches` returned: `matches` and `last_updated` may be
      missing from the payload. */
  datatype ListPayload = ListPayload(matches: Option<seq<LiveMatch>>, lastUpdated: Option<string>)

  /** `fetchLiveMatches` resolving: on success the list becomes
      `data.matches || []` and the timestamp `data.last_updated || null`
      (an empty string is falsy); on failure only `loading` changes. Either
      way loading ends. */
  function RefreshList(s: ViewState, outcome: Result<ListPayload>): (r: ViewState)
    ensures !r.loading
    ensures r.details == s.details && r.visibility == s.visibility
    ensures outcome.Failure? ==> r == s.(loading := false)
    ensures outcome.Success? ==> r.matches == outcome.value.matches.GetOr([])
    ensures outcome.Success? ==>
              (r.lastUpdated.Some? <==> outcome.value.lastUpdated.Some? && outcome.value.lastUpdated.value != "")
    ensures outcome.Success? && r.lastUpdated.Some? ==> r.lastUpdated == outcome.value.lastUpdated
  {
    match outcome
    case Failure => s.(loading := false)
    case Success(data) =>
      var stamp := if data.lastUpdated == Some("") then None else data.lastUpdated;
      s.(matches := data.matches.GetOr([]), lastUpdated := stamp, loading := false)
  }

  /** The detail fetches a resolved list refresh triggers at once. A
      success stores a new `matches` array, so the refresh effect runs
      again: with a non-empty list it fetches every open URL. A failure
      changes no dependency of the effect and fetches nothing. */
  function ListRefreshFetches(s: ViewState, outcome: Result<ListPayload>): (r: set<Url>)
    ensures outcome.Failure? ==> r == {}
    ensures outcome.Success? ==>
              forall u :: u in r <==> |outcome.value.matches.GetOr([])| > 0 && Visible(s.visibility, u)
  {
    match outcome
    case Failure => {}
    case Success(_) =>
      var t := RefreshList(s, outcome);
      RefreshTargets(t.matches, t.visibility)
  }

  /* ---------------- rendering conditions ---------------- */

  /** What the match grid shows. */
  datatype Grid = Spinner | NoLiveMatches | Cards(count: nat)

  function GridOf(s: ViewState): (r: Grid)
    ensures r.Spinner? <==> s.loading
    ensures r.NoLiveMatches? <==> !s.loading && |s.matches| == 0
    ensures r.Cards? ==> r.count == |s.matches| > 0
  {
    if s.loading then Spinner
    else if |s.matches| == 0 then NoLiveMatches
    else Cards(|s.matches|)
  }

  /** A list section of the panel: the "no ... available" notice, the
      entries, or a render fault (`.map` of a missing key throws). */
  datatype Section<+T> = Notice | Entries(items: seq<T>) | RenderFault

  /** Only the `"Not found"` sentinel selects the notice; an empty list
      renders as an empty list. */
  function SectionOf<T>(l: Listing<T>): (r: Section<T>)
    ensures r.Notice? <==> l.NotFound?
    ensures r.Entries? <==> l.Rows?
    ensures r.Entries? ==> r.items == l.items
  {
    match l
    case NotFound => Notice
    case Rows(xs) => Entries(xs)
    case Missing => RenderFault
  }

  /** The detail panel under a card. */
  datatype Panel =
    | Closed
    | Open(homeRow: seq<string>, awayRow: seq<string>,
           players: Section<Player>, stats: Section<StatRow>)
    | Faulted

  /** The panel renders only when the flag is true and a snapshot is
      cached; a snapshot without period scores (the scraper's error object)
      cannot be rendered. Each score row is the five periods then the
      total. */
  function PanelOf(s: ViewState, url: Url): (r: Panel)
    ensures r.Closed? <==> !Visible(s.visibility, url) || url !in s.details
    ensures r.Open? ==> url in s.details && s.details[url].Detail?
    ensures r.Open? ==> var d := s.details[url];
                        && r.homeRow == d.homeQuarters + [d.homeTotal]
                        && r.awayRow == d.awayQuarters + [d.awayTotal]
                        && (r.players.Notice? <==> d.topPlayers.NotFound?)
                        && (r.stats.Notice? <==> d.teamStats.NotFound?)
                        && r.players == SectionOf(d.topPlayers) && r.stats == SectionOf(d.teamStats)
    ensures r.Faulted? <==> Visible(s.visibility, url) && url in s.details && s.details[url].ContainerMissing?
  {
    if !Visible(s.visibility, url) || url !in s.details then Closed
    else
      match s.details[url]
      case ContainerMissing => Faulted
      case Detail(hq, aq, ht, at, tp, ts, _, _) =>
        Open(hq + [ht], aq + [at], SectionOf(tp), SectionOf(ts))
  }

  /** The button under a card. */
  function ButtonLabel(vis: Visibility, url: Url): (r: string)
    ensures r == "Close Details" <==> Visible(vis, url)
    ensures r == "View Details" <==> !Visible(vis, url)
  {
    if Visible(vis, url) then "Close Details" else "View Details"
  }

  /** Every toggle flips the button's label. */
  lemma ToggleFlipsLabel(vis: Visibility, url: Url)
    ensures ButtonLabel(Toggle(vis, url), url) != ButtonLabel(vis, url)
  {
  }

  /** A resolved list refresh, successful or not, never leaves the spinner;
      a successful one shows one card per received match, or the "no live
      matches" text when none came. */
  lemma RefreshLeavesSpinner(s: ViewState, outcome: Result<ListPayload>)
    ensures GridOf(RefreshList(s, outcome)) != Spinner
    ensures outcome.Success? && |outcome.value.matches.GetOr([])| > 0 ==>
              GridOf(RefreshList(s, outcome)) == Cards(|outcome.value.matches.value|)
    ensures outcome.Success? && |outcome.value.matches.GetOr([])| == 0 ==>
              GridOf(RefreshList(s, outcome)) == NoLiveMatches
  {
  }

  /** A toggle followed by its immediate fetch resolving opens the panel of
      a URL that was hidden and had nothing cached. */
  lemma FirstToggleOpensPanel(s: ViewState, url: Url, d: MatchDetail)
    requires !Visible(s.visibility, url) && url !in s.details && d.Detail?
    ensures var (t, fetch) := HandleViewDetails(s, url);
            fetch == Some(url)
            && PanelOf(t.(details := CompleteDetail(t.details, url, Success(d))), url).Open?
  {
  }
}
