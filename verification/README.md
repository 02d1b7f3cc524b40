# EuroLeague live app — a Dafny model of its decision procedures

The EuroLeague live app scrapes live basketball scores from Flashscore and
serves them from a Flask backend. It also serves standings, scheduled games
and played games from the EuroLeague API. Two front ends show the data: a
React application and an older plain-DOM page.

Underneath the browser automation and the HTTP plumbing sit small, pure
decision procedures. This project models those procedures and proves their
properties:

- **Live view state** (`LiveView`): the React component's per-URL visibility
  map and its toggle, and the immediate detail fetch a toggle may fire. It
  also covers the detail cache merged one URL at a time, the URLs each
  refresh tick fetches, the list refresh, and when the grid, the detail
  panel and its "not found" notices render.
- **Detail poller** (`DetailPoller`): the plain-DOM page's single
  subscription (current URL, team names, one interval handle). Also the
  empty-state test of its detail box and the period table it renders.
- **Team-name resolution** (`TeamLookup`): three heuristics that map a feed
  name to a standings entry.
  - Override map, then a two-way case-insensitive substring match.
  - Alias table, then an exact case-insensitive match.
  - First-word match.
- **Scrape post-processing** (`Scrape`, `BackendScraper`, `RootScraper`,
  `LegacyScraper`): what the three scraper variants do with element texts
  that were already found.
  - The live-row filter, the detail URL built from a row id, the score text.
  - The quarter/clock split and the zero-padded minute.
  - The five period slots, totals, the top three players, and the
    statistics whitelist.
- **Backend cache tick** (`LiveCache`): one iteration of the background
  loop that publishes the live list and rebuilds the details cache.
- **EuroLeague wrappers** (`Schedule`, `Season`, `PlayedGames`,
  `PlayedCards`):
  - Scheduled games grouped by gameday, serving the smallest upcoming
    gameday.
  - The season code of a date, and the latest played round as a maximum.
  - The played games of that round, and the cards the played view draws
    for them.

Shared helpers:

- `Outcome`: `Option` and `Result`.
- `Text`: ASCII models of the string methods the code calls —
  `toLowerCase`, `strip`, `split`, `replace`, `zfill`, `isdigit`, and the
  decimal rendering of integers.
- `Seqs`: filter-and-map and `Array.prototype.find`.
- `MatchData`: the records the scrapers produce.

Element lookups are modelled as the list of texts they found. A fetch or a
scrape is an `Option` or `Result` outcome. Clocks are integers. An
exception that nothing catches is a `Failure`.

## Model

| member | source | states |
|---|---|---|
| LiveView.Toggle | frontend/src/components/LiveMatches.jsx:97-101 | The URL's flag is flipped; an absent entry counts as false. The key set grows by exactly that URL, and every other entry keeps its value. |
| LiveView.ToggleTwice | frontend/src/components/LiveMatches.jsx:98-101 | Two toggles restore the flag's truth value. The map is restored when the entry existed; otherwise the entry ends as `false`. |
| LiveView.HandleViewDetails | frontend/src/components/LiveMatches.jsx:97-114 | A toggle changes only the visibility map. The handler itself issues one fetch, for that URL, exactly when no detail is cached for it, whichever way the flag goes. |
| LiveView.ClickFetches | frontend/src/components/LiveMatches.jsx:73-114 | A click's fetches are the handler's and those of the refresh effect's immediate rerun. The clicked URL is fetched once if uncached, plus once more if the click opens it with a non-empty list. Every other URL is fetched once iff it is open and the list is non-empty. |
| LiveView.OpeningFetchesTwice | frontend/src/components/LiveMatches.jsx:73-114 | Opening an uncached match with a non-empty list fetches its detail twice. |
| LiveView.CompleteDetail | frontend/src/components/LiveMatches.jsx:106-112 | A resolved detail fetch writes only its own URL's entry; every other cached detail is preserved. A failed fetch changes nothing. |
| LiveView.ApplyCompletionsSnoc | frontend/src/components/LiveMatches.jsx:82-85 | Merging one more resolved fetch after a sequence of them is merging that fetch into the sequence's result. |
| LiveView.ApplyCompletionsPerUrl | frontend/src/components/LiveMatches.jsx:82-85 | However fetches resolve, each URL ends with the snapshot of its own last successful fetch. A URL whose fetches all failed keeps its previous entry, or its absence. |
| LiveView.RefreshTargets | frontend/src/components/LiveMatches.jsx:74-79 | A refresh tick fetches exactly the URLs whose flag is true, and nothing when the match list is empty. |
| LiveView.ToggleRefreshTargets | frontend/src/components/LiveMatches.jsx:77-101 | After a toggle, the toggled URL is refreshed iff it was not before, and every other URL's refresh is unchanged. |
| LiveView.ListRefreshFetches | frontend/src/components/LiveMatches.jsx:56-95 | A failed list refresh fetches no detail. A successful one reruns the refresh effect, which fetches exactly the open URLs when the received list is non-empty, and nothing otherwise. |
| LiveView.RefreshList | frontend/src/components/LiveMatches.jsx:56-65 | A list refresh sets the matches to the payload's list, or `[]` when it is missing. The timestamp becomes the payload's, or absent when that is missing or empty. A failure changes only `loading`, and loading always ends. |
| LiveView.GridOf | frontend/src/components/LiveMatches.jsx:123-130 | A spinner exactly while loading, and the "no live matches" text exactly when loaded with no match. Otherwise one card per match. |
| LiveView.RefreshLeavesSpinner | frontend/src/components/LiveMatches.jsx:56-65 | Once a list refresh resolves, the spinner is gone. After a success the grid shows one card per received match, or the "no live matches" text when none came. |
| LiveView.SectionOf | frontend/src/components/LiveMatches.jsx:207-217 | Only the `"Not found"` sentinel selects the notice. A list renders as its entries, even when empty. |
| LiveView.PanelOf | frontend/src/components/LiveMatches.jsx:175-234 | The panel is closed iff the flag is false or no detail is cached. Once open, each score row is the periods followed by the total. Each section shows its notice for the sentinel and otherwise the cached list's entries. An error snapshot faults the render. |
| LiveView.ButtonLabel | frontend/src/components/LiveMatches.jsx:171 | "Close Details" exactly when the panel flag is true, "View Details" exactly when it is not. |
| LiveView.ToggleFlipsLabel | frontend/src/components/LiveMatches.jsx:167-172 | Each click on the button flips its label between "View Details" and "Close Details". |
| LiveView.FirstToggleOpensPanel | frontend/src/components/LiveMatches.jsx:97-113 | Toggling a hidden URL with nothing cached fires its fetch. Once that fetch resolves, the panel is open. |
| TeamLookup.LiveTeam | frontend/src/components/LiveMatches.jsx:24-41 | After the override substitution, the result is the first standings team whose lower-cased name contains, or is contained in, the lower-cased candidate. It is absent iff none qualifies. |
| TeamLookup.LiveTeamFindsExactName | frontend/src/components/LiveMatches.jsx:27-33 | A standings team whose name equals a non-overridden feed name, ignoring case, guarantees a result. |
| TeamLookup.OverrideRenamesMilan | frontend/src/components/LiveMatches.jsx:10-25 | "Olimpia Milano" is looked up as "EA7 Emporio Armani Milan". |
| TeamLookup.ByName | frontend/src/utils/getTeamFromStandings.js:20-22 | The result is a standings entry whose name equals the given name case-insensitively, and no earlier entry does; absent iff there is none. |
| TeamLookup.StandingsTeam | frontend/src/utils/getTeamFromStandings.js:10-23 | Any result is an element of the standings. With no alias hit, the result is the exact-name lookup. Otherwise the first hitting alias entry, in table order, decides by its official name. |
| TeamLookup.StandingsTeamIgnoresCase | frontend/src/utils/getTeamFromStandings.js:12-21 | Names that differ only in letter case resolve alike. |
| TeamLookup.AliasHitDecides | frontend/src/utils/getTeamFromStandings.js:11-17 | When the first hitting alias entry's official name is not in the standings, the result is absent, for every feed name and standings list. |
| TeamLookup.AliasHitHasNoFallback | frontend/src/utils/getTeamFromStandings.js:11-17 | An instance: "Barcelona" against a standings list holding only "Barcelona" gives nothing, although the exact-name lookup alone succeeds. |
| TeamLookup.NormalizeName | frontend/src/components/PlayedMatches.jsx:24-26 | The result is the lower-cased text up to the first space, or all of it when there is no space. |
| TeamLookup.NormalizeNameIdempotent | frontend/src/components/PlayedMatches.jsx:24-26 | Normalizing twice is normalizing once. |
| TeamLookup.NormalizeNameOfWords | frontend/src/components/PlayedMatches.jsx:25 | A name made of a first word, a space and anything normalizes to the lower-cased first word. |
| TeamLookup.PlayedTeam | frontend/src/components/PlayedMatches.jsx:28-37 | The first standings team whose normalized name equals the feed name's; absent iff there is none. |
| TeamLookup.PlayedTeamSameFirstWord | frontend/src/components/PlayedMatches.jsx:29-31 | Names with the same first word, ignoring case, resolve to the same team. |
| DetailPoller.InitialValid | static/script.js:11-13 | The page starts with no subscription and no timer. |
| DetailPoller.Select | static/script.js:55-65 | Selection makes the new URL and teams current and issues one immediate load for them. It clears the old timer before installing a fresh one, so exactly one timer is live afterwards. |
| DetailPoller.Fire | static/script.js:62-64 | Only a scheduled timer loads anything, and it loads the current selection. In a valid state, only the installed handle fires. |
| DetailPoller.SelectAll | static/script.js:55-65 | A run of selections keeps the single-timer invariant. |
| DetailPoller.SessionFiresLastSelection | static/script.js:56-64 | After any run of selections, one timer is live and its ticks load the last selection. Every earlier handle loads nothing. |
| DetailPoller.BoxOf | static/script.js:136 | The empty-state text shows iff the list is missing, the `"Not found"` sentinel, or empty. A table is never empty. |
| DetailPoller.ScoreRow | static/script.js:104-121 | A period-table row has seven cells: team, the five periods in order, then the total. |
| DetailPoller.RenderDetail | static/script.js:68-198 | The detail box stays blank iff the snapshot is the error object. Otherwise it shows the selected teams' rows, and each section goes through the same empty-state test. |
| Scrape.MatchUrl | backend/scrapper/scrapper.py:54-55 | The detail URL starts with the fixed prefix, and its length is prefix + cleaned id + suffix. |
| Scrape.MatchUrlRoundTrip | backend/scrapper/scrapper.py:54-55 | The part between prefix and suffix is exactly the id with every `"g_3_"` removed. |
| Scrape.MatchUrlInjective | backend/scrapper/scrapper.py:54-55 | Two ids share a URL iff they clean to the same id. |
| Scrape.MatchUrlOfRowId | backend/scrapper/scrapper.py:49-55 | A row id `"g_3_"` + core yields the URL of the core. |
| Scrape.ScoreText | backend/scrapper/scrapper.py:57-59 | The score is `"-"` iff fewer than two score texts were found; otherwise it is the two stripped texts around `" - "`. |
| Scrape.ScoreTextSplits | backend/scrapper/scrapper.py:59 | Space-free scores are read back from the score text by splitting on spaces. |
| Scrape.FivePeriods | backend/scrapper/scrapper.py:124-128 | There are always five period slots. Slot i is period i+1's first text, or `"0"` when it is missing. |
| Scrape.FivePeriodsIgnoresExtra | backend/scrapper/scrapper.py:124-128 | Periods beyond the fifth never reach the slots. |
| Scrape.FivePeriodsMissingIsEmpty | backend/scrapper/scrapper.py:124-128 | A period that was not looked up reads like one whose lookup found no text. |
| Scrape.FivePeriodsFirstTextOnly | backend/scrapper/scrapper.py:124-128 | More texts after a period's first one change no slot. |
| Scrape.TopPlayers | backend/scrapper/scrapper.py:146-152 | There are min(3, names, teams, points) rows, row i zipping the i-th stripped cell of each column. |
| Scrape.TopPlayersFirstThreeCells | backend/scrapper/scrapper.py:146-152 | Only the first three cells of each column matter. |
| Scrape.PlayerListing | backend/scrapper/scrapper.py:137-156 | The player list is `"Not found"` iff the table wait raised; otherwise it is the top rows. |
| Scrape.ScrapeLive | backend/scrapper/scrapper.py:44-85 | The row loop raises iff some selected row has a single participant. Otherwise it emits, in row order, one record per row with a live marker, participants and an id. |
| Scrape.LiveMatches | backend/scrapper/scrapper.py:31-40 | A live section that never appears gives `[]`. |
| BackendScraper.Stage | backend/scrapper/scrapper.py:62-73 | Period and clock are the first two newline-free lines of the stripped stage text. One line gives it and `""`; no stage block gives `("", "")`. |
| BackendScraper.LiveMatchesOf | backend/scrapper/scrapper.py:22-85 | This scraper's live list: `[]` without a section, a failure iff a selected row breaks, and otherwise exactly one record per selected two-participant row, in row order. |
| BackendScraper.TeamStats | backend/scrapper/scrapper.py:159-191 | Statistics are never missing. They are `"Not found"` iff no row survives the whitelist. Otherwise they hold every whitelisted row, and each item is the stripped label, home and away texts of some whitelisted row. The items are the whitelisted rows in page order (`KeptStats`, whose order `KeptStatsInOrder` proves). |
| BackendScraper.KeptStatsInOrder | backend/scrapper/scrapper.py:165-180 | Whitelisting keeps row order. |
| BackendScraper.DetailOf | backend/scrapper/scrapper.py:87-194 | The error object iff the container wait fails. Otherwise: the five period slots of each side, totals defaulting to `"0"`, the top-player listing, the whitelisted statistics, and team names that are `"Unknown"` with fewer than two participants. |
| RootScraper.PadMinute | scrapper.py:89-90 | A non-digit minute is unchanged. An all-digit minute is left-padded with zeros to at least two digits, keeping its suffix and its numeric value. |
| RootScraper.Stage | scrapper.py:75-90 | Quarter and minute are the first two stripped lines, the minute padded. A single line gives an empty minute; no stage block gives `("", "")`. |
| RootScraper.LiveMatchesOf | scrapper.py:39-103 | This scraper's live list: `[]` without a section, a failure iff a selected row breaks, and otherwise exactly one record per selected two-participant row, in row order. |
| RootScraper.PeriodScores | scrapper.py:137-146 | Exactly the stripped texts of the elements whose class mentions `"smh__part--"` and not `"smh__score"`. |
| RootScraper.PeriodScoresInOrder | scrapper.py:140-145 | The class filter keeps page order. |
| RootScraper.FirstThree | scrapper.py:186-189 | At most three players: the first three name cells, stripped. |
| RootScraper.TopPlayerNamesAreFirstThree | scrapper.py:186-189 | On equally long columns, the shared scrapers' top-player names are this scraper's first three name cells. |
| RootScraper.DetailOf | scrapper.py:126-195 | The error object iff the container wait fails. Otherwise: class-filtered periods, totals or `"Not found"`, and at most three name cells. |
| LegacyScraper.Stage | scrapper/scrapper.py:63-72 | Without a stage element, quarter and time are `"N/A"`. With one, they are the first line and the second line, or `"N/A"` when there is no second line. |
| LegacyScraper.LiveMatchesOf | scrapper/scrapper.py:33-84 | This scraper's live list: `[]` without a section, a failure iff a selected row breaks, and otherwise exactly one record per selected two-participant row, in row order. |
| LegacyScraper.DetailOf | scrapper/scrapper.py:86-179 | The error object when the container wait fails. It raises iff a team-name cell is missing. Otherwise: the five period slots of each side, totals defaulting to `"0"`, the top-player listing, and no statistics. |
| LiveCache.CollectDetailsSnoc | backend/live_cache_manager.py:30-34 | Processing one more scraped match writes only its URL, and only when its detail scrape succeeded. |
| LiveCache.CollectDetailsPerUrl | backend/live_cache_manager.py:29-36 | Each URL's entry is the detail of its last successful scrape, so a duplicate URL keeps the last detail written. |
| LiveCache.LastScrapedSome | backend/live_cache_manager.py:30-36 | A URL has a detail iff some live match with that URL was scraped without raising. |
| LiveCache.Tick | backend/live_cache_manager.py:19-51 | If the live scrape raises, nothing changes. Otherwise the live cache is exactly the scraped list, the details keys are exactly the successfully scraped URLs with their last details, and the timestamp is set with the swap. |
| LiveCache.TickReplacesDetails | backend/live_cache_manager.py:38-39 | The rebuilt details cache does not depend on the old one: entries of matches no longer live are dropped. |
| LiveCache.CachedDetail | backend/live_cache_manager.py:63-65 | A URL that is not cached gives `None`; a cached one gives its entry. |
| LiveCache.CachedAfterTick | backend/live_cache_manager.py:29-39 | Right after a tick, looking up a URL gives the last successful detail scraped for it. |
| Schedule.GamedayOf | backend/euroleague_api_wrappers/scheduled_games_wrapper.py:21 | A missing gameday reads as 0 and an integer text as its value; the reading raises iff the text is not an integer. |
| Schedule.FutureForInOrder | backend/euroleague_api_wrappers/scheduled_games_wrapper.py:36-37 | Each gameday's group keeps feed order. |
| Schedule.AddTo | backend/euroleague_api_wrappers/scheduled_games_wrapper.py:37 | The match is appended to its gameday's group, which is created when missing. Every other group is unchanged, and keys stay distinct. |
| Schedule.MinKey | backend/euroleague_api_wrappers/scheduled_games_wrapper.py:51 | The first of the sorted keys is a key and is at most every key. |
| Schedule.StepGrouped | backend/euroleague_api_wrappers/scheduled_games_wrapper.py:20-37 | One loop turn keeps every group equal to that gameday's upcoming matches so far. |
| Schedule.Group | backend/euroleague_api_wrappers/scheduled_games_wrapper.py:15-39 | Grouping raises iff some gameday is not an integer. Otherwise each gameday's group is exactly its strictly future, parseable matches in feed order, and a gameday without one has no group. |
| Schedule.GroupReadsAbsentAsZero | backend/euroleague_api_wrappers/scheduled_games_wrapper.py:21 | A feed whose missing gameday elements are written out as `"0"` is grouped exactly like the feed itself. |
| Schedule.GetScheduled | backend/euroleague_api_wrappers/scheduled_games_wrapper.py:41-53 | No data gives `[]`. An empty result means nothing is upcoming. Otherwise the result is the upcoming matches of one gameday, at most every upcoming match's gameday. |
| Season.SeasonCode | backend/euroleague_api_wrappers/season_utils.py:4-10 | The season code is the year or the one before. The date lies between September of the code's year and September of the next. |
| Season.SeasonCodeMonotone | backend/euroleague_api_wrappers/season_utils.py:10 | Later dates never get an earlier season code. |
| Season.SeasonCodeUnique | backend/euroleague_api_wrappers/season_utils.py:10 | The season code is the only year whose September-to-August span contains the date. |
| Season.MaxPlayed | backend/euroleague_api_wrappers/season_utils.py:26-29 | The result is absent iff no game was played. Otherwise it is the gameday of a played game, and no played gameday exceeds it. |
| Season.LatestRound | backend/euroleague_api_wrappers/season_utils.py:13-34 | The latest round is `None` on failure or when nothing was played. Otherwise it is the maximum played gameday. |
| Season.LatestRoundOrderFree | backend/euroleague_api_wrappers/season_utils.py:29 | The latest round does not depend on row order. |
| PlayedGames.PlayedIn | backend/euroleague_api_wrappers/played_matches_wrapper.py:18-33 | The output holds records of played games of the round, and of all of them, each with status `"Finished"`. A missing round selects nothing. |
| PlayedGames.PlayedInOrder | backend/euroleague_api_wrappers/played_matches_wrapper.py:26-33 | The filter keeps row order. |
| PlayedGames.PlayedInLength | backend/euroleague_api_wrappers/played_matches_wrapper.py:22-33 | The output has one record per played game of the round. |
| PlayedGames.GetPlayedMatches | backend/euroleague_api_wrappers/played_matches_wrapper.py:5-40 | A failed fetch gives `[]`. Otherwise the list is empty iff nothing was played. Every record copies a played game of the latest round, and every such game is listed. The list is `PlayedIn` of the latest round, so it keeps row order and has one record per such game. |
| PlayedCards.CardScore | frontend/src/components/PlayedMatches.jsx:56 | Both scores can be read back from the card's score text. |
| PlayedCards.CardScoreInjective | frontend/src/components/PlayedMatches.jsx:56 | Different score pairs never share a score text. |
| PlayedCards.CardOf | frontend/src/components/PlayedMatches.jsx:49-59 | The card's status is `"Finished"` whatever the record says. The score reads back as the record's scores, fallbacks are the feed names, and each resolved team is a standings entry with the same first word. |
| PlayedCards.ViewOf | frontend/src/components/PlayedMatches.jsx:45-62 | The "no played matches" text shows iff there is no record. Otherwise there is one card per record, in order. |

## Left out

- Browser automation: driver setup, page loads, waits, and CSS/XPath queries. Their results are inputs: lists of element texts, `Option` for a single element, and a flag for a wait that timed out.
- The standalone link scripts and the test script: they only drive the browser.
- HTTP and Flask: `fetch`, `requests` and the Flask routes are plumbing. Their outcomes are `Result`/`Option` parameters, and a fetch a toggle issues is modelled as the URL it asks for.
- XML parsing of the schedule feed. The feed is a list of items; text the `int()` call rejects is the `Garbled` gameday.
- Timers: the 10-second and 20-minute periods, `setInterval` timing, and the interval an effect rerun clears and reinstalls. The model handles one action or tick at a time, and interval handles are abstract positive tokens. The fetches an effect rerun issues at once are modelled (`LiveView.ClickFetches`, `LiveView.ListRefreshFetches`).
- Concurrent loads in the plain-DOM page: a load issued for an earlier selection may resolve after a newer one and overwrite the detail box. `DetailPoller.RenderDetail` renders one snapshot; the order in which loads resolve is not modelled.
- Threads and the cache lock of the backend cache loop. One iteration is modelled, the scrapes of which are given as outcomes.
- Clocks and locale: `datetime.now`, `strptime` and `strftime`, `Date`, `toLocaleTimeString`, and the seconds-since-update display. Dates are integers, and an unparsable date is `None`.
- Presentation-only components (standings table, scheduled-match list, match card, team display, app shell) and the standings wrapper over the external EuroLeague library.
- Text: case mapping, whitespace and digits are ASCII approximations of the Unicode behaviour of `toLowerCase`, `strip` and `isdigit`. `zfill` is modelled for the sign-free digit strings it receives here.
- Text.Decimal: renders integers only; pandas may hand scores over as floats, which the model does not cover.
- RootScraper.DetailOf: the `"Not found"` fallbacks of the home and away period lists and of `top_player_stats` are left out; `topPlayers` is always a list. Those fallbacks fire only when reading an element's text or class raises (`find_elements` itself returns a list), and element access is abstracted with the rest of the browser automation. Class attributes are assumed present.
- PlayedGames.GetPlayedMatches: the metadata fetch is one function of the season code, so both of the wrapper's fetches see the same data. A change between them is not modelled.
- Scrape.ScrapeLive: `get_attribute("id")` returning nothing is modelled as the empty id; both fail the id guard alike.
