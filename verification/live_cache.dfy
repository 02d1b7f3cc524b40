/** The backend's background cache: each iteration of `update_cache`
    scrapes the live list, publishes it, scrapes the details of every live
    match and then swaps in a freshly built details cache together with
    the update time. The scrapes are given as outcomes; the clock as an
    integer. */
module LiveCache {
  import opened Outcome
  import opened MatchData

  /** `live_match_cache`, `match_details_cache`, `last_updated_timestamp`. */
  datatype Cache = Cache(live: seq<LiveMatch>, details: map<string, MatchDetail>, stamp: Option<int>)

  const Initial := Cache([], map[], None)

  /** A live match together with the outcome of scraping its detail page. */
  datatype Scraped = Scraped(summary: LiveMatch, detail: Result<MatchDetail>)

  function Summaries(xs: seq<Scraped>): (r: seq<LiveMatch>)
    ensures |r| == |xs| && forall i :: 0 <= i < |xs| ==> r[i] == xs[i].summary
  {
    seq(|xs|, i requires 0 <= i < |xs| => xs[i].summary)
  }

  /** The loop building `details_dict`: each successful scrape writes its
      URL's entry, in live-list order; a raising one is skipped. */
  function CollectDetails(acc: map<string, MatchDetail>, xs: seq<Scraped>): map<string, MatchDetail>
    decreases |xs|
  {
    if |xs| == 0 then acc
    else
      var x := xs[0];
      var next := if x.detail.Success? then acc[x.summary.url := x.detail.value] else acc;
      CollectDetails(next, xs[1..])
  }

  /** The detail of the last live match with URL `url` whose scrape
      succeeded, if any. */
  function LastScraped(xs: seq<Scraped>, url: string): Option<MatchDetail>
    decreases |xs|
  {
    if |xs| == 0 then None
    else
      var x := xs[|xs| - 1];
      if x.summary.url == url && x.detail.Success? then Some(x.detail.value)
      else LastScraped(xs[..|xs| - 1], url)
  }

  lemma {:induction false} CollectDetailsSnoc(acc: map<string, MatchDetail>, xs: seq<Scraped>, x: Scraped)
    ensures CollectDetails(acc, xs + [x])
            == (var m := CollectDetails(acc, xs);
                if x.detail.Success? then m[x.summary.url := x.detail.value] else m)
    decreases |xs|
  {
    if |xs| > 0 {
      assert (xs + [x])[1..] == xs[1..] + [x];
      var next := if xs[0].detail.Success? then acc[xs[0].summary.url := xs[0].detail.value] else acc;
      CollectDetailsSnoc(next, xs[1..], x);
    }
  }

  /** Each URL's entry in the built cache is the last successful scrape
      for it; URLs never scraped successfully keep what the accumulator
      held. */
  lemma {:induction false} CollectDetailsPerUrl(acc: map<string, MatchDetail>, xs: seq<Scraped>, url: string)
    ensures var m := CollectDetails(acc, xs);
            match LastScraped(xs, url)
            case Some(d) => url in m && m[url] == d
            case None => (url in m <==> url in acc) && (url in acc ==> m[url] == acc[url])
    decreases |xs|
  {
    if |xs| > 0 {
      var init := xs[..|xs| - 1];
      var x := xs[|xs| - 1];
      assert xs == init + [x];
      CollectDetailsSnoc(acc, init, x);
      CollectDetailsPerUrl(acc, init, url);
    }
  }

  /** `LastScraped` finds a detail exactly when some live match with that
      URL was scraped successfully. */
  lemma {:induction false} LastScrapedSome(xs: seq<Scraped>, url: string)
    ensures LastScraped(xs, url).Some? <==>
              exists i :: 0 <= i < |xs| && xs[i].summary.url == url && xs[i].detail.Success?
    decreases |xs|
  {
    if |xs| > 0 {
      var init := xs[..|xs| - 1];
      LastScrapedSome(init, url);
      assert forall i :: 0 <= i < |init| ==> init[i] == xs[i];
    }
  }

  /** One iteration of `update_cache`. If the live scrape raises, nothing
      changes. Otherwise the live cache becomes the scraped list, the
      details cache is replaced wholesale by one built from scratch, and
      the time stamp is set in the same step. */
  function Tick(c: Cache, scrape: Result<seq<Scraped>>, now: int): (r: Cache)
    ensures scrape.Failure? ==> r == c
    ensures scrape.Success? ==> r.live == Summaries(scrape.value) && r.stamp == Some(now)
    ensures scrape.Success? ==> forall url ::
              (url in r.details <==> exists i :: 0 <= i < |scrape.value| && scrape.value[i].summary.url == url
                                                 && scrape.value[i].detail.Success?)
    ensures scrape.Success? ==> forall url :: url in r.details ==>
              LastScraped(scrape.value, url) == Some(r.details[url])
  {
    match scrape
    case Failure => c
    case Success(xs) =>
      var m := CollectDetails(map[], xs);
      assert forall url :: url in m <==> LastScraped(xs, url).Some? by {
        forall url ensures url in m <==> LastScraped(xs, url).Some? {
          CollectDetailsPerUrl(map[], xs, url);
        }
      }
      assert forall url :: url in m ==> LastScraped(xs, url) == Some(m[url]) by {
        forall url | url in m ensures LastScraped(xs, url) == Some(m[url]) {
          CollectDetailsPerUrl(map[], xs, url);
        }
      }
      forall url ensures LastScraped(xs, url).Some? <==>
                           exists i :: 0 <= i < |xs| && xs[i].summary.url == url && xs[i].detail.Success? {
        LastScrapedSome(xs, url);
      }
      Cache(Summaries(xs), m, Some(now))
  }

  /** The new details cache does not depend on the old one: entries of
      matches no longer live are dropped. */
  lemma TickReplacesDetails(c1: Cache, c2: Cache, xs: seq<Scraped>, now: int)
    ensures Tick(c1, Success(xs), now).details == Tick(c2, Success(xs), now).details
  {
  }

  /** `get_cached_match_details`: `None` for a URL not cached. */
  function CachedDetail(c: Cache, url: string): (r: Option<MatchDetail>)
    ensures r.None? <==> url !in c.details
    ensures r.Some? ==> r.value == c.details[url]
  {
    if url in c.details then Some(c.details[url]) else None
  }

  /** Looking up a URL right after a tick gives the last successful detail
      scraped for it in that tick. */
  lemma CachedAfterTick(c: Cache, xs: seq<Scraped>, now: int, url: string)
    ensures CachedDetail(Tick(c, Success(xs), now), url) == LastScraped(xs, url)
  {
    CollectDetailsPerUrl(map[], xs, url);
  }
}
