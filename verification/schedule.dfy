/** The scheduled-games wrapper: feed items are grouped by gameday, keeping
    only matches that start after `now`, and the group of the smallest
    gameday is served. The XML feed arrives as a list of items; dates are
    minutes on an integer clock, `None` when the date text does not parse. */
module Schedule {
  import opened Outcome
  import opened Seqs

  /** The `gameday` element: absent (read as `"0"`), an integer numeral, or
      text that `int()` rejects with `ValueError`. */
  datatype GamedayText = Absent | Numeral(n: int) | Garbled

  /** One `item` of the feed; the team and arena texts are `""` when their
      element is absent. */
  datatype RawItem = RawItem(gameday: GamedayText, start: Option<int>,
                             home: string, away: string, arena: string)

  /** A served match. */
  datatype Scheduled = Scheduled(home: string, away: string, arena: string, start: int)

  /** The item's gameday, `None` when reading it raises. */
  function GamedayOf(it: RawItem): (r: Option<int>)
    ensures it.gameday.Absent? ==> r == Some(0)
    ensures it.gameday.Numeral? ==> r == Some(it.gameday.n)
    ensures r.None? <==> it.gameday.Garbled?
  {
    match it.gameday
    case Absent => Some(0)
    case Numeral(n) => Some(n)
    case Garbled => None
  }

  /** A parsed date strictly after `now`; an unparsable date is skipped. */
  predicate Upcoming(it: RawItem, now: int) {
    it.start.Some? && it.start.value > now
  }

  function Entry(it: RawItem): Scheduled
    requires it.start.Some?
  {
    Scheduled(it.home, it.away, it.arena, it.start.value)
  }

  /* ---------------- reference definition ---------------- */

  /** The entry an item contributes to gameday `g`'s group. */
  function ForGameday(g: int, now: int): RawItem -> Option<Scheduled> {
    (it: RawItem) => if GamedayOf(it) == Some(g) && Upcoming(it, now) then Some(Entry(it)) else None
  }

  /** The upcoming matches of gameday `g`, in feed order. */
  function FutureFor(items: seq<RawItem>, now: int, g: int): seq<Scheduled> {
    FilterMap(items, ForGameday(g, now))
  }

  /** Feed order survives in each group. */
  lemma FutureForInOrder(a: seq<RawItem>, b: seq<RawItem>, now: int, g: int)
    ensures FutureFor(a + b, now, g) == FutureFor(a, now, g) + FutureFor(b, now, g)
  {
    FilterMapAppend(a, b, ForGameday(g, now));
  }

  /* ---------------- the dictionary of groups ---------------- */

  /** `matches_by_gameday` as an association list in insertion order. */
  type Buckets = seq<(int, seq<Scheduled>)>

  /** The group stored under `g`. */
  function Lookup(b: Buckets, g: int): Option<seq<Scheduled>>
    decreases |b|
  {
    if |b| == 0 then None
    else if b[0].0 == g then Some(b[0].1)
    else Lookup(b[1..], g)
  }

  /** No key is stored twice. */
  predicate DistinctKeys(b: Buckets)
    decreases |b|
  {
    |b| == 0 || (Lookup(b[1..], b[0].0).None? && DistinctKeys(b[1..]))
  }

  /** `setdefault(g, []).append(m)`: `m` is appended to `g`'s group, which
      is created at the end when missing; every other group is unchanged. */
  function AddTo(b: Buckets, g: int, m: Scheduled): (r: Buckets)
    ensures Lookup(r, g) == Some(Lookup(b, g).GetOr([]) + [m])
    ensures forall k :: k != g ==> Lookup(r, k) == Lookup(b, k)
    ensures DistinctKeys(b) ==> DistinctKeys(r)
    decreases |b|
  {
    if |b| == 0 then
      assert [] + [m] == [m];
      [(g, [m])]
    else if b[0].0 == g then [(g, b[0].1 + [m])] + b[1..]
    else
      var rest := AddTo(b[1..], g, m);
      assert ([b[0]] + rest)[1..] == rest;
      [b[0]] + rest
  }

  /** The smallest key. */
  function MinKey(b: Buckets): (r: int)
    requires |b| > 0
    ensures Lookup(b, r).Some?
    ensures forall k :: Lookup(b, k).Some? ==> r <= k
    decreases |b|
  {
    if |b| == 1 then b[0].0
    else
      var m := MinKey(b[1..]);
      if b[0].0 <= m then b[0].0 else m
  }

  /* ---------------- parse_scheduled_matches ---------------- */

  /** What the group of gameday `g` should be after reading `items`. */
  function Expected(items: seq<RawItem>, now: int, g: int): Option<seq<Scheduled>> {
    var ms := FutureFor(items, now, g);
    if |ms| == 0 then None else Some(ms)
  }

  /** Every gameday's group is the expected one. */
  ghost predicate Grouped(b: Buckets, items: seq<RawItem>, now: int) {
    forall g :: Lookup(b, g) == Expected(items, now, g)
  }

  /** One turn of the loop on an item whose gameday reads as `g`. */
  function Step(b: Buckets, it: RawItem, g: int, now: int): Buckets {
    if Upcoming(it, now) then AddTo(b, g, Entry(it)) else b
  }

  /** One turn of the loop keeps the groups in line with the items read. */
  lemma StepGrouped(b: Buckets, init: seq<RawItem>, it: RawItem, g: int, now: int)
    requires Grouped(b, init, now) && GamedayOf(it) == Some(g)
    ensures Grouped(Step(b, it, g, now), init + [it], now)
  {
    forall k ensures Lookup(Step(b, it, g, now), k) == Expected(init + [it], now, k) {
      FutureForInOrder(init, [it], now, k);
      assert [it][1..] == [];
      var before := FutureFor(init, now, k);
      if k == g && Upcoming(it, now) {
        assert FutureFor([it], now, k) == [Entry(it)];
        assert Lookup(b, g).GetOr([]) == before;
      } else {
        assert FutureFor([it], now, k) == [];
        assert FutureFor(init + [it], now, k) == before;
      }
    }
  }

  /** One turn of the loop on the outcome so far. */
  function GroupTurn(sofar: Result<Buckets>, it: RawItem, now: int): Result<Buckets> {
    match sofar
    case Failure => Failure
    case Success(b) =>
      match GamedayOf(it)
      case None => Failure
      case Some(g) => Success(Step(b, it, g, now))
  }

  /** The grouping loop. It raises at the first garbled gameday; otherwise
      each gameday's group holds exactly that gameday's upcoming matches in
      feed order, and a gameday without one has no group. */
  function Group(items: seq<RawItem>, now: int): (r: Result<Buckets>)
    ensures r.Failure? <==> exists i :: 0 <= i < |items| && GamedayOf(items[i]).None?
    ensures r.Success? ==> DistinctKeys(r.value) && Grouped(r.value, items, now)
    decreases |items|
  {
    if |items| == 0 then Success([])
    else
      var init := items[..|items| - 1];
      var it := items[|items| - 1];
      assert items == init + [it];
      assert forall i :: 0 <= i < |init| ==> init[i] == items[i];
      match Group(init, now)
      case Failure => Failure
      case Success(b) =>
        match GamedayOf(it)
        case None => Failure
        case Some(g) =>
          StepGrouped(b, init, it, g, now);
          Success(Step(b, it, g, now))
  }

  /** The item with a missing gameday element written out as `"0"`. */
  function ZeroFilled(it: RawItem): RawItem {
    if it.gameday.Absent? then it.(gameday := Numeral(0)) else it
  }

  /** Every item zero-filled. */
  function ZeroFilledAll(items: seq<RawItem>): (r: seq<RawItem>)
    ensures |r| == |items| && forall i :: 0 <= i < |items| ==> r[i] == ZeroFilled(items[i])
  {
    seq(|items|, i requires 0 <= i < |items| => ZeroFilled(items[i]))
  }

  /** A zero-filled item reads as the same gameday and takes the same loop
      turn. */
  lemma StepZeroFilled(b: Buckets, it: RawItem, now: int)
    ensures GamedayOf(ZeroFilled(it)) == GamedayOf(it)
    ensures GamedayOf(it).Some? ==>
              Step(b, ZeroFilled(it), GamedayOf(it).value, now) == Step(b, it, GamedayOf(it).value, now)
  {
  }

  /** A feed with every missing gameday written out as `"0"` is grouped
      exactly like the feed itself: the default text is read as round 0. */
  lemma {:induction false} GroupReadsAbsentAsZero(items: seq<RawItem>, now: int)
    ensures Group(ZeroFilledAll(items), now) == Group(items, now)
    decreases |items|
  {
    if |items| > 0 {
      var n := |items| - 1;
      var filled := ZeroFilledAll(items);
      var init, it := items[..n], items[n];
      assert filled[..n] == ZeroFilledAll(init);
      GroupReadsAbsentAsZero(init, now);
      StepZeroFilled(if Group(init, now).Success? then Group(init, now).value else [], it, now);
      assert Group(items, now) == GroupTurn(Group(init, now), it, now);
      assert Group(filled, now) == GroupTurn(Group(init, now), ZeroFilled(it), now);
    }
  }

  /* ---------------- get_scheduled_matches ---------------- */

  /** The served matches: `[]` when the feed could not be fetched or nothing
      is upcoming, a failure when a gameday is garbled, and otherwise the
      upcoming matches of the smallest gameday that has any. */
  function GetScheduled(fetched: Option<seq<RawItem>>, now: int): (r: Result<seq<Scheduled>>)
    ensures fetched.None? ==> r == Success([])
    ensures fetched.Some? ==> (r.Failure? <==> exists i :: 0 <= i < |fetched.value| && GamedayOf(fetched.value[i]).None?)
    ensures fetched.Some? && r.Success? ==>
              (|r.value| == 0 <==> forall it :: it in fetched.value ==> !Upcoming(it, now))
    ensures fetched.Some? && r.Success? && |r.value| > 0 ==>
              exists g :: r.value == FutureFor(fetched.value, now, g)
                          && forall it :: it in fetched.value && Upcoming(it, now) && GamedayOf(it).Some?
                                          ==> g <= GamedayOf(it).value
  {
    match fetched
    case None => Success([])
    case Some(items) =>
      match Group(items, now)
      case Failure => Failure
      case Success(b) =>
        forall it | it in items && Upcoming(it, now) && GamedayOf(it).Some?
          ensures Lookup(b, GamedayOf(it).value).Some?
        {
          var k := GamedayOf(it).value;
          assert ForGameday(k, now)(it) == Some(Entry(it));
        }
        if |b| == 0 then
          Success([])
        else
          var g := MinKey(b);
          Success(Lookup(b, g).value)
  }
}
