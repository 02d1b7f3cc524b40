/** The three heuristics that resolve a feed team name to a standings
    entry: the live view's override-then-two-way-substring match, the
    alias table followed by an exact case-insensitive match, and the played
    view's first-word match. */
module TeamLookup {
  import opened Outcome
  import opened Text
  import opened Seqs
  import opened MatchData

  /* ---------------- live view: overrides and substrings ---------------- */

  /** Feed names whose standings name differs beyond substring matching. */
  const Overrides: map<string, string> := map["Olimpia Milano" := "EA7 Emporio Armani Milan"]

  /** `teamNameOverrides[teamName] || teamName`; every override is non-empty. */
  function OverriddenName(name: string): string {
    if name in Overrides then Overrides[name] else name
  }

  /** The live view's acceptance test: one lower-cased name contains the
      other. */
  predicate SubstringMatch(official: string, candidate: string) {
    Contains(Lower(official), Lower(candidate)) || Contains(Lower(candidate), Lower(official))
  }

  /** The live view's `getTeamData`: the first standings team whose name
      contains, or is contained in, the (overridden) candidate, ignoring
      case; absent exactly when no team qualifies. */
  function LiveTeam(name: string, standings: seq<Team>): (r: Option<Team>)
    ensures r.None? <==> forall t :: t in standings ==> !SubstringMatch(t.name, OverriddenName(name))
    ensures r.Some? ==> exists i :: 0 <= i < |standings| && standings[i] == r.value
                                    && SubstringMatch(r.value.name, OverriddenName(name))
                                    && forall j :: 0 <= j < i ==> !SubstringMatch(standings[j].name, OverriddenName(name))
  {
    var candidate := OverriddenName(name);
    Find(standings, (t: Team) => SubstringMatch(t.name, candidate))
  }

  /** A feed name that is the standings name, in any case, always resolves. */
  lemma LiveTeamFindsExactName(name: string, standings: seq<Team>, t: Team)
    requires name !in Overrides && t in standings && Lower(t.name) == Lower(name)
    ensures LiveTeam(name, standings).Some?
  {
    ContainsItself(Lower(name));
    assert SubstringMatch(t.name, OverriddenName(name));
  }

  /** The override table sends "Olimpia Milano" to the sponsor name. */
  lemma OverrideRenamesMilan(standings: seq<Team>)
    ensures LiveTeam("Olimpia Milano", standings)
            == Find(standings, (t: Team) => SubstringMatch(t.name, "EA7 Emporio Armani Milan"))
  {
  }

  /* ---------------- alias table, then exact match ---------------- */

  /** An official standings name with the feed spellings that denote it. */
  datatype AliasEntry = AliasEntry(official: string, aliases: seq<string>)

  /** `teamNameMap`, in its declaration (= iteration) order. */
  const AliasTable: seq<AliasEntry> := [
    AliasEntry("FC Bayern Munich", ["FC Bayern Munich", "FC Bayern", "Bayern Munich"]),
    AliasEntry("FC Barcelona", ["FC Barcelona", "Barcelona", "Barça"]),
    AliasEntry("Real Madrid", ["Real Madrid"])
  ]

  /** Some alias of `e` occurs, ignoring case, in the feed name. */
  predicate AliasHit(e: AliasEntry, name: string) {
    exists k :: 0 <= k < |e.aliases| && Contains(Lower(name), Lower(e.aliases[k]))
  }

  /** Case-insensitive equality of a standings name with `name`. */
  predicate SameName(t: Team, name: string) {
    Lower(t.name) == Lower(name)
  }

  /** The first standings entry named `name`, ignoring case. */
  function ByName(standings: seq<Team>, name: string): (r: Option<Team>)
    ensures r.None? <==> forall t :: t in standings ==> !SameName(t, name)
    ensures r.Some? ==> r.value in standings && SameName(r.value, name)
    ensures r.Some? ==> exists i :: 0 <= i < |standings| && standings[i] == r.value
                                    && forall j :: 0 <= j < i ==> !SameName(standings[j], name)
  {
    Find(standings, (t: Team) => SameName(t, name))
  }

  /** `getTeamFromStandings`: the first alias entry (in table order) with
      an alias inside the feed name decides, and only that official name is
      looked up; with no alias hit, the feed name itself is looked up. */
  function StandingsTeam(name: string, standings: seq<Team>): (r: Option<Team>)
    ensures r.Some? ==> r.value in standings
    ensures (forall e :: e in AliasTable ==> !AliasHit(e, name)) ==> r == ByName(standings, name)
    ensures forall i :: 0 <= i < |AliasTable| && AliasHit(AliasTable[i], name)
                        && (forall j :: 0 <= j < i ==> !AliasHit(AliasTable[j], name))
                        ==> r == ByName(standings, AliasTable[i].official)
  {
    match Find(AliasTable, (e: AliasEntry) => AliasHit(e, name))
    case Some(e) => ByName(standings, e.official)
    case None => ByName(standings, name)
  }

  /** The result ignores the letter case of the feed name. */
  lemma StandingsTeamIgnoresCase(a: string, b: string, standings: seq<Team>)
    requires Lower(a) == Lower(b)
    ensures StandingsTeam(a, standings) == StandingsTeam(b, standings)
  {
    assert forall e :: AliasHit(e, a) == AliasHit(e, b);
    FindCongruent(AliasTable, (e: AliasEntry) => AliasHit(e, a), (e: AliasEntry) => AliasHit(e, b));
    assert forall t :: SameName(t, a) == SameName(t, b);
    FindCongruent(standings, (t: Team) => SameName(t, a), (t: Team) => SameName(t, b));
  }

  /** No fallback after an alias hit: once the first hitting alias entry's
      official name is missing from the standings, nothing is returned,
      whatever the exact-name lookup would have found. */
  lemma AliasHitDecides(name: string, standings: seq<Team>, i: nat)
    requires i < |AliasTable| && AliasHit(AliasTable[i], name)
    requires forall j :: 0 <= j < i ==> !AliasHit(AliasTable[j], name)
    requires ByName(standings, AliasTable[i].official).None?
    ensures StandingsTeam(name, standings).None?
  {
  }

  /** An instance of the rule above: "Barcelona" hits the alias entry of
      "FC Barcelona", so a standings list holding only a club literally
      named "Barcelona" yields nothing, although the exact lookup alone
      would have found it. */
  lemma AliasHitHasNoFallback()
    ensures ByName([Team("Barcelona", "")], "Barcelona").Some?
    ensures StandingsTeam("Barcelona", [Team("Barcelona", "")]).None?
  {
    var name := "Barcelona";
    var low := Lower(name);
    assert low == "barcelona";
    var bayern := AliasTable[0];
    forall k | 0 <= k < |bayern.aliases|
      ensures !Contains(low, Lower(bayern.aliases[k]))
    {
      if k == 1 {
        assert Lower(bayern.aliases[k])[0] == 'f';
        assert !StartsWith(low, Lower(bayern.aliases[k]));
        LongerNotContained(low[1..], Lower(bayern.aliases[k]));
      } else {
        LongerNotContained(low, Lower(bayern.aliases[k]));
      }
    }
    assert !AliasHit(bayern, name);
    assert Lower(AliasTable[1].aliases[1]) == low;
    ContainsItself(low);
    assert AliasHit(AliasTable[1], name);
    assert Lower("FC Barcelona") != low;
    AliasHitDecides(name, [Team("Barcelona", "")], 1);
  }

  /* ---------------- played view: first word ---------------- */

  /** `name.toLowerCase().split(" ")[0]`. */
  function NormalizeName(name: string): (r: string)
    ensures ' ' !in r
    ensures |r| <= |name| && r == Lower(name)[..|r|]
    ensures |r| < |name| ==> name[|r|] == ' '
  {
    SplitFirstIsPrefix(Lower(name), ' ');
    Split(Lower(name), ' ')[0]
  }

  /** Normalizing a normalized name changes nothing. */
  lemma NormalizeNameIdempotent(name: string)
    ensures NormalizeName(NormalizeName(name)) == NormalizeName(name)
  {
    var r := NormalizeName(name);
    LowerIsLowered(name);
    assert IsLowered(r);
    LowerOfLowered(r);
    SplitNoSeparator(r, ' ');
  }

  /** The normalized name is the lower-cased first word. */
  lemma NormalizeNameOfWords(first: string, rest: string)
    requires ' ' !in first
    ensures NormalizeName(first + " " + rest) == Lower(first)
  {
    LowerAppend(first + " ", rest);
    LowerAppend(first, " ");
    assert Lower(first + " " + rest) == Lower(first) + [' '] + Lower(rest);
    assert ' ' !in Lower(first);
    SplitAtFirst(Lower(first), ' ', Lower(rest));
  }

  /** The played view's `getTeamData`: the first standings team whose
      normalized name equals the feed name's; absent exactly when none. */
  function PlayedTeam(name: string, standings: seq<Team>): (r: Option<Team>)
    ensures r.None? <==> forall t :: t in standings ==> NormalizeName(t.name) != NormalizeName(name)
    ensures r.Some? ==> exists i :: 0 <= i < |standings| && standings[i] == r.value
                                    && NormalizeName(r.value.name) == NormalizeName(name)
                                    && forall j :: 0 <= j < i ==> NormalizeName(standings[j].name) != NormalizeName(name)
  {
    var target := NormalizeName(name);
    Find(standings, (t: Team) => NormalizeName(t.name) == target)
  }

  /** Names sharing their first word, ignoring case, resolve alike. */
  lemma PlayedTeamSameFirstWord(a: string, b: string, standings: seq<Team>)
    requires NormalizeName(a) == NormalizeName(b)
    ensures PlayedTeam(a, standings) == PlayedTeam(b, standings)
  {
  }
}
