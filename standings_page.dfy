/**
 * The standings page of a division: the teams ordered by games behind, then by winning
 * percentage; the schedule narrowed to one team's games when a known team is asked for; and
 * the flag that shows the overtime-loss column for hockey organizations.
 */
module StandingsPage {
  import opened Wrappers
  import opened Text
  import opened Models

  // ---------------------------------------------------------------- the ordering

  /** `a` is listed strictly before `b`: fewer games behind, or as many and a higher percentage. */
  predicate RanksBefore(a: Standing, b: Standing) {
    a.gb < b.gb || (a.gb == b.gb && a.percentage > b.percentage)
  }

  /** No team is listed after one it ranks before. */
  predicate SortedByRank(s: seq<Standing>) {
    forall i, j :: 0 <= i < j < |s| ==> !RanksBefore(s[j], s[i])
  }

  /** The teams of `s` with this GB and Percentage, in their order in `s`. */
  function WithRank(s: seq<Standing>, gb: real, percentage: real): (r: seq<Standing>)
    ensures |r| <= |s|
  {
    if s == [] then []
    else (if s[0].gb == gb && s[0].percentage == percentage then [s[0]] else []) + WithRank(s[1..], gb, percentage)
  }

  /** Every team of `s` ties with the others of its rank in the same order in `r`: a stable reorder. */
  ghost predicate SameOrderWithinRanks(r: seq<Standing>, s: seq<Standing>) {
    forall gb: real, percentage: real :: WithRank(r, gb, percentage) == WithRank(s, gb, percentage)
  }

  /** `t` placed before the first team of `sorted` that does not rank before it. */
  function Insert(t: Standing, sorted: seq<Standing>): (r: seq<Standing>)
    ensures |r| == |sorted| + 1
  {
    if sorted == [] || !RanksBefore(sorted[0], t) then [t] + sorted
    else [sorted[0]] + Insert(t, sorted[1..])
  }

  /**
   * OrderBy(s => s.GB).ThenByDescending(s => s.Percentage): a stable sort, so teams of equal
   * rank keep their list order.
   */
  function SortByRank(s: seq<Standing>): (r: seq<Standing>)
    ensures |r| == |s|
  {
    if s == [] then [] else Insert(s[0], SortByRank(s[1..]))
  }

  lemma {:induction false} InsertPermutes(t: Standing, sorted: seq<Standing>)
    ensures multiset(Insert(t, sorted)) == multiset(sorted) + multiset{t}
  {
    if sorted != [] && RanksBefore(sorted[0], t) {
      InsertPermutes(t, sorted[1..]);
      assert sorted == [sorted[0]] + sorted[1..];
    }
  }

  lemma {:induction false} InsertKeepsSorted(t: Standing, sorted: seq<Standing>)
    requires SortedByRank(sorted)
    ensures SortedByRank(Insert(t, sorted))
  {
    if sorted != [] && RanksBefore(sorted[0], t) {
      var rest := sorted[1..];
      InsertKeepsSorted(t, rest);
      InsertPermutes(t, rest);
      var r := Insert(t, sorted);
      forall j | 1 <= j < |r|
        ensures !RanksBefore(r[j], r[0])
      {
        assert r[j] in multiset(Insert(t, rest));
        if r[j] != t {
          assert r[j] in multiset(rest);
          var m :| 0 <= m < |rest| && rest[m] == r[j];
          assert sorted[m + 1] == r[j];
        }
      }
    }
  }

  lemma {:induction false} WithRankAppend(a: seq<Standing>, b: seq<Standing>, gb: real, percentage: real)
    ensures WithRank(a + b, gb, percentage) == WithRank(a, gb, percentage) + WithRank(b, gb, percentage)
  {
    if a == [] {
      assert a + b == b;
    } else {
      assert (a + b)[1..] == a[1..] + b;
      WithRankAppend(a[1..], b, gb, percentage);
    }
  }

  lemma {:induction false} InsertKeepsRanks(t: Standing, sorted: seq<Standing>, gb: real, percentage: real)
    ensures WithRank(Insert(t, sorted), gb, percentage)
            == (if t.gb == gb && t.percentage == percentage then [t] else []) + WithRank(sorted, gb, percentage)
  {
    WithRankAppend([t], sorted, gb, percentage);
    if sorted != [] && RanksBefore(sorted[0], t) {
      var x, rest := sorted[0], sorted[1..];
      InsertKeepsRanks(t, rest, gb, percentage);
      WithRankAppend([x], Insert(t, rest), gb, percentage);
      WithRankAppend([x], rest, gb, percentage);
      assert sorted == [x] + rest;
    }
  }

  /** The page's ordering is a stable sort: ordered by rank, a permutation, equal ranks in list order. */
  lemma {:induction false} SortByRankIsStableSort(s: seq<Standing>)
    ensures SortedByRank(SortByRank(s))
    ensures multiset(SortByRank(s)) == multiset(s)
    ensures SameOrderWithinRanks(SortByRank(s), s)
  {
    if s != [] {
      SortByRankIsStableSort(s[1..]);
      InsertKeepsSorted(s[0], SortByRank(s[1..]));
      InsertPermutes(s[0], SortByRank(s[1..]));
      assert s == [s[0]] + s[1..];
      forall gb: real, percentage: real
        ensures WithRank(SortByRank(s), gb, percentage) == WithRank(s, gb, percentage)
      {
        InsertKeepsRanks(s[0], SortByRank(s[1..]), gb, percentage);
      }
    }
  }

  // ---------------------------------------------------------------- one team's games

  /** Both names, lower-cased, are equal. */
  predicate SameName(a: string, b: string) {
    Lower(a) == Lower(b)
  }

  /** The row is a game of the team: its Home or its Visitor is the name, ignoring case. */
  predicate PlaysIn(g: Game, teamName: string) {
    SameName(g.home, teamName) || SameName(g.visitor, teamName)
  }

  /** Some team of the division has this name, ignoring case. */
  predicate TeamExists(standings: seq<Standing>, teamName: string) {
    exists t :: t in standings && SameName(t.name, teamName)
  }

  /** Where(s => Home or Visitor is the team), in schedule order. */
  function TeamGames(schedule: seq<Game>, teamName: string): (r: seq<Game>)
    ensures |r| <= |schedule|
  {
    if schedule == [] then []
    else (if PlaysIn(schedule[0], teamName) then [schedule[0]] else []) + TeamGames(schedule[1..], teamName)
  }

  /** The team's rows are exactly the schedule rows it plays in. */
  lemma {:induction false} TeamGamesMembers(schedule: seq<Game>, teamName: string)
    ensures forall g :: g in TeamGames(schedule, teamName) <==> g in schedule && PlaysIn(g, teamName)
  {
    if schedule != [] {
      TeamGamesMembers(schedule[1..], teamName);
      assert schedule == [schedule[0]] + schedule[1..];
    }
  }

  /** Filtering commutes with concatenation, so the kept rows stay in schedule order. */
  lemma {:induction false} TeamGamesAppend(a: seq<Game>, b: seq<Game>, teamName: string)
    ensures TeamGames(a + b, teamName) == TeamGames(a, teamName) + TeamGames(b, teamName)
  {
    if a == [] {
      assert a + b == b;
    } else {
      var head := if PlaysIn(a[0], teamName) then [a[0]] else [];
      assert (a + b)[0] == a[0] && (a + b)[1..] == a[1..] + b;
      assert TeamGames(a + b, teamName) == head + TeamGames(a[1..] + b, teamName);
      TeamGamesAppend(a[1..], b, teamName);
      assert TeamGames(a, teamName) == head + TeamGames(a[1..], teamName);
    }
  }

  /** For a name that is not empty and does not start with "week", week-boundary rows drop out. */
  lemma WeekRowsDropOut(g: Game, teamName: string)
    requires teamName != [] && !StartsWith(Lower(teamName), "week")
    requires IsWeekBoundary(g) && g.home == ""
    ensures !PlaysIn(g, teamName)
  {
    WeekPrefixTestsAgree(g.visitor);
  }

  // ---------------------------------------------------------------- the page

  /** What the page shows: the division with its lists as ordered and filtered, and two flags. */
  datatype StandingsView = StandingsView(
    organization: string,
    abbreviation: string,
    standings: seq<Standing>,
    schedule: seq<Game>,
    teamName: Option<string>,
    showOvertimeLosses: bool)

  /** ShowOvertimeLosses: the lower-cased organization contains "hockey". */
  function ShowOvertimeLosses(organization: string): bool {
    Contains(Lower(organization), "hockey")
  }

  /** The view the Index action builds for a division and an optional team name. */
  function StandingsIndex(organization: string, abbreviation: string, standings: seq<Standing>,
                          schedule: seq<Game>, teamName: Option<string>): StandingsView
  {
    var sorted := SortByRank(standings);
    var filtered := teamName.Some? && teamName.value != "" && TeamExists(sorted, teamName.value);
    StandingsView(organization, abbreviation, sorted,
                  if filtered then TeamGames(schedule, teamName.value) else schedule,
                  if filtered then teamName else None,
                  ShowOvertimeLosses(organization))
  }

  /** The page lists the division's teams, each once, by rank, equal ranks in division order. */
  lemma IndexOrdersStandings(organization: string, abbreviation: string, standings: seq<Standing>,
                             schedule: seq<Game>, teamName: Option<string>)
    ensures var v := StandingsIndex(organization, abbreviation, standings, schedule, teamName);
            && SortedByRank(v.standings) && multiset(v.standings) == multiset(standings)
            && SameOrderWithinRanks(v.standings, standings)
  {
    SortByRankIsStableSort(standings);
  }

  /** Reordering the teams does not change whether a name is known. */
  lemma TeamExistsInSorted(standings: seq<Standing>, teamName: string)
    ensures TeamExists(SortByRank(standings), teamName) <==> TeamExists(standings, teamName)
  {
    SortByRankIsStableSort(standings);
    var sorted := SortByRank(standings);
    assert forall t :: t in sorted <==> t in multiset(sorted);
    assert forall t :: t in standings <==> t in multiset(standings);
  }

  /**
   * With no team name, an empty one, or a name no team has (ignoring case), the page shows the
   * whole schedule and no team.
   */
  lemma IndexWithoutTeam(organization: string, abbreviation: string, standings: seq<Standing>,
                         schedule: seq<Game>, teamName: Option<string>)
    requires teamName.None? || teamName.value == "" || !TeamExists(standings, teamName.value)
    ensures var v := StandingsIndex(organization, abbreviation, standings, schedule, teamName);
            v.schedule == schedule && v.teamName.None?
  {
    if teamName.Some? {
      TeamExistsInSorted(standings, teamName.value);
    }
  }

  /**
   * With a name some team has (ignoring case), the page shows that name and, in schedule
   * order, exactly the rows whose Home or Visitor is that name.
   */
  lemma IndexWithTeam(organization: string, abbreviation: string, standings: seq<Standing>,
                      schedule: seq<Game>, teamName: string)
    requires teamName != "" && TeamExists(standings, teamName)
    ensures var v := StandingsIndex(organization, abbreviation, standings, schedule, Some(teamName));
            && v.teamName == Some(teamName) && v.schedule == TeamGames(schedule, teamName)
            && forall g :: g in v.schedule <==> g in schedule && PlaysIn(g, teamName)
  {
    TeamExistsInSorted(standings, teamName);
    TeamGamesMembers(schedule, teamName);
  }

  /** Lower-casing ignores a prior upper-casing. */
  lemma {:induction false} LowerOfUpper(s: string)
    ensures Lower(Upper(s)) == Lower(s)
  {
    if s != [] {
      LowerOfUpper(s[1..]);
      assert Upper(s)[1..] == Upper(s[1..]);
    }
  }

  /** The hockey flag is true exactly when "hockey" occurs in the organization in any letter case. */
  lemma HockeyFlag(organization: string)
    ensures ShowOvertimeLosses(organization) <==> exists i :: OccursAt(Lower(organization), "hockey", i)
    ensures ShowOvertimeLosses(Upper(organization)) == ShowOvertimeLosses(organization)
  {
    LowerOfUpper(organization);
  }
}
