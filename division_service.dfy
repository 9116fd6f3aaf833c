/**
 * The processing methods of the division service, written as the source writes them: loops
 * over the teams, the schedule and the updates, with the recalculation and score functions as
 * their specifications.
 */
module DivisionService {
  import opened Wrappers
  import opened Models
  import opened Recalculation
  import opened ScoreUpdates

  /** The runs block of UpdateStandings: only when a home score is reported. */
  method CreditRuns(standings: seq<Standing>, sched: Game) returns (r: seq<Standing>)
    requires Foldable(|standings|, sched) && !IsWeekBoundary(sched)
    ensures r == Credited(standings, sched.homeID - 1, sched.visitorID - 1,
                          RunsCredit(HomeRuns(sched), VisitorRuns(sched)), RunsCredit(VisitorRuns(sched), HomeRuns(sched)))
  {
    var h, v := sched.homeID - 1, sched.visitorID - 1;
    r := standings;
    if Reported(sched) {
      var hs, vs := sched.homeScore.value, sched.visitorScore.value;
      r := r[h := r[h].(runsScored := r[h].runsScored + hs)];
      r := r[h := r[h].(runsAgainst := r[h].runsAgainst + vs)];
      r := r[v := r[v].(runsScored := r[v].runsScored + vs)];
      r := r[v := r[v].(runsAgainst := r[v].runsAgainst + hs)];
    }
  }

  /** The forfeit block of UpdateStandings: each flag charges its own team. */
  method CreditForfeits(standings: seq<Standing>, sched: Game) returns (r: seq<Standing>)
    requires Foldable(|standings|, sched) && !IsWeekBoundary(sched)
    ensures r == Credited(standings, sched.homeID - 1, sched.visitorID - 1,
                          ForfeitCredit(sched.homeForfeit), ForfeitCredit(sched.visitorForfeit))
  {
    var h, v := sched.homeID - 1, sched.visitorID - 1;
    r := standings;
    if sched.homeForfeit {
      r := r[h := r[h].(forfeits := r[h].forfeits + 1)];
      r := r[h := r[h].(forfeitsCharged := r[h].forfeitsCharged + 1)];
    }
    if sched.visitorForfeit {
      r := r[v := r[v].(forfeits := r[v].forfeits + 1)];
      r := r[v := r[v].(forfeitsCharged := r[v].forfeitsCharged + 1)];
    }
  }

  /** The decision block of UpdateStandings, in the source's order of tests. */
  method CreditResult(standings: seq<Standing>, sched: Game) returns (r: seq<Standing>)
    requires Foldable(|standings|, sched) && !IsWeekBoundary(sched)
    ensures r == Credited(standings, sched.homeID - 1, sched.visitorID - 1,
                          ResultCredit(HomeSide, Decide(sched)), ResultCredit(VisitorSide, Decide(sched)))
  {
    var h, v := sched.homeID - 1, sched.visitorID - 1;
    r := standings;
    if sched.visitorForfeit && sched.homeForfeit {
      r := r[h := r[h].(losses := r[h].losses + 1)];
      r := r[v := r[v].(losses := r[v].losses + 1)];
    } else if Greater(sched.homeScore, sched.visitorScore) {
      r := r[h := r[h].(wins := r[h].wins + 1)];
      r := r[v := r[v].(losses := r[v].losses + 1)];
    } else if Greater(sched.visitorScore, sched.homeScore) {
      r := r[h := r[h].(losses := r[h].losses + 1)];
      r := r[v := r[v].(wins := r[v].wins + 1)];
    } else if Reported(sched) {
      r := r[h := r[h].(ties := r[h].ties + 1)];
      r := r[v := r[v].(ties := r[v].ties + 1)];
    }
  }

  /**
   * UpdateStandings: credits one game row to the teams at HomeID - 1 and VisitorID - 1 in the
   * source's three blocks (runs, forfeits, decision). Both positions are read afresh before
   * each change, so a team named on both sides collects both credits, as the two references to
   * one object do in the source.
   */
  method UpdateStandings(standings: seq<Standing>, sched: Game) returns (r: seq<Standing>)
    requires !IsWeekBoundary(sched) && Foldable(|standings|, sched)
    ensures r == ApplyGame(standings, sched)
  {
    var runs := CreditRuns(standings, sched);
    var forfeits := CreditForfeits(runs, sched);
    r := CreditResult(forfeits, sched);
  }

  /** Any position with the two properties of LeaderIndex is LeaderIndex. */
  lemma LeaderIsUnique(standings: seq<Standing>, k: nat)
    requires k < |standings|
    requires forall j :: 0 <= j < |standings| ==> standings[j].wins <= standings[k].wins
    requires forall j :: 0 <= j < k ==> standings[j].wins < standings[k].wins
    ensures k == LeaderIndex(standings)
  {
  }

  /**
   * CalculateGamesBehind: takes the head of the stable OrderByDescending(Wins) as the leader
   * (LeaderIndex), then sets every team's GB and Percentage against it. The source visits the
   * teams in sorted order; each team's new values depend only on itself and the leader, so
   * list order gives the same result.
   */
  method CalculateGamesBehind(standings: seq<Standing>) returns (r: seq<Standing>)
    requires |standings| > 0
    ensures r == WithGamesBehind(standings)
  {
    var k := LeaderIndex(standings);
    var maxWins, maxLosses := standings[k].wins, standings[k].losses;
    var i := 0;
    r := standings;
    while i < |r|
      invariant |r| == |standings| && 0 <= i <= |r|
      invariant forall j :: 0 <= j < i ==> r[j] == Ranked(standings[j], standings[k])
      invariant forall j :: i <= j < |r| ==> r[j] == standings[j]
    {
      var team := r[i];
      var gb := ((maxWins - team.wins) + (team.losses - maxLosses)) as real / 2.0;
      var percentage := if team.wins + team.losses == 0 then 0.0
                        else team.wins as real / (team.wins + team.losses + team.ties) as real;
      assert team == standings[i];
      assert gb == GamesBehind(team, standings[k]) && percentage == WinningPercentage(team);
      r := r[i := team.(gb := gb, percentage := percentage)];
      i := i + 1;
    }
  }

  /**
   * ReCalcStandings: zeroes every team, folds in every row that is not a week boundary, then
   * ranks. The division's schedule and everything but its standings are left alone.
   */
  method ReCalcStandings(division: Division)
    requires RecalcReady(division.standings, division.schedule)
    modifies division`standings
    ensures division.standings == Recalculated(old(division.standings), division.schedule)
  {
    var standings := division.standings;
    var schedule := division.schedule;
    var i := 0;
    while i < |standings|
      invariant |standings| == |division.standings| && 0 <= i <= |standings|
      invariant forall j :: 0 <= j < i ==> standings[j] == Zeroed(division.standings[j])
      invariant forall j :: i <= j < |standings| ==> standings[j] == division.standings[j]
    {
      var stand := standings[i];
      standings := standings[i := stand.(forfeits := 0, losses := 0, overtimeLosses := 0, ties := 0, wins := 0,
                                         runsAgainst := 0, runsScored := 0, forfeitsCharged := 0,
                                         gb := 0.0, percentage := 0.0)];
      i := i + 1;
    }
    var zeroed := standings;
    assert zeroed == ZeroAll(division.standings);
    i := 0;
    while i < |schedule|
      invariant |standings| == |zeroed| && 0 <= i <= |schedule|
      invariant AllFoldable(|standings|, schedule[i..])
      invariant FoldSchedule(standings, schedule[i..]) == FoldSchedule(zeroed, schedule)
    {
      var sched := schedule[i];
      assert schedule[i..][1..] == schedule[i + 1..];
      if !IsWeekBoundary(sched) {
        standings := UpdateStandings(standings, sched);
      }
      i := i + 1;
    }
    standings := CalculateGamesBehind(standings);
    division.standings := standings;
  }

  /** FirstOrDefault(s => s.GameID == id) over the schedule, as the position it finds. */
  method FindGame(schedule: seq<Game>, id: int) returns (found: Option<nat>)
    ensures found.Some? ==> found.value < |schedule| && schedule[found.value].gameID == id
    ensures found.Some? ==> forall j :: 0 <= j < found.value ==> schedule[j].gameID != id
    ensures found.None? ==> forall j :: 0 <= j < |schedule| ==> schedule[j].gameID != id
  {
    var i := 0;
    while i < |schedule|
      invariant 0 <= i <= |schedule|
      invariant forall j :: 0 <= j < i ==> schedule[j].gameID != id
    {
      if schedule[i].gameID == id {
        return Some(i);
      }
      i := i + 1;
    }
    return None;
  }

  /**
   * ProcessScores: overwrites the score fields of the first row with each update's GameID, in
   * request order, then recalculates the standings from the updated schedule.
   */
  method ProcessScores(division: Division, scores: seq<ScoreUpdate>)
    requires RecalcReady(division.standings, ApplyScores(division.schedule, scores))
    modifies division`schedule, division`standings
    ensures division.schedule == ApplyScores(old(division.schedule), scores)
    ensures division.standings == Recalculated(old(division.standings), division.schedule)
  {
    var i := 0;
    while i < |scores|
      invariant 0 <= i <= |scores|
      invariant ApplyScores(division.schedule, scores[i..]) == ApplyScores(old(division.schedule), scores)
      invariant division.standings == old(division.standings)
    {
      assert scores[i..][1..] == scores[i + 1..];
      var gameToUpdate := FindGame(division.schedule, scores[i].gameID);
      if gameToUpdate.Some? {
        FirstMatchIsUnique(division.schedule, scores[i].gameID, gameToUpdate.value);
        var k := gameToUpdate.value;
        var game := division.schedule[k];
        game := game.(homeForfeit := scores[i].homeForfeit);
        game := game.(homeScore := scores[i].homeScore);
        game := game.(visitorForfeit := scores[i].visitorForfeit);
        game := game.(visitorScore := scores[i].visitorScore);
        division.schedule := division.schedule[k := game];
      }
      i := i + 1;
    }
    ReCalcStandings(division);
  }
}
