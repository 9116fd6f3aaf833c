/**
 * The standings recalculation as specification functions: what one schedule row adds to the
 * two teams it names, the fold of a whole schedule into zeroed standings, and the games-behind
 * and winning-percentage pass that follows. The service methods are proved against these.
 */
module Recalculation {
  import opened Wrappers
  import opened Models

  /** C#'s lifted `>` on two nullable shorts: false when either side is null. */
  predicate Greater(a: Option<int>, b: Option<int>) {
    a.Some? && b.Some? && a.value > b.value
  }

  /** `HomeScore > -1`: a result has been reported for the game. */
  predicate Reported(g: Game) {
    g.homeScore.Some? && g.homeScore.value > -1
  }

  /** The `VisitorScore!` casts succeed: a reported home score comes with a visitor score. */
  predicate ScoresCastable(g: Game) {
    Reported(g) ==> g.visitorScore.Some?
  }

  /**
   * The recalculator can take this row: a week boundary (skipped), or a game whose two team
   * IDs address a list of `n` standings and whose scores can be cast.
   */
  predicate Foldable(n: nat, g: Game) {
    IsWeekBoundary(g) || (1 <= g.homeID <= n && 1 <= g.visitorID <= n && ScoresCastable(g))
  }

  /** Every row of the schedule can be folded into `n` standings. */
  predicate AllFoldable(n: nat, schedule: seq<Game>) {
    forall i :: 0 <= i < |schedule| ==> Foldable(n, schedule[i])
  }

  /**
   * What ReCalcStandings needs to run without an exception: a non-empty standings list
   * (First() of the sorted teams) and every row foldable.
   */
  predicate RecalcReady(standings: seq<Standing>, schedule: seq<Game>) {
    |standings| > 0 && AllFoldable(|standings|, schedule)
  }

  /** TeamID i+1 sits at position i, so indexing by TeamID - 1 finds the team with that ID. */
  predicate PositionalTeamIDs(standings: seq<Standing>) {
    forall i :: 0 <= i < |standings| ==> standings[i].teamID == i + 1
  }

  /** How a game is decided, in the order the source tests the cases. */
  datatype Decision = DoubleForfeit | HomeWin | VisitorWin | Tie | NoDecision

  function Decide(g: Game): Decision {
    if g.visitorForfeit && g.homeForfeit then DoubleForfeit
    else if Greater(g.homeScore, g.visitorScore) then HomeWin
    else if Greater(g.visitorScore, g.homeScore) then VisitorWin
    else if Reported(g) then Tie
    else NoDecision
  }

  /** What one block of UpdateStandings adds to one team's record. */
  datatype Credit = Credit(scored: int, against: int, forfeits: nat, wins: nat, losses: nat, ties: nat)

  datatype Side = HomeSide | VisitorSide

  function Count(b: bool): nat {
    if b then 1 else 0
  }

  /** Runs credited to the home team: HomeScore once a result is reported, else nothing. */
  function HomeRuns(g: Game): int {
    if Reported(g) then g.homeScore.value else 0
  }

  /** Runs credited to the visitor: VisitorScore once a home score is reported, else nothing. */
  function VisitorRuns(g: Game): int
    requires ScoresCastable(g)
  {
    if Reported(g) then g.visitorScore.value else 0
  }

  /** The runs block: a team scores its own runs and concedes the other side's. */
  function RunsCredit(scored: int, against: int): Credit {
    Credit(scored, against, 0, 0, 0, 0)
  }

  /** The forfeit blocks: a forfeit flag is one forfeit and one forfeit charged for its team. */
  function ForfeitCredit(forfeited: bool): Credit {
    Credit(0, 0, Count(forfeited), 0, 0, 0)
  }

  /**
   * The decision block for one side: a win for the winner, a loss for the loser and for both
   * sides of a double forfeit, a tie for both sides of a tie, nothing for an undecided game.
   */
  function ResultCredit(side: Side, d: Decision): Credit {
    var winning := if side == HomeSide then HomeWin else VisitorWin;
    var losing := if side == HomeSide then VisitorWin else HomeWin;
    Credit(0, 0, 0, Count(d == winning), Count(d == losing || d == DoubleForfeit), Count(d == Tie))
  }

  /** Adds a credit to a team; a forfeit counts both in Forfeits and in ForfeitsCharged. */
  function AddCredit(t: Standing, c: Credit): Standing {
    t.(runsScored := t.runsScored + c.scored,
       runsAgainst := t.runsAgainst + c.against,
       forfeits := t.forfeits + c.forfeits,
       forfeitsCharged := t.forfeitsCharged + c.forfeits,
       wins := t.wins + c.wins,
       losses := t.losses + c.losses,
       ties := t.ties + c.ties)
  }

  /** The team at `h` credited with `hc`, then the team at `v` (possibly the same) with `vc`. */
  function Credited(standings: seq<Standing>, h: nat, v: nat, hc: Credit, vc: Credit): (r: seq<Standing>)
    requires h < |standings| && v < |standings|
    ensures |r| == |standings|
  {
    var afterHome := standings[h := AddCredit(standings[h], hc)];
    afterHome[v := AddCredit(afterHome[v], vc)]
  }

  /**
   * UpdateStandings for one game row: the teams at HomeID - 1 and VisitorID - 1 are credited
   * with their runs, then with their forfeits, then with the decision, home before visitor in
   * each block, so a team listed on both sides collects both sides' credits.
   */
  function ApplyGame(standings: seq<Standing>, g: Game): (r: seq<Standing>)
    requires !IsWeekBoundary(g) && Foldable(|standings|, g)
    ensures |r| == |standings|
  {
    var h, v, d := g.homeID - 1, g.visitorID - 1, Decide(g);
    var afterRuns := Credited(standings, h, v, RunsCredit(HomeRuns(g), VisitorRuns(g)), RunsCredit(VisitorRuns(g), HomeRuns(g)));
    var afterForfeits := Credited(afterRuns, h, v, ForfeitCredit(g.homeForfeit), ForfeitCredit(g.visitorForfeit));
    Credited(afterForfeits, h, v, ResultCredit(HomeSide, d), ResultCredit(VisitorSide, d))
  }

  /** The foreach over the schedule: week boundaries skipped, every other row applied in order. */
  function FoldSchedule(standings: seq<Standing>, schedule: seq<Game>): (r: seq<Standing>)
    requires AllFoldable(|standings|, schedule)
    ensures |r| == |standings|
    decreases |schedule|
  {
    if schedule == [] then standings
    else
      var next := if IsWeekBoundary(schedule[0]) then standings else ApplyGame(standings, schedule[0]);
      assert forall i :: 0 <= i < |schedule| - 1 ==> schedule[1..][i] == schedule[i + 1];
      FoldSchedule(next, schedule[1..])
  }

  /** A team with every tally, GB and Percentage set to zero. */
  function Zeroed(t: Standing): Standing {
    t.(forfeits := 0, losses := 0, overtimeLosses := 0, ties := 0, wins := 0,
       runsAgainst := 0, runsScored := 0, forfeitsCharged := 0, gb := 0.0, percentage := 0.0)
  }

  function ZeroAll(standings: seq<Standing>): (r: seq<Standing>)
    ensures |r| == |standings|
  {
    seq(|standings|, i requires 0 <= i < |standings| => Zeroed(standings[i]))
  }

  /**
   * The team OrderByDescending(Wins).First() picks: the sort is stable, so it is the first team
   * in list order among those with the most wins.
   */
  function LeaderIndex(standings: seq<Standing>): (k: nat)
    requires |standings| > 0
    ensures k < |standings|
    ensures forall j :: 0 <= j < |standings| ==> standings[j].wins <= standings[k].wins
    ensures forall j :: 0 <= j < k ==> standings[j].wins < standings[k].wins
  {
    if |standings| == 1 then 0
    else
      var rest := LeaderIndex(standings[1..]);
      assert forall j :: 1 <= j < |standings| ==> standings[1..][j - 1] == standings[j];
      if standings[0].wins >= standings[rest + 1].wins then 0 else rest + 1
  }

  /** ((maxWins - Wins) + (Losses - maxLosses)) / 2. */
  function GamesBehind(t: Standing, leader: Standing): real {
    ((leader.wins - t.wins) + (t.losses - leader.losses)) as real / 2.0
  }

  /** Zero without a win or loss, otherwise Wins / (Wins + Losses + Ties). */
  function WinningPercentage(t: Standing): real {
    if t.wins + t.losses == 0 then 0.0
    else t.wins as real / (t.wins + t.losses + t.ties) as real
  }

  function Ranked(t: Standing, leader: Standing): Standing {
    t.(gb := GamesBehind(t, leader), percentage := WinningPercentage(t))
  }

  /** CalculateGamesBehind: every team ranked against the leader. */
  function WithGamesBehind(standings: seq<Standing>): (r: seq<Standing>)
    requires |standings| > 0
    ensures |r| == |standings|
  {
    var leader := standings[LeaderIndex(standings)];
    seq(|standings|, i requires 0 <= i < |standings| => Ranked(standings[i], leader))
  }

  /** ReCalcStandings: zero every team, fold the schedule in, then rank. */
  function Recalculated(standings: seq<Standing>, schedule: seq<Game>): (r: seq<Standing>)
    requires RecalcReady(standings, schedule)
    ensures |r| == |standings|
  {
    WithGamesBehind(FoldSchedule(ZeroAll(standings), schedule))
  }
}
