/**
 * What the recalculation guarantees: it is idempotent, it only ever changes tallies, its
 * league-wide totals are exactly what the reported games add up to (so runs scored balance
 * runs against), week boundaries have no effect, and GB and Percentage follow their formulas.
 */
module RecalculationProperties {
  import opened Wrappers
  import opened Models
  import opened Recalculation

  // ---------------------------------------------------------------- identity fields

  /** The team's key and name: everything Zeroed keeps. */
  lemma ZeroedKeepsIdentity(t: Standing, c: Credit, leader: Standing)
    ensures Zeroed(AddCredit(t, c)) == Zeroed(t)
    ensures Zeroed(Ranked(t, leader)) == Zeroed(t)
    ensures Zeroed(Zeroed(t)) == Zeroed(t)
  {
  }

  lemma CreditedKeepsIdentity(standings: seq<Standing>, h: nat, v: nat, a: Credit, b: Credit)
    requires h < |standings| && v < |standings|
    ensures ZeroAll(Credited(standings, h, v, a, b)) == ZeroAll(standings)
  {
    var afterHome := standings[h := AddCredit(standings[h], a)];
    forall k | 0 <= k < |standings| ensures ZeroAll(Credited(standings, h, v, a, b))[k] == ZeroAll(standings)[k] {
      ZeroedKeepsIdentity(standings[k], a, standings[k]);
      ZeroedKeepsIdentity(afterHome[k], b, afterHome[k]);
    }
  }

  lemma ApplyGameKeepsIdentity(standings: seq<Standing>, g: Game)
    requires !IsWeekBoundary(g) && Foldable(|standings|, g)
    ensures ZeroAll(ApplyGame(standings, g)) == ZeroAll(standings)
  {
    var h, v, d := g.homeID - 1, g.visitorID - 1, Decide(g);
    var afterRuns := Credited(standings, h, v, RunsCredit(HomeRuns(g), VisitorRuns(g)), RunsCredit(VisitorRuns(g), HomeRuns(g)));
    var afterForfeits := Credited(afterRuns, h, v, ForfeitCredit(g.homeForfeit), ForfeitCredit(g.visitorForfeit));
    CreditedKeepsIdentity(standings, h, v, RunsCredit(HomeRuns(g), VisitorRuns(g)), RunsCredit(VisitorRuns(g), HomeRuns(g)));
    CreditedKeepsIdentity(afterRuns, h, v, ForfeitCredit(g.homeForfeit), ForfeitCredit(g.visitorForfeit));
    CreditedKeepsIdentity(afterForfeits, h, v, ResultCredit(HomeSide, d), ResultCredit(VisitorSide, d));
  }

  /** Folding a schedule changes only tallies: names, IDs and keys stay where they were. */
  lemma {:induction false} FoldKeepsIdentity(standings: seq<Standing>, schedule: seq<Game>)
    requires AllFoldable(|standings|, schedule)
    ensures ZeroAll(FoldSchedule(standings, schedule)) == ZeroAll(standings)
    decreases |schedule|
  {
    if schedule != [] {
      var next := if IsWeekBoundary(schedule[0]) then standings else ApplyGame(standings, schedule[0]);
      if !IsWeekBoundary(schedule[0]) { ApplyGameKeepsIdentity(standings, schedule[0]); }
      FoldKeepsIdentity(next, schedule[1..]);
    }
  }

  lemma WithGamesBehindKeepsIdentity(standings: seq<Standing>)
    requires |standings| > 0
    ensures ZeroAll(WithGamesBehind(standings)) == ZeroAll(standings)
  {
    var leader := standings[LeaderIndex(standings)];
    forall k | 0 <= k < |standings| ensures ZeroAll(WithGamesBehind(standings))[k] == ZeroAll(standings)[k] {
      ZeroedKeepsIdentity(standings[k], Credit(0, 0, 0, 0, 0, 0), leader);
    }
  }

  lemma ZeroAllIdempotent(standings: seq<Standing>)
    ensures ZeroAll(ZeroAll(standings)) == ZeroAll(standings)
  {
    forall k | 0 <= k < |standings| ensures ZeroAll(ZeroAll(standings))[k] == ZeroAll(standings)[k] {
      ZeroedKeepsIdentity(standings[k], Credit(0, 0, 0, 0, 0, 0), standings[k]);
    }
  }

  /**
   * Recalculation keeps every team's key, TeamID and name in place, so its precondition still
   * holds afterwards, and recalculating again on the same schedule changes nothing.
   */
  lemma RecalculationIsIdempotent(standings: seq<Standing>, schedule: seq<Game>)
    requires RecalcReady(standings, schedule)
    ensures ZeroAll(Recalculated(standings, schedule)) == ZeroAll(standings)
    ensures RecalcReady(Recalculated(standings, schedule), schedule)
    ensures Recalculated(Recalculated(standings, schedule), schedule) == Recalculated(standings, schedule)
  {
    var folded := FoldSchedule(ZeroAll(standings), schedule);
    WithGamesBehindKeepsIdentity(folded);
    FoldKeepsIdentity(ZeroAll(standings), schedule);
    ZeroAllIdempotent(standings);
  }

  // ---------------------------------------------------------------- league-wide totals

  /** The seven tallies a game feeds. */
  datatype Tally = RunsScored | RunsAgainst | Wins | Losses | Ties | Forfeits | ForfeitsCharged

  function TeamTally(t: Standing, f: Tally): int {
    match f
    case RunsScored => t.runsScored
    case RunsAgainst => t.runsAgainst
    case Wins => t.wins
    case Losses => t.losses
    case Ties => t.ties
    case Forfeits => t.forfeits
    case ForfeitsCharged => t.forfeitsCharged
  }

  /** One tally summed over all teams. */
  function LeagueTally(standings: seq<Standing>, f: Tally): int {
    if standings == [] then 0 else TeamTally(standings[0], f) + LeagueTally(standings[1..], f)
  }

  /** Every game row can have its scores cast. */
  predicate CastableRows(schedule: seq<Game>) {
    forall i :: 0 <= i < |schedule| ==> IsWeekBoundary(schedule[i]) || ScoresCastable(schedule[i])
  }

  /**
   * What a game decided as `d`, with `runs` reported runs and `flags` forfeit flags, adds to
   * a league tally: the runs to both runs tallies, one win and one loss if one side won, two
   * losses for a double forfeit, two ties for a tie, and each forfeit flag once.
   */
  function DecisionTally(d: Decision, runs: int, flags: nat, f: Tally): int {
    var decided := Count(d == HomeWin || d == VisitorWin);
    match f
    case RunsScored => runs
    case RunsAgainst => runs
    case Wins => decided
    case Losses => decided + 2 * Count(d == DoubleForfeit)
    case Ties => 2 * Count(d == Tie)
    case Forfeits => flags
    case ForfeitsCharged => flags
  }

  /** What one schedule row adds to a league tally; a week boundary adds nothing. */
  function RowTally(g: Game, f: Tally): int
    requires IsWeekBoundary(g) || ScoresCastable(g)
  {
    if IsWeekBoundary(g) then 0
    else DecisionTally(Decide(g), HomeRuns(g) + VisitorRuns(g), Count(g.homeForfeit) + Count(g.visitorForfeit), f)
  }

  function ScheduleTally(schedule: seq<Game>, f: Tally): int
    requires CastableRows(schedule)
  {
    if schedule == [] then 0 else RowTally(schedule[0], f) + ScheduleTally(schedule[1..], f)
  }

  lemma {:induction false} LeagueTallyUpdate(standings: seq<Standing>, i: nat, x: Standing, f: Tally)
    requires i < |standings|
    ensures LeagueTally(standings[i := x], f) + TeamTally(standings[i], f)
         == LeagueTally(standings, f) + TeamTally(x, f)
  {
    if i > 0 {
      LeagueTallyUpdate(standings[1..], i - 1, x, f);
      assert standings[i := x][1..] == standings[1..][i - 1 := x];
    } else {
      assert standings[i := x][1..] == standings[1..];
    }
  }

  function CreditTally(c: Credit, f: Tally): int {
    match f
    case RunsScored => c.scored
    case RunsAgainst => c.against
    case Wins => c.wins
    case Losses => c.losses
    case Ties => c.ties
    case Forfeits => c.forfeits
    case ForfeitsCharged => c.forfeits
  }

  /** Crediting two positions adds both credits to every league tally. */
  lemma CreditedTally(standings: seq<Standing>, h: nat, v: nat, a: Credit, b: Credit, f: Tally)
    requires h < |standings| && v < |standings|
    ensures LeagueTally(Credited(standings, h, v, a, b), f) == LeagueTally(standings, f) + CreditTally(a, f) + CreditTally(b, f)
  {
    var afterHome := standings[h := AddCredit(standings[h], a)];
    LeagueTallyUpdate(standings, h, AddCredit(standings[h], a), f);
    LeagueTallyUpdate(afterHome, v, AddCredit(afterHome[v], b), f);
  }

  /** The two sides' credits of one game add up to what the decision adds to the league. */
  lemma CreditsAddUp(d: Decision, homeRuns: int, visitorRuns: int, hf: bool, vf: bool, f: Tally)
    ensures CreditTally(RunsCredit(homeRuns, visitorRuns), f) + CreditTally(RunsCredit(visitorRuns, homeRuns), f)
          + CreditTally(ForfeitCredit(hf), f) + CreditTally(ForfeitCredit(vf), f)
          + CreditTally(ResultCredit(HomeSide, d), f) + CreditTally(ResultCredit(VisitorSide, d), f)
         == DecisionTally(d, homeRuns + visitorRuns, Count(hf) + Count(vf), f)
  {
  }

  /** Three rounds of crediting the same two positions add all six credits. */
  lemma ThreeRoundsTally(standings: seq<Standing>, h: nat, v: nat, c1: Credit, c2: Credit, c3: Credit,
                         c4: Credit, c5: Credit, c6: Credit, f: Tally)
    requires h < |standings| && v < |standings|
    ensures LeagueTally(Credited(Credited(Credited(standings, h, v, c1, c2), h, v, c3, c4), h, v, c5, c6), f)
         == LeagueTally(standings, f) + CreditTally(c1, f) + CreditTally(c2, f) + CreditTally(c3, f)
          + CreditTally(c4, f) + CreditTally(c5, f) + CreditTally(c6, f)
  {
    var s1 := Credited(standings, h, v, c1, c2);
    var s2 := Credited(s1, h, v, c3, c4);
    CreditedTally(standings, h, v, c1, c2, f);
    CreditedTally(s1, h, v, c3, c4, f);
    CreditedTally(s2, h, v, c5, c6, f);
  }

  lemma ApplyGameTally(standings: seq<Standing>, g: Game, f: Tally)
    requires !IsWeekBoundary(g) && Foldable(|standings|, g)
    ensures LeagueTally(ApplyGame(standings, g), f) == LeagueTally(standings, f) + RowTally(g, f)
  {
    var h, v, d := g.homeID - 1, g.visitorID - 1, Decide(g);
    var hr, vr, hf, vf := HomeRuns(g), VisitorRuns(g), g.homeForfeit, g.visitorForfeit;
    var c1, c2 := RunsCredit(hr, vr), RunsCredit(vr, hr);
    var c3, c4 := ForfeitCredit(hf), ForfeitCredit(vf);
    var c5, c6 := ResultCredit(HomeSide, d), ResultCredit(VisitorSide, d);
    assert ApplyGame(standings, g) == Credited(Credited(Credited(standings, h, v, c1, c2), h, v, c3, c4), h, v, c5, c6);
    assert RowTally(g, f) == DecisionTally(d, hr + vr, Count(hf) + Count(vf), f);
    ThreeRoundsTally(standings, h, v, c1, c2, c3, c4, c5, c6, f);
    CreditsAddUp(d, hr, vr, hf, vf, f);
  }

  lemma {:induction false} FoldTally(standings: seq<Standing>, schedule: seq<Game>, f: Tally)
    requires AllFoldable(|standings|, schedule)
    ensures LeagueTally(FoldSchedule(standings, schedule), f) == LeagueTally(standings, f) + ScheduleTally(schedule, f)
    decreases |schedule|
  {
    if schedule != [] {
      var next := if IsWeekBoundary(schedule[0]) then standings else ApplyGame(standings, schedule[0]);
      if !IsWeekBoundary(schedule[0]) { ApplyGameTally(standings, schedule[0], f); }
      FoldTally(next, schedule[1..], f);
    }
  }

  lemma {:induction false} ZeroedLeague(standings: seq<Standing>, f: Tally)
    ensures LeagueTally(ZeroAll(standings), f) == 0
  {
    if standings != [] {
      assert ZeroAll(standings)[1..] == ZeroAll(standings[1..]);
      ZeroedLeague(standings[1..], f);
    }
  }

  lemma {:induction false} RankingKeepsLeague(standings: seq<Standing>, leader: Standing, f: Tally)
    ensures LeagueTally(seq(|standings|, i requires 0 <= i < |standings| => Ranked(standings[i], leader)), f)
         == LeagueTally(standings, f)
  {
    if standings != [] {
      var ranked := seq(|standings|, i requires 0 <= i < |standings| => Ranked(standings[i], leader));
      var rest := seq(|standings| - 1, i requires 0 <= i < |standings| - 1 => Ranked(standings[1..][i], leader));
      assert ranked[1..] == rest;
      RankingKeepsLeague(standings[1..], leader, f);
    }
  }

  /**
   * After a recalculation every league tally is exactly the schedule's: every run a reported
   * game scored, one win and one loss per decided game, two losses per double forfeit, two
   * ties per tie and one forfeit per forfeit flag, whatever the standings held before.
   */
  lemma TallyOfRecalculation(standings: seq<Standing>, schedule: seq<Game>, f: Tally)
    requires RecalcReady(standings, schedule)
    ensures LeagueTally(Recalculated(standings, schedule), f) == ScheduleTally(schedule, f)
  {
    var zeroed := ZeroAll(standings);
    ZeroedLeague(standings, f);
    FoldTally(zeroed, schedule, f);
    var folded := FoldSchedule(zeroed, schedule);
    RankingKeepsLeague(folded, folded[LeaderIndex(folded)], f);
  }

  /** Every row adds the same to runs scored as to runs against, and likewise for forfeits. */
  lemma {:induction false} ScheduleBalance(schedule: seq<Game>)
    requires CastableRows(schedule)
    ensures ScheduleTally(schedule, RunsScored) == ScheduleTally(schedule, RunsAgainst)
    ensures ScheduleTally(schedule, Forfeits) == ScheduleTally(schedule, ForfeitsCharged)
    ensures ScheduleTally(schedule, Losses) >= ScheduleTally(schedule, Wins)
  {
    if schedule != [] {
      ScheduleBalance(schedule[1..]);
    }
  }

  /** Summed over all teams, runs scored equal runs against, and forfeits equal forfeits charged. */
  lemma RunsBalance(standings: seq<Standing>, schedule: seq<Game>)
    requires RecalcReady(standings, schedule)
    ensures LeagueTally(Recalculated(standings, schedule), RunsScored)
         == LeagueTally(Recalculated(standings, schedule), RunsAgainst)
    ensures LeagueTally(Recalculated(standings, schedule), Forfeits)
         == LeagueTally(Recalculated(standings, schedule), ForfeitsCharged)
    ensures LeagueTally(Recalculated(standings, schedule), Losses)
         >= LeagueTally(Recalculated(standings, schedule), Wins)
  {
    TallyOfRecalculation(standings, schedule, RunsScored);
    TallyOfRecalculation(standings, schedule, RunsAgainst);
    TallyOfRecalculation(standings, schedule, Forfeits);
    TallyOfRecalculation(standings, schedule, ForfeitsCharged);
    TallyOfRecalculation(standings, schedule, Wins);
    TallyOfRecalculation(standings, schedule, Losses);
    ScheduleBalance(schedule);
  }

  // ---------------------------------------------------------------- per-team facts

  lemma {:induction false} FoldKeepsForfeitCountersEqual(standings: seq<Standing>, schedule: seq<Game>)
    requires AllFoldable(|standings|, schedule)
    requires forall i :: 0 <= i < |standings| ==> standings[i].forfeits == standings[i].forfeitsCharged
    ensures forall i :: 0 <= i < |standings| ==>
      FoldSchedule(standings, schedule)[i].forfeits == FoldSchedule(standings, schedule)[i].forfeitsCharged
    decreases |schedule|
  {
    if schedule != [] {
      var next := if IsWeekBoundary(schedule[0]) then standings else ApplyGame(standings, schedule[0]);
      FoldKeepsForfeitCountersEqual(next, schedule[1..]);
    }
  }

  /** Forfeits and ForfeitsCharged are always incremented together, so every team's two agree. */
  lemma ForfeitCountersAgree(standings: seq<Standing>, schedule: seq<Game>)
    requires RecalcReady(standings, schedule)
    ensures forall i :: 0 <= i < |standings| ==>
      Recalculated(standings, schedule)[i].forfeits == Recalculated(standings, schedule)[i].forfeitsCharged
  {
    FoldKeepsForfeitCountersEqual(ZeroAll(standings), schedule);
  }

  /**
   * One game between two different teams: the home team gains a win exactly when the game is
   * not a double forfeit and its score is higher, a loss when it forfeited together with the
   * visitor or scored lower, a tie when the reported scores are equal without a double forfeit;
   * runs move only when a score is reported; no other team changes.
   */
  lemma GameBetweenTwoTeams(standings: seq<Standing>, g: Game)
    requires !IsWeekBoundary(g) && Foldable(|standings|, g) && g.homeID != g.visitorID
    ensures var r, h, v := ApplyGame(standings, g), g.homeID - 1, g.visitorID - 1;
      var double := g.homeForfeit && g.visitorForfeit;
      && r[h].wins == standings[h].wins + Count(!double && Greater(g.homeScore, g.visitorScore))
      && r[v].wins == standings[v].wins + Count(!double && Greater(g.visitorScore, g.homeScore))
      && r[h].losses == standings[h].losses + Count(double || Greater(g.visitorScore, g.homeScore))
      && r[v].losses == standings[v].losses + Count(double || Greater(g.homeScore, g.visitorScore))
      && r[h].ties == standings[h].ties + Count(!double && Reported(g) && g.homeScore == g.visitorScore)
      && r[v].ties == standings[v].ties + Count(!double && Reported(g) && g.homeScore == g.visitorScore)
      && r[h].forfeits == standings[h].forfeits + Count(g.homeForfeit)
      && r[v].forfeits == standings[v].forfeits + Count(g.visitorForfeit)
      && r[h].runsScored == standings[h].runsScored + (if Reported(g) then g.homeScore.value else 0)
      && r[v].runsAgainst == standings[v].runsAgainst + (if Reported(g) then g.homeScore.value else 0)
      && r[h].runsAgainst == standings[h].runsAgainst + (if Reported(g) then g.visitorScore.value else 0)
      && r[v].runsScored == standings[v].runsScored + (if Reported(g) then g.visitorScore.value else 0)
      && r[h].forfeitsCharged == standings[h].forfeitsCharged + Count(g.homeForfeit)
      && r[v].forfeitsCharged == standings[v].forfeitsCharged + Count(g.visitorForfeit)
      && (forall k :: 0 <= k < |r| && k != h && k != v ==> r[k] == standings[k])
  {
  }

  // ---------------------------------------------------------------- week boundaries

  /** One turn of the fold: a week boundary leaves the standings alone, a game is applied. */
  function FoldStep(standings: seq<Standing>, g: Game): (r: seq<Standing>)
    requires Foldable(|standings|, g)
    ensures |r| == |standings|
  {
    if IsWeekBoundary(g) then standings else ApplyGame(standings, g)
  }

  lemma FoldUnfolds(standings: seq<Standing>, schedule: seq<Game>)
    requires schedule != [] && AllFoldable(|standings|, schedule)
    ensures AllFoldable(|standings|, schedule[1..])
    ensures FoldSchedule(standings, schedule) == FoldSchedule(FoldStep(standings, schedule[0]), schedule[1..])
  {
  }

  /** Inserting a week-boundary row anywhere leaves the fold unchanged. */
  lemma {:induction false} FoldSkipsWeek(standings: seq<Standing>, before: seq<Game>, week: Game, after: seq<Game>)
    requires IsWeekBoundary(week)
    requires AllFoldable(|standings|, before + after)
    ensures AllFoldable(|standings|, before + [week] + after)
    ensures FoldSchedule(standings, before + [week] + after) == FoldSchedule(standings, before + after)
    decreases |before|
  {
    var n := |standings|;
    var with, without := before + [week] + after, before + after;
    forall i | 0 <= i < |with| ensures Foldable(n, with[i]) {
      if i < |before| {
        assert with[i] == without[i];
      } else if i > |before| {
        assert with[i] == without[i - 1];
      }
    }
    if before == [] {
      assert with[1..] == after && without == after;
      FoldUnfolds(standings, with);
      assert FoldStep(standings, with[0]) == standings;
    } else {
      assert with[1..] == before[1..] + [week] + after;
      assert without[1..] == before[1..] + after;
      FoldUnfolds(standings, with);
      FoldUnfolds(standings, without);
      FoldSkipsWeek(FoldStep(standings, before[0]), before[1..], week, after);
    }
  }

  /** A week-boundary row contributes nothing, wherever it stands and whatever scores it carries. */
  lemma WeekBoundaryHasNoEffect(standings: seq<Standing>, before: seq<Game>, week: Game, after: seq<Game>)
    requires IsWeekBoundary(week)
    requires RecalcReady(standings, before + after)
    ensures RecalcReady(standings, before + [week] + after)
    ensures Recalculated(standings, before + [week] + after) == Recalculated(standings, before + after)
  {
    FoldSkipsWeek(ZeroAll(standings), before, week, after);
  }

  // ---------------------------------------------------------------- games behind and percentage

  /**
   * A team's GB is zero exactly when its win-loss difference equals the leader's, and negative
   * exactly when it is better: the leader is chosen by wins alone, so a team with as many wins
   * and fewer losses sits ahead of it. The leader itself is always at zero.
   */
  lemma GamesBehindSign(standings: seq<Standing>, i: nat)
    requires i < |standings|
    ensures var leader, r := standings[LeaderIndex(standings)], WithGamesBehind(standings);
      && (r[i].gb == 0.0 <==> standings[i].wins - standings[i].losses == leader.wins - leader.losses)
      && (r[i].gb < 0.0 <==> standings[i].wins - standings[i].losses > leader.wins - leader.losses)
      && r[LeaderIndex(standings)].gb == 0.0
  {
  }

  /**
   * Percentage lies between 0 and 1; it is 0 for a team with no wins (also with no decided
   * game at all) and 1 exactly for a team that has won every game it played.
   */
  lemma PercentageRange(standings: seq<Standing>, i: nat)
    requires i < |standings|
    ensures var p := WithGamesBehind(standings)[i].percentage;
      && 0.0 <= p <= 1.0
      && (p == 0.0 <==> standings[i].wins == 0)
      && (p == 1.0 <==> standings[i].wins > 0 && standings[i].losses == 0 && standings[i].ties == 0)
  {
    var t := standings[i];
    assert WithGamesBehind(standings)[i].percentage == WinningPercentage(t);
    if t.wins + t.losses != 0 {
      RatioRange(t.wins, t.wins + t.losses + t.ties);
    }
  }

  /** w / d for 0 <= w <= d, d > 0: between 0 and 1, 0 exactly for w = 0, 1 exactly for w = d. */
  lemma RatioRange(w: nat, d: nat)
    requires 0 < d && w <= d
    ensures 0.0 <= w as real / d as real <= 1.0
    ensures w as real / d as real == 0.0 <==> w == 0
    ensures w as real / d as real == 1.0 <==> w == d
  {
    var q := w as real / d as real;
    assert q * d as real == w as real;
    assert (1.0 - q) * d as real == (d - w) as real;
    if w == d {
      assert (1.0 - q) * d as real == 0.0;
    }
  }

  /** The two-team example: leader 5-2, other team 3-4, so the other team is 2 games behind. */
  lemma GamesBehindExample(a: Standing, b: Standing)
    requires a.wins == 5 && a.losses == 2 && a.ties == 0
    requires b.wins == 3 && b.losses == 4 && b.ties == 0
    ensures WithGamesBehind([a, b])[0].gb == 0.0 && WithGamesBehind([a, b])[1].gb == 2.0
    ensures WithGamesBehind([a, b])[0].percentage == 5.0 / 7.0
  {
  }
}
