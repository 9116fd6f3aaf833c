/**
 * Recording results: each update overwrites the four score fields of the first schedule row
 * with its GameID, and an update whose GameID matches no row is ignored.
 */
module ScoreUpdates {
  import opened Wrappers
  import opened Models
  import opened Recalculation

  /** FirstOrDefault(s => s.GameID == id), as the position of the row it finds. */
  function FirstWithGameId(schedule: seq<Game>, id: int): (r: Option<nat>)
    ensures r.Some? ==> r.value < |schedule| && schedule[r.value].gameID == id
    ensures r.Some? ==> forall j :: 0 <= j < r.value ==> schedule[j].gameID != id
    ensures r.None? ==> forall j :: 0 <= j < |schedule| ==> schedule[j].gameID != id
  {
    if schedule == [] then None
    else if schedule[0].gameID == id then Some(0)
    else
      match FirstWithGameId(schedule[1..], id)
      case None => None
      case Some(k) => Some(k + 1)
  }

  /** The first-match position is determined by the two properties FirstOrDefault promises. */
  lemma FirstMatchIsUnique(schedule: seq<Game>, id: int, k: nat)
    requires k < |schedule| && schedule[k].gameID == id
    requires forall j :: 0 <= j < k ==> schedule[j].gameID != id
    ensures FirstWithGameId(schedule, id) == Some(k)
  {
  }

  /** The four assignments ProcessScores makes to the row it found. */
  function Overwrite(g: Game, u: ScoreUpdate): Game {
    g.(homeForfeit := u.homeForfeit, homeScore := u.homeScore,
       visitorForfeit := u.visitorForfeit, visitorScore := u.visitorScore)
  }

  /** The score fields of a row, as the update that would write them. */
  function ScoresOf(g: Game): ScoreUpdate {
    ScoreUpdate(g.gameID, g.homeScore, g.visitorScore, g.homeForfeit, g.visitorForfeit)
  }

  /** One turn of the ProcessScores loop. */
  function ApplyScore(schedule: seq<Game>, u: ScoreUpdate): seq<Game> {
    match FirstWithGameId(schedule, u.gameID)
    case None => schedule
    case Some(k) => schedule[k := Overwrite(schedule[k], u)]
  }

  /** The whole ProcessScores loop: the updates in request order. */
  function ApplyScores(schedule: seq<Game>, updates: seq<ScoreUpdate>): seq<Game>
    decreases |updates|
  {
    if updates == [] then schedule else ApplyScores(ApplyScore(schedule, updates[0]), updates[1..])
  }

  /** A row with its score fields cleared: everything ProcessScores never touches. */
  function Fixture(g: Game): Game {
    g.(homeForfeit := false, homeScore := None, visitorForfeit := false, visitorScore := None)
  }

  /**
   * One update changes at most one row, the first with its GameID: that row's four score
   * fields become the update's verbatim and every other field and row is left as it was.
   * With no row of that GameID, nothing changes.
   */
  lemma ApplyScoreEffect(schedule: seq<Game>, u: ScoreUpdate)
    ensures var r := ApplyScore(schedule, u);
      && |r| == |schedule|
      && (forall j :: 0 <= j < |r| ==> Fixture(r[j]) == Fixture(schedule[j]))
      && (forall j :: 0 <= j < |r| && schedule[j].gameID != u.gameID ==> r[j] == schedule[j])
      && (forall j :: 0 <= j < |r| && (exists i :: 0 <= i < j && schedule[i].gameID == u.gameID) ==> r[j] == schedule[j])
      && (forall j :: 0 <= j < |r| && schedule[j].gameID == u.gameID
                       && (forall i :: 0 <= i < j ==> schedule[i].gameID != u.gameID)
                     ==> ScoresOf(r[j]) == u)
  {
  }

  /** ProcessScores never changes which rows there are, their keys, teams, dates or fields. */
  lemma {:induction false} ApplyScoresKeepsFixtures(schedule: seq<Game>, updates: seq<ScoreUpdate>)
    ensures |ApplyScores(schedule, updates)| == |schedule|
    ensures forall j :: 0 <= j < |schedule| ==> Fixture(ApplyScores(schedule, updates)[j]) == Fixture(schedule[j])
    decreases |updates|
  {
    if updates != [] {
      ApplyScoreEffect(schedule, updates[0]);
      ApplyScoresKeepsFixtures(ApplyScore(schedule, updates[0]), updates[1..]);
    }
  }

  /** Of two updates for the same GameID, the later one wins. */
  lemma LastUpdateWins(schedule: seq<Game>, first: ScoreUpdate, second: ScoreUpdate)
    requires first.gameID == second.gameID
    ensures ApplyScore(ApplyScore(schedule, first), second) == ApplyScore(schedule, second)
  {
    ApplyScoreEffect(schedule, first);
    var once := ApplyScore(schedule, first);
    match FirstWithGameId(schedule, first.gameID)
    case None =>
    case Some(k) =>
      assert once[k].gameID == schedule[k].gameID;
      FirstMatchIsUnique(once, second.gameID, k);
  }

  /** The result an update can carry without breaking the `VisitorScore!` casts. */
  predicate CastableUpdate(u: ScoreUpdate) {
    u.homeScore.Some? && u.homeScore.value > -1 ==> u.visitorScore.Some?
  }

  /**
   * Overwriting scores keeps the recalculation's precondition: week rows stay week rows, team
   * IDs stay in range, and the new scores can be cast when every update's can.
   */
  lemma {:induction false} ApplyScoresKeepsReady(standings: seq<Standing>, schedule: seq<Game>, updates: seq<ScoreUpdate>)
    requires RecalcReady(standings, schedule)
    requires forall i :: 0 <= i < |updates| ==> CastableUpdate(updates[i])
    ensures RecalcReady(standings, ApplyScores(schedule, updates))
    decreases |updates|
  {
    if updates != [] {
      var once := ApplyScore(schedule, updates[0]);
      ApplyScoreEffect(schedule, updates[0]);
      forall j | 0 <= j < |once| ensures Foldable(|standings|, once[j]) {
        assert Fixture(once[j]) == Fixture(schedule[j]);
        assert once[j].visitor == schedule[j].visitor;
        assert once[j] == schedule[j] || once[j] == Overwrite(schedule[j], updates[0]);
      }
      ApplyScoresKeepsReady(standings, once, updates[1..]);
    }
  }

  /** Updates that restate what their rows already hold change nothing. */
  lemma {:induction false} RestatingScoresChangesNothing(schedule: seq<Game>, updates: seq<ScoreUpdate>)
    requires forall i :: 0 <= i < |updates| ==>
      match FirstWithGameId(schedule, updates[i].gameID)
      case None => true
      case Some(k) => ScoresOf(schedule[k]) == updates[i]
    ensures ApplyScores(schedule, updates) == schedule
    decreases |updates|
  {
    if updates != [] {
      match FirstWithGameId(schedule, updates[0].gameID) {
        case None =>
        case Some(k) =>
          assert Overwrite(schedule[k], updates[0]) == schedule[k];
          assert schedule[k := schedule[k]] == schedule;
      }
      RestatingScoresChangesNothing(schedule, updates[1..]);
    }
  }
}
