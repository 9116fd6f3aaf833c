/**
 * The score-reporting form: the games of one slot copied into form rows, the forfeit-score
 * rule checked row by row before anything is saved, and the request the form turns into.
 */
module ScoresForm {
  import opened Wrappers
  import opened Text
  import opened Models
  import opened ScoreUpdates

  /** The columns of a schedule row that the form shows and edits. */
  datatype ScoresRow = ScoresRow(
    gameID: int,
    home: string,
    visitor: string,
    day: Option<Ticks>,
    time: Option<Ticks>,
    field: string,
    homeScore: Option<int>,
    visitorScore: Option<int>,
    homeForfeit: bool,
    visitorForfeit: bool,
    overtimeGame: bool)

  /** The form row for a schedule row's game. */
  function RowOf(g: Game): ScoresRow {
    ScoresRow(g.gameID, g.home, g.visitor, g.day, g.time, g.field,
              g.homeScore, g.visitorScore, g.homeForfeit, g.visitorForfeit, g.overtimeGame)
  }

  /**
   * The forfeit-score rule: a double forfeit is recorded 0-0, a home forfeit 0-7 (home 0,
   * visitor 7), a visitor forfeit 7-0. A missing score never meets it. Without a forfeit
   * flag any scores pass.
   */
  predicate ForfeitScoreOk(row: ScoresRow) {
    && (row.homeForfeit && row.visitorForfeit ==> row.homeScore == Some(0) && row.visitorScore == Some(0))
    && (row.homeForfeit && !row.visitorForfeit ==> row.homeScore == Some(0) && row.visitorScore == Some(7))
    && (!row.homeForfeit && row.visitorForfeit ==> row.homeScore == Some(7) && row.visitorScore == Some(0))
  }

  /** C#'s lifted `!=` between a nullable short and a constant: true when the score is null. */
  predicate Differs(score: Option<int>, n: int) {
    score.None? || score.value != n
  }

  const DoubleForfeitText: string := "Score must be 0-0 for double forfeit for Game #"
  const ForfeitText: string := "Score must be 7-0 for forfeit for Game #"

  /** The message the check adds for the row shown as Game #`number`, or "" when it passes. */
  function GameError(row: ScoresRow, number: nat): string {
    if row.homeForfeit then
      if row.visitorForfeit then
        if Differs(row.homeScore, 0) || Differs(row.visitorScore, 0) then DoubleForfeitText + Decimal(number) + ". " else ""
      else if Differs(row.homeScore, 0) || Differs(row.visitorScore, 7) then ForfeitText + Decimal(number) + ". " else ""
    else if row.visitorForfeit then
      if Differs(row.homeScore, 7) || Differs(row.visitorScore, 0) then ForfeitText + Decimal(number) + ". " else ""
    else ""
  }

  /** The if-chain adds a message exactly for the rows that break the forfeit-score rule. */
  lemma GameErrorMeansRuleBroken(row: ScoresRow, number: nat)
    ensures GameError(row, number) == "" <==> ForfeitScoreOk(row)
  {
    assert |DoubleForfeitText| > 0 && |ForfeitText| > 0;
  }

  /** The message of every row, the row at position i being Game #i+1. */
  function Messages(rows: seq<ScoresRow>): (r: seq<string>)
    ensures |r| == |rows|
  {
    seq(|rows|, i requires 0 <= i < |rows| => GameError(rows[i], i + 1))
  }

  /** The parts from `k` on appended to `acc`, in order. */
  function Concat(parts: seq<string>, k: nat, acc: string): string
    decreases |parts| - k
  {
    if k >= |parts| then acc else Concat(parts, k + 1, acc + parts[k])
  }

  /** What is already accumulated stays at the front. */
  lemma {:induction false} ConcatKeepsPrefix(parts: seq<string>, k: nat, acc: string)
    ensures Concat(parts, k, acc) == acc + Concat(parts, k, "")
    decreases |parts| - k
  {
    if k < |parts| {
      ConcatKeepsPrefix(parts, k + 1, acc + parts[k]);
      ConcatKeepsPrefix(parts, k + 1, parts[k]);
      assert "" + parts[k] == parts[k];
    }
  }

  /** The concatenation is empty exactly when `acc` and every part from `k` on are. */
  lemma {:induction false} ConcatEmptyIffPartsEmpty(parts: seq<string>, k: nat, acc: string)
    ensures Concat(parts, k, acc) == "" <==> acc == "" && forall j :: k <= j < |parts| ==> parts[j] == ""
    decreases |parts| - k
  {
    if k < |parts| {
      ConcatEmptyIffPartsEmpty(parts, k + 1, acc + parts[k]);
    }
  }

  /** Concatenating the first j parts from `k`, then going on from j, is concatenating all from `k`. */
  lemma {:induction false} ConcatOfPrefix(parts: seq<string>, j: nat, k: nat, acc: string)
    requires k <= j <= |parts|
    ensures Concat(parts, k, acc) == Concat(parts, j, Concat(parts[..j], k, acc))
    decreases j - k
  {
    if k < j {
      assert parts[..j][k] == parts[k];
      ConcatOfPrefix(parts, j, k + 1, acc + parts[k]);
    }
  }

  /** The form's report: the rows' messages in list order. */
  function Report(rows: seq<ScoresRow>): string {
    Concat(Messages(rows), 0, "")
  }

  /** The report is empty exactly when every row meets the forfeit-score rule. */
  lemma ReportEmptyIffAllOk(rows: seq<ScoresRow>)
    ensures Report(rows) == "" <==> forall j :: 0 <= j < |rows| ==> ForfeitScoreOk(rows[j])
  {
    ConcatEmptyIffPartsEmpty(Messages(rows), 0, "");
    forall j | 0 <= j < |rows|
      ensures Messages(rows)[j] == "" <==> ForfeitScoreOk(rows[j])
    {
      GameErrorMeansRuleBroken(rows[j], j + 1);
    }
  }

  /**
   * Game #j+1's message sits in the report between the messages of the games before it and
   * those after it: each message names its row's 1-based position in list order.
   */
  lemma MessageOfGame(rows: seq<ScoresRow>, j: nat)
    requires j < |rows|
    ensures var parts := Messages(rows);
            Report(rows) == Concat(parts[..j], 0, "") + GameError(rows[j], j + 1) + Concat(parts, j + 1, "")
  {
    var parts := Messages(rows);
    ConcatOfPrefix(parts, j, 0, "");
    ConcatKeepsPrefix(parts, j + 1, Concat(parts[..j], 0, "") + parts[j]);
  }

  /** ScoresViewModel: the reporting form for the games of one slot of a division. */
  class ScoresViewModel {
    var organization: string
    var abbreviation: string
    var schedule: seq<ScoresRow>

    /** One form row per schedule row, in the same order. */
    constructor (games: seq<Game>, organization: string, abbreviation: string)
      ensures this.organization == organization && this.abbreviation == abbreviation
      ensures |schedule| == |games|
      ensures forall i :: 0 <= i < |games| ==> schedule[i] == RowOf(games[i])
    {
      this.organization := organization;
      this.abbreviation := abbreviation;
      this.schedule := [];
      new;
      for i := 0 to |games|
        invariant this.organization == organization && this.abbreviation == abbreviation
        invariant |schedule| == i
        invariant forall j :: 0 <= j < i ==> schedule[j] == RowOf(games[j])
      {
        schedule := schedule + [RowOf(games[i])];
      }
    }

    /** The request for ProcessScores: the four score fields and the GameID of every row, in order. */
    function ToScoresRequest(): (r: UpdateScoresRequest)
      reads this
      ensures r.organization == organization && r.abbreviation == abbreviation
      ensures |r.scores| == |schedule|
      ensures forall i :: 0 <= i < |schedule| ==>
                var row, u := schedule[i], r.scores[i];
                u.gameID == row.gameID && u.homeScore == row.homeScore && u.visitorScore == row.visitorScore
                && u.homeForfeit == row.homeForfeit && u.visitorForfeit == row.visitorForfeit
    {
      UpdateScoresRequest(organization, abbreviation,
        seq(|schedule|, i reads this requires 0 <= i < |schedule| =>
          ScoreUpdate(schedule[i].gameID, schedule[i].homeScore, schedule[i].visitorScore,
                      schedule[i].homeForfeit, schedule[i].visitorForfeit)))
    }

    /**
     * The forfeit-score check: valid exactly when every row meets the rule; the message is
     * the rows' messages in order, each naming its row's 1-based position.
     */
    method IsValid() returns (valid: bool, errorMessage: string)
      ensures valid <==> forall i :: 0 <= i < |schedule| ==> ForfeitScoreOk(schedule[i])
      ensures errorMessage == Report(schedule)
      ensures valid <==> errorMessage == ""
    {
      var gameNumber := 0;
      errorMessage := "";
      for i := 0 to |schedule|
        invariant gameNumber == i
        invariant Concat(Messages(schedule), i, errorMessage) == Report(schedule)
      {
        var game := schedule[i];
        ghost var before := errorMessage;
        gameNumber := gameNumber + 1;
        if game.homeForfeit {
          if game.visitorForfeit {
            if Differs(game.homeScore, 0) || Differs(game.visitorScore, 0) {
              errorMessage := errorMessage + (DoubleForfeitText + Decimal(gameNumber) + ". ");
            }
          } else {
            if Differs(game.homeScore, 0) || Differs(game.visitorScore, 7) {
              errorMessage := errorMessage + (ForfeitText + Decimal(gameNumber) + ". ");
            }
          }
        } else if game.visitorForfeit {
          if Differs(game.homeScore, 7) || Differs(game.visitorScore, 0) {
            errorMessage := errorMessage + (ForfeitText + Decimal(gameNumber) + ". ");
          }
        }
        assert errorMessage == before + Messages(schedule)[i];
      }
      valid := errorMessage == "";
      ReportEmptyIffAllOk(schedule);
    }
  }

  /**
   * Submitting the form unchanged restates every game's scores, so when GameIDs are unique
   * the schedule comes back exactly as it was.
   */
  lemma UnchangedFormChangesNothing(vm: ScoresViewModel, games: seq<Game>)
    requires vm.schedule == seq(|games|, i requires 0 <= i < |games| => RowOf(games[i]))
    requires forall i, j :: 0 <= i < j < |games| ==> games[i].gameID != games[j].gameID
    ensures ApplyScores(games, vm.ToScoresRequest().scores) == games
  {
    var updates := vm.ToScoresRequest().scores;
    forall i | 0 <= i < |updates|
      ensures match FirstWithGameId(games, updates[i].gameID)
              case None => true
              case Some(k) => ScoresOf(games[k]) == updates[i]
    {
      FirstMatchIsUnique(games, games[i].gameID, i);
    }
    RestatingScoresChangesNothing(games, updates);
  }
}
