/**
 * The persisted entities of a division: one Standings row per team, one Schedule row per game
 * or week boundary, and the Division that owns both lists.
 */
module Models {
  import opened Wrappers
  import opened Text

  /** DateTime.MaxValue.Ticks: 23:59:59.9999999 on 31 December 9999, in 100 ns ticks. */
  const MaxTicks: int := 3155378975999999999
  const TicksPerMinute: int := 600000000

  /** A DateTime, as its tick count. */
  type Ticks = t: int | 0 <= t <= MaxTicks

  /** DateTime.MinValue. */
  const MinValue: Ticks := 0

  /** DateTime.AddMinutes for whole minutes: None where the result would pass MaxValue. */
  function AddMinutes(t: Ticks, minutes: nat): (r: Option<Ticks>)
    ensures r.Some? <==> t + minutes * TicksPerMinute <= MaxTicks
    ensures r.Some? ==> r.value - t == minutes * TicksPerMinute
  {
    var u := t + minutes * TicksPerMinute;
    if u <= MaxTicks then Some(u) else None
  }

  /** One team's cumulative record (tallies are counts; the two derived values are reals). */
  datatype Standing = Standing(
    organization: string,
    abbreviation: string,
    teamID: int,
    name: string,
    wins: nat,
    losses: nat,
    ties: nat,
    overtimeLosses: nat,
    percentage: real,
    gb: real,
    runsScored: int,
    runsAgainst: int,
    forfeits: nat,
    forfeitsCharged: nat)

  /** One schedule row: a game, or a week-boundary marker. Scores are None until reported. */
  datatype Game = Game(
    organization: string,
    abbreviation: string,
    gameID: int,
    home: string,
    visitor: string,
    day: Option<Ticks>,
    time: Option<Ticks>,
    field: string,
    homeID: int,
    visitorID: int,
    homeScore: Option<int>,
    visitorScore: Option<int>,
    homeForfeit: bool,
    visitorForfeit: bool,
    overtimeGame: bool,
    makeupDay: Option<Ticks>,
    makeupTime: Option<Ticks>,
    makeupField: Option<string>)

  /** A Schedule row with every property at its default value, as `new Schedule { }` gives. */
  const BlankGame: Game := Game("", "", 0, "", "", None, None, "", 0, 0, None, None,
                                false, false, false, None, None, None)

  /** One reported result: the four score fields of the game with this GameID. */
  datatype ScoreUpdate = ScoreUpdate(
    gameID: int,
    homeScore: Option<int>,
    visitorScore: Option<int>,
    homeForfeit: bool,
    visitorForfeit: bool)

  /** A request to record results in one division. */
  datatype UpdateScoresRequest = UpdateScoresRequest(
    organization: string,
    abbreviation: string,
    scores: seq<ScoreUpdate>)

  /** The recalculator's test for a week-boundary row: Visitor, upper-cased, starts with "WEEK". */
  predicate IsWeekBoundary(g: Game) {
    StartsWith(Upper(g.visitor), "WEEK")
  }

  /**
   * A division: its key, the time of its last change, and the two lists it owns.
   * The lists are reassigned by the service operations; the rows are values.
   */
  class Division {
    var organization: string
    var abbreviation: string
    var updated: Ticks
    var standings: seq<Standing>
    var schedule: seq<Game>
  }
}
