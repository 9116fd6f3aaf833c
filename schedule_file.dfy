/**
 * The schedule file as ProcessScheduleFile reads it: four heading lines, one team name per
 * line up to the first empty line, then one CSV line `Date,Day,Time,Home,Visitor,Field` per
 * game or a "week..." marker line. These functions say what a successful parse yields and
 * which line number a failure reports; the service method is proved against them.
 */
module ScheduleFile {
  import opened Wrappers
  import opened Text
  import opened Models

  /**
   * What the parser takes from the .NET runtime and which is not modelled: DateTime.Parse and
   * short.Parse, which depend on the culture (None where they would throw), and the text of
   * the exception a failure raises.
   */
  datatype Runtime = Runtime(dateTime: string -> Option<Ticks>, int16: string -> Option<int>,
                             message: Cause -> string)

  /** Why a line could not be processed: the exception the source would catch. */
  datatype Cause =
    | NoSeparator          // lines[lineNumber] past the end while reading team names
    | MissingField(k: nat) // data[k] past the end of the split line
    | BadDate(text: string)
    | BadNumber(text: string)
    | UnknownTeam(id: int) // teams[id - 1] outside the team list
    | TimeOverflow         // gameTime.AddMinutes(90) past DateTime.MaxValue

  /** A failed parse: the value of `lineNumber` when the exception was caught, and why. */
  datatype ParseFailure = ParseFailure(lineNumber: nat, cause: Cause)

  /** The message ProcessScheduleFile hands back: "Line number: " + lineNumber + " " + ex.Message. */
  function FailureMessage(f: ParseFailure, rt: Runtime): string {
    "Line number: " + Decimal(f.lineNumber) + " " + rt.message(f.cause)
  }

  /** What a successful parse yields: the out parameters of ProcessScheduleFile. */
  datatype Parsed = Parsed(standings: seq<Standing>, schedule: seq<Game>, firstGameDate: Ticks, lastGameDate: Ticks)

  /** What LoadScheduleFile hands back on success, so the dates can be checked by eye. */
  datatype FirstAndLastGameDates = FirstAndLastGameDates(firstGameDate: Ticks, lastGameDate: Ticks)

  /** What stays fixed while the game lines are read. */
  datatype FileContext = FileContext(teams: seq<string>, usesDoubleHeaders: bool,
                                     organization: string, abbreviation: string, runtime: Runtime)

  // ---------------------------------------------------------------- team section

  /** The first empty line at or after `k`: where the team names end. */
  function SeparatorFrom(lines: seq<string>, k: nat): (r: Option<nat>)
    ensures r.Some? ==> k <= r.value < |lines| && |lines[r.value]| == 0
    ensures r.Some? ==> forall j :: k <= j < r.value ==> |lines[j]| > 0
    ensures r.None? ==> forall j :: k <= j < |lines| ==> |lines[j]| > 0
    decreases |lines| - k
  {
    if k >= |lines| then None
    else if |lines[k]| == 0 then Some(k)
    else SeparatorFrom(lines, k + 1)
  }

  /** The trimmed team names on lines 4 up to the separator. */
  function TeamNames(lines: seq<string>, sep: nat): (names: seq<string>)
    requires 4 <= sep <= |lines|
    ensures |names| == sep - 4
  {
    seq(sep - 4, i requires 0 <= i < sep - 4 => Trim(lines[4 + i]))
  }

  /** The new Standings row for the team with this TeamID: every tally, GB and Percentage zero. */
  function NewStanding(organization: string, abbreviation: string, teamID: int, name: string): Standing {
    Standing(organization, abbreviation, teamID, name, 0, 0, 0, 0, 0.0, 0.0, 0, 0, 0, 0)
  }

  /** One new row per team name, TeamIDs 1, 2, ... in file order. */
  function SeedStandings(names: seq<string>, organization: string, abbreviation: string): (r: seq<Standing>)
    ensures |r| == |names|
  {
    seq(|names|, i requires 0 <= i < |names| => NewStanding(organization, abbreviation, i + 1, names[i]))
  }

  // ---------------------------------------------------------------- game section

  /** AddWeekBoundary: a row holding only its key, its GameID and the marker text as Visitor. */
  function AddWeekBoundary(week: string, gameID: int, organization: string, abbreviation: string): Game {
    BlankGame.(organization := organization, abbreviation := abbreviation, gameID := gameID,
               homeForfeit := false, visitor := week, visitorForfeit := false)
  }

  /** The parser's test for a week line: the first field, lower-cased, starts with "week". */
  predicate IsWeekLine(data: seq<string>)
    requires |data| >= 1
  {
    StartsWith(Lower(data[0]), "week")
  }

  /** The fields of a game line, once parsed. */
  datatype GameFields = GameFields(day: Ticks, time: Ticks, homeID: int, visitorID: int, field: string)

  /** The fields of a game line, read in the source's order; the first failure wins. */
  function ReadFields(data: seq<string>, rt: Runtime): Result<GameFields, Cause>
    requires |data| >= 1
  {
    match rt.dateTime(data[0])
    case None => Failure(BadDate(data[0]))
    case Some(day) =>
      if |data| <= 2 then Failure(MissingField(2))
      else
        match rt.dateTime(data[2])
        case None => Failure(BadDate(data[2]))
        case Some(time) =>
          if |data| <= 3 then Failure(MissingField(3))
          else
            match rt.int16(data[3])
            case None => Failure(BadNumber(data[3]))
            case Some(home) =>
              if |data| <= 4 then Failure(MissingField(4))
              else
                match rt.int16(data[4])
                case None => Failure(BadNumber(data[4]))
                case Some(visitor) =>
                  if |data| <= 5 then Failure(MissingField(5))
                  else Success(GameFields(day, time, home, visitor, data[5]))
  }

  /**
   * The rows of one game line: the game itself, and with double-headers a second game 90
   * minutes later with home and visitor swapped; the GameIDs count on from `gameID`.
   */
  function GameRows(f: GameFields, ctx: FileContext, gameID: int): Result<seq<Game>, Cause> {
    var teams := ctx.teams;
    if !(1 <= f.homeID <= |teams|) then Failure(UnknownTeam(f.homeID))
    else if !(1 <= f.visitorID <= |teams|) then Failure(UnknownTeam(f.visitorID))
    else
      var first := BlankGame.(organization := ctx.organization, abbreviation := ctx.abbreviation,
                              gameID := gameID, day := Some(f.day), field := f.field,
                              home := teams[f.homeID - 1], homeForfeit := false, homeID := f.homeID,
                              time := Some(f.time), visitor := teams[f.visitorID - 1],
                              visitorForfeit := false, visitorID := f.visitorID);
      if !ctx.usesDoubleHeaders then Success([first])
      else
        match AddMinutes(f.time, 90)
        case None => Failure(TimeOverflow)
        case Some(later) =>
          var second := BlankGame.(organization := ctx.organization, abbreviation := ctx.abbreviation,
                                   gameID := gameID + 1, day := Some(f.day), field := f.field,
                                   home := teams[f.visitorID - 1], homeForfeit := false, homeID := f.visitorID,
                                   time := Some(later), visitor := teams[f.homeID - 1],
                                   visitorForfeit := false, visitorID := f.homeID);
          Success([first, second])
  }

  /** The rows one line after the separator contributes, numbered from `gameID`. */
  function LineRows(line: string, ctx: FileContext, gameID: int): Result<seq<Game>, Cause> {
    var data := Split(line, ',');
    if IsWeekLine(data) then Success([AddWeekBoundary(data[0], gameID, ctx.organization, ctx.abbreviation)])
    else
      match ReadFields(data, ctx.runtime)
      case Failure(c) => Failure(c)
      case Success(f) => GameRows(f, ctx, gameID)
  }

  /**
   * The loop over the game lines from line `k` on, `acc` holding the rows added so far (so the
   * next GameID is |acc|): every line's rows appended in order, or the first failing line's cause.
   */
  function GameLines(lines: seq<string>, k: nat, ctx: FileContext, acc: seq<Game>): Result<seq<Game>, Cause>
    decreases |lines| - k
  {
    if k >= |lines| then Success(acc)
    else
      match LineRows(lines[k], ctx, |acc|)
      case Failure(c) => Failure(c)
      case Success(rows) => GameLines(lines, k + 1, ctx, acc + rows)
  }

  /** The date of an ordinary game line; None for a week line. */
  function LineDate(line: string, rt: Runtime): Option<Ticks> {
    var data := Split(line, ',');
    if IsWeekLine(data) then None else rt.dateTime(data[0])
  }

  /** firstGameDate: the date on the second line after the separator, if that is a game line. */
  function FirstGameDate(lines: seq<string>, sep: nat, rt: Runtime): Ticks {
    if sep + 2 < |lines| then LineDate(lines[sep + 2], rt).GetOr(MinValue) else MinValue
  }

  /**
   * lastGameDate: the date on the file's last line, if that is a game line after the
   * separator other than the one firstGameDate is taken from (the source tests it with else-if).
   */
  function LastGameDate(lines: seq<string>, sep: nat, rt: Runtime): Ticks {
    var last := |lines| - 1;
    if sep + 1 <= last && last != sep + 2 then LineDate(lines[last], rt).GetOr(MinValue) else MinValue
  }

  /** ProcessScheduleFile on the lines of a file. */
  function ParseScheduleFile(lines: seq<string>, usesDoubleHeaders: bool, organization: string,
                             abbreviation: string, rt: Runtime): Result<Parsed, ParseFailure>
  {
    match SeparatorFrom(lines, 4)
    case None => Failure(ParseFailure(if |lines| < 4 then 4 else |lines|, NoSeparator))
    case Some(sep) =>
      var names := TeamNames(lines, sep);
      var ctx := FileContext(names, usesDoubleHeaders, organization, abbreviation, rt);
      match GameLines(lines, sep + 1, ctx, [])
      case Failure(c) => Failure(ParseFailure(sep, c))
      case Success(schedule) =>
        Success(Parsed(SeedStandings(names, organization, abbreviation), schedule,
                       FirstGameDate(lines, sep, rt), LastGameDate(lines, sep, rt)))
  }
}
