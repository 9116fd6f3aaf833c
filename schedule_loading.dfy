/**
 * The schedule upload of the division service: ProcessScheduleFile, split into its team
 * section, its game loop and the per-line work the loop does, and LoadScheduleFile, which
 * stores the result in the division. The schedule-file functions are their specification.
 */
module ScheduleLoading {
  import opened Wrappers
  import opened Text
  import opened Models
  import opened ScheduleFile

  /**
   * One pass of ProcessScheduleFile's game loop: the rows one line adds (a week boundary,
   * one game, or a game and its swapped double-header twin) or the exception it raises, and
   * the game date the line carries. It follows ScheduleFile.LineRows step by step; the
   * properties of a line are proved about LineRows.
   */
  method ParseGameLine(line: string, ctx: FileContext, gameID: int)
    returns (rows: Result<seq<Game>, Cause>, gameDate: Option<Ticks>)
    ensures rows == LineRows(line, ctx, gameID)
    ensures rows.Success? ==> gameDate == LineDate(line, ctx.runtime)
  {
    var data := Split(line, ',');
    var teams := ctx.teams;
    if StartsWith(Lower(data[0]), "week") {
      return Success([AddWeekBoundary(data[0], gameID, ctx.organization, ctx.abbreviation)]), None;
    }
    gameDate := ctx.runtime.dateTime(data[0]);
    if gameDate.None? {
      return Failure(BadDate(data[0])), None;
    }
    if |data| <= 2 {
      return Failure(MissingField(2)), None;
    }
    var gameTime := ctx.runtime.dateTime(data[2]);
    if gameTime.None? {
      return Failure(BadDate(data[2])), None;
    }
    if |data| <= 3 {
      return Failure(MissingField(3)), None;
    }
    var homeTeamID := ctx.runtime.int16(data[3]);
    if homeTeamID.None? {
      return Failure(BadNumber(data[3])), None;
    }
    if |data| <= 4 {
      return Failure(MissingField(4)), None;
    }
    var visitorTeamID := ctx.runtime.int16(data[4]);
    if visitorTeamID.None? {
      return Failure(BadNumber(data[4])), None;
    }
    if |data| <= 5 {
      return Failure(MissingField(5)), None;
    }
    var field := data[5];
    var home, visitor := homeTeamID.value, visitorTeamID.value;
    if !(1 <= home <= |teams|) {
      return Failure(UnknownTeam(home)), None;
    }
    if !(1 <= visitor <= |teams|) {
      return Failure(UnknownTeam(visitor)), None;
    }
    var scheduleRow := BlankGame.(organization := ctx.organization, abbreviation := ctx.abbreviation,
                                  gameID := gameID, day := gameDate, field := field,
                                  home := teams[home - 1], homeForfeit := false, homeID := home,
                                  time := gameTime, visitor := teams[visitor - 1],
                                  visitorForfeit := false, visitorID := visitor);
    var added := [scheduleRow];
    if ctx.usesDoubleHeaders {
      var later := AddMinutes(gameTime.value, 90);
      if later.None? {
        return Failure(TimeOverflow), None;
      }
      scheduleRow := BlankGame.(organization := ctx.organization, abbreviation := ctx.abbreviation,
                                gameID := gameID + 1, day := gameDate, field := field,
                                home := teams[visitor - 1], homeForfeit := false, homeID := visitor,
                                time := later, visitor := teams[home - 1],
                                visitorForfeit := false, visitorID := home);
      added := added + [scheduleRow];
      assert added == [added[0], scheduleRow];
      assert AddMinutes(gameTime.value, 90) == Some(later.value);
    }
    var f := GameFields(gameDate.value, gameTime.value, home, visitor, field);
    assert ReadFields(data, ctx.runtime) == Success(f);
    rows := Success(added);
  }

  /**
   * The team section of ProcessScheduleFile: from line 4, one team per line up to the first
   * empty line, each with its TeamID (1, 2, ...) and zeroed tallies. Running off the end of the
   * file is the exception the source raises at that line number.
   */
  method ReadTeams(lines: seq<string>, organization: string, abbreviation: string)
    returns (found: bool, lineNumber: nat, teams: seq<string>, standings: seq<Standing>)
    ensures found <==> SeparatorFrom(lines, 4).Some?
    ensures found ==> lineNumber == SeparatorFrom(lines, 4).value && teams == TeamNames(lines, lineNumber)
                      && standings == SeedStandings(teams, organization, abbreviation)
    ensures !found ==> lineNumber == if |lines| < 4 then 4 else |lines|
  {
    teams, standings := [], [];
    var teamID := 1;
    lineNumber := 4;
    while !(lineNumber < |lines| && |lines[lineNumber]| == 0)
      invariant 4 <= lineNumber && (lineNumber == 4 || lineNumber <= |lines|)
      invariant forall j :: 4 <= j < lineNumber ==> j < |lines| && |lines[j]| > 0
      invariant |teams| == lineNumber - 4 && teamID == |teams| + 1
      invariant forall j :: 0 <= j < |teams| ==> teams[j] == Trim(lines[4 + j])
      invariant |standings| == |teams|
      invariant forall j :: 0 <= j < |standings| ==> standings[j] == NewStanding(organization, abbreviation, j + 1, teams[j])
      decreases |lines| - lineNumber
    {
      if lineNumber >= |lines| {
        assert SeparatorFrom(lines, 4).None?;
        return false, lineNumber, teams, standings;
      }
      teams := teams + [Trim(lines[lineNumber])];
      standings := standings + [NewStanding(organization, abbreviation, teamID, Trim(lines[lineNumber]))];
      teamID := teamID + 1;
      lineNumber := lineNumber + 1;
    }
    assert SeparatorFrom(lines, 4) == Some(lineNumber);
    assert teams == TeamNames(lines, lineNumber);
    assert standings == SeedStandings(teams, organization, abbreviation);
    found := true;
  }

  /**
   * The bookkeeping at the end of a game line: the second line after the separator gives
   * firstGameDate, else the file's last line gives lastGameDate; week lines give neither.
   */
  method ReadGameLine(lines: seq<string>, sep: nat, index: nat, ctx: FileContext, gameID: int,
                      firstGameDate: Ticks, lastGameDate: Ticks)
    returns (rows: Result<seq<Game>, Cause>, first: Ticks, last: Ticks)
    requires sep + 1 <= index < |lines|
    requires firstGameDate == if index > sep + 2 then FirstGameDate(lines, sep, ctx.runtime) else MinValue
    requires lastGameDate == MinValue
    ensures rows == LineRows(lines[index], ctx, gameID)
    ensures rows.Success? ==> first == if index + 1 > sep + 2 then FirstGameDate(lines, sep, ctx.runtime) else MinValue
    ensures rows.Success? ==> last == if index + 1 == |lines| then LastGameDate(lines, sep, ctx.runtime) else MinValue
  {
    var gameDate;
    rows, gameDate := ParseGameLine(lines[index], ctx, gameID);
    first, last := firstGameDate, lastGameDate;
    if rows.Success? && gameDate.Some? {
      if index == sep + 2 {
        first := gameDate.value;
      } else if index == |lines| - 1 {
        last := gameDate.value;
      }
    }
  }

  /**
   * The game section of ProcessScheduleFile: every line after the separator in order, with the
   * first and last game dates picked up on the way.
   */
  method ReadGames(lines: seq<string>, sep: nat, ctx: FileContext)
    returns (schedule: Result<seq<Game>, Cause>, firstGameDate: Ticks, lastGameDate: Ticks)
    requires sep < |lines|
    ensures schedule == GameLines(lines, sep + 1, ctx, [])
    ensures schedule.Success? ==> firstGameDate == FirstGameDate(lines, sep, ctx.runtime)
                                  && lastGameDate == LastGameDate(lines, sep, ctx.runtime)
  {
    firstGameDate, lastGameDate := MinValue, MinValue;
    var games: seq<Game> := [];
    var gameID := 0;
    var index := sep + 1;
    while index < |lines|
      invariant sep + 1 <= index <= |lines| && gameID == |games|
      invariant GameLines(lines, index, ctx, games) == GameLines(lines, sep + 1, ctx, [])
      invariant firstGameDate == if index > sep + 2 then FirstGameDate(lines, sep, ctx.runtime) else MinValue
      invariant lastGameDate == if index == |lines| then LastGameDate(lines, sep, ctx.runtime) else MinValue
    {
      var rows;
      rows, firstGameDate, lastGameDate := ReadGameLine(lines, sep, index, ctx, gameID, firstGameDate, lastGameDate);
      if rows.Failure? {
        return rows, firstGameDate, lastGameDate;
      }
      games := games + rows.value;
      gameID := gameID + |rows.value|;
      index := index + 1;
    }
    schedule := Success(games);
  }

  /**
   * ProcessScheduleFile on the lines of the file. On failure the message names the line number
   * the source had reached; the partial out lists are left unspecified.
   */
  method ProcessScheduleFile(lines: seq<string>, usesDoubleHeaders: bool, organization: string,
                             abbreviation: string, rt: Runtime)
    returns (ok: bool, standings: seq<Standing>, schedule: seq<Game>,
             firstGameDate: Ticks, lastGameDate: Ticks, errorMessage: string)
    ensures var r := ParseScheduleFile(lines, usesDoubleHeaders, organization, abbreviation, rt);
            && (ok <==> r.Success?)
            && (ok ==> standings == r.value.standings && schedule == r.value.schedule
                       && firstGameDate == r.value.firstGameDate && lastGameDate == r.value.lastGameDate
                       && errorMessage == "")
            && (!ok ==> errorMessage == FailureMessage(r.error, rt))
  {
    schedule := [];
    var found, lineNumber, teams;
    found, lineNumber, teams, standings := ReadTeams(lines, organization, abbreviation);
    if !found {
      ok, errorMessage := false, FailureMessage(ParseFailure(lineNumber, NoSeparator), rt);
      firstGameDate, lastGameDate := MinValue, MinValue;
      return;
    }
    var ctx := FileContext(teams, usesDoubleHeaders, organization, abbreviation, rt);
    var games;
    games, firstGameDate, lastGameDate := ReadGames(lines, lineNumber, ctx);
    if games.Failure? {
      ok, errorMessage := false, FailureMessage(ParseFailure(lineNumber, games.error), rt);
      return;
    }
    ok, schedule, errorMessage := true, games.value, "";
  }

  /**
   * LoadScheduleFile for a division that exists: the request's organization and abbreviation
   * found it (the lookup ignores case) and are the strings every new row is stamped with. On
   * success its schedule and standings are replaced and Updated is set to `now`; on failure
   * the division is untouched and the error message comes back.
   */
  method LoadScheduleFile(division: Division, organization: string, abbreviation: string,
                          lines: seq<string>, usesDoubleHeaders: bool, rt: Runtime, now: Ticks)
    returns (r: Result<FirstAndLastGameDates, string>)
    requires Lower(organization) == Lower(division.organization)
    requires Lower(abbreviation) == Lower(division.abbreviation)
    modifies division`schedule, division`standings, division`updated
    ensures match ParseScheduleFile(lines, usesDoubleHeaders, organization, abbreviation, rt)
            case Success(v) =>
              && r == Success(FirstAndLastGameDates(v.firstGameDate, v.lastGameDate))
              && division.schedule == v.schedule && division.standings == v.standings
              && division.updated == now
            case Failure(f) =>
              && r == Failure(FailureMessage(f, rt))
              && unchanged(division)
  {
    var ok, standings, schedule, firstGameDate, lastGameDate, errorMessage :=
      ProcessScheduleFile(lines, usesDoubleHeaders, organization, abbreviation, rt);
    if ok {
      division.schedule := schedule;
      division.standings := standings;
      division.updated := now;
      r := Success(FirstAndLastGameDates(firstGameDate, lastGameDate));
    } else {
      r := Failure(errorMessage);
    }
  }
}
