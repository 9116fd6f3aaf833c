/**
 * What a schedule file turns into: the standings seeded from the team lines, the rows of the
 * game lines with GameIDs 0, 1, 2, ..., double-header twins, the line number a bad file
 * reports, and the fact that a freshly loaded division is ready for (and unchanged by) a
 * recalculation.
 */
module ScheduleFileProperties {
  import opened Wrappers
  import opened Text
  import opened Models
  import opened Recalculation
  import opened ScheduleFile

  // ---------------------------------------------------------------- one line

  /** A row as the parser creates it: in the division, with no result recorded yet. */
  predicate Unplayed(g: Game, ctx: FileContext) {
    && g.organization == ctx.organization && g.abbreviation == ctx.abbreviation
    && g.homeScore.None? && g.visitorScore.None? && !g.homeForfeit && !g.visitorForfeit
  }

  /**
   * A week row as AddWeekBoundary makes it: no Day, a marker the recalculator skips, team IDs
   * 0, no Home and an empty Field. Only week lines make rows without a Day.
   */
  predicate WeekRow(g: Game) {
    g.day.None? && IsWeekBoundary(g) && g.homeID == 0 && g.visitorID == 0 && g.home == "" && g.field == ""
  }

  /**
   * A row's origin is told by its Day: a row without one is a week row; a game row (with a
   * Day) names as Home and Visitor the teams its IDs address, whatever the names are.
   */
  predicate TeamsResolved(g: Game, teams: seq<string>) {
    if g.day.None? then WeekRow(g)
    else && 1 <= g.homeID <= |teams| && 1 <= g.visitorID <= |teams|
         && g.home == teams[g.homeID - 1] && g.visitor == teams[g.visitorID - 1]
  }

  /** How many rows a line adds: two for a game line with double-headers, else one. */
  function LineWidth(line: string, ctx: FileContext): nat {
    if IsWeekLine(Split(line, ',')) || !ctx.usesDoubleHeaders then 1 else 2
  }

  /**
   * A week line becomes one week-boundary row carrying the marker text as Visitor, with no
   * Home, both team IDs 0, no Day, no Time and an empty Field; the recalculator's upper-case
   * test recognises it.
   */
  lemma WeekLineGivesBoundary(line: string, ctx: FileContext, gameID: int)
    requires IsWeekLine(Split(line, ','))
    ensures LineRows(line, ctx, gameID).Success?
    ensures var rows := LineRows(line, ctx, gameID).value;
            && |rows| == 1 && IsWeekBoundary(rows[0]) && rows[0].visitor == Split(line, ',')[0]
            && rows[0].gameID == gameID && Unplayed(rows[0], ctx)
            && rows[0].home == "" && rows[0].homeID == 0 && rows[0].visitorID == 0
            && rows[0].day.None? && rows[0].time.None? && rows[0].field == ""
  {
    WeekPrefixTestsAgree(Split(line, ',')[0]);
  }

  /** Every row a line adds is unplayed, names its teams, and is numbered on from `gameID`. */
  lemma LineRowsShape(line: string, ctx: FileContext, gameID: int)
    requires LineRows(line, ctx, gameID).Success?
    ensures var rows := LineRows(line, ctx, gameID).value;
            && |rows| == LineWidth(line, ctx)
            && forall j :: 0 <= j < |rows| ==>
                 rows[j].gameID == gameID + j && Unplayed(rows[j], ctx) && TeamsResolved(rows[j], ctx.teams)
  {
    var data := Split(line, ',');
    if IsWeekLine(data) {
      WeekLineGivesBoundary(line, ctx, gameID);
    }
  }

  /**
   * With double-headers a game line adds the game and its twin: the next GameID, the teams
   * swapped, 90 minutes later on the same day and field. Without them it adds the game alone.
   */
  lemma DoubleHeaderTwin(line: string, ctx: FileContext, gameID: int)
    requires LineRows(line, ctx, gameID).Success? && !IsWeekLine(Split(line, ','))
    ensures var rows := LineRows(line, ctx, gameID).value;
            && rows[0].day.Some? && rows[0].time.Some?
            && (!ctx.usesDoubleHeaders ==> |rows| == 1)
            && (ctx.usesDoubleHeaders ==>
                  && |rows| == 2
                  && AddMinutes(rows[0].time.value, 90).Some?
                  && rows[1] == rows[0].(gameID := gameID + 1, home := rows[0].visitor, homeID := rows[0].visitorID,
                                         visitor := rows[0].home, visitorID := rows[0].homeID,
                                         time := AddMinutes(rows[0].time.value, 90)))
  {
  }

  /** Whether a line fails, and why, does not depend on the GameID it would be numbered from. */
  lemma LineFailureIgnoresGameID(line: string, ctx: FileContext, a: int, b: int)
    requires LineRows(line, ctx, a).Failure?
    ensures LineRows(line, ctx, b) == LineRows(line, ctx, a)
  {
  }

  /** A non-week line with fewer than the six fields Date,Day,Time,Home,Visitor,Field fails. */
  lemma ShortLineFails(line: string, ctx: FileContext, gameID: int)
    requires !IsWeekLine(Split(line, ',')) && |Split(line, ',')| < 6
    ensures LineRows(line, ctx, gameID).Failure?
  {
  }

  /** An empty line among the games fails, since DateTime.Parse("") throws. */
  lemma BlankLineFails(ctx: FileContext, gameID: int)
    requires ctx.runtime.dateTime("") == None
    ensures LineRows("", ctx, gameID) == Failure(BadDate(""))
  {
    assert Split("", ',') == [""];
  }

  // ---------------------------------------------------------------- all game lines

  /** Row i carries GameID i: the IDs run 0, 1, 2, ... down the schedule. */
  predicate NumberedInOrder(rows: seq<Game>) {
    forall i :: 0 <= i < |rows| ==> rows[i].gameID == i
  }

  /** Every row is unplayed and names the teams its IDs address (or is a week boundary). */
  predicate FreshRows(rows: seq<Game>, ctx: FileContext) {
    forall i :: 0 <= i < |rows| ==> Unplayed(rows[i], ctx) && TeamsResolved(rows[i], ctx.teams)
  }

  /** The number of rows the lines from `k` on add. */
  function Width(lines: seq<string>, k: nat, ctx: FileContext): nat
    decreases |lines| - k
  {
    if k >= |lines| then 0 else LineWidth(lines[k], ctx) + Width(lines, k + 1, ctx)
  }

  /** The rows collected from line `k` on extend the ones before, keep their shape, and add Width rows. */
  lemma {:induction false} GameLinesShape(lines: seq<string>, k: nat, ctx: FileContext, acc: seq<Game>)
    requires NumberedInOrder(acc) && FreshRows(acc, ctx)
    requires GameLines(lines, k, ctx, acc).Success?
    ensures var r := GameLines(lines, k, ctx, acc).value;
            && |r| == |acc| + Width(lines, k, ctx) && r[..|acc|] == acc
            && NumberedInOrder(r) && FreshRows(r, ctx)
    decreases |lines| - k
  {
    if k < |lines| {
      var rows := LineRows(lines[k], ctx, |acc|).value;
      LineRowsShape(lines[k], ctx, |acc|);
      var next := acc + rows;
      assert forall i :: |acc| <= i < |next| ==> next[i] == rows[i - |acc|];
      GameLinesShape(lines, k + 1, ctx, next);
      var r := GameLines(lines, k + 1, ctx, next).value;
      assert r[..|acc|] == r[..|next|][..|acc|] == next[..|acc|];
    }
  }

  /** Without double-headers every line after the separator adds exactly one row. */
  lemma {:induction false} OneRowPerLine(lines: seq<string>, k: nat, ctx: FileContext)
    requires !ctx.usesDoubleHeaders
    ensures Width(lines, k, ctx) == if k >= |lines| then 0 else |lines| - k
    decreases |lines| - k
  {
    if k < |lines| {
      OneRowPerLine(lines, k + 1, ctx);
    }
  }

  /**
   * The upload stops at the first line that does not parse and reports that line's cause.
   */
  lemma {:induction false} FirstBadLineFails(lines: seq<string>, k: nat, ctx: FileContext, acc: seq<Game>, j: nat)
    requires k <= j < |lines| && LineRows(lines[j], ctx, 0).Failure?
    requires forall i :: k <= i < j ==> LineRows(lines[i], ctx, 0).Success?
    ensures GameLines(lines, k, ctx, acc) == Failure(LineRows(lines[j], ctx, 0).error)
    decreases j - k
  {
    if k == j {
      LineFailureIgnoresGameID(lines[k], ctx, 0, |acc|);
    } else {
      if LineRows(lines[k], ctx, |acc|).Failure? {
        LineFailureIgnoresGameID(lines[k], ctx, |acc|, 0);
        assert false;
      }
      FirstBadLineFails(lines, k + 1, ctx, acc + LineRows(lines[k], ctx, |acc|).value, j);
    }
  }

  /** When every line from `k` on parses, so do the lines together. */
  lemma {:induction false} GoodLinesSucceed(lines: seq<string>, k: nat, ctx: FileContext, acc: seq<Game>)
    requires forall i :: k <= i < |lines| ==> LineRows(lines[i], ctx, 0).Success?
    ensures GameLines(lines, k, ctx, acc).Success?
    decreases |lines| - k
  {
    if k < |lines| {
      if LineRows(lines[k], ctx, |acc|).Failure? {
        LineFailureIgnoresGameID(lines[k], ctx, |acc|, 0);
        assert false;
      }
      GoodLinesSucceed(lines, k + 1, ctx, acc + LineRows(lines[k], ctx, |acc|).value);
    }
  }

  // ---------------------------------------------------------------- the whole file

  /**
   * A file that parses has a separator; its standings are the trimmed team lines in file
   * order with TeamIDs 1, 2, 3, ..., every tally zero, in the uploading division.
   */
  lemma ParsedTeams(lines: seq<string>, usesDoubleHeaders: bool, organization: string, abbreviation: string, rt: Runtime)
    requires ParseScheduleFile(lines, usesDoubleHeaders, organization, abbreviation, rt).Success?
    ensures SeparatorFrom(lines, 4).Some?
    ensures var standings := ParseScheduleFile(lines, usesDoubleHeaders, organization, abbreviation, rt).value.standings;
            && |standings| == SeparatorFrom(lines, 4).value - 4
            && PositionalTeamIDs(standings)
            && forall i :: 0 <= i < |standings| ==>
                 && standings[i].name == Trim(lines[4 + i])
                 && standings[i].organization == organization && standings[i].abbreviation == abbreviation
                 && Zeroed(standings[i]) == standings[i]
  {
  }

  /**
   * A row of a freshly loaded schedule: unplayed, in the uploading division, and either a week
   * row (no Day) or a game row naming as Home and Visitor the teams its HomeID and VisitorID give.
   */
  predicate LoadedRow(g: Game, organization: string, abbreviation: string, standings: seq<Standing>) {
    && g.organization == organization && g.abbreviation == abbreviation
    && g.homeScore.None? && g.visitorScore.None? && !g.homeForfeit && !g.visitorForfeit
    && if g.day.None? then WeekRow(g)
       else && 1 <= g.homeID <= |standings| && 1 <= g.visitorID <= |standings|
            && g.home == standings[g.homeID - 1].name && g.visitor == standings[g.visitorID - 1].name
  }

  /** The schedule of a file that parses: GameIDs 0, 1, 2, ... in row order, every row a LoadedRow. */
  lemma ParsedSchedule(lines: seq<string>, usesDoubleHeaders: bool, organization: string, abbreviation: string, rt: Runtime)
    requires ParseScheduleFile(lines, usesDoubleHeaders, organization, abbreviation, rt).Success?
    ensures var p := ParseScheduleFile(lines, usesDoubleHeaders, organization, abbreviation, rt).value;
            && NumberedInOrder(p.schedule)
            && forall i :: 0 <= i < |p.schedule| ==> LoadedRow(p.schedule[i], organization, abbreviation, p.standings)
  {
    var p := ParseScheduleFile(lines, usesDoubleHeaders, organization, abbreviation, rt).value;
    var sep := SeparatorFrom(lines, 4).value;
    var names := TeamNames(lines, sep);
    var ctx := FileContext(names, usesDoubleHeaders, organization, abbreviation, rt);
    GameLinesShape(lines, sep + 1, ctx, []);
    assert p.schedule == GameLines(lines, sep + 1, ctx, []).value;
    assert p.standings == SeedStandings(names, organization, abbreviation);
    SeededRows(p.schedule, ctx);
  }

  /**
   * In a parsed schedule the rows without a Day and with an empty Field are exactly the week
   * rows, which are the rows a week-boundary request brings up.
   */
  lemma ParsedWeekRows(lines: seq<string>, usesDoubleHeaders: bool, organization: string, abbreviation: string, rt: Runtime)
    requires ParseScheduleFile(lines, usesDoubleHeaders, organization, abbreviation, rt).Success?
    ensures var p := ParseScheduleFile(lines, usesDoubleHeaders, organization, abbreviation, rt).value;
            forall i :: 0 <= i < |p.schedule| ==>
              (p.schedule[i].day.None? && p.schedule[i].field == "" <==> WeekRow(p.schedule[i]))
  {
    ParsedSchedule(lines, usesDoubleHeaders, organization, abbreviation, rt);
  }

  /** Fresh rows resolved against the team names are LoadedRows of the standings seeded from them. */
  lemma SeededRows(rows: seq<Game>, ctx: FileContext)
    requires FreshRows(rows, ctx)
    ensures var standings := SeedStandings(ctx.teams, ctx.organization, ctx.abbreviation);
            forall i :: 0 <= i < |rows| ==> LoadedRow(rows[i], ctx.organization, ctx.abbreviation, standings)
  {
    var standings := SeedStandings(ctx.teams, ctx.organization, ctx.abbreviation);
    forall i | 0 <= i < |rows|
      ensures LoadedRow(rows[i], ctx.organization, ctx.abbreviation, standings)
    {
      var g := rows[i];
      assert Unplayed(g, ctx) && TeamsResolved(g, ctx.teams);
    }
  }

  /** Without double-headers the schedule has one row per line after the separator. */
  lemma ParsedRowCount(lines: seq<string>, organization: string, abbreviation: string, rt: Runtime)
    requires ParseScheduleFile(lines, false, organization, abbreviation, rt).Success?
    ensures |ParseScheduleFile(lines, false, organization, abbreviation, rt).value.schedule|
            == |lines| - SeparatorFrom(lines, 4).value - 1
  {
    var sep := SeparatorFrom(lines, 4).value;
    var ctx := FileContext(TeamNames(lines, sep), false, organization, abbreviation, rt);
    GameLinesShape(lines, sep + 1, ctx, []);
    OneRowPerLine(lines, sep + 1, ctx);
  }

  /** A freshly loaded division with at least one team can be recalculated without an exception. */
  lemma ParsedRecalcReady(lines: seq<string>, usesDoubleHeaders: bool, organization: string, abbreviation: string, rt: Runtime)
    requires ParseScheduleFile(lines, usesDoubleHeaders, organization, abbreviation, rt).Success?
    requires SeparatorFrom(lines, 4).value > 4
    ensures var p := ParseScheduleFile(lines, usesDoubleHeaders, organization, abbreviation, rt).value;
            RecalcReady(p.standings, p.schedule) && PositionalTeamIDs(p.standings)
  {
    ParsedTeams(lines, usesDoubleHeaders, organization, abbreviation, rt);
    ParsedSchedule(lines, usesDoubleHeaders, organization, abbreviation, rt);
  }

  // ---------------------------------------------------------------- a fresh division recalculated

  /** A team with no wins, losses or ties, credited nothing, and ranked zero everywhere. */
  predicate Untouched(t: Standing) {
    t.wins == 0 && t.losses == 0 && t.ties == 0 && t.gb == 0.0 && t.percentage == 0.0
  }

  /** A row without scores or forfeits credits nobody anything. */
  lemma ApplyUnplayed(standings: seq<Standing>, g: Game)
    requires !IsWeekBoundary(g) && Foldable(|standings|, g)
    requires g.homeScore.None? && g.visitorScore.None? && !g.homeForfeit && !g.visitorForfeit
    ensures ApplyGame(standings, g) == standings
  {
    var zero := Credit(0, 0, 0, 0, 0, 0);
    assert Decide(g) == NoDecision;
    assert forall t: Standing {:trigger AddCredit(t, zero)} :: AddCredit(t, zero) == t;
    var h, v := g.homeID - 1, g.visitorID - 1;
    assert Credited(standings, h, v, zero, zero) == standings;
  }

  /** Folding a schedule of unplayed rows leaves the standings as they are. */
  lemma {:induction false} FoldUnplayed(standings: seq<Standing>, schedule: seq<Game>)
    requires AllFoldable(|standings|, schedule)
    requires forall i :: 0 <= i < |schedule| ==>
               schedule[i].homeScore.None? && schedule[i].visitorScore.None?
               && !schedule[i].homeForfeit && !schedule[i].visitorForfeit
    ensures FoldSchedule(standings, schedule) == standings
    decreases |schedule|
  {
    if schedule != [] {
      if !IsWeekBoundary(schedule[0]) {
        ApplyUnplayed(standings, schedule[0]);
      }
      assert forall i :: 0 <= i < |schedule| - 1 ==> schedule[1..][i] == schedule[i + 1];
      FoldUnplayed(standings, schedule[1..]);
    }
  }

  /** Ranking teams that have played nothing changes nothing: every GB and Percentage stays 0. */
  lemma RankUntouched(standings: seq<Standing>)
    requires |standings| > 0
    requires forall i :: 0 <= i < |standings| ==> Untouched(standings[i])
    ensures WithGamesBehind(standings) == standings
  {
    var leader := standings[LeaderIndex(standings)];
    forall i | 0 <= i < |standings|
      ensures Ranked(standings[i], leader) == standings[i]
    {
      assert GamesBehind(standings[i], leader) == 0.0;
    }
  }

  /**
   * Recalculating a freshly loaded division reproduces the standings the upload wrote: nothing
   * has been played, so every team keeps its zero record.
   */
  lemma FreshScheduleRecalculates(lines: seq<string>, usesDoubleHeaders: bool, organization: string, abbreviation: string, rt: Runtime)
    requires ParseScheduleFile(lines, usesDoubleHeaders, organization, abbreviation, rt).Success?
    requires SeparatorFrom(lines, 4).value > 4
    ensures var p := ParseScheduleFile(lines, usesDoubleHeaders, organization, abbreviation, rt).value;
            RecalcReady(p.standings, p.schedule) && Recalculated(p.standings, p.schedule) == p.standings
  {
    var p := ParseScheduleFile(lines, usesDoubleHeaders, organization, abbreviation, rt).value;
    ParsedRecalcReady(lines, usesDoubleHeaders, organization, abbreviation, rt);
    ParsedSchedule(lines, usesDoubleHeaders, organization, abbreviation, rt);
    var zeroed := ZeroAll(p.standings);
    assert zeroed == p.standings;
    FoldUnplayed(zeroed, p.schedule);
    RankUntouched(zeroed);
  }

  // ---------------------------------------------------------------- failures

  /**
   * Where a bad file is reported: at the separator line when a game line fails, and at line
   * 4 or at the line count when there is no separator.
   */
  lemma FailureLine(lines: seq<string>, usesDoubleHeaders: bool, organization: string, abbreviation: string, rt: Runtime)
    requires ParseScheduleFile(lines, usesDoubleHeaders, organization, abbreviation, rt).Failure?
    ensures var f := ParseScheduleFile(lines, usesDoubleHeaders, organization, abbreviation, rt).error;
            match SeparatorFrom(lines, 4)
            case None => f == ParseFailure(if |lines| < 4 then 4 else |lines|, NoSeparator)
            case Some(sep) => f.lineNumber == sep && f.cause != NoSeparator
  {
    var f := ParseScheduleFile(lines, usesDoubleHeaders, organization, abbreviation, rt).error;
    if SeparatorFrom(lines, 4).Some? {
      var sep := SeparatorFrom(lines, 4).value;
      var ctx := FileContext(TeamNames(lines, sep), usesDoubleHeaders, organization, abbreviation, rt);
      GameLinesNeverMissSeparator(lines, sep + 1, ctx, []);
    }
  }

  /** A line's failure names a missing field, a bad value, an unknown team or a late twin, never a missing separator. */
  lemma {:induction false} GameLinesNeverMissSeparator(lines: seq<string>, k: nat, ctx: FileContext, acc: seq<Game>)
    requires GameLines(lines, k, ctx, acc).Failure?
    ensures GameLines(lines, k, ctx, acc).error != NoSeparator
    decreases |lines| - k
  {
    if LineRows(lines[k], ctx, |acc|).Success? {
      GameLinesNeverMissSeparator(lines, k + 1, ctx, acc + LineRows(lines[k], ctx, |acc|).value);
    }
  }

  /** The game lines from `k` on fail together exactly when one of them fails on its own. */
  lemma GameLinesFailIff(lines: seq<string>, k: nat, ctx: FileContext)
    ensures GameLines(lines, k, ctx, []).Failure? <==> exists j :: k <= j < |lines| && LineRows(lines[j], ctx, 0).Failure?
  {
    if exists j :: k <= j < |lines| && LineRows(lines[j], ctx, 0).Failure? {
      var j := FirstFailing(lines, k, ctx);
      FirstBadLineFails(lines, k, ctx, [], j);
    } else {
      GoodLinesSucceed(lines, k, ctx, []);
    }
  }

  /** A file with a separator fails exactly when one of its game lines fails on its own. */
  lemma FailsIffSomeLineFails(lines: seq<string>, usesDoubleHeaders: bool, organization: string, abbreviation: string, rt: Runtime)
    requires SeparatorFrom(lines, 4).Some?
    ensures var sep := SeparatorFrom(lines, 4).value;
            var ctx := FileContext(TeamNames(lines, sep), usesDoubleHeaders, organization, abbreviation, rt);
            ParseScheduleFile(lines, usesDoubleHeaders, organization, abbreviation, rt).Failure?
            <==> exists j :: sep + 1 <= j < |lines| && LineRows(lines[j], ctx, 0).Failure?
  {
    var sep := SeparatorFrom(lines, 4).value;
    var ctx := FileContext(TeamNames(lines, sep), usesDoubleHeaders, organization, abbreviation, rt);
    GameLinesFailIff(lines, sep + 1, ctx);
    assert ParseScheduleFile(lines, usesDoubleHeaders, organization, abbreviation, rt).Failure?
           == GameLines(lines, sep + 1, ctx, []).Failure?;
  }

  /** The failure a file reports is the separator's line number with the first bad line's cause. */
  lemma FirstBadLineReported(lines: seq<string>, usesDoubleHeaders: bool, organization: string, abbreviation: string, rt: Runtime, j: nat)
    requires SeparatorFrom(lines, 4).Some?
    requires var sep := SeparatorFrom(lines, 4).value;
             var ctx := FileContext(TeamNames(lines, sep), usesDoubleHeaders, organization, abbreviation, rt);
             && sep < j < |lines| && LineRows(lines[j], ctx, 0).Failure?
             && forall i :: sep < i < j ==> LineRows(lines[i], ctx, 0).Success?
    ensures var sep := SeparatorFrom(lines, 4).value;
            var ctx := FileContext(TeamNames(lines, sep), usesDoubleHeaders, organization, abbreviation, rt);
            ParseScheduleFile(lines, usesDoubleHeaders, organization, abbreviation, rt)
            == Failure(ParseFailure(sep, LineRows(lines[j], ctx, 0).error))
  {
    var sep := SeparatorFrom(lines, 4).value;
    var ctx := FileContext(TeamNames(lines, sep), usesDoubleHeaders, organization, abbreviation, rt);
    FirstBadLineFails(lines, sep + 1, ctx, [], j);
  }

  /** The first line at or after `k` that fails on its own. */
  lemma {:induction false} FirstFailing(lines: seq<string>, k: nat, ctx: FileContext) returns (j: nat)
    requires exists j :: k <= j < |lines| && LineRows(lines[j], ctx, 0).Failure?
    ensures k <= j < |lines| && LineRows(lines[j], ctx, 0).Failure?
    ensures forall i :: k <= i < j ==> LineRows(lines[i], ctx, 0).Success?
    decreases |lines| - k
  {
    if LineRows(lines[k], ctx, 0).Failure? {
      j := k;
    } else {
      j := FirstFailing(lines, k + 1, ctx);
    }
  }

  /** A file of at most four lines has no team section to end, so it fails on line 4. */
  lemma ShortFileMessage(lines: seq<string>, usesDoubleHeaders: bool, organization: string, abbreviation: string, rt: Runtime)
    requires |lines| <= 4
    ensures ParseScheduleFile(lines, usesDoubleHeaders, organization, abbreviation, rt) == Failure(ParseFailure(4, NoSeparator))
    ensures StartsWith(FailureMessage(ParseFailure(4, NoSeparator), rt), "Line number: 4 ")
  {
    assert Decimal(4) == "4";
  }
}
