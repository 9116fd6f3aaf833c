# Sbt-MultiDB core in Dafny

A model of the part of the Sbt-MultiDB softball-league website that does the computing, with
proofs of what it promises:

- **Schedule upload.** The division service reads a schedule file. Four heading lines come first. Then one team name per line follows, up to the first empty line. Each remaining line is either a "week..." marker or a CSV game line `Date,Day,Time,Home,Visitor,Field`. From these lines the service builds the division's standings and schedule, and it can double every game into a double-header. On failure it reports `"Line number: k ..."`.
  - `ScheduleFile` states what a parse yields, as functions.
  - `ScheduleLoading` holds the service's loops (`ProcessScheduleFile`, `LoadScheduleFile`), proved against those functions.
  - `ScheduleFileProperties` proves the following:
    - standings are seeded from the team lines;
    - GameIDs run 0, 1, 2, ...;
    - double-header twins are formed as described above;
    - failures are reported at the separator's line number;
    - a freshly loaded division with at least one team is ready for recalculation and is left unchanged by it.
- **Standings recalculation.** `ReCalcStandings` zeroes every team. It then folds every schedule row that is not a week boundary into the two teams the row names: runs, forfeits, and win/loss/tie, with a double forfeit counted as a loss for both teams. Finally it computes games behind the leader and the winning percentage.
  - `Recalculation` gives the specification functions.
  - `DivisionService` holds the in-place loops.
  - `RecalculationProperties` proves the following:
    - the recalculation is idempotent;
    - runs scored balance runs against, league-wide;
    - a team's Forfeits always equal its ForfeitsCharged;
    - the effect of one game on its two teams;
    - week rows have no effect;
    - the games-behind and percentage formulas hold.
- **Score updates.** `ProcessScores` overwrites the four score fields of the first row carrying each update's GameID, then recalculates (`ScoreUpdates`, `DivisionService.ProcessScores`).
- **Score-report form.** `ScoresViewModel` copies schedule rows into form rows. `IsValid` enforces the forfeit-score rule: 0-0 for a double forfeit, 7-0 for the winner of a single forfeit. One message is produced per offending game, numbered by its position. `ToScoresRequest` turns the form back into an update request (`ScoresForm`).
- **Standings page.** The Index action of the standings controller does three things (`StandingsPage`):
  - it sorts teams stably by games behind, then by percentage descending;
  - it narrows the schedule to one team, ignoring case;
  - it sets the hockey flag.
- **Game selection.** `GetGames` selects every schedule row on the same day and field as a requested game, which brings up both games of a double-header together (`GameSelection`).

Rows of the schedule and standings are values (`Models.Game`, `Models.Standing`). The division is a class whose lists the service methods replace. `DateTime` is a tick count. The culture-dependent `DateTime.Parse` and `short.Parse`, and the text of a caught exception, are parameters of the parser (`ScheduleFile.Runtime`).

Two behaviours of the code are kept as written:

- `firstGameDate` is taken only from the line two after the separator. `lastGameDate` is taken only from the final line, through an `else if`, so a file whose final line is that same line leaves `lastGameDate` at `MinValue`.
- A week line is a line whose first field starts with "week" in any letter case. The recalculator skips every row whose Visitor, upper-cased, starts with "WEEK".
  - `Text.WeekPrefixTestsAgree` shows the two tests agree under the modelled case mapping.
  - As a consequence, a real game whose visitor team is named, say, "Weekenders" is skipped by the recalculation. The model keeps this behaviour.

## Model

| member | source | states |
|---|---|---|
| Models.AddMinutes | SbtMultiDB/Services/DivisionService.cs:696 | `AddMinutes` is defined exactly when the result stays within `DateTime.MaxValue`, and then lies that many minutes of ticks later |
| Text.Lower | SbtMultiDB/Services/DivisionService.cs:652 | `ToLower` keeps the length and leaves no upper-case letter |
| Text.Upper | SbtMultiDB/Services/DivisionService.cs:482 | `ToUpper` keeps the length and leaves no lower-case letter |
| Text.WeekPrefixTestsAgree | SbtMultiDB/Services/DivisionService.cs:652 | the parser's lower-case "week" test and the recalculator's upper-case "WEEK" test agree on every string under the modelled ASCII case mapping |
| Text.Contains | SbtMultiDB/Controllers/StandingsController.cs:59 | true exactly when the part occurs in the string at some position |
| Text.Trimmed | SbtMultiDB/Services/DivisionService.cs:622 | `Trim` gives a piece of the line, with only whitespace around it in the line and no whitespace at either of its ends |
| Text.Split | SbtMultiDB/Services/DivisionService.cs:650 | `Split(',')` gives at least one piece, and no piece contains a comma |
| Text.JoinSplit | SbtMultiDB/Services/DivisionService.cs:650 | joining the pieces again with commas gives back the line |
| Text.SplitJoin | SbtMultiDB/Services/DivisionService.cs:650 | splitting comma-joined pieces without commas gives back the pieces |
| Text.Decimal | SbtMultiDB/Services/DivisionService.cs:717 | the line number in the message is written as decimal digits without a leading zero |
| Text.DecimalRoundTrip | SbtMultiDB/Services/DivisionService.cs:717 | reading those digits back gives the line number |
| Recalculation.LeaderIndex | SbtMultiDB/Services/DivisionService.cs:553-555 | the head of the stable sort by descending Wins is the first team, in list order, among those with the most wins |
| DivisionService.CreditRuns | SbtMultiDB/Services/DivisionService.cs:504-510 | with a reported home score, each side's runs scored and runs against grow by its own score and the other side's score; the home team is credited first, so a team on both sides gets both credits |
| DivisionService.CreditForfeits | SbtMultiDB/Services/DivisionService.cs:512-521 | each forfeit flag adds one Forfeit and one ForfeitCharged to its own team only |
| DivisionService.CreditResult | SbtMultiDB/Services/DivisionService.cs:523-543 | double forfeit gives a loss to both sides; otherwise the higher score wins; otherwise a reported equal score is a tie for both; otherwise nothing changes |
| DivisionService.UpdateStandings | SbtMultiDB/Services/DivisionService.cs:497-544 | the three blocks in order give `ApplyGame`, indexing teams by HomeID - 1 and VisitorID - 1 |
| DivisionService.LeaderIsUnique | SbtMultiDB/Services/DivisionService.cs:553-555 | exactly one position has both properties of the stable sort's head, so the leader is determined |
| DivisionService.CalculateGamesBehind | SbtMultiDB/Services/DivisionService.cs:550-568 | every team gets GB from the leader's wins and losses, and Percentage by the source's formula |
| DivisionService.ReCalcStandings | SbtMultiDB/Services/DivisionService.cs:465-488 | the standings become the old ones zeroed, with every non-week row folded in and then ranked; the schedule is untouched |
| DivisionService.FindGame | SbtMultiDB/Services/DivisionService.cs:378 | `FirstOrDefault` gives the first position with the GameID, or none when no row has it |
| DivisionService.ProcessScores | SbtMultiDB/Services/DivisionService.cs:371-395 | the schedule becomes the old one with every update applied in order, and the standings are recalculated from it |
| ScoreUpdates.FirstWithGameId | SbtMultiDB/Services/DivisionService.cs:378 | the first row with the GameID, or none when there is no such row |
| ScoreUpdates.FirstMatchIsUnique | SbtMultiDB/Services/DivisionService.cs:378 | the first match is the only position with a matching GameID and no match before it |
| ScoreUpdates.ApplyScoreEffect | SbtMultiDB/Services/DivisionService.cs:375-387 | one update changes only the first row with its GameID, and in it only the four score fields, which become the update's verbatim; with no such row nothing changes |
| ScoreUpdates.ApplyScoresKeepsFixtures | SbtMultiDB/Services/DivisionService.cs:375-387 | any number of updates keeps the length and every field other than the four score fields of every row |
| ScoreUpdates.LastUpdateWins | SbtMultiDB/Services/DivisionService.cs:382-385 | of two updates to the same GameID, the later one decides the row |
| ScoreUpdates.ApplyScoresKeepsReady | SbtMultiDB/Services/DivisionService.cs:371-389 | updates whose scores can be cast keep the schedule ready for recalculation |
| ScoreUpdates.RestatingScoresChangesNothing | SbtMultiDB/Services/DivisionService.cs:375-387 | updates that repeat what their rows hold leave the schedule unchanged |
| RecalculationProperties.ZeroAllIdempotent | SbtMultiDB/Services/DivisionService.cs:472-477 | zeroing twice is zeroing once |
| RecalculationProperties.ApplyGameKeepsIdentity | SbtMultiDB/Services/DivisionService.cs:497-544 | a game changes only tallies: teams, names and IDs stay |
| RecalculationProperties.FoldKeepsIdentity | SbtMultiDB/Services/DivisionService.cs:479-485 | folding a schedule changes only tallies |
| RecalculationProperties.WithGamesBehindKeepsIdentity | SbtMultiDB/Services/DivisionService.cs:550-568 | ranking changes only GB and Percentage |
| RecalculationProperties.RecalculationIsIdempotent | SbtMultiDB/Services/DivisionService.cs:465-488 | recalculating again gives identical standings, because it depends only on the teams and the schedule |
| RecalculationProperties.CreditsAddUp | SbtMultiDB/Services/DivisionService.cs:504-543 | a game's six credits together add its runs to both runs tallies, one win and one loss for a decided game, two losses for a double forfeit, two ties for a tie, and each forfeit flag once |
| RecalculationProperties.ApplyGameTally | SbtMultiDB/Services/DivisionService.cs:497-544 | every league-wide tally grows by exactly what the row adds |
| RecalculationProperties.FoldTally | SbtMultiDB/Services/DivisionService.cs:479-485 | after the fold, every league-wide tally equals its starting value plus the schedule's total |
| RecalculationProperties.ZeroedLeague | SbtMultiDB/Services/DivisionService.cs:472-477 | after zeroing, every league-wide tally is 0 |
| RecalculationProperties.RankingKeepsLeague | SbtMultiDB/Services/DivisionService.cs:556-567 | ranking leaves every tally as it was |
| RecalculationProperties.TallyOfRecalculation | SbtMultiDB/Services/DivisionService.cs:465-488 | a recalculated league's tallies are the schedule's totals |
| RecalculationProperties.ScheduleBalance | SbtMultiDB/Services/DivisionService.cs:504-543 | a schedule's runs-scored total equals its runs-against total, its forfeit total equals its forfeits-charged total, and it has at least as many losses as wins |
| RecalculationProperties.RunsBalance | SbtMultiDB/Services/DivisionService.cs:504-510 | after recalculation, runs scored equal runs against summed over all teams; the same holds for forfeits and forfeits charged, and losses are at least wins |
| RecalculationProperties.FoldKeepsForfeitCountersEqual | SbtMultiDB/Services/DivisionService.cs:512-521 | folding keeps Forfeits equal to ForfeitsCharged for every team |
| RecalculationProperties.ForfeitCountersAgree | SbtMultiDB/Services/DivisionService.cs:465-521 | after recalculation every team's Forfeits equal its ForfeitsCharged |
| RecalculationProperties.GameBetweenTwoTeams | SbtMultiDB/Services/DivisionService.cs:497-544 | for distinct teams, the exact change of each side's wins, losses, ties, Forfeits and ForfeitsCharged, and runs scored and against; every other team is untouched |
| RecalculationProperties.FoldUnfolds | SbtMultiDB/Services/DivisionService.cs:479-485 | the fold takes the first row, then the rest |
| RecalculationProperties.FoldSkipsWeek | SbtMultiDB/Services/DivisionService.cs:482 | inserting a week row anywhere does not change the fold |
| RecalculationProperties.WeekBoundaryHasNoEffect | SbtMultiDB/Services/DivisionService.cs:479-487 | inserting a week row anywhere does not change the recalculated standings |
| RecalculationProperties.GamesBehindSign | SbtMultiDB/Services/DivisionService.cs:558 | GB is 0 exactly for a team whose wins minus losses match the leader's, and negative exactly for a better such margin; the leader's GB is 0 |
| RecalculationProperties.PercentageRange | SbtMultiDB/Services/DivisionService.cs:559-566 | Percentage lies in 0..1; it is 0 exactly without wins, and 1 exactly with wins and no loss or tie |
| RecalculationProperties.GamesBehindExample | SbtMultiDB/Services/DivisionService.cs:558-566 | a 5-2 and a 3-4 team: GB 0 and 2, and the leader's percentage is 5/7 |
| ScheduleFile.SeparatorFrom | SbtMultiDB/Services/DivisionService.cs:620 | the first zero-length line at or after a position, or none when every later line has text |
| ScheduleLoading.ParseGameLine | SbtMultiDB/Services/DivisionService.cs:650-702 | one line gives the rows of `LineRows` (a week boundary, a game, or a game and its twin) or its exception, together with the line's game date |
| ScheduleLoading.ReadTeams | SbtMultiDB/Services/DivisionService.cs:612-644 | the team loop stops at the separator, and gives the trimmed names with one zeroed Standings row per team, TeamIDs from 1; without a separator it stops with lineNumber 4 or the line count |
| ScheduleLoading.ReadGameLine | SbtMultiDB/Services/DivisionService.cs:648-713 | one turn of the game loop: the line's rows, with firstGameDate and lastGameDate advanced as the source's if / else-if does |
| ScheduleLoading.ReadGames | SbtMultiDB/Services/DivisionService.cs:648-713 | the game loop gives `GameLines` from the line after the separator, and the first and last game dates |
| ScheduleLoading.ProcessScheduleFile | SbtMultiDB/Services/DivisionService.cs:584-722 | returns true exactly when the file parses, with the parse's standings, schedule and dates and an empty message; otherwise the message is "Line number: " + lineNumber + " " + the exception text |
| ScheduleLoading.LoadScheduleFile | SbtMultiDB/Services/DivisionService.cs:407-458 | for a division found by the request's organization and abbreviation (which may differ from the stored ones in letter case), the new rows are stamped with the request's strings; on success the division's schedule and standings are replaced and Updated is set to now, and the dates are returned; on failure the division is unchanged and the error message is returned |
| ScheduleFileProperties.WeekLineGivesBoundary | SbtMultiDB/Services/DivisionService.cs:652-656 | a week line gives one unplayed row with the marker text as Visitor, no Home, HomeID and VisitorID 0, no Day, no Time and an empty Field, which the recalculator treats as a week boundary |
| ScheduleFileProperties.LineRowsShape | SbtMultiDB/Services/DivisionService.cs:648-702 | a line gives one row, or two for a game with double-headers; the rows are numbered on from the current GameID, unplayed; a row without a Day is a week row with IDs 0, and every game row (with a Day) names the teams its IDs address, whatever the visitor is called |
| ScheduleFileProperties.DoubleHeaderTwin | SbtMultiDB/Services/DivisionService.cs:683-702 | with double-headers the second row is the first with the next GameID, home and visitor swapped and the time 90 minutes later; without double-headers there is no second row |
| ScheduleFileProperties.LineFailureIgnoresGameID | SbtMultiDB/Services/DivisionService.cs:658-700 | whether a line fails, and why, does not depend on the GameID counter |
| ScheduleFileProperties.ShortLineFails | SbtMultiDB/Services/DivisionService.cs:658-663 | a game line with fewer than six fields fails |
| ScheduleFileProperties.BlankLineFails | SbtMultiDB/Services/DivisionService.cs:658 | an empty line among the games fails at its date |
| ScheduleFileProperties.GameLinesShape | SbtMultiDB/Services/DivisionService.cs:648-713 | the rows collected extend those before them, keep GameID = position, stay unplayed, keep every game row's names resolved against its IDs and every row without a Day a week row, and add one or two rows per line |
| ScheduleFileProperties.OneRowPerLine | SbtMultiDB/Services/DivisionService.cs:648-702 | without double-headers each line adds exactly one row |
| ScheduleFileProperties.FirstBadLineFails | SbtMultiDB/Services/DivisionService.cs:715-718 | the game loop stops at the first line that fails and reports that line's cause |
| ScheduleFileProperties.GoodLinesSucceed | SbtMultiDB/Services/DivisionService.cs:648-713 | when every line parses on its own, the game loop succeeds |
| ScheduleFileProperties.GameLinesFailIff | SbtMultiDB/Services/DivisionService.cs:648-718 | the game loop fails exactly when some line fails on its own |
| ScheduleFileProperties.ParsedTeams | SbtMultiDB/Services/DivisionService.cs:616-644 | a parsed file has one standings row per team line, in order: TeamID i + 1, the trimmed name, the division's keys, every tally zero |
| ScheduleFileProperties.ParsedSchedule | SbtMultiDB/Services/DivisionService.cs:648-702 | a parsed schedule has GameIDs 0, 1, 2, ... with no gaps; every row is unplayed and in the division; a row without a Day is a week row, and every game row's HomeID and VisitorID lie in 1..N with Home and Visitor the names of the teams they address |
| ScheduleFileProperties.ParsedWeekRows | SbtMultiDB/Services/DivisionService.cs:652-656 | in a parsed schedule, a row has no Day and an empty Field exactly when it is a week row |
| ScheduleFileProperties.SeededRows | SbtMultiDB/Services/DivisionService.cs:673-677 | a row resolved against the team names also names the standings rows made from them |
| ScheduleFileProperties.ParsedRowCount | SbtMultiDB/Services/DivisionService.cs:648-702 | without double-headers the schedule has one row per line after the separator |
| ScheduleFileProperties.ParsedRecalcReady | SbtMultiDB/Services/DivisionService.cs:666-680 | a parsed file with a team can be recalculated: IDs are in range, scores are absent, and TeamIDs are positional |
| ScheduleFileProperties.ApplyUnplayed | SbtMultiDB/Services/DivisionService.cs:504-543 | a row without scores or forfeits credits nobody |
| ScheduleFileProperties.FoldUnplayed | SbtMultiDB/Services/DivisionService.cs:479-485 | folding unplayed rows leaves the standings as they were |
| ScheduleFileProperties.RankUntouched | SbtMultiDB/Services/DivisionService.cs:553-567 | ranking teams that have played nothing keeps GB and Percentage at 0 |
| ScheduleFileProperties.FreshScheduleRecalculates | SbtMultiDB/Services/DivisionService.cs:465-488 | recalculating a freshly loaded division reproduces the standings the upload wrote |
| ScheduleFileProperties.FailureLine | SbtMultiDB/Services/DivisionService.cs:715-718 | a game-section failure is reported at the separator's line number, since only `index` advances; a missing separator is reported at line 4 or at the line count |
| ScheduleFileProperties.GameLinesNeverMissSeparator | SbtMultiDB/Services/DivisionService.cs:648-713 | a game line never fails for want of a separator |
| ScheduleFileProperties.FailsIffSomeLineFails | SbtMultiDB/Services/DivisionService.cs:599-719 | a file with a separator fails exactly when one of its game lines fails on its own |
| ScheduleFileProperties.FirstBadLineReported | SbtMultiDB/Services/DivisionService.cs:715-718 | the reported failure is the separator's line number with the first bad line's cause |
| ScheduleFileProperties.ShortFileMessage | SbtMultiDB/Services/DivisionService.cs:616-620 | a file of at most four lines fails on line 4, and its message starts "Line number: 4 " |
| ScoresForm.ScoresViewModel.constructor | SbtMultiDB/Models/ViewModels/ScoresViewModel.cs:16-39 | one form row per schedule row, in the same order, with every copied field equal to the row's |
| ScoresForm.ScoresViewModel.ToScoresRequest | SbtMultiDB/Models/ViewModels/ScoresViewModel.cs:41-58 | the request keeps the form's keys and has one update per row, in order, with GameID, both scores and both forfeit flags unchanged |
| ScoresForm.ScoresViewModel.IsValid | SbtMultiDB/Models/ViewModels/ScoresViewModel.cs:60-97 | valid exactly when every row meets the forfeit-score rule, which is exactly when the message is empty; the message is the rows' messages in order |
| ScoresForm.GameErrorMeansRuleBroken | SbtMultiDB/Models/ViewModels/ScoresViewModel.cs:67-94 | a row gets a message exactly when it breaks the rule: a double forfeit must be 0-0, a home forfeit home 0 and visitor 7, and a visitor forfeit home 7 and visitor 0; a null score never passes, and rows without a forfeit always pass |
| ScoresForm.ReportEmptyIffAllOk | SbtMultiDB/Models/ViewModels/ScoresViewModel.cs:64-96 | the whole message is empty exactly when every row meets the rule |
| ScoresForm.MessageOfGame | SbtMultiDB/Models/ViewModels/ScoresViewModel.cs:67-94 | the message for the row at position j is numbered j + 1, and sits between the messages of the rows before it and those after it |
| ScoresForm.UnchangedFormChangesNothing | SbtMultiDB/Models/ViewModels/ScoresViewModel.cs:41-58 | submitting a form built from a schedule with unique GameIDs, unchanged, leaves that schedule as it was |
| StandingsPage.SortByRankIsStableSort | SbtMultiDB/Controllers/StandingsController.cs:44-45 | the ordering is sorted by GB ascending and then Percentage descending; it is a permutation, and keeps the list order of teams with equal rank |
| StandingsPage.IndexOrdersStandings | SbtMultiDB/Controllers/StandingsController.cs:44-45 | the page lists every team once, ordered by rank and stably |
| StandingsPage.TeamExistsInSorted | SbtMultiDB/Controllers/StandingsController.cs:49 | looking the team up in the sorted list finds it exactly when the division has it |
| StandingsPage.IndexWithoutTeam | SbtMultiDB/Controllers/StandingsController.cs:47-57 | with no team name, an empty one, or a name no team has (ignoring case), the page shows the whole schedule and no TeamName |
| StandingsPage.IndexWithTeam | SbtMultiDB/Controllers/StandingsController.cs:49-56 | when the named team exists, TeamName is set and the schedule holds exactly the rows whose Home or Visitor is that name, ignoring case |
| StandingsPage.TeamGamesMembers | SbtMultiDB/Controllers/StandingsController.cs:53-55 | a row is kept exactly when it is in the schedule and the team plays in it |
| StandingsPage.TeamGamesAppend | SbtMultiDB/Controllers/StandingsController.cs:53-55 | filtering distributes over concatenation, so kept rows stay in schedule order |
| StandingsPage.WeekRowsDropOut | SbtMultiDB/Controllers/StandingsController.cs:53-55 | a week row drops out for any team name that does not itself start with "week" |
| StandingsPage.HockeyFlag | SbtMultiDB/Controllers/StandingsController.cs:59 | ShowOvertimeLosses is true exactly when "hockey" occurs in the lower-cased organization, whatever the letter case of the organization |
| GameSelection.GetGames | SbtMultiDB/Data/Repositories/DivisionEfCoreRepository.cs:157-163 | the copy loop returns the selection with its length and order |
| GameSelection.SlotMembers | SbtMultiDB/Data/Repositories/DivisionEfCoreRepository.cs:154 | a row is in a game's slot exactly when it has the same Day and Field, two null days counting as equal |
| GameSelection.SelectedShareSlot | SbtMultiDB/Data/Repositories/DivisionEfCoreRepository.cs:152-155 | every returned row is a schedule row sharing Day and Field with a row of the requested GameID |
| GameSelection.NoMatchSelectsNothing | SbtMultiDB/Data/Repositories/DivisionEfCoreRepository.cs:152-155 | with no row of the requested GameID the result is empty |
| GameSelection.UniqueGameSelectsItsSlot | SbtMultiDB/Data/Repositories/DivisionEfCoreRepository.cs:152-155 | for a unique GameID the result is exactly the game's slot, in schedule order, including the game |
| GameSelection.WeekBoundarySelectsAllWeekRows | SbtMultiDB/Data/Repositories/DivisionEfCoreRepository.cs:154 | requesting a week boundary returns every row with no Day and an empty Field |

## Left out

- The async service methods are not modelled. This covers the repository loads and saves, the division lookup and the try/catch mapping to responses. `LoadScheduleFile` takes the division that the lookup found, with the request's organization and abbreviation, which the lookup matches ignoring case (`Text.Lower`).
- `GetEasternTime` reads the clock and the time zone. The time is a parameter (`now`).
- `DateTime.Parse` fills in today's date when a field has no date part. That clock reading sits inside the `Runtime.dateTime` parameter and is not modelled separately.
- Reading the stream into lines is not modelled. The file is taken as its list of lines.
- `DateTime.Parse` and `short.Parse` depend on the culture. They are parameters that return `None` where the call would throw. A 16-bit team ID that does not fit is covered by that `None`.
- The team loop's `short teamID` counter wraps past 32767 team lines. The model numbers teams with unbounded `i + 1`, so that wrap-around is not modelled.
- The text of a caught exception (`ex.Message`) is a parameter (`Runtime.message`). Only the `"Line number: k "` prefix is modelled.
- DivisionService.CreditRuns: the `(short)` casts and the 16-bit tallies are unbounded integers, so wrap-around on overflow is not modelled.
- GB and Percentage are `real`. Single-precision rounding is not modelled.
- OvertimeLosses is zeroed and never incremented. It stays inert.
- `ToLower`, `ToUpper` and `Trim` use the code's character sets. Case mapping covers ASCII letters only, and culture-specific case rules are not modelled.
- The week tests (`StartsWith("week")` and `StartsWith("WEEK")`) use the culture-sensitive overload in the code. The model makes them ordinal prefix tests, so culture-sensitive comparison, such as skipping ignorable characters, is not modelled.
- Standings and schedule rows are values, not shared objects.
  - UpdateStandings re-reads the list after each credit, so a row naming the same team on both sides still collects both sides' credits, as it does through aliasing in the code.
  - In which order `CalculateGamesBehind` visits `sortedTeams` does not matter and is not modelled.
- DivisionService.ReCalcStandings: the exceptions the code raises are preconditions (`RecalcReady`), not error paths. These are: `First()` on an empty list, a team ID out of range, and a null visitor score cast with a reported home score. The callers turn those exceptions into failure responses, and that mapping is not modelled.
- DivisionService.ProcessScores: same preconditions, for the same reason. The rows it updates before a failing recalculation are not modelled.
- ScheduleLoading.ProcessScheduleFile: on failure it says nothing about the partly filled out lists and dates, which its caller discards.
- The standings page works on values, not the fetched `Division` object. Not modelled: choosing the partial view for AJAX requests, and the `NotFound` results.
- The data annotations on the form (`Required`, the digits-only pattern) are enforced by the framework, and are not modelled. The same goes for the form's parameterless constructor and property setters.
- GetGames: fetching the division is not modelled. It takes the division's schedule, and the `catch { throw; }` around the code is left out.
