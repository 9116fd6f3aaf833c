/**
 * Pulling up the games to report together: every schedule row on the same day and field as
 * the requested game, which is how both games of a double-header come up on one form.
 */
module GameSelection {
  import opened Wrappers
  import opened Models

  /** `inner.Day == s.Day && inner.Field == s.Field`: nullable equality, so two null days match. */
  predicate SameSlot(a: Game, b: Game) {
    a.day == b.day && a.field == b.field
  }

  /** division.Schedule.Where(inner => same day and field as `s`), in schedule order. */
  function SlotOf(schedule: seq<Game>, s: Game): (r: seq<Game>)
    ensures |r| <= |schedule|
  {
    if schedule == [] then []
    else (if SameSlot(schedule[0], s) then [schedule[0]] else []) + SlotOf(schedule[1..], s)
  }

  /**
   * Where(s => s.GameID == gameID).SelectMany(slot of s) over the rows of `rows`: for each row
   * with the GameID, in order, the whole schedule's rows sharing its slot.
   */
  function Selection(rows: seq<Game>, schedule: seq<Game>, gameID: int): seq<Game> {
    if rows == [] then []
    else (if rows[0].gameID == gameID then SlotOf(schedule, rows[0]) else []) + Selection(rows[1..], schedule, gameID)
  }

  /** The query of GetGames over the fetched schedule. */
  function SelectGames(schedule: seq<Game>, gameID: int): seq<Game> {
    Selection(schedule, schedule, gameID)
  }

  /** GetGames after the division is fetched: the selected rows copied one by one into a new list. */
  method GetGames(schedule: seq<Game>, gameID: int) returns (list: seq<Game>)
    ensures list == SelectGames(schedule, gameID)
  {
    var games := SelectGames(schedule, gameID);
    list := [];
    for i := 0 to |games|
      invariant list == games[..i]
    {
      list := list + [games[i]];
    }
    assert games[..|games|] == games;
  }

  lemma {:induction false} SlotMembers(schedule: seq<Game>, s: Game)
    ensures forall g :: g in SlotOf(schedule, s) <==> g in schedule && SameSlot(g, s)
  {
    if schedule != [] {
      SlotMembers(schedule[1..], s);
      assert schedule == [schedule[0]] + schedule[1..];
    }
  }

  /** Every selected row shares day and field with a row that has the requested GameID. */
  lemma {:induction false} SelectedShareSlot(rows: seq<Game>, schedule: seq<Game>, gameID: int)
    ensures forall g :: g in Selection(rows, schedule, gameID) ==>
              g in schedule && exists s :: s in rows && s.gameID == gameID && SameSlot(g, s)
  {
    if rows != [] {
      SelectedShareSlot(rows[1..], schedule, gameID);
      SlotMembers(schedule, rows[0]);
    }
  }

  /** No row with the requested GameID: nothing is selected. */
  lemma {:induction false} NoMatchSelectsNothing(rows: seq<Game>, schedule: seq<Game>, gameID: int)
    requires forall i :: 0 <= i < |rows| ==> rows[i].gameID != gameID
    ensures Selection(rows, schedule, gameID) == []
  {
    if rows != [] {
      NoMatchSelectsNothing(rows[1..], schedule, gameID);
    }
  }

  /**
   * A GameID held by exactly one row, at k: the selection is that row's slot, in schedule
   * order, and holds the game itself.
   */
  lemma UniqueGameSelectsItsSlot(schedule: seq<Game>, gameID: int, k: nat)
    requires k < |schedule| && schedule[k].gameID == gameID
    requires forall i :: 0 <= i < |schedule| && i != k ==> schedule[i].gameID != gameID
    ensures SelectGames(schedule, gameID) == SlotOf(schedule, schedule[k])
    ensures schedule[k] in SelectGames(schedule, gameID)
    ensures forall g :: g in SelectGames(schedule, gameID) <==> g in schedule && SameSlot(g, schedule[k])
  {
    OnlyMatchSelects(schedule, schedule, gameID, k);
    SlotMembers(schedule, schedule[k]);
  }

  lemma {:induction false} OnlyMatchSelects(rows: seq<Game>, schedule: seq<Game>, gameID: int, k: nat)
    requires k < |rows| && rows[k].gameID == gameID
    requires forall i :: 0 <= i < |rows| && i != k ==> rows[i].gameID != gameID
    ensures Selection(rows, schedule, gameID) == SlotOf(schedule, rows[k])
  {
    if k == 0 {
      NoMatchSelectsNothing(rows[1..], schedule, gameID);
      assert SlotOf(schedule, rows[k]) + [] == SlotOf(schedule, rows[k]);
    } else {
      OnlyMatchSelects(rows[1..], schedule, gameID, k - 1);
    }
  }

  /**
   * Asking for a week boundary (no day, empty field) when its GameID is unique selects every
   * row without a day and with an empty field; in a parsed schedule those are exactly the
   * week rows (ScheduleFileProperties.ParsedWeekRows).
   */
  lemma WeekBoundarySelectsAllWeekRows(schedule: seq<Game>, gameID: int, k: nat)
    requires k < |schedule| && schedule[k].gameID == gameID
    requires forall i :: 0 <= i < |schedule| && i != k ==> schedule[i].gameID != gameID
    requires schedule[k].day.None? && schedule[k].field == ""
    ensures forall g :: g in SelectGames(schedule, gameID) <==> g in schedule && g.day.None? && g.field == ""
  {
    UniqueGameSelectsItsSlot(schedule, gameID, k);
  }
}
