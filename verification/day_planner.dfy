/** The edits one day card makes to its own day (`src/components/DayPlanner.tsx`).
    Each handler builds the updated day and passes it to the parent; here
    each returns that updated day. */
module DayPlanner {
  import opened Wrappers
  import opened Types
  import opened Splice

  /** Appends an activity at the end of the day. */
  function AddActivity(day: DayPlan, activity: string): (r: DayPlan)
    ensures |r.activities| == |day.activities| + 1
    ensures r.activities[|day.activities|] == activity
    ensures r.activities[..|day.activities|] == day.activities
    ensures r.(activities := day.activities) == day
  {
    day.(activities := day.activities + [activity])
  }

  /** Removes the activity at `index`, keeping the rest in order; an index
      that names no activity changes nothing. */
  function RemoveActivity(day: DayPlan, index: int): (r: DayPlan)
    ensures 0 <= index < |day.activities| ==> r.activities == RemoveAt(day.activities, index)
    ensures !(0 <= index < |day.activities|) ==> r == day
    ensures r.(activities := day.activities) == day
  {
    FilterOutIndexRemoves(day.activities, index);
    day.(activities := FilterOutIndex(day.activities, index))
  }

  /** Moves the activity at `fromIndex` to `toIndex` by two splices. */
  function MoveActivity(day: DayPlan, fromIndex: int, toIndex: int): (r: DayPlan)
    requires 0 < |day.activities| && fromIndex < |day.activities|
    ensures multiset(r.activities) == multiset(day.activities)
    ensures |r.activities| == |day.activities|
    ensures 0 <= fromIndex && 0 <= toIndex < |day.activities| ==>
              r.activities[toIndex] == day.activities[fromIndex]
    ensures r.activities[RelativeIndex(toIndex, |day.activities| - 1)]
              == day.activities[RelativeIndex(fromIndex, |day.activities|)]
    ensures r.(activities := day.activities) == day
  {
    MovePermutes(day.activities, fromIndex, toIndex);
    day.(activities := Move(day.activities, fromIndex, toIndex))
  }

  /** Sets the day's icon. */
  function SelectIcon(day: DayPlan, icon: string): (r: DayPlan)
    ensures r.icon == Some(icon)
    ensures r.(icon := day.icon) == day
  {
    day.(icon := Some(icon))
  }

  /** Replaces the day's notes. */
  function ChangeNotes(day: DayPlan, notes: string): (r: DayPlan)
    ensures r.notes == notes
    ensures r.(notes := day.notes) == day
  {
    day.(notes := notes)
  }

  /** Removing the activity just added gives back the day. */
  lemma RemoveAfterAdd(day: DayPlan, activity: string)
    ensures RemoveActivity(AddActivity(day, activity), |day.activities|) == day
  {
    var added := AddActivity(day, activity);
    assert RemoveAt(added.activities, |day.activities|) == day.activities;
  }

  /** Moving an activity back to where it came from gives back the day. */
  lemma MoveBack(day: DayPlan, fromIndex: nat, toIndex: nat)
    requires fromIndex < |day.activities| && toIndex < |day.activities|
    ensures MoveActivity(MoveActivity(day, fromIndex, toIndex), toIndex, fromIndex) == day
  {
    MoveUndo(day.activities, fromIndex, toIndex);
  }
}
