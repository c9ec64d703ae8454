/** The trip-wide state transitions of the application shell
    (`src/App.tsx`), lifted out of the component into pure functions over
    the day plans, the selected day id and the view mode. */
module App {
  import opened Wrappers
  import opened JsString
  import opened Types
  import opened Splice
  import DayPlanner

  datatype ViewMode = ListView | CalendarView

  datatype AppState = AppState(plans: seq<DayPlan>, selectedDayId: Option<string>, viewMode: ViewMode)

  /** The icon every newly derived day starts with (U+1F4C5, calendar). */
  const NewDayIcon: string := "\U{1F4C5}"

  /** The ids of the plans, in order. */
  function Ids(plans: seq<DayPlan>): (r: seq<string>)
    ensures |r| == |plans|
    ensures forall i :: 0 <= i < |plans| ==> r[i] == plans[i].id
  {
    seq(|plans|, i requires 0 <= i < |plans| => plans[i].id)
  }

  /** No two plans share an id. Ids come from a random generator, so callers
      establish this; the transitions below preserve it. */
  predicate DistinctIds(plans: seq<DayPlan>) {
    Distinct(Ids(plans))
  }

  /** Index of the first plan with the given id (`Array.prototype.find`). */
  function FindById(plans: seq<DayPlan>, id: string): (r: Option<nat>)
    ensures r.Some? ==> r.value < |plans| && plans[r.value].id == id
    ensures r.Some? ==> forall j :: 0 <= j < r.value ==> plans[j].id != id
    ensures r.None? <==> forall j :: 0 <= j < |plans| ==> plans[j].id != id
  {
    FindIndex(plans, (d: DayPlan) => d.id == id)
  }

  /** Index of the first plan on the given calendar day. */
  function FindByDate(plans: seq<DayPlan>, date: int): (r: Option<nat>)
    ensures r.Some? ==> r.value < |plans| && plans[r.value].date == date
    ensures r.Some? ==> forall j :: 0 <= j < r.value ==> plans[j].date != date
    ensures r.None? <==> forall j :: 0 <= j < |plans| ==> plans[j].date != date
  {
    FindIndex(plans, (d: DayPlan) => d.date == date)
  }

  // ---------------------------------------------------------------------
  // Trip submission

  /** Number of days from `startDate` to `endDate` inclusive, none when the
      end comes before the start. */
  function DayCount(startDate: int, endDate: int): nat {
    if endDate < startDate then 0 else endDate - startDate + 1
  }

  /** One fresh plan per id, on consecutive days from `startDate`. */
  function NewDayPlans(startDate: int, ids: seq<string>): (r: seq<DayPlan>)
    ensures |r| == |ids|
    ensures Ids(r) == ids
    ensures forall i :: 0 <= i < |r| ==> r[i].date == startDate + i
    ensures forall i :: 0 <= i < |r| ==>
              r[i].activities == [] && r[i].notes == "" && r[i].icon == Some(NewDayIcon)
  {
    seq(|ids|, i requires 0 <= i < |ids| => DayPlan(ids[i], startDate + i, [], "", Some(NewDayIcon)))
  }

  /** Replaces the plans by one fresh plan per day of the trip, with the
      given ids, and selects the first day when there is one. */
  function HandleTripDetailsSubmit(s: AppState, trip: TripDetails, ids: seq<string>): (r: AppState)
    requires |ids| == DayCount(trip.startDate, trip.endDate)
    ensures |r.plans| == DayCount(trip.startDate, trip.endDate)
    ensures trip.endDate < trip.startDate ==> r.plans == []
    ensures Ids(r.plans) == ids
    ensures forall i :: 0 <= i < |r.plans| ==> r.plans[i].date == trip.startDate + i
    ensures forall i :: 0 <= i < |r.plans| ==>
              r.plans[i].activities == [] && r.plans[i].notes == "" && r.plans[i].icon == Some(NewDayIcon)
    ensures |r.plans| > 0 ==> r.selectedDayId == Some(r.plans[0].id)
    ensures |r.plans| == 0 ==> r.selectedDayId == s.selectedDayId
    ensures r.viewMode == s.viewMode
  {
    var plans := NewDayPlans(trip.startDate, ids);
    if |plans| > 0 then AppState(plans, Some(plans[0].id), s.viewMode)
    else s.(plans := plans)
  }

  /** The derived plans cover the trip exactly: the first is on the start
      date, the last on the end date, and every day of the trip is found by
      date at its offset from the start. */
  lemma SubmitCoversTrip(s: AppState, trip: TripDetails, ids: seq<string>)
    requires |ids| == DayCount(trip.startDate, trip.endDate)
    requires trip.startDate <= trip.endDate
    ensures var r := HandleTripDetailsSubmit(s, trip, ids);
            && r.plans[0].date == trip.startDate
            && r.plans[|r.plans| - 1].date == trip.endDate
            && (forall d :: trip.startDate <= d <= trip.endDate ==>
                  FindByDate(r.plans, d) == Some(d - trip.startDate))
            && (forall d :: d < trip.startDate || trip.endDate < d ==>
                  FindByDate(r.plans, d).None?)
  {
    var plans := HandleTripDetailsSubmit(s, trip, ids).plans;
    forall d | trip.startDate <= d <= trip.endDate
      ensures FindByDate(plans, d) == Some(d - trip.startDate)
    {
      var k := d - trip.startDate;
      assert plans[k].date == d;
      var m := FindByDate(plans, d).value;
      assert plans[m].date == trip.startDate + m;
    }
  }

  /** Selecting a date of a freshly submitted trip selects that day's plan
      and shows the calendar; a date outside the trip changes nothing. */
  lemma SubmitThenSelectDate(s: AppState, trip: TripDetails, ids: seq<string>, d: int)
    requires |ids| == DayCount(trip.startDate, trip.endDate)
    ensures var r := HandleTripDetailsSubmit(s, trip, ids);
            trip.startDate <= d <= trip.endDate ==>
              HandleDateSelect(r, d) == r.(selectedDayId := Some(ids[d - trip.startDate]), viewMode := CalendarView)
    ensures var r := HandleTripDetailsSubmit(s, trip, ids);
            !(trip.startDate <= d <= trip.endDate) ==> HandleDateSelect(r, d) == r
  {
    if trip.startDate <= trip.endDate {
      SubmitCoversTrip(s, trip, ids);
    }
  }

  // ---------------------------------------------------------------------
  // Replacing days and activities

  /** Every plan with the updated day's id replaced by the updated day. */
  function ReplaceDay(plans: seq<DayPlan>, updated: DayPlan): (r: seq<DayPlan>)
    ensures |r| == |plans|
    ensures forall i :: 0 <= i < |plans| && plans[i].id == updated.id ==> r[i] == updated
    ensures forall i :: 0 <= i < |plans| && plans[i].id != updated.id ==> r[i] == plans[i]
  {
    seq(|plans|, i requires 0 <= i < |plans| => if plans[i].id == updated.id then updated else plans[i])
  }

  function HandleDayPlanUpdate(s: AppState, updated: DayPlan): (r: AppState)
    ensures r.plans == ReplaceDay(s.plans, updated)
    ensures r.(plans := s.plans) == s
  {
    s.(plans := ReplaceDay(s.plans, updated))
  }

  /** Replacing a day keeps every id in place, so replacing an unknown day
      changes nothing, and with distinct ids exactly one plan changes. */
  lemma ReplaceDayFacts(plans: seq<DayPlan>, updated: DayPlan)
    ensures Ids(ReplaceDay(plans, updated)) == Ids(plans)
    ensures FindById(plans, updated.id).None? ==> ReplaceDay(plans, updated) == plans
    ensures DistinctIds(plans) && FindById(plans, updated.id).Some? ==>
              ReplaceDay(plans, updated) == plans[FindById(plans, updated.id).value := updated]
    ensures ReplaceDay(ReplaceDay(plans, updated), updated) == ReplaceDay(plans, updated)
  {
  }

  /** Every plan with id `dayId` given the activity list `activities`. */
  function SetActivities(plans: seq<DayPlan>, dayId: string, activities: seq<string>): (r: seq<DayPlan>)
    ensures |r| == |plans|
    ensures forall i :: 0 <= i < |plans| ==> r[i].(activities := plans[i].activities) == plans[i]
    ensures forall i :: 0 <= i < |plans| && plans[i].id == dayId ==> r[i].activities == activities
    ensures forall i :: 0 <= i < |plans| && plans[i].id != dayId ==> r[i] == plans[i]
  {
    seq(|plans|, i requires 0 <= i < |plans| =>
      if plans[i].id == dayId then plans[i].(activities := activities) else plans[i])
  }

  function HandleUpdateActivities(s: AppState, dayId: string, activities: seq<string>): (r: AppState)
    ensures r.plans == SetActivities(s.plans, dayId, activities)
    ensures r.(plans := s.plans) == s
  {
    s.(plans := SetActivities(s.plans, dayId, activities))
  }

  /** With distinct ids, setting a day's activities is the same as replacing
      that day by a copy with the new activities. */
  lemma UpdateActivitiesIsDayUpdate(s: AppState, k: nat, activities: seq<string>)
    requires k < |s.plans|
    requires DistinctIds(s.plans)
    ensures HandleUpdateActivities(s, s.plans[k].id, activities)
            == HandleDayPlanUpdate(s, s.plans[k].(activities := activities))
  {
    var id := s.plans[k].id;
    forall i | 0 <= i < |s.plans| && s.plans[i].id == id ensures i == k {
      assert Ids(s.plans)[i] == Ids(s.plans)[k];
    }
  }

  // ---------------------------------------------------------------------
  // Drag and drop

  datatype DraggableLocation = DraggableLocation(droppableId: string, index: int)

  /** A finished drag: its type (`'day'` for day cards), where it started
      and, unless it was dropped outside every list, where it ended. */
  datatype DropResult = DropResult(kind: string, source: DraggableLocation, destination: Option<DraggableLocation>)

  /** Activity lists are droppables named `activities-<day id>`. */
  const ActivitiesPrefix: string := "activities-"

  /** The day id named by the source list: `activities-<id>` gives `<id>`. */
  function SourceDayId(d: DropResult): (r: string)
    ensures var n := d.source.droppableId;
            |ActivitiesPrefix| <= |n| && n[..|ActivitiesPrefix|] == ActivitiesPrefix ==>
              r == n[|ActivitiesPrefix|..]
    ensures IndexOf(d.source.droppableId, ActivitiesPrefix).None? ==> r == d.source.droppableId
  {
    assert var n := d.source.droppableId;
           |ActivitiesPrefix| <= |n| && n[..|ActivitiesPrefix|] == ActivitiesPrefix ==>
             OccursAt(n, ActivitiesPrefix, 0);
    RemoveFirst(d.source.droppableId, ActivitiesPrefix)
  }

  /** The source index of a drag that moves something names an element. */
  predicate ValidDrag(s: AppState, d: DropResult) {
    d.destination.Some? ==>
      if d.kind == "day" then 0 < |s.plans| && d.source.index < |s.plans|
      else match FindById(s.plans, SourceDayId(d))
        case None => true
        case Some(k) => 0 < |s.plans[k].activities| && d.source.index < |s.plans[k].activities|
  }

  function HandleDragEnd(s: AppState, d: DropResult): (r: AppState)
    requires ValidDrag(s, d)
    ensures d.destination.None? ==> r == s
    ensures r.selectedDayId == s.selectedDayId && r.viewMode == s.viewMode
    ensures |r.plans| == |s.plans|
  {
    match d.destination
    case None => s
    case Some(dest) =>
      if d.kind == "day" then
        s.(plans := Move(s.plans, d.source.index, dest.index))
      else
        match FindById(s.plans, SourceDayId(d))
        case None => s
        case Some(k) =>
          var day := s.plans[k];
          HandleDayPlanUpdate(s, day.(activities := Move(day.activities, d.source.index, dest.index)))
  }

  /** A day drag permutes the plans, putting the dragged plan at the
      destination index. */
  lemma DayDragPermutes(s: AppState, d: DropResult)
    requires ValidDrag(s, d) && d.destination.Some? && d.kind == "day"
    ensures var r := HandleDragEnd(s, d);
            && multiset(r.plans) == multiset(s.plans)
            && r.plans[RelativeIndex(d.destination.value.index, |s.plans| - 1)]
               == s.plans[RelativeIndex(d.source.index, |s.plans|)]
  {
    MovePermutes(s.plans, d.source.index, d.destination.value.index);
  }

  /** An activity drag whose source day is unknown changes nothing. */
  lemma ActivityDragUnknownDay(s: AppState, d: DropResult)
    requires ValidDrag(s, d) && d.kind != "day"
    requires FindById(s.plans, SourceDayId(d)).None?
    ensures HandleDragEnd(s, d) == s
  {
  }

  /** With distinct ids, an activity drag moves an activity within the
      source day only, and keeps the rest of that day and every other day. */
  lemma ActivityDragStaysInSourceDay(s: AppState, d: DropResult)
    requires ValidDrag(s, d) && d.destination.Some? && d.kind != "day"
    requires DistinctIds(s.plans)
    requires FindById(s.plans, SourceDayId(d)).Some?
    ensures var k := FindById(s.plans, SourceDayId(d)).value;
            var r := HandleDragEnd(s, d);
            && (forall i :: 0 <= i < |s.plans| && i != k ==> r.plans[i] == s.plans[i])
            && r.plans[k].(activities := s.plans[k].activities) == s.plans[k]
            && multiset(r.plans[k].activities) == multiset(s.plans[k].activities)
            && r.plans[k].activities == Move(s.plans[k].activities, d.source.index, d.destination.value.index)
  {
    var k := FindById(s.plans, SourceDayId(d)).value;
    var day := s.plans[k];
    var moved := day.(activities := Move(day.activities, d.source.index, d.destination.value.index));
    MovePermutes(day.activities, d.source.index, d.destination.value.index);
    ReplaceDayFacts(s.plans, moved);
    var r := HandleDragEnd(s, d);
    assert r.plans == s.plans[k := moved];
  }

  /** Where an activity is dropped is decided by the index alone: the
      droppable it was dropped on is ignored. */
  lemma DragIgnoresTargetList(s: AppState, d: DropResult, other: string)
    requires ValidDrag(s, d) && d.destination.Some?
    ensures var d' := d.(destination := Some(d.destination.value.(droppableId := other)));
            ValidDrag(s, d') && HandleDragEnd(s, d') == HandleDragEnd(s, d)
  {
  }

  // ---------------------------------------------------------------------
  // Adding an activity and selecting a date

  /** The activity appended to every plan with id `dayId`. */
  function AppendToDay(plans: seq<DayPlan>, dayId: string, activity: string): (r: seq<DayPlan>)
    ensures |r| == |plans|
    ensures Ids(r) == Ids(plans)
    ensures forall i :: 0 <= i < |plans| && plans[i].id == dayId ==>
              r[i] == DayPlanner.AddActivity(plans[i], activity)
    ensures forall i :: 0 <= i < |plans| && plans[i].id != dayId ==> r[i] == plans[i]
  {
    seq(|plans|, i requires 0 <= i < |plans| =>
      if plans[i].id == dayId then DayPlanner.AddActivity(plans[i], activity) else plans[i])
  }

  /** Adds an activity to the selected day, falling back to the first day
      (and selecting it) when no day is selected. */
  function HandleAddActivity(s: AppState, activity: string): (r: AppState)
    ensures r.viewMode == s.viewMode
    ensures |r.plans| == |s.plans|
  {
    var fallback := !Truthy(s.selectedDayId) && |s.plans| > 0;
    var target := if fallback then Some(s.plans[0].id) else s.selectedDayId;
    var selected := s.(selectedDayId := target);
    if !Truthy(target) then selected
    else selected.(plans := AppendToDay(s.plans, target.value, activity))
  }

  /** With no plans, adding an activity changes nothing. */
  lemma AddActivityWithoutPlans(s: AppState, activity: string)
    requires s.plans == []
    ensures HandleAddActivity(s, activity) == s
  {
  }

  /** With no day selected, the activity goes to the end of the first day,
      which becomes selected; the other days are unchanged when ids are
      distinct. */
  lemma AddActivityFallsBackToFirstDay(s: AppState, activity: string)
    requires !Truthy(s.selectedDayId) && |s.plans| > 0 && s.plans[0].id != ""
    requires DistinctIds(s.plans)
    ensures var r := HandleAddActivity(s, activity);
            && r.selectedDayId == Some(s.plans[0].id)
            && r.plans[0] == DayPlanner.AddActivity(s.plans[0], activity)
            && r.plans[1..] == s.plans[1..]
  {
    var r := HandleAddActivity(s, activity);
    forall i | 1 <= i < |s.plans| ensures r.plans[i] == s.plans[i] {
      assert Ids(s.plans)[0] != Ids(s.plans)[i];
    }
  }

  /** With no day selected and a first day whose id is empty, the fallback
      selects that empty id, which is falsy, so the error return is taken
      and no day receives the activity. */
  lemma AddActivityFirstDayWithoutId(s: AppState, activity: string)
    requires !Truthy(s.selectedDayId) && |s.plans| > 0 && s.plans[0].id == ""
    ensures HandleAddActivity(s, activity) == s.(selectedDayId := Some(""))
  {
  }

  /** With a day selected, the selection is kept and the activity goes to
      the end of the selected day only; a selection that names no plan
      changes nothing at all. */
  lemma AddActivityToSelectedDay(s: AppState, activity: string)
    requires Truthy(s.selectedDayId)
    ensures var r := HandleAddActivity(s, activity);
            && r.selectedDayId == s.selectedDayId
            && (forall i :: 0 <= i < |s.plans| ==>
                  r.plans[i] == if s.plans[i].id == s.selectedDayId.value
                                then DayPlanner.AddActivity(s.plans[i], activity)
                                else s.plans[i])
    ensures FindById(s.plans, s.selectedDayId.value).None? ==> HandleAddActivity(s, activity) == s
  {
  }

  /** Selects the first plan on the given day and switches to the calendar
      view; a date with no plan changes nothing. */
  function HandleDateSelect(s: AppState, date: int): (r: AppState)
    ensures r.plans == s.plans
    ensures FindByDate(s.plans, date).None? ==> r == s
    ensures FindByDate(s.plans, date).Some? ==>
              var k := FindByDate(s.plans, date).value;
              r.selectedDayId == Some(s.plans[k].id) && r.viewMode == CalendarView
  {
    match FindByDate(s.plans, date)
    case None => s
    case Some(k) =>
      s.(selectedDayId := Some(s.plans[k].id),
         viewMode := if s.viewMode == ListView then CalendarView else s.viewMode)
  }

  // ---------------------------------------------------------------------
  // Distinct ids are preserved

  lemma IdsOfRemoveAt(plans: seq<DayPlan>, i: nat)
    requires i < |plans|
    ensures Ids(RemoveAt(plans, i)) == RemoveAt(Ids(plans), i)
  {
    var l, r := Ids(RemoveAt(plans, i)), RemoveAt(Ids(plans), i);
    assert |l| == |r|;
    forall k | 0 <= k < |l| ensures l[k] == r[k] {
      if k < i {
        assert l[k] == plans[k].id;
      } else {
        assert l[k] == plans[k + 1].id;
      }
    }
  }

  lemma IdsOfInsertAt(plans: seq<DayPlan>, j: nat, p: DayPlan)
    requires j <= |plans|
    ensures Ids(InsertAt(plans, j, p)) == InsertAt(Ids(plans), j, p.id)
  {
    var l, r := Ids(InsertAt(plans, j, p)), InsertAt(Ids(plans), j, p.id);
    assert |l| == |r|;
    forall k | 0 <= k < |l| ensures l[k] == r[k] {
      if k < j {
        assert l[k] == plans[k].id;
      } else if k > j {
        assert l[k] == plans[k - 1].id;
      }
    }
  }

  /** The ids of moved plans are the moved ids. */
  lemma IdsOfMove(plans: seq<DayPlan>, from: int, to: int)
    requires 0 < |plans| && from < |plans|
    ensures Ids(Move(plans, from, to)) == Move(Ids(plans), from, to)
  {
    var i := RelativeIndex(from, |plans|);
    var rest := RemoveAt(plans, i);
    var j := RelativeIndex(to, |rest|);
    IdsOfRemoveAt(plans, i);
    IdsOfInsertAt(rest, j, plans[i]);
    assert Move(plans, from, to) == InsertAt(rest, j, plans[i]);
    assert Move(Ids(plans), from, to) == InsertAt(RemoveAt(Ids(plans), i), j, Ids(plans)[i]);
  }

  /** A new trip has distinct ids when the fresh ids are distinct. */
  lemma SubmitKeepsDistinctIds(s: AppState, trip: TripDetails, ids: seq<string>)
    requires |ids| == DayCount(trip.startDate, trip.endDate) && Distinct(ids)
    ensures DistinctIds(HandleTripDetailsSubmit(s, trip, ids).plans)
  {
  }

  /** Replacing days, setting activities, adding an activity and selecting
      a date keep the ids as they are, hence distinct. */
  lemma UpdatesKeepIds(s: AppState, updated: DayPlan, dayId: string, activities: seq<string>,
                       activity: string, date: int)
    ensures Ids(HandleDayPlanUpdate(s, updated).plans) == Ids(s.plans)
    ensures Ids(HandleUpdateActivities(s, dayId, activities).plans) == Ids(s.plans)
    ensures Ids(HandleAddActivity(s, activity).plans) == Ids(s.plans)
    ensures Ids(HandleDateSelect(s, date).plans) == Ids(s.plans)
  {
    ReplaceDayFacts(s.plans, updated);
    assert Ids(SetActivities(s.plans, dayId, activities)) == Ids(s.plans);
  }

  /** A drag keeps the plan ids pairwise distinct. */
  lemma DragKeepsDistinctIds(s: AppState, d: DropResult)
    requires ValidDrag(s, d) && DistinctIds(s.plans)
    ensures DistinctIds(HandleDragEnd(s, d).plans)
  {
    if d.destination.Some? {
      if d.kind == "day" {
        IdsOfMove(s.plans, d.source.index, d.destination.value.index);
        MoveKeepsDistinct(Ids(s.plans), d.source.index, d.destination.value.index);
      } else if FindById(s.plans, SourceDayId(d)).Some? {
        var k := FindById(s.plans, SourceDayId(d)).value;
        var day := s.plans[k];
        ReplaceDayFacts(s.plans, day.(activities := Move(day.activities, d.source.index, d.destination.value.index)));
      }
    }
  }
}
