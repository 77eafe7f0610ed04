/** The add-medicine form: its two toggles, the validation that runs when the
    user saves, the record it builds, and the add-then-schedule sequence. */
module AddMedicineScreen {
  import opened MedicineRecord
  import opened MedicineStorage
  import opened Notifications
  import opened HomeScreen
  import opened Text

  /** Why a save was refused, in the order the checks run. */
  datatype FormError = MissingName | MissingTime | PastTime | NoTimeOfDay | NoMealTiming

  /** What pressing save led to: a refusal, a failed write, or the stored record. */
  datatype SaveOutcome = Rejected(error: FormError) | SaveFailed | Saved(med: Medicine)

  predicate AnySelected(t: TimeOfDay)
  {
    t.morning || t.afternoon || t.evening
  }

  /** The checks of `onSave`, in order; the first that fails decides. */
  function CheckForm(name: string, date: Option<int>, now: int, timeOfDay: TimeOfDay,
                     mealTiming: Option<Meal>): (r: Option<FormError>)
    ensures r == Some(MissingName) <==> AllSpace(name)
    ensures r == Some(MissingTime) <==> !AllSpace(name) && date.None?
    ensures r == Some(PastTime) <==> !AllSpace(name) && date.Some? && date.value <= now
    ensures r == Some(NoTimeOfDay) <==>
      !AllSpace(name) && date.Some? && date.value > now && !AnySelected(timeOfDay)
    ensures r == Some(NoMealTiming) <==>
      !AllSpace(name) && date.Some? && date.value > now && AnySelected(timeOfDay) && mealTiming.None?
    ensures r.None? <==>
      !AllSpace(name) && date.Some? && date.value > now && AnySelected(timeOfDay) && mealTiming.Some?
  {
    if Trim(name) == "" then Some(MissingName)
    else if date.None? then Some(MissingTime)
    else if date.value <= now then Some(PastTime)
    else if !AnySelected(timeOfDay) then Some(NoTimeOfDay)
    else if mealTiming.None? then Some(NoMealTiming)
    else None
  }

  /** The record `onSave` builds from the form. */
  function NewRecord(id: string, name: string, dosage: string, date: int, timeOfDay: TimeOfDay,
                     mealTiming: Meal, repeatDaily: bool): Medicine
  {
    Medicine(id, Some(Trim(name)), Some(Trim(dosage)), At(date), Some(timeOfDay), Some(mealTiming),
             Some(if repeatDaily then Daily else Once), Some(Scheduled), None, None)
  }

  /** `toggleTimeOfDay(key)` on a value: flips the one tag. */
  function Toggled(t: TimeOfDay, p: Period): (r: TimeOfDay)
    ensures Has(r, p) == !Has(t, p)
    ensures forall q :: q != p ==> Has(r, q) == Has(t, q)
  {
    match p
    case Morning => t.(morning := !t.morning)
    case Afternoon => t.(afternoon := !t.afternoon)
    case Evening => t.(evening := !t.evening)
  }

  /** Toggling the same tag twice restores the tags. */
  lemma ToggleTwice(t: TimeOfDay, p: Period)
    ensures Toggled(Toggled(t, p), p) == t
  {
  }

  /** `selectMealTiming(v)` on a value: selecting the current choice clears it,
      anything else selects `v`. */
  function PickMeal(current: Option<Meal>, v: Meal): (r: Option<Meal>)
    ensures r.None? <==> current == Some(v)
    ensures r.Some? ==> r == Some(v)
  {
    if current == Some(v) then None else Some(v)
  }

  /** Selecting the same choice twice restores the original exactly when
      nothing, or that same choice, was selected before; from the other
      choice it ends with nothing selected. */
  lemma SelectTwice(current: Option<Meal>, v: Meal)
    ensures PickMeal(PickMeal(current, v), v) == current <==> current.None? || current == Some(v)
    ensures current.Some? && current != Some(v) ==> PickMeal(PickMeal(current, v), v).None?
  {
  }

  /** The state of the form. The date pickers that set `date` are not part
      of this model; `date` is whatever they last produced. */
  class Form {
    var name: string
    var dosage: string
    var date: Option<int>
    var timeOfDay: TimeOfDay
    var mealTiming: Option<Meal>
    var repeatDaily: bool

    constructor ()
      ensures name == "" && dosage == "" && date.None?
      ensures timeOfDay == TimeOfDay(false, false, false) && mealTiming.None? && !repeatDaily
    {
      name := "";
      dosage := "";
      date := None;
      timeOfDay := TimeOfDay(false, false, false);
      mealTiming := None;
      repeatDaily := false;
    }

    /** `toggleTimeOfDay`. */
    method ToggleTimeOfDay(p: Period)
      modifies this
      ensures timeOfDay == Toggled(old(timeOfDay), p)
      ensures name == old(name) && dosage == old(dosage) && date == old(date)
      ensures mealTiming == old(mealTiming) && repeatDaily == old(repeatDaily)
    {
      timeOfDay := Toggled(timeOfDay, p);
    }

    /** `selectMealTiming`. */
    method SelectMealTiming(v: Meal)
      modifies this
      ensures mealTiming == PickMeal(old(mealTiming), v)
      ensures name == old(name) && dosage == old(dosage) && date == old(date)
      ensures timeOfDay == old(timeOfDay) && repeatDaily == old(repeatDaily)
    {
      mealTiming := PickMeal(mealTiming, v);
    }

    /** `onSave`: validate; on success add the new record, and only when
        that write succeeded schedule its reminder. `newId` is the id the
        app derives from the clock. */
    method OnSave(store: Store, platform: Platform, now: int, newId: string) returns (outcome: SaveOutcome)
      modifies store, platform
      ensures store.writable == old(store.writable)
      ensures var e := CheckForm(name, date, now, timeOfDay, mealTiming);
        if e.Some? then
          outcome == Rejected(e.value)
          && store.slot == old(store.slot) && platform.triggers == old(platform.triggers)
        else if !store.writable then
          outcome == SaveFailed
          && store.slot == old(store.slot) && platform.triggers == old(platform.triggers)
        else
          var med := NewRecord(newId, name, dosage, date.value, timeOfDay, mealTiming.value, repeatDaily);
          && outcome == Saved(med)
          && store.slot == Stored(Added(old(store.Load()), med))
          && platform.triggers == WithReminder(old(platform.triggers), med)
    {
      var e := CheckForm(name, date, now, timeOfDay, mealTiming);
      if e.Some? {
        return Rejected(e.value);
      }
      var med := NewRecord(newId, name, dosage, date.value, timeOfDay, mealTiming.value, repeatDaily);
      var ok := store.Add(med);
      if !ok {
        return SaveFailed;
      }
      ScheduleReminder(platform, med);
      outcome := Saved(med);
    }
  }

  /** A record that passed validation is stored as given, with a non-blank
      trimmed name, and is scheduled, upcoming and not overdue at the moment
      of saving; it gets a primary trigger at its time (daily exactly when
      the form asked for it) and a one-shot follow-up ten minutes later. */
  lemma AcceptedRecord(id: string, name: string, dosage: string, date: Option<int>, now: int,
                       timeOfDay: TimeOfDay, mealTiming: Option<Meal>, repeatDaily: bool,
                       stored: seq<Medicine>, ts: map<string, Trigger>)
    requires CheckForm(name, date, now, timeOfDay, mealTiming).None?
    ensures var med := NewRecord(id, name, dosage, date.value, timeOfDay, mealTiming.value, repeatDaily);
      && Added(stored, med)[0] == med
      && med.name.value != "" && !IsSpace(med.name.value[0])
      && med.status == Some(Scheduled) && Upcoming(med, now) && !IsOverdue(med, now)
      && (med.repeat == Some(Daily) <==> repeatDaily)
      && WithReminder(ts, med)[id] == Trigger(date.value, repeatDaily)
      && WithReminder(ts, med)[MissedId(id)] == Trigger(date.value + MISS_DELAY_MS, false)
  {
    var med := NewRecord(id, name, dosage, date.value, timeOfDay, mealTiming.value, repeatDaily);
    assert Added(stored, med)[0].(status := med.status) == med;
  }
}
