/** The medicine record the reminder app keeps, and the shallow merge that
    an object spread `{ ...base, ...patch }` performs on it. */
module MedicineRecord {

  datatype Option<T> = None | Some(value: T)

  /** Where a reminder is in its lifecycle. */
  datatype Status = Scheduled | Taken | Missed

  datatype Repeat = Once | Daily

  datatype Meal = Before | After

  /** The `timeISO` field: absent or falsy, present but not a valid date,
      or an instant in milliseconds since the epoch. */
  datatype Stamp = NoTime | BadTime | At(ms: int)

  /** The three time-of-day tags a record can carry. */
  datatype Period = Morning | Afternoon | Evening

  datatype TimeOfDay = TimeOfDay(morning: bool, afternoon: bool, evening: bool)

  function Has(t: TimeOfDay, p: Period): bool
  {
    match p
    case Morning => t.morning
    case Afternoon => t.afternoon
    case Evening => t.evening
  }

  /** One stored medicine. Every field but `id` may be missing (`None`),
      as a key may be missing from the stored JSON object. */
  datatype Medicine = Medicine(
    id: string,
    name: Option<string>,
    dosage: Option<string>,
    time: Stamp,
    timeOfDay: Option<TimeOfDay>,
    mealTiming: Option<Meal>,
    repeat: Option<Repeat>,
    status: Option<Status>,
    takenAt: Option<int>,
    missedAt: Option<int>)

  function Pick<T>(base: Option<T>, patch: Option<T>): Option<T>
  {
    if patch.Some? then patch else base
  }

  /** `{ ...base, ...patch }`: every field the patch carries wins, every
      other field keeps the base's value. */
  function Merge(base: Medicine, patch: Medicine): Medicine
  {
    Medicine(
      patch.id,
      Pick(base.name, patch.name),
      Pick(base.dosage, patch.dosage),
      if patch.time.NoTime? then base.time else patch.time,
      Pick(base.timeOfDay, patch.timeOfDay),
      Pick(base.mealTiming, patch.mealTiming),
      Pick(base.repeat, patch.repeat),
      Pick(base.status, patch.status),
      Pick(base.takenAt, patch.takenAt),
      Pick(base.missedAt, patch.missedAt))
  }

  /** `patch` was made from `base` by a spread that only set fields:
      each field is either base's own or present in the patch. */
  predicate Extends(base: Medicine, patch: Medicine)
  {
    && patch.id == base.id
    && (patch.name == base.name || patch.name.Some?)
    && (patch.dosage == base.dosage || patch.dosage.Some?)
    && (patch.time == base.time || !patch.time.NoTime?)
    && (patch.timeOfDay == base.timeOfDay || patch.timeOfDay.Some?)
    && (patch.mealTiming == base.mealTiming || patch.mealTiming.Some?)
    && (patch.repeat == base.repeat || patch.repeat.Some?)
    && (patch.status == base.status || patch.status.Some?)
    && (patch.takenAt == base.takenAt || patch.takenAt.Some?)
    && (patch.missedAt == base.missedAt || patch.missedAt.Some?)
  }

  /** Merging a record edited by spreading it onto its source yields the edit. */
  lemma MergeOntoSource(base: Medicine, patch: Medicine)
    requires Extends(base, patch)
    ensures Merge(base, patch) == patch
  {
  }

  /** Merging the same patch twice is merging it once. */
  lemma MergeIdempotent(base: Medicine, patch: Medicine)
    ensures Merge(Merge(base, patch), patch) == Merge(base, patch)
  {
  }

  /** The ids of a list, position by position. */
  function Ids(s: seq<Medicine>): (r: seq<string>)
    ensures |r| == |s|
    ensures forall k :: 0 <= k < |s| ==> r[k] == s[k].id
  {
    seq(|s|, k requires 0 <= k < |s| => s[k].id)
  }

  lemma IdsCons(x: Medicine, s: seq<Medicine>)
    ensures Ids([x] + s) == [x.id] + Ids(s)
  {
    var r := [x] + s;
    assert |Ids(r)| == |[x.id] + Ids(s)|;
    forall k | 0 <= k < |r|
      ensures Ids(r)[k] == ([x.id] + Ids(s))[k]
    {
      if k > 0 {
        assert r[k] == s[k - 1];
      }
    }
  }

  /** No two records of the list share an id. */
  ghost predicate UniqueIds(s: seq<Medicine>)
  {
    forall i, j :: 0 <= i < j < |s| ==> s[i].id != s[j].id
  }
}
