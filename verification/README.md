# MedRemind reminder core, modelled in Dafny

MedRemind is a React Native app that reminds its user to take medicines.
Each medicine is a record with:

- an id;
- a name and a dosage;
- a reminder time (`timeISO`);
- time-of-day tags (morning, afternoon, evening);
- a meal timing (before or after eating);
- a repeat mode (once or daily);
- a status (`scheduled`, `taken` or `missed`), with the instants it was taken or missed.

This project models the app's reminder lifecycle over that list of records:

- **Record store** (`medicine_storage.dfy`). All records live in one key-value slot, `MEDICINES_V1`, and every operation loads the whole list and writes it back. The store is a class with two fields: the slot, and whether the device storage currently accepts writes.
- **Device notification service** (`notifications.dfy`). It is a class holding a map from notification id to trigger.
- **Reminder lifecycle** (`notifications.dfy`):
  - scheduling a reminder creates a primary trigger, repeating daily for daily records, plus a one-shot follow-up ten minutes later under `<id>-missed`;
  - cancelling a reminder removes both triggers;
  - the "I will take it" action marks the record taken and cancels both triggers, even for a daily record, so a daily reminder acknowledged this way stops repeating;
  - reconciliation turns every scheduled record more than ten minutes overdue into a missed one.
- **Home screen** (`home_screen.dfy`):
  - the shown list is reconciled first, then sorted by time;
  - the visible rows come from the tab filter ("daily", "upcoming", "missed", "all") and a case-insensitive search on name and dosage;
  - the in-app "taken" action;
  - deletion, which cancels the triggers before deleting the record.
- **Add-medicine form** (`add_medicine_screen.dfy`):
  - five validation checks in a fixed order, where the first failure wins;
  - the record the form builds;
  - add, then schedule;
  - the time-of-day and meal-timing toggles.
- **List row badges** (`medicine_item.dfy`). The labels shown under a medicine's name, in a fixed order.

Modelling choices:

- Times are integer milliseconds. A record's `timeISO` is `NoTime` (absent or empty), `BadTime` (present but not a date), or `At(ms)`.
- Optional record fields are `Option`s, where `None` means the key is absent. The object spread `{ ...base, ...patch }` is `MedicineRecord.Merge`.
- The clock, and the id the form derives from the clock, are parameters.
- `records.dfy`, `seqs.dfy` and `text.dfy` hold the record type and the JavaScript list and string operations the app relies on: `filter`, a stable sort, `trim`, `toLowerCase` and `includes`.

Reconciliation is modelled as written:

1. it collects a missed copy of each overdue record;
2. it then upserts the copies one by one.

`Notifications.ReconcileCorrect` proves that, when ids are unique, this equals the intended pointwise transition `Notifications.Reconciled`. `Notifications.DuplicateIdsDefeatReconcile` shows a two-record list with a shared id where it does not.

## Model

| member | source | states |
|---|---|---|
| MedicineRecord.MergeOntoSource | src/storage/medicineStorage.js:45 | a record edited only by setting fields, merged onto its source, is the edited record |
| MedicineRecord.MergeIdempotent | src/storage/medicineStorage.js:45 | merging the same patch twice equals merging it once |
| Seqs.Filter | src/storage/medicineStorage.js:62 | `filter` keeps exactly the elements passing the test, each as often as before, in their original order |
| Seqs.FilterIdempotent | src/storage/medicineStorage.js:62 | filtering twice with the same test equals filtering once |
| Seqs.SortBy | src/screens/HomeScreen.jsx:41 | the sort result is ascending by the key and a permutation of its input |
| Seqs.SortSorted | src/screens/HomeScreen.jsx:41 | sorting an already sorted list returns it unchanged |
| Text.TrimSpec | src/screens/AddMedicineScreen.jsx:67 | `trim` is empty exactly for all-white-space input; otherwise it starts and ends with a non-space and is the input minus its leading and trailing white space |
| Text.TrimIdempotent | src/screens/HomeScreen.jsx:99 | trimming twice equals trimming once |
| Text.Lower | src/screens/HomeScreen.jsx:99 | lower-casing keeps the length, acts position by position, and leaves no upper-case ASCII letter |
| Text.LowerIdempotent | src/screens/HomeScreen.jsx:99 | lower-casing twice equals lower-casing once |
| Text.TrimLower | src/screens/HomeScreen.jsx:99 | trimming and lower-casing commute, and lower-casing keeps a blank query blank and a non-blank one non-blank |
| Text.ContainsIff | src/screens/HomeScreen.jsx:117-118 | the position-by-position `includes` holds exactly when the query occurs at some index |
| MedicineStorage.Decode | src/storage/medicineStorage.js:6-15 | loading an absent, empty or corrupt slot gives the empty list; otherwise it gives the stored list |
| MedicineStorage.FindIndex | src/storage/medicineStorage.js:41 | `findIndex` is -1 exactly when the id is absent; otherwise it is the first index holding the id |
| MedicineStorage.Added | src/storage/medicineStorage.js:29 | the new record goes first, the old list follows unchanged, and the status defaults to scheduled only when absent |
| MedicineStorage.WithoutId | src/storage/medicineStorage.js:62 | the deleted list is the old list minus every record with that id, in order, with multiplicities kept |
| MedicineStorage.Store.Load | src/storage/medicineStorage.js:6-15 | `loadMedicines` returns the stored list, or the empty list when none parses |
| MedicineStorage.Store.Save | src/storage/medicineStorage.js:17-24 | `saveMedicines` replaces the slot, or fails and leaves it unchanged |
| MedicineStorage.Store.Add | src/storage/medicineStorage.js:26-36 | `addMedicine` stores the list with the defaulted record in front, or changes nothing when the write fails |
| MedicineStorage.Store.Update | src/storage/medicineStorage.js:38-53 | `updateMedicine` stores the upserted list, or changes nothing when the write fails |
| MedicineStorage.Store.Delete | src/storage/medicineStorage.js:59-75 | `deleteMedicine`/`removeMedicine` stores the filtered list; afterwards no record has the id |
| MedicineStorage.DeleteUndoesAdd | src/storage/medicineStorage.js:29-62 | deleting the id of a just-added record gives what deleting it from the old list gives; for an id not stored before, that is exactly the old list |
| MedicineStorage.AddKeepsDuplicates | src/storage/medicineStorage.js:28-30 | adding does not check ids: the count of the new id among the ids grows by one |
| MedicineStorage.AddDuplicateBreaksUnique | src/storage/medicineStorage.js:28-30 | adding a record whose id is already stored leaves two records with that id |
| MedicineStorage.AddFreshKeepsUnique | src/storage/medicineStorage.js:29 | adding a record with a fresh id keeps ids unique |
| MedicineStorage.UpsertAbsent | src/storage/medicineStorage.js:42-43 | an update for an absent id is inserted at index 0 and every other record is shifted unchanged |
| MedicineStorage.UpsertPresent | src/storage/medicineStorage.js:41-45 | an update for a present id changes only the first record with that id, which becomes its fields overridden by the update's; the length is kept |
| MedicineStorage.UpsertIdempotent | src/storage/medicineStorage.js:41-46 | applying the same update twice gives the list that applying it once gives |
| MedicineStorage.UpsertKeepsIds | src/storage/medicineStorage.js:45 | updating a present id leaves the ids of the list as they were |
| MedicineStorage.UpsertKeepsUnique | src/storage/medicineStorage.js:41-46 | updating keeps ids unique |
| MedicineStorage.DeleteAbsentOrTwice | src/storage/medicineStorage.js:62 | deleting an absent id changes nothing, and deleting twice equals deleting once |
| MedicineStorage.DeleteKeepsUnique | src/storage/medicineStorage.js:62 | deleting keeps ids unique |
| Notifications.Platform.CreateTriggerNotification | src/utils/notifications.js:42-68 | creating a trigger adds or replaces exactly that id |
| Notifications.Platform.CancelNotification | src/utils/notifications.js:80-81 | cancelling removes exactly that id; an absent id is a no-op |
| Notifications.WithReminder | src/utils/notifications.js:28-69 | no valid time means no triggers. Otherwise: a primary trigger under the id at the time, daily exactly when the record repeats daily; a one-shot trigger under `<id>-missed` ten minutes later; all other triggers unchanged |
| Notifications.WithoutReminder | src/utils/notifications.js:78-85 | exactly the two triggers of the id are removed and all others are untouched |
| Notifications.ScheduleReminder | src/utils/notifications.js:23-73 | `scheduleReminder` leaves the trigger plan of `WithReminder` |
| Notifications.CancelReminder | src/utils/notifications.js:78-85 | `cancelReminder` leaves the triggers of `WithoutReminder` |
| Notifications.CancelUndoesSchedule | src/utils/notifications.js:23-85 | cancelling after scheduling leaves no trigger of the record, as cancelling alone would |
| Notifications.CancelIdempotent | src/utils/notifications.js:80-81 | cancelling twice equals cancelling once |
| Notifications.MissedUpdates | src/utils/notifications.js:153-164 | the collected updates are all missed at now; there are none exactly when no record is overdue |
| Notifications.CollectOverdue | src/utils/notifications.js:153-164 | the first loop collects exactly the missed copies of the overdue records, in order |
| Notifications.Reconciled | src/utils/notifications.js:155-163 | a record changes exactly when it is scheduled, has a valid time and now is strictly past its time plus ten minutes; it then becomes missed at now with every other field kept; ids are kept and no record is left overdue |
| Notifications.ReconcileCorrect | src/utils/notifications.js:149-172 | with unique ids, upserting the collected updates one by one gives the pointwise transition |
| Notifications.ReconcileKeepsIds | src/utils/notifications.js:166-168 | whatever the ids, a pass never adds, removes or reorders ids |
| Notifications.ReconcileIdempotent | src/utils/notifications.js:157-167 | a second pass at the same instant finds nothing overdue and changes nothing |
| Notifications.ReconciledSlotIsReconciled | src/utils/notifications.js:149-172 | with unique ids and working storage, the stored list after the pass is the pointwise transition |
| Notifications.ReconcileMissed | src/utils/notifications.js:149-172 | `reconcileMissed` collects then upserts. A failed write stops it with the slot unchanged; ids are kept; with unique ids the result is `Reconciled` |
| Notifications.FollowUpAtGraceEdge | src/utils/notifications.js:157-159 | a scheduled record is overdue exactly when now is past the time of its follow-up trigger (set at line 59); at exactly time plus ten minutes it stays scheduled |
| Notifications.NotificationMedId | src/utils/notifications.js:92-93 | the id is the notification's own id when non-empty, else its data's medId, else none |
| Notifications.HandleTakeAction | src/utils/notifications.js:90-112 | no id, no matching record or a failed write changes nothing. Otherwise the first matching record becomes taken at now and both of its triggers are cancelled |
| HomeScreen.Normalized | src/screens/HomeScreen.jsx:39-41 | the shown list is a permutation of the loaded list, ascending by time, with a missing time keyed as the epoch |
| HomeScreen.NormalizedIdempotent | src/screens/HomeScreen.jsx:39-41 | normalising an already normalised list changes nothing |
| HomeScreen.ByTab | src/screens/HomeScreen.jsx:102-112 | the tab filter keeps, in order and with multiplicities, exactly the records its test accepts |
| HomeScreen.SearchTerm | src/screens/HomeScreen.jsx:99 | the trimmed, lower-cased query is empty exactly when the query is all white space |
| HomeScreen.Visible | src/screens/HomeScreen.jsx:98-122 | `visible` is an order-preserving subsequence of the list. It holds exactly the records the tab keeps and, unless the query is blank, that match the query |
| HomeScreen.VisibleDaily | src/screens/HomeScreen.jsx:102-104 | the "daily" tab shows exactly the records that repeat daily |
| HomeScreen.VisibleUpcoming | src/screens/HomeScreen.jsx:105-107 | the "upcoming" tab shows exactly the records at or after now (a missing time as the epoch) that are not taken |
| HomeScreen.VisibleMissed | src/screens/HomeScreen.jsx:108-109 | the "missed" tab shows exactly the missed records |
| HomeScreen.VisibleAll | src/screens/HomeScreen.jsx:110-111 | "all" and any unknown tab, with a blank query, show the whole list |
| HomeScreen.VisibleSearch | src/screens/HomeScreen.jsx:114-119 | with a non-blank query, a record is shown exactly when its tab keeps it and the query occurs in its lower-cased name or dosage (missing as empty) |
| HomeScreen.SearchIgnoresCase | src/screens/HomeScreen.jsx:99-118 | the search ignores case: queries that lower-case alike show the same records |
| HomeScreen.Home.LoadAll | src/screens/HomeScreen.jsx:34-48 | `loadAll` reconciles, then shows the stored list sorted. Ids are kept; with unique ids the shown list is a permutation of the reconciled one |
| HomeScreen.Home.MarkTakenInApp | src/screens/HomeScreen.jsx:84-96 | an absent id or a failed write changes nothing. Otherwise the record becomes taken, both triggers are cancelled and the list is reloaded; with unique ids the record is still taken after the reload |
| HomeScreen.Home.HandleDelete | src/screens/HomeScreen.jsx:70-78 | the triggers are cancelled before the deletion, even when it fails. Afterwards neither trigger exists, and after a successful write neither the store nor the shown list has the id |
| HomeScreen.TakenStaysTaken | src/screens/HomeScreen.jsx:89-92 | with unique ids, a record just marked taken is left alone by the reconciliation of the reload |
| Notifications.DuplicateIdsDefeatReconcile | src/utils/notifications.js:155-168 | with two records sharing an id, the pass marks the taken first one missed and leaves the overdue second one scheduled |
| AddMedicineScreen.CheckForm | src/screens/AddMedicineScreen.jsx:67-74 | the five checks in order: blank name, no date, date not strictly after now, no time-of-day tag, no meal timing. Each error is reported exactly when the earlier checks pass and its own fails |
| AddMedicineScreen.Toggled | src/screens/AddMedicineScreen.jsx:58-60 | toggling flips the one tag and no other |
| AddMedicineScreen.ToggleTwice | src/screens/AddMedicineScreen.jsx:58-60 | toggling the same tag twice restores the tags |
| AddMedicineScreen.PickMeal | src/screens/AddMedicineScreen.jsx:62-64 | selecting clears exactly when the value is already selected, and otherwise selects it |
| AddMedicineScreen.SelectTwice | src/screens/AddMedicineScreen.jsx:62-64 | selecting the same value twice restores the original exactly when nothing or that value was selected; from the other value it ends cleared |
| AddMedicineScreen.Form.ToggleTimeOfDay | src/screens/AddMedicineScreen.jsx:58-60 | only the tags change, by `Toggled` |
| AddMedicineScreen.Form.SelectMealTiming | src/screens/AddMedicineScreen.jsx:62-64 | only the meal timing changes, by `PickMeal` |
| AddMedicineScreen.Form.OnSave | src/screens/AddMedicineScreen.jsx:66-96 | a refused form changes nothing. A failed add schedules nothing. Otherwise the new record is added in front and then its reminder is scheduled |
| AddMedicineScreen.AcceptedRecord | src/screens/AddMedicineScreen.jsx:76-89 | an accepted record is stored as built, with a non-blank trimmed name. It is scheduled, upcoming and not overdue, repeats daily exactly when asked, and gets its primary and follow-up triggers |
| MedicineItem.Badges | src/components/MedicineItem.jsx:19-26 | the pushes build exactly the row `BadgeRow` describes: the set time-of-day badges in order, then the meal badge when a meal timing is present, then "Daily" for daily records |
| MedicineItem.LabelInjective | src/components/MedicineItem.jsx:21-26 | the six badge texts are pairwise different, so two different badges never read alike |
| MedicineItem.BadgeRowOrdered | src/components/MedicineItem.jsx:19-26 | badges come in the order morning, afternoon, evening, meal, daily; none repeats and there are at most five |
| MedicineItem.BadgeRowContents | src/components/MedicineItem.jsx:20-26 | each time badge is shown exactly when its tag is set on a present `timeOfDay`. "After Eat" shows exactly for after and "Before Eat" exactly for before; "Daily" shows exactly for daily records |
| MedicineItem.LabelRowFacts | src/components/MedicineItem.jsx:19-26 | the row's labels number at most five and none appears twice |

## Left out

- Rendering, styles, list layout constants, `Alert` dialogs, navigation, the `loading`/`refreshing` flags, the pull-to-refresh wrapper and App.jsx: none of them is logic on the records.
- Channel creation, permission requests and the registration of foreground and background handlers (`setupNotificationHandlers`, `requestPermissions`). These are calls into the notification library; `HandleTakeAction` models what the handlers do once a "take" action arrives.
- The check that the pressed action is the "take" action: it lives in the handlers. Notification titles, bodies, Android options and data payloads are also left out; only ids, timestamps and the daily flag are kept.
- The notification library's own refusals are left out: for example, creating a trigger in the past. Trigger creation always succeeds in the model, and `scheduleReminder`'s swallowed errors are not modelled.
- JSON serialisation and `Date` parsing and formatting. Times are milliseconds, and `takenAt`/`missedAt` are the `now` passed in rather than ISO strings. A slot whose text parses to something other than a list is `Corrupt` and loads as empty.
- MedicineRecord.Merge: a patch key present with the value `undefined` or `null` is treated as absent, so it never overwrites the base's field.
- Notifications.WithReminder: a `timeISO` of `null` parses to the epoch in JavaScript, so the source would schedule at time 0. The model treats every absent time as unscheduled. The app only schedules records it has just validated.
- HomeScreen.SortKey: an unparseable time makes the comparator return NaN, and the order then depends on the JavaScript engine. The model keys such a record at the epoch. The sort is stable, as JavaScript's is, but stability is not stated as a property.
- Text.Lower: only ASCII letters are lower-cased; the full Unicode case mapping of `toLowerCase` is not modelled.
- HomeScreen.Normalized: the `timeISO || null` normalisation is the identity here, because every falsy time is already `NoTime`.
- MedicineItem.MealBadges: meal timing values outside "before" and "after" are not representable; the source would show "Before Eat" for any other non-empty value.
- MedicineItem.Badges: the method returns badges, each standing for the text `Label` gives it, rather than the strings themselves. That the texts number at most five and that none appears twice is proved about `Labels(BadgeRow(item))` in `LabelRowFacts`, not restated on the method.
- Notifications.ReconcileMissed: the pointwise result is proved only for lists with unique ids, since `addMedicine` does not enforce them (see `DuplicateIdsDefeatReconcile`).
- MedicineStorage.Store.Save: a write failure is a `writable` flag that stays as it is for the whole operation, so one failed write means every write of that operation fails. Read failures are not distinct from an empty slot, as in the source.
- Concurrency: interleaved load-change-save sequences and the lost updates they can cause. Operations are modelled as sequential.
- The date and time picker handlers of the add screen; the form's `date` is whatever they last produced.
- `removeMedicine` is the same function as `deleteMedicine` and is modelled by `MedicineStorage.Store.Delete`.
