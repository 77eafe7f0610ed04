/** Reminder scheduling on the device's notification service, cancellation,
    the "I will take it" action, and the reconciliation pass that turns
    overdue scheduled reminders into missed ones. */
module Notifications {
  import opened MedicineRecord
  import opened MedicineStorage
  import opened Seqs

  /** How long after its time a scheduled reminder counts as missed: ten minutes. */
  const MISS_DELAY_MS: int := 10 * 60 * 1000

  /** A timestamp trigger: when it fires, and whether it fires again every day. */
  datatype Trigger = Trigger(timestamp: int, repeatsDaily: bool)

  /** The id of the follow-up notification of the reminder `id`. */
  function MissedId(id: string): string
  {
    id + "-missed"
  }

  /** The notification service, reduced to its pending triggers by notification id.
      Creating a trigger under an existing id replaces it; cancelling an id that
      has no trigger does nothing. */
  class Platform {
    var triggers: map<string, Trigger>

    constructor ()
      ensures triggers == map[]
    {
      triggers := map[];
    }

    method CreateTriggerNotification(id: string, trigger: Trigger)
      modifies this
      ensures triggers == old(triggers)[id := trigger]
    {
      triggers := triggers[id := trigger];
    }

    method CancelNotification(id: string)
      modifies this
      ensures triggers == old(triggers) - {id}
    {
      triggers := triggers - {id};
    }
  }

  /** The triggers after `scheduleReminder(med)`. */
  function WithReminder(ts: map<string, Trigger>, med: Medicine): (r: map<string, Trigger>)
    ensures !med.time.At? ==> r == ts
    ensures med.time.At? ==> r.Keys == ts.Keys + {med.id, MissedId(med.id)}
    ensures med.time.At? ==> r[med.id] == Trigger(med.time.ms, med.repeat == Some(Daily))
    ensures med.time.At? ==> r[MissedId(med.id)] == Trigger(med.time.ms + MISS_DELAY_MS, false)
    ensures forall k :: k in ts && k != med.id && k != MissedId(med.id) ==> k in r && r[k] == ts[k]
  {
    match med.time
    case At(when) =>
      assert MissedId(med.id) != med.id by { assert |MissedId(med.id)| > |med.id|; }
      ts[med.id := Trigger(when, med.repeat == Some(Daily))][MissedId(med.id) := Trigger(when + MISS_DELAY_MS, false)]
    case _ => ts
  }

  /** The triggers after `cancelReminder(id)`. */
  function WithoutReminder(ts: map<string, Trigger>, id: string): (r: map<string, Trigger>)
    ensures r.Keys == ts.Keys - {id, MissedId(id)}
    ensures forall k :: k in r ==> r[k] == ts[k]
  {
    ts - {id, MissedId(id)}
  }

  /** `scheduleReminder`: a primary trigger under `med.id` at the record's time,
      daily when the record repeats daily, and a one-shot follow-up under
      `med.id + "-missed"` ten minutes later. Nothing when the time is not valid. */
  method ScheduleReminder(platform: Platform, med: Medicine)
    modifies platform
    ensures platform.triggers == WithReminder(old(platform.triggers), med)
  {
    if !med.time.At? {
      return;
    }
    var when := med.time.ms;
    var primary := Trigger(when, med.repeat == Some(Daily));
    platform.CreateTriggerNotification(med.id, primary);
    var missTimestamp := when + MISS_DELAY_MS;
    platform.CreateTriggerNotification(MissedId(med.id), Trigger(missTimestamp, false));
  }

  /** `cancelReminder`: cancels the primary and the follow-up trigger. */
  method CancelReminder(platform: Platform, id: string)
    modifies platform
    ensures platform.triggers == WithoutReminder(old(platform.triggers), id)
  {
    platform.CancelNotification(id);
    platform.CancelNotification(MissedId(id));
  }

  /** Cancelling a reminder right after scheduling it leaves the triggers as
      cancelling alone would: no trigger of the record survives. */
  lemma CancelUndoesSchedule(ts: map<string, Trigger>, med: Medicine)
    ensures WithoutReminder(WithReminder(ts, med), med.id) == WithoutReminder(ts, med.id)
  {
    var a := WithoutReminder(WithReminder(ts, med), med.id);
    var b := WithoutReminder(ts, med.id);
    assert a.Keys == b.Keys;
  }

  /** Cancelling twice is cancelling once. */
  lemma CancelIdempotent(ts: map<string, Trigger>, id: string)
    ensures WithoutReminder(WithoutReminder(ts, id), id) == WithoutReminder(ts, id)
  {
    assert WithoutReminder(WithoutReminder(ts, id), id).Keys == WithoutReminder(ts, id).Keys;
  }

  // ---------------------------------------------------------------------
  // Reconciliation

  /** A record the reconciliation pass moves to missed: still scheduled, with
      a valid time, and now strictly past that time plus the grace window. */
  predicate IsOverdue(m: Medicine, now: int)
  {
    m.status == Some(Scheduled) && m.time.At? && now > m.time.ms + MISS_DELAY_MS
  }

  function MarkMissed(m: Medicine, now: int): Medicine
  {
    m.(status := Some(Missed), missedAt := Some(now))
  }

  /** The `updates` array the first loop of `reconcileMissed` collects. */
  function MissedUpdates(meds: seq<Medicine>, now: int): (us: seq<Medicine>)
    ensures |us| <= |meds|
    ensures us == [] <==> forall k :: 0 <= k < |meds| ==> !IsOverdue(meds[k], now)
    ensures forall u :: u in us ==> u.status == Some(Missed) && u.missedAt == Some(now)
  {
    if |meds| == 0 then []
    else
      var init := meds[..|meds| - 1];
      var last := meds[|meds| - 1];
      assert forall k :: 0 <= k < |init| ==> init[k] == meds[k];
      MissedUpdates(init, now) + (if IsOverdue(last, now) then [MarkMissed(last, now)] else [])
  }

  /** The list left after `updateMedicine` has been called on each update in turn. */
  function ApplyUpdates(meds: seq<Medicine>, us: seq<Medicine>): seq<Medicine>
  {
    if |us| == 0 then meds
    else Upserted(ApplyUpdates(meds, us[..|us| - 1]), us[|us| - 1])
  }

  /** The intended outcome of a pass: each overdue record, and only those,
      becomes missed at `now`; every other record stays as it was. */
  function Reconciled(meds: seq<Medicine>, now: int): (r: seq<Medicine>)
    ensures |r| == |meds| && Ids(r) == Ids(meds)
    ensures forall k :: 0 <= k < |meds| ==> (r[k] != meds[k] <==> IsOverdue(meds[k], now))
    ensures forall k :: 0 <= k < |meds| && IsOverdue(meds[k], now) ==>
      r[k].status == Some(Missed) && r[k].missedAt == Some(now)
      && r[k].(status := meds[k].status, missedAt := meds[k].missedAt) == meds[k]
    ensures forall k :: 0 <= k < |r| ==> !IsOverdue(r[k], now)
  {
    seq(|meds|, k requires 0 <= k < |meds| => if IsOverdue(meds[k], now) then MarkMissed(meds[k], now) else meds[k])
  }

  /** The list with the records before index `bound` reconciled. */
  ghost function ReconciledBelow(meds: seq<Medicine>, now: int, bound: nat): seq<Medicine>
    requires bound <= |meds|
  {
    seq(|meds|, k requires 0 <= k < |meds| =>
      if k < bound && IsOverdue(meds[k], now) then MarkMissed(meds[k], now) else meds[k])
  }

  lemma MissedUpdatesSnoc(meds: seq<Medicine>, now: int, b: nat)
    requires b < |meds|
    ensures IsOverdue(meds[b], now) ==>
      MissedUpdates(meds[..b + 1], now) == MissedUpdates(meds[..b], now) + [MarkMissed(meds[b], now)]
    ensures !IsOverdue(meds[b], now) ==> MissedUpdates(meds[..b + 1], now) == MissedUpdates(meds[..b], now)
  {
    var pre := meds[..b + 1];
    assert pre[..|pre| - 1] == meds[..b];
    assert pre[|pre| - 1] == meds[b];
    var us := MissedUpdates(meds[..b], now);
    assert us + [] == us;
  }

  lemma ApplyUpdatesSnoc(meds: seq<Medicine>, us: seq<Medicine>, u: Medicine)
    ensures ApplyUpdates(meds, us + [u]) == Upserted(ApplyUpdates(meds, us), u)
  {
    assert (us + [u])[..|us|] == us;
  }

  /** Upserting the missed copy of record `b` into the list reconciled below `b`
      reconciles it below `b + 1`: the first record with that id is record `b`. */
  lemma UpsertOverdueStep(meds: seq<Medicine>, now: int, b: nat)
    requires UniqueIds(meds) && b < |meds| && IsOverdue(meds[b], now)
    ensures Upserted(ReconciledBelow(meds, now, b), MarkMissed(meds[b], now)) == ReconciledBelow(meds, now, b + 1)
  {
    var cur := ReconciledBelow(meds, now, b);
    var u := MarkMissed(meds[b], now);
    assert cur[b] == meds[b];
    assert forall k :: 0 <= k < b ==> cur[k].id == meds[k].id;
    UpsertPresent(cur, u, b);
    MergeOntoSource(meds[b], u);
  }

  lemma ReconciledBelowSkip(meds: seq<Medicine>, now: int, b: nat)
    requires b < |meds| && !IsOverdue(meds[b], now)
    ensures ReconciledBelow(meds, now, b) == ReconciledBelow(meds, now, b + 1)
  {
  }

  lemma {:induction false} ApplyPrefix(meds: seq<Medicine>, now: int, bound: nat)
    requires UniqueIds(meds) && bound <= |meds|
    ensures ApplyUpdates(meds, MissedUpdates(meds[..bound], now)) == ReconciledBelow(meds, now, bound)
  {
    if bound == 0 {
      assert ReconciledBelow(meds, now, 0) == meds;
    } else {
      var b := bound - 1;
      ApplyPrefix(meds, now, b);
      MissedUpdatesSnoc(meds, now, b);
      var us := MissedUpdates(meds[..b], now);
      if IsOverdue(meds[b], now) {
        ApplyUpdatesSnoc(meds, us, MarkMissed(meds[b], now));
        UpsertOverdueStep(meds, now, b);
      } else {
        ReconciledBelowSkip(meds, now, b);
      }
    }
  }

  /** When ids are unique, applying the collected updates one by one is the
      intended pointwise transition. */
  lemma ReconcileCorrect(meds: seq<Medicine>, now: int)
    requires UniqueIds(meds)
    ensures ApplyUpdates(meds, MissedUpdates(meds, now)) == Reconciled(meds, now)
  {
    ApplyPrefix(meds, now, |meds|);
    assert meds[..|meds|] == meds;
    assert ReconciledBelow(meds, now, |meds|) == Reconciled(meds, now);
  }

  /** With duplicate ids the pass as written is not the pointwise transition:
      the update for a later overdue duplicate lands on the first record with
      that id, here one already taken, and the overdue duplicate itself stays
      scheduled. */
  lemma DuplicateIdsDefeatReconcile()
    ensures var taken := Medicine("1", None, None, At(0), None, None, None, Some(Taken), None, None);
      var due := taken.(status := Some(Scheduled));
      var meds := [taken, due];
      var now := MISS_DELAY_MS + 1;
      var after := ApplyUpdates(meds, MissedUpdates(meds, now));
      && |after| == 2
      && after[0].status == Some(Missed)
      && after[1].status == Some(Scheduled)
      && Reconciled(meds, now)[0] == taken
  {
    var taken := Medicine("1", None, None, At(0), None, None, None, Some(Taken), None, None);
    var due := taken.(status := Some(Scheduled));
    var meds := [taken, due];
    var now := MISS_DELAY_MS + 1;
    var u := MarkMissed(due, now);
    TwoRecordUpdates(meds, now);
    SingleUpdate(meds, u);
    UpsertPresent(meds, u, 0);
  }

  /** With two records of which only the second is overdue, the pass collects
      one update: the second record's missed copy. */
  lemma TwoRecordUpdates(meds: seq<Medicine>, now: int)
    requires |meds| == 2 && !IsOverdue(meds[0], now) && IsOverdue(meds[1], now)
    ensures MissedUpdates(meds, now) == [MarkMissed(meds[1], now)]
  {
    MissedUpdatesSnoc(meds, now, 1);
    MissedUpdatesSnoc(meds, now, 0);
    assert meds[..2] == meds;
    assert meds[..0] == [];
  }

  lemma SingleUpdate(meds: seq<Medicine>, u: Medicine)
    ensures ApplyUpdates(meds, [u]) == Upserted(meds, u)
  {
    ApplyUpdatesSnoc(meds, [], u);
    assert [] + [u] == [u];
  }

  lemma {:induction false} ApplyPrefixKeepsIds(meds: seq<Medicine>, now: int, bound: nat)
    requires bound <= |meds|
    ensures Ids(ApplyUpdates(meds, MissedUpdates(meds[..bound], now))) == Ids(meds)
  {
    if bound > 0 {
      var b := bound - 1;
      ApplyPrefixKeepsIds(meds, now, b);
      MissedUpdatesSnoc(meds, now, b);
      var us := MissedUpdates(meds[..b], now);
      if IsOverdue(meds[b], now) {
        var u := MarkMissed(meds[b], now);
        ApplyUpdatesSnoc(meds, us, u);
        var cur := ApplyUpdates(meds, us);
        assert Ids(cur)[b] == Ids(meds)[b] == u.id;
        UpsertKeepsIds(cur, u);
      }
    }
  }

  /** Whatever the ids, a pass never adds, removes or reorders ids: every
      update names a record that is already stored. */
  lemma ReconcileKeepsIds(meds: seq<Medicine>, now: int)
    ensures Ids(ApplyUpdates(meds, MissedUpdates(meds, now))) == Ids(meds)
  {
    ApplyPrefixKeepsIds(meds, now, |meds|);
    assert meds[..|meds|] == meds;
  }

  /** A second pass at the same instant finds nothing to do and changes nothing. */
  lemma ReconcileIdempotent(meds: seq<Medicine>, now: int)
    ensures MissedUpdates(Reconciled(meds, now), now) == []
    ensures Reconciled(Reconciled(meds, now), now) == Reconciled(meds, now)
  {
  }

  /** The slot after `reconcileMissed`: unchanged when nothing is overdue or the
      first write fails, otherwise the list after all the updates. */
  function ReconciledSlot(slot: Slot, writable: bool, now: int): Slot
  {
    var meds := Decode(slot);
    var us := MissedUpdates(meds, now);
    if us == [] || !writable then slot else Stored(ApplyUpdates(meds, us))
  }

  /** With unique ids and working storage, the stored list after the pass is
      the intended pointwise transition of the list before it. */
  lemma ReconciledSlotIsReconciled(slot: Slot, now: int)
    requires UniqueIds(Decode(slot))
    ensures Decode(ReconciledSlot(slot, true, now)) == Reconciled(Decode(slot), now)
  {
    var meds := Decode(slot);
    if MissedUpdates(meds, now) == [] {
      assert Reconciled(meds, now) == meds;
    } else {
      ReconcileCorrect(meds, now);
    }
  }

  /** The first loop of `reconcileMissed`: a missed copy of every overdue
      record, in list order. */
  method CollectOverdue(meds: seq<Medicine>, now: int) returns (updates: seq<Medicine>)
    ensures updates == MissedUpdates(meds, now)
  {
    updates := [];
    var i := 0;
    assert meds[..|meds|] == meds;
    while i < |meds|
      invariant 0 <= i <= |meds|
      invariant updates == MissedUpdates(meds[..i], now)
    {
      var med := meds[i];
      MissedUpdatesSnoc(meds, now, i);
      if med.status == Some(Scheduled) && !med.time.NoTime? {
        if med.time.At? && now > med.time.ms + MISS_DELAY_MS {
          updates := updates + [MarkMissed(med, now)];
        }
      }
      assert updates == MissedUpdates(meds[..i + 1], now);
      i := i + 1;
    }
  }

  /** One more update applied: the list the first `j` updates give, upserted with update `j`. */
  lemma ApplyStep(meds: seq<Medicine>, us: seq<Medicine>, j: nat)
    requires j < |us|
    ensures j == 0 ==> ApplyUpdates(meds, us[..j + 1]) == Upserted(meds, us[0])
    ensures ApplyUpdates(meds, us[..j + 1]) == Upserted(ApplyUpdates(meds, us[..j]), us[j])
  {
    assert us[..j + 1] == us[..j] + [us[j]];
    ApplyUpdatesSnoc(meds, us[..j], us[j]);
  }

  /** `reconcileMissed`: collect the overdue records, then upsert each one. */
  method ReconcileMissed(store: Store, now: int)
    modifies store
    ensures store.writable == old(store.writable)
    ensures store.slot == ReconciledSlot(old(store.slot), store.writable, now)
    ensures Ids(store.Load()) == Ids(old(store.Load()))
    ensures UniqueIds(old(store.Load())) && store.writable ==>
      store.Load() == Reconciled(old(store.Load()), now)
  {
    var meds := store.Load();
    var updates := CollectOverdue(meds, now);
    var j := 0;
    while j < |updates|
      invariant 0 <= j <= |updates|
      invariant store.writable == old(store.writable)
      invariant j == 0 ==> store.slot == old(store.slot)
      invariant j > 0 ==> store.writable && store.slot == Stored(ApplyUpdates(meds, updates[..j]))
    {
      ApplyStep(meds, updates, j);
      var ok := store.Update(updates[j]);
      if !ok {
        assert j == 0;
        return;
      }
      j := j + 1;
    }
    assert updates[..|updates|] == updates;
    ReconcileKeepsIds(meds, now);
    if UniqueIds(meds) && store.writable {
      ReconciledSlotIsReconciled(old(store.slot), now);
    }
  }

  /** The instant the follow-up trigger fires is the edge of the grace window:
      a scheduled record is overdue exactly when now is past its follow-up. */
  lemma FollowUpAtGraceEdge(med: Medicine, now: int)
    requires med.status == Some(Scheduled) && med.time.At?
    ensures IsOverdue(med, now) <==> now > WithReminder(map[], med)[MissedId(med.id)].timestamp
    ensures now == med.time.ms + MISS_DELAY_MS ==> !IsOverdue(med, now)
  {
  }

  // ---------------------------------------------------------------------
  // Acknowledgement from a notification action

  function MarkTaken(m: Medicine, now: int): Medicine
  {
    m.(status := Some(Taken), takenAt := Some(now))
  }

  predicate Truthy(s: Option<string>)
  {
    s.Some? && s.value != ""
  }

  /** `notification?.id || notification?.data?.medId`, with an empty result as none. */
  function NotificationMedId(notifId: Option<string>, dataMedId: Option<string>): (r: Option<string>)
    ensures r.None? <==> !Truthy(notifId) && !Truthy(dataMedId)
    ensures r.Some? ==> r.value != "" && (r == notifId || r == dataMedId)
    ensures Truthy(notifId) ==> r == notifId
  {
    if Truthy(notifId) then notifId else if Truthy(dataMedId) then dataMedId else None
  }

  /** `handleTakeAction`: marks the record taken and cancels its follow-up and
      its primary trigger, for daily records too. Does nothing without an id,
      without a matching record, or when the store cannot be written. */
  method HandleTakeAction(store: Store, platform: Platform, notifId: Option<string>,
                          dataMedId: Option<string>, now: int)
    modifies store, platform
    ensures store.writable == old(store.writable)
    ensures var medId := NotificationMedId(notifId, dataMedId);
            var meds := old(store.Load());
            if medId.None? || FindIndex(meds, medId.value) == -1 || !store.writable then
              store.slot == old(store.slot) && platform.triggers == old(platform.triggers)
            else
              var i := FindIndex(meds, medId.value);
              && store.slot == Stored(meds[i := MarkTaken(meds[i], now)])
              && platform.triggers == WithoutReminder(old(platform.triggers), medId.value)
  {
    var medId := NotificationMedId(notifId, dataMedId);
    if medId.None? {
      return;
    }
    var meds := store.Load();
    var i := FindIndex(meds, medId.value);
    if i == -1 {
      return;
    }
    var updated := MarkTaken(meds[i], now);
    MergeOntoSource(meds[i], updated);
    var ok := store.Update(updated);
    if !ok {
      return;
    }
    assert store.slot == Stored(meds[i := updated]);
    platform.CancelNotification(MissedId(medId.value));
    platform.CancelNotification(medId.value);
    assert platform.triggers == WithoutReminder(old(platform.triggers), medId.value);
  }
}
