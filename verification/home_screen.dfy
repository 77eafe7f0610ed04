/** The home screen: the list it shows (reconciled, then sorted by time),
    the tab and search projection of that list, and the two actions it
    offers on a record, "taken" and "delete". */
module HomeScreen {
  import opened MedicineRecord
  import opened MedicineStorage
  import opened Notifications
  import opened Seqs
  import opened Text

  // ---------------------------------------------------------------------
  // Sorting

  /** `new Date(m.timeISO || 0).getTime()` as a sort key: a missing time
      counts as the epoch. An unparseable time (NaN in the comparator)
      is also keyed at the epoch. */
  function SortKey(m: Medicine): int
  {
    if m.time.At? then m.time.ms else 0
  }

  /** The list `loadAll` shows: the stored records ascending by time. */
  function Normalized(list: seq<Medicine>): (r: seq<Medicine>)
    ensures SortedBy(r, SortKey)
    ensures multiset(r) == multiset(list)
  {
    SortBy(list, SortKey)
  }

  /** Normalising an already normalised list changes nothing. */
  lemma NormalizedIdempotent(list: seq<Medicine>)
    ensures Normalized(Normalized(list)) == Normalized(list)
  {
    SortSorted(Normalized(list), SortKey);
  }

  /** A permutation has the same ids, in some order. */
  lemma {:induction false} PermutationIds(a: seq<Medicine>, b: seq<Medicine>)
    requires multiset(a) == multiset(b)
    ensures forall id :: id in Ids(a) <==> id in Ids(b)
  {
    forall id | id in Ids(a)
      ensures id in Ids(b)
    {
      var k :| 0 <= k < |a| && Ids(a)[k] == id;
      assert a[k] in multiset(b);
      var j :| 0 <= j < |b| && b[j] == a[k];
      assert Ids(b)[j] == id;
    }
    forall id | id in Ids(b)
      ensures id in Ids(a)
    {
      var k :| 0 <= k < |b| && Ids(b)[k] == id;
      assert b[k] in multiset(a);
      var j :| 0 <= j < |a| && a[j] == b[k];
      assert Ids(a)[j] == id;
    }
  }

  // ---------------------------------------------------------------------
  // The `visible` projection

  /** The test of the "upcoming" tab: a time at or after now (a missing time
      counts as the epoch, an unparseable one never passes) and not taken. */
  predicate Upcoming(m: Medicine, now: int)
  {
    && (match m.time
        case At(ms) => ms >= now
        case NoTime => 0 >= now
        case BadTime => false)
    && m.status != Some(Taken)
  }

  /** Whether the tab named `filter` keeps record `m`; "all" and every
      unrecognised name keep everything. */
  predicate TabKeeps(filter: string, now: int, m: Medicine)
  {
    if filter == "daily" then m.repeat == Some(Daily)
    else if filter == "upcoming" then Upcoming(m, now)
    else if filter == "missed" then m.status == Some(Missed)
    else true
  }

  /** The list after the tab's filter. */
  function ByTab(list: seq<Medicine>, filter: string, now: int): (r: seq<Medicine>)
    ensures IsSubseq(r, list)
    ensures forall m :: multiset(r)[m] == if TabKeeps(filter, now, m) then multiset(list)[m] else 0
  {
    if filter == "daily" then Filter(list, (m: Medicine) => m.repeat == Some(Daily))
    else if filter == "upcoming" then Filter(list, (m: Medicine) => Upcoming(m, now))
    else if filter == "missed" then Filter(list, (m: Medicine) => m.status == Some(Missed))
    else if filter == "all" then Filter(list, (m: Medicine) => true)
    else
      SubseqReflexive(list);
      list
  }

  function OrEmpty(s: Option<string>): string
  {
    if s.Some? then s.value else ""
  }

  /** Whether record `m` matches the (trimmed, lower-cased) query `q`. */
  predicate Matches(q: string, m: Medicine)
  {
    Contains(Lower(OrEmpty(m.name)), q) || Contains(Lower(OrEmpty(m.dosage)), q)
  }

  /** The query as the search uses it. */
  function SearchTerm(query: string): (q: string)
    ensures q == "" <==> AllSpace(query)
  {
    Lower(Trim(query))
  }

  /** Whether `visible` keeps record `m`: the tab keeps it and the query is
      blank or matches it. */
  predicate Shown(filter: string, query: string, now: int, m: Medicine)
  {
    TabKeeps(filter, now, m) && (AllSpace(query) || Matches(SearchTerm(query), m))
  }

  /** `visible`: the records of `medicines` that pass the tab's test and,
      unless the query is blank, match the query; each as often as in
      `medicines` and in the same order. */
  function Visible(medicines: seq<Medicine>, filter: string, query: string, now: int): (r: seq<Medicine>)
    ensures IsSubseq(r, medicines)
    ensures forall m :: multiset(r)[m] == if Shown(filter, query, now, m) then multiset(medicines)[m] else 0
  {
    var q := SearchTerm(query);
    var list := ByTab(medicines, filter, now);
    if q != "" then
      var r := Filter(list, (m: Medicine) => Matches(q, m));
      SubseqTransitive(r, list, medicines);
      r
    else list
  }

  /** The "daily" tab with a blank query shows exactly the daily records. */
  lemma VisibleDaily(medicines: seq<Medicine>, query: string, now: int)
    requires AllSpace(query)
    ensures forall m :: m in Visible(medicines, "daily", query, now) <==> m in medicines && m.repeat == Some(Daily)
  {
    var r := Visible(medicines, "daily", query, now);
    forall m ensures m in r <==> m in medicines && m.repeat == Some(Daily) {
      assert m in r <==> multiset(r)[m] > 0;
      assert m in medicines <==> multiset(medicines)[m] > 0;
    }
  }

  /** The "upcoming" tab with a blank query shows exactly the records at or
      after now that are not taken. */
  lemma VisibleUpcoming(medicines: seq<Medicine>, query: string, now: int)
    requires AllSpace(query)
    ensures forall m :: m in Visible(medicines, "upcoming", query, now) <==> m in medicines && Upcoming(m, now)
  {
    var r := Visible(medicines, "upcoming", query, now);
    forall m ensures m in r <==> m in medicines && Upcoming(m, now) {
      assert m in r <==> multiset(r)[m] > 0;
      assert m in medicines <==> multiset(medicines)[m] > 0;
    }
  }

  /** The "missed" tab with a blank query shows exactly the missed records. */
  lemma VisibleMissed(medicines: seq<Medicine>, query: string, now: int)
    requires AllSpace(query)
    ensures forall m :: m in Visible(medicines, "missed", query, now) <==> m in medicines && m.status == Some(Missed)
  {
    var r := Visible(medicines, "missed", query, now);
    forall m ensures m in r <==> m in medicines && m.status == Some(Missed) {
      assert m in r <==> multiset(r)[m] > 0;
      assert m in medicines <==> multiset(medicines)[m] > 0;
    }
  }

  /** "all", and any tab name the screen does not know, with a blank query
      show the whole list. */
  lemma VisibleAll(medicines: seq<Medicine>, filter: string, query: string, now: int)
    requires filter != "daily" && filter != "upcoming" && filter != "missed"
    requires AllSpace(query)
    ensures Visible(medicines, filter, query, now) == medicines
  {
    if filter == "all" {
      FilterKeepsAll(medicines, (m: Medicine) => true);
    }
  }

  /** With a non-blank query, a record shown by the tab stays visible exactly
      when the query occurs in its lower-cased name or dosage. */
  lemma VisibleSearch(medicines: seq<Medicine>, filter: string, query: string, now: int, m: Medicine)
    requires !AllSpace(query)
    ensures var q := SearchTerm(query);
      m in Visible(medicines, filter, query, now) <==>
        && m in ByTab(medicines, filter, now)
        && ((exists i :: OccursAt(Lower(OrEmpty(m.name)), q, i)) || (exists i :: OccursAt(Lower(OrEmpty(m.dosage)), q, i)))
  {
    var q := SearchTerm(query);
    var list := ByTab(medicines, filter, now);
    ContainsIff(Lower(OrEmpty(m.name)), q);
    ContainsIff(Lower(OrEmpty(m.dosage)), q);
    assert Visible(medicines, filter, query, now) == Filter(list, (x: Medicine) => Matches(q, x));
  }

  /** The search ignores case: two queries that lower-case to the same
      string show the same records. */
  lemma SearchIgnoresCase(medicines: seq<Medicine>, filter: string, q1: string, q2: string, now: int)
    requires Lower(q1) == Lower(q2)
    ensures Visible(medicines, filter, q1, now) == Visible(medicines, filter, q2, now)
  {
    TrimLower(q1);
    TrimLower(q2);
    assert SearchTerm(q1) == SearchTerm(q2);
  }

  // ---------------------------------------------------------------------
  // The screen's state and actions

  class Home {
    /** The list the screen holds, as `loadAll` last set it. */
    var medicines: seq<Medicine>

    constructor ()
      ensures medicines == []
    {
      medicines := [];
    }

    /** `loadAll`: reconcile missed reminders, then show the stored list
        sorted by time. */
    method LoadAll(store: Store, now: int)
      modifies this, store
      ensures store.writable == old(store.writable)
      ensures store.slot == ReconciledSlot(old(store.slot), store.writable, now)
      ensures medicines == Normalized(store.Load())
      ensures Ids(store.Load()) == Ids(old(store.Load()))
      ensures UniqueIds(old(store.Load())) && store.writable ==>
        multiset(medicines) == multiset(Reconciled(old(store.Load()), now))
      ensures forall id :: id in Ids(medicines) <==> id in Ids(old(store.Load()))
    {
      ReconcileMissed(store, now);
      var list := store.Load();
      medicines := Normalized(list);
      PermutationIds(medicines, list);
    }

    /** `markTakenInApp`: marks the first record with `id` taken, cancels
        both of its triggers and reloads. Does nothing when no record has
        `id` or the store cannot be written. */
    method MarkTakenInApp(store: Store, platform: Platform, id: string, now: int)
      modifies this, store, platform
      ensures store.writable == old(store.writable)
      ensures var meds := old(store.Load());
        if FindIndex(meds, id) == -1 || !store.writable then
          && store.slot == old(store.slot)
          && platform.triggers == old(platform.triggers)
          && medicines == old(medicines)
        else
          var i := FindIndex(meds, id);
          && store.slot == ReconciledSlot(Stored(meds[i := MarkTaken(meds[i], now)]), true, now)
          && platform.triggers == WithoutReminder(old(platform.triggers), id)
          && medicines == Normalized(store.Load())
      ensures UniqueIds(old(store.Load())) && FindIndex(old(store.Load()), id) != -1 && store.writable ==>
        var i := FindIndex(old(store.Load()), id);
        i < |store.Load()| && store.Load()[i] == MarkTaken(old(store.Load())[i], now)
    {
      var meds := store.Load();
      var i := FindIndex(meds, id);
      if i == -1 {
        return;
      }
      var updated := MarkTaken(meds[i], now);
      MergeOntoSource(meds[i], updated);
      var ok := store.Update(updated);
      if !ok {
        return;
      }
      assert store.slot == Stored(meds[i := updated]);
      if UniqueIds(meds) {
        TakenStaysTaken(meds, i, now);
        ReconciledSlotIsReconciled(store.slot, now);
      }
      CancelReminder(platform, id);
      LoadAll(store, now);
    }

    /** The delete action: cancel both triggers, delete the record, reload.
        The triggers are cancelled even when the deletion then fails. */
    method HandleDelete(store: Store, platform: Platform, id: string, now: int)
      modifies this, store, platform
      ensures store.writable == old(store.writable)
      ensures platform.triggers == WithoutReminder(old(platform.triggers), id)
      ensures !store.writable ==> store.slot == old(store.slot) && medicines == old(medicines)
      ensures store.writable ==>
        && store.slot == ReconciledSlot(Stored(WithoutId(old(store.Load()), id)), true, now)
        && medicines == Normalized(store.Load())
      ensures id !in platform.triggers && MissedId(id) !in platform.triggers
      ensures store.writable ==> id !in Ids(store.Load()) && id !in Ids(medicines)
    {
      CancelReminder(platform, id);
      var ok := store.Delete(id);
      if !ok {
        return;
      }
      LoadAll(store, now);
    }
  }

  /** After the record at `i` of a list with unique ids is marked taken, a
      reconciliation pass leaves it as it is: a taken record is never overdue,
      and no other record shares its id. */
  lemma TakenStaysTaken(meds: seq<Medicine>, i: nat, now: int)
    requires UniqueIds(meds) && i < |meds|
    ensures var marked := meds[i := MarkTaken(meds[i], now)];
      UniqueIds(marked) && Reconciled(marked, now)[i] == marked[i]
  {
    var marked := meds[i := MarkTaken(meds[i], now)];
    assert forall k :: 0 <= k < |meds| ==> marked[k].id == meds[k].id;
  }
}
