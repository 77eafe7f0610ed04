/** The record store: one key-value slot, `MEDICINES_V1`, holding the whole
    list of medicines. Every operation loads the list, changes it and writes
    the whole list back. */
module MedicineStorage {
  import opened MedicineRecord
  import opened Seqs

  const KEY: string := "MEDICINES_V1"

  /** What the slot holds: nothing (or an empty string), text that does not
      parse to a list, or a list of records. */
  datatype Slot = Unset | Corrupt | Stored(meds: seq<Medicine>)

  /** What `loadMedicines` reads out of a slot. */
  function Decode(slot: Slot): (meds: seq<Medicine>)
    ensures slot.Stored? ==> meds == slot.meds
    ensures !slot.Stored? ==> meds == []
  {
    match slot
    case Stored(meds) => meds
    case _ => []
  }

  /** `meds.findIndex(m => m.id === id)`: the first index holding `id`, or -1. */
  function FindIndex(s: seq<Medicine>, id: string): (i: int)
    ensures -1 <= i < |s|
    ensures i == -1 <==> id !in Ids(s)
    ensures 0 <= i ==> s[i].id == id && forall k :: 0 <= k < i ==> s[k].id != id
  {
    if |s| == 0 then -1
    else if s[0].id == id then 0
    else
      var j := FindIndex(s[1..], id);
      assert forall k :: 0 <= k < |s| - 1 ==> s[1..][k].id == s[k + 1].id;
      if j == -1 then -1 else j + 1
  }

  /** The copy `addMedicine` stores: `{ ...med, status: med.status || 'scheduled' }`. */
  function WithDefaultStatus(med: Medicine): Medicine
  {
    if med.status.None? then med.(status := Some(Scheduled)) else med
  }

  /** The list `addMedicine` writes: the new record first, then the old list. */
  function Added(s: seq<Medicine>, med: Medicine): (r: seq<Medicine>)
    ensures |r| == |s| + 1 && r[1..] == s
    ensures r[0].id == med.id
    ensures r[0].status == if med.status.None? then Some(Scheduled) else med.status
    ensures r[0].(status := med.status) == med
  {
    [WithDefaultStatus(med)] + s
  }

  /** The list `updateMedicine` writes: merge into the first record with
      the same id, or insert at the front when there is none. */
  function Upserted(s: seq<Medicine>, u: Medicine): seq<Medicine>
  {
    var i := FindIndex(s, u.id);
    if i == -1 then [u] + s else s[i := Merge(s[i], u)]
  }

  /** The list `deleteMedicine` writes: `meds.filter(m => m.id !== id)`. */
  function WithoutId(s: seq<Medicine>, id: string): (r: seq<Medicine>)
    ensures IsSubseq(r, s)
    ensures forall m :: m in r <==> m in s && m.id != id
    ensures forall m :: multiset(r)[m] == if m.id != id then multiset(s)[m] else 0
  {
    Filter(s, (m: Medicine) => m.id != id)
  }

  lemma WithoutIdDropsId(s: seq<Medicine>, id: string)
    ensures id !in Ids(WithoutId(s, id))
  {
    var r := WithoutId(s, id);
    forall k | 0 <= k < |r|
      ensures Ids(r)[k] != id
    {
      assert r[k] in r;
    }
  }

  /** The device storage, reduced to the one slot the app uses. */
  class Store {
    var slot: Slot
    /** Whether the storage currently accepts writes; when it does not,
        `AsyncStorage.setItem` throws and so does every mutating operation. */
    var writable: bool

    constructor (slot: Slot, writable: bool)
      ensures this.slot == slot && this.writable == writable
    {
      this.slot := slot;
      this.writable := writable;
    }

    /** `loadMedicines`: the stored list, or the empty list when the slot is
        missing, empty or corrupt. */
    function Load(): (meds: seq<Medicine>)
      reads this
      ensures slot.Stored? ==> meds == slot.meds
      ensures !slot.Stored? ==> meds == []
    {
      Decode(slot)
    }

    /** `saveMedicines`: replaces the whole list, or fails and leaves the slot as it was. */
    method Save(list: seq<Medicine>) returns (ok: bool)
      modifies this
      ensures writable == old(writable) && ok == writable
      ensures slot == if ok then Stored(list) else old(slot)
      ensures ok ==> Load() == list
    {
      ok := writable;
      if ok {
        slot := Stored(list);
      }
    }

    /** `addMedicine`: the record, with its status defaulted, goes in front. */
    method Add(med: Medicine) returns (ok: bool)
      modifies this
      ensures writable == old(writable) && ok == writable
      ensures slot == if ok then Stored(Added(old(Load()), med)) else old(slot)
    {
      var meds := Load();
      var toSave := [WithDefaultStatus(med)] + meds;
      ok := Save(toSave);
    }

    /** `updateMedicine`: an upsert by id on the loaded list. */
    method Update(updated: Medicine) returns (ok: bool)
      modifies this
      ensures writable == old(writable) && ok == writable
      ensures slot == if ok then Stored(Upserted(old(Load()), updated)) else old(slot)
    {
      var meds := Load();
      var idx := FindIndex(meds, updated.id);
      if idx == -1 {
        meds := [updated] + meds;
      } else {
        meds := meds[idx := Merge(meds[idx], updated)];
      }
      ok := Save(meds);
    }

    /** `deleteMedicine`, also exported as `removeMedicine`. */
    method Delete(id: string) returns (ok: bool)
      modifies this
      ensures writable == old(writable) && ok == writable
      ensures slot == if ok then Stored(WithoutId(old(Load()), id)) else old(slot)
      ensures ok ==> id !in Ids(Load())
    {
      var meds := Load();
      var filtered := WithoutId(meds, id);
      WithoutIdDropsId(meds, id);
      ok := Save(filtered);
    }
  }

  /** Deleting the id of a record just added takes away the new record
      together with every stored record of that id; for an id that was not
      stored, it gives back exactly the list before the add. */
  lemma DeleteUndoesAdd(s: seq<Medicine>, med: Medicine)
    ensures WithoutId(Added(s, med), med.id) == WithoutId(s, med.id)
    ensures med.id !in Ids(s) ==> WithoutId(Added(s, med), med.id) == s
  {
    var a := Added(s, med);
    assert a == [a[0]] + s;
    DeleteAbsentOrTwice(s, med.id);
  }

  /** `addMedicine` does not check ids: adding a record whose id is already
      stored leaves two records with that id. */
  lemma AddKeepsDuplicates(s: seq<Medicine>, med: Medicine)
    ensures multiset(Ids(Added(s, med)))[med.id] == multiset(Ids(s))[med.id] + 1
  {
    var r := Added(s, med);
    assert r == [WithDefaultStatus(med)] + s;
    IdsCons(WithDefaultStatus(med), s);
    assert Ids(r) == [med.id] + Ids(s);
    assert multiset(Ids(r)) == multiset{med.id} + multiset(Ids(s));
  }

  /** Hence adding a record under a stored id breaks the uniqueness of ids. */
  lemma AddDuplicateBreaksUnique(s: seq<Medicine>, med: Medicine)
    requires med.id in Ids(s)
    ensures !UniqueIds(Added(s, med))
  {
    var r := Added(s, med);
    {
      var k :| 0 <= k < |s| && Ids(s)[k] == med.id;
      assert r[0].id == r[k + 1].id;
    }
  }

  /** Adding a record with a fresh id keeps ids unique. */
  lemma {:induction false} AddFreshKeepsUnique(s: seq<Medicine>, med: Medicine)
    requires UniqueIds(s) && med.id !in Ids(s)
    ensures UniqueIds(Added(s, med))
  {
    var r := Added(s, med);
    forall i, j | 0 <= i < j < |r|
      ensures r[i].id != r[j].id
    {
      if i == 0 {
        assert r[j].id == Ids(s)[j - 1];
      } else {
        assert r[i] == s[i - 1] && r[j] == s[j - 1];
      }
    }
  }

  /** Upserting a record whose id is not stored puts it at index 0 and
      shifts every other record by one. */
  lemma UpsertAbsent(s: seq<Medicine>, u: Medicine)
    requires forall k :: 0 <= k < |s| ==> s[k].id != u.id
    ensures Upserted(s, u) == [u] + s
  {
    assert u.id !in Ids(s);
  }

  /** Upserting a stored id changes only the first record with that id,
      which becomes its old fields overridden by the update's fields. */
  lemma UpsertPresent(s: seq<Medicine>, u: Medicine, i: nat)
    requires i < |s| && s[i].id == u.id
    requires forall k :: 0 <= k < i ==> s[k].id != u.id
    ensures |Upserted(s, u)| == |s|
    ensures Upserted(s, u)[i] == Merge(s[i], u)
    ensures forall k :: 0 <= k < |s| && k != i ==> Upserted(s, u)[k] == s[k]
  {
    assert u.id in Ids(s) by { assert Ids(s)[i] == u.id; }
  }

  /** Applying the same update twice gives the list applying it once gives. */
  lemma UpsertIdempotent(s: seq<Medicine>, u: Medicine)
    ensures Upserted(Upserted(s, u), u) == Upserted(s, u)
  {
    var i := FindIndex(s, u.id);
    if i == -1 {
      UpsertIdempotentAbsent(s, u);
    } else {
      UpsertIdempotentPresent(s, u, i);
    }
  }

  lemma UpsertIdempotentAbsent(s: seq<Medicine>, u: Medicine)
    requires FindIndex(s, u.id) == -1
    ensures Upserted(Upserted(s, u), u) == Upserted(s, u)
  {
    var r := [u] + s;
    assert r[0].id == u.id;
    assert FindIndex(r, u.id) == 0;
    MergeOntoSource(u, u);
    UpdateSame(r, 0, Merge(r[0], u));
  }

  lemma UpsertIdempotentPresent(s: seq<Medicine>, u: Medicine, i: nat)
    requires i < |s| && FindIndex(s, u.id) == i
    ensures Upserted(Upserted(s, u), u) == Upserted(s, u)
  {
    var m := Merge(s[i], u);
    var r := s[i := m];
    assert Upserted(s, u) == r;
    assert forall k :: 0 <= k < i ==> r[k] == s[k];
    FindIndexAt(r, u.id, i);
    MergeIdempotent(s[i], u);
    assert Upserted(r, u) == r[i := m];
    UpdateSame(r, i, m);
  }

  lemma UpdateSame<T>(s: seq<T>, i: nat, x: T)
    requires i < |s| && s[i] == x
    ensures s[i := x] == s
  {
  }

  /** The first record with `id` is at index `i`. */
  lemma FindIndexAt(s: seq<Medicine>, id: string, i: nat)
    requires i < |s| && s[i].id == id
    requires forall k :: 0 <= k < i ==> s[k].id != id
    ensures FindIndex(s, id) == i
  {
    assert Ids(s)[i] == id;
  }

  /** Upserting a record whose id is stored leaves the ids of the list as they were. */
  lemma UpsertKeepsIds(s: seq<Medicine>, u: Medicine)
    requires u.id in Ids(s)
    ensures Ids(Upserted(s, u)) == Ids(s)
  {
  }

  /** Upserting keeps ids unique. */
  lemma UpsertKeepsUnique(s: seq<Medicine>, u: Medicine)
    requires UniqueIds(s)
    ensures UniqueIds(Upserted(s, u))
  {
    var r := Upserted(s, u);
    if FindIndex(s, u.id) == -1 {
      forall i, j | 0 <= i < j < |r|
        ensures r[i].id != r[j].id
      {
        if i == 0 {
          assert r[j].id == Ids(s)[j - 1];
        } else {
          assert r[i] == s[i - 1] && r[j] == s[j - 1];
        }
      }
    } else {
      UpsertKeepsIds(s, u);
      assert forall k :: 0 <= k < |r| ==> r[k].id == Ids(s)[k];
    }
  }

  /** Deleting an id that is not stored leaves the list as it was, and
      deleting twice is deleting once. */
  lemma DeleteAbsentOrTwice(s: seq<Medicine>, id: string)
    ensures id !in Ids(s) ==> WithoutId(s, id) == s
    ensures WithoutId(WithoutId(s, id), id) == WithoutId(s, id)
  {
    if id !in Ids(s) {
      FilterKeepsAll(s, (m: Medicine) => m.id != id);
    }
    FilterIdempotent(s, (m: Medicine) => m.id != id);
  }

  lemma UniqueTail(s: seq<Medicine>)
    requires |s| > 0 && UniqueIds(s)
    ensures UniqueIds(s[1..])
  {
    forall i, j | 0 <= i < j < |s| - 1
      ensures s[1..][i].id != s[1..][j].id
    {
      assert s[1..][i] == s[i + 1] && s[1..][j] == s[j + 1];
    }
  }

  /** A subsequence of a list with unique ids has unique ids. */
  lemma {:induction false} SubseqKeepsUnique(a: seq<Medicine>, b: seq<Medicine>)
    requires IsSubseq(a, b) && UniqueIds(b)
    ensures UniqueIds(a)
    decreases |b|
  {
    if |a| == 0 {
    } else if a[0] == b[0] && IsSubseq(a[1..], b[1..]) {
      UniqueTail(b);
      SubseqKeepsUnique(a[1..], b[1..]);
      SubseqMembers(a[1..], b[1..]);
      forall i, j | 0 <= i < j < |a|
        ensures a[i].id != a[j].id
      {
        assert a[j] == a[1..][j - 1];
        if i == 0 {
          assert a[j] in b[1..];
          var k :| 0 <= k < |b| - 1 && b[1..][k] == a[j];
          assert b[k + 1] == a[j];
        } else {
          assert a[i] == a[1..][i - 1];
        }
      }
    } else {
      UniqueTail(b);
      SubseqKeepsUnique(a, b[1..]);
    }
  }

  /** Deleting keeps ids unique. */
  lemma DeleteKeepsUnique(s: seq<Medicine>, id: string)
    requires UniqueIds(s)
    ensures UniqueIds(WithoutId(s, id))
  {
    SubseqKeepsUnique(WithoutId(s, id), s);
  }
}
