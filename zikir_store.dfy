/** The counter store (src/store/zikirStore.ts): the list of counters and the selected one,
    each action writing through the persistence service first and changing the state only
    when that write succeeds. */
module ZikirStoreModel {
  import opened Results
  import opened Types
  import opened Ordering
  import opened Database
  import opened Storage
  import opened Constants

  /** A store action that failed in the database or in key-value storage. */
  datatype StoreError = DbFailed(dbError: DbError) | StorageFailed(storageError: StorageError)

  /** `zikirs.map(z => z.id === id ? updated : z)`. */
  function ReplaceById(zs: seq<Zikir>, id: Id, updated: Zikir): (r: seq<Zikir>)
    ensures |r| == |zs|
    ensures forall i :: 0 <= i < |zs| ==> r[i] == if zs[i].id == id then updated else zs[i]
  {
    seq(|zs|, i requires 0 <= i < |zs| => if zs[i].id == id then updated else zs[i])
  }

  /** Every element of the rewritten list is the replacement or an untouched element with
      another id; the rewrite keeps every id in place. */
  lemma ReplaceByIdMembers(zs: seq<Zikir>, updated: Zikir)
    ensures forall z :: z in ReplaceById(zs, updated.id, updated) ==> z == updated || (z in zs && z.id != updated.id)
    ensures forall i :: 0 <= i < |zs| ==> ReplaceById(zs, updated.id, updated)[i].id == zs[i].id
  {
    var r := ReplaceById(zs, updated.id, updated);
    forall z | z in r ensures z == updated || (z in zs && z.id != updated.id) {
      var i :| 0 <= i < |r| && r[i] == z;
    }
  }

  /** Rewriting one counter with a non-negative count keeps every count non-negative. */
  lemma NonNegativeAfterReplace(zs: seq<Zikir>, updated: Zikir)
    requires forall z :: z in zs ==> z.count >= 0
    requires updated.count >= 0
    ensures forall z :: z in ReplaceById(zs, updated.id, updated) ==> z.count >= 0
  {
    ReplaceByIdMembers(zs, updated);
  }

  /** The selection after a load: the counter with the persisted id when the id is set
      (non-empty) and present, otherwise the first counter, otherwise none. */
  function InitialSelection(zs: seq<Zikir>, saved: Option<Id>): (r: Option<Zikir>)
    ensures r.None? <==> zs == []
    ensures r.Some? ==> r.value in zs
    ensures Truthy(saved) && (exists z :: z in zs && z.id == saved.value) ==>
              r.Some? && r.value.id == saved.value
    ensures (!Truthy(saved) || forall z :: z in zs ==> z.id != saved.value) ==>
              r == if zs == [] then None else Some(zs[0])
  {
    var first := if zs == [] then None else Some(zs[0]);
    if Truthy(saved) then
      match FindZikir(zs, saved.value)
      case Some(z) => Some(z)
      case None => first
    else first
  }

  /** The selection after deleting the selected counter: the first one left, or none. */
  function Fallback(remaining: seq<Zikir>): (r: Option<Zikir>)
    ensures r.None? <==> remaining == []
    ensures r.Some? ==> r.value == remaining[0] && r.value in remaining
  {
    if remaining == [] then None else Some(remaining[0])
  }

  /** The counter `createCustomZikir(name, arabicText, target)` asks the database to store;
      the target defaults to 33. */
  function CustomDraft(name: string, arabicText: Option<string>, target: Option<int>): (d: ZikirDraft)
    ensures d.name == name && d.arabicText == arabicText && d.transliteration == Some(name)
    ensures d.count == 0 && d.isCustom
    ensures d.target == if target.Some? then target.value else 33
  {
    ZikirDraft(name, arabicText, Some(name), 0, if target.Some? then target.value else 33, true)
  }

  /** A counter as the store holds it agrees with its row: looking its id up returns it, as
      stored. */
  predicate Mirrors(view: Zikir, rows: seq<Zikir>) {
    FindZikir(rows, view.id) == Some(AsStored(view))
  }

  /** Rows as the database holds them: unique ids and texts already normalised. */
  predicate StoredRows(rows: seq<Zikir>) {
    UniqueIds(rows) && forall z :: z in rows ==> AsStored(z) == z
  }

  predicate NonNegative(zs: seq<Zikir>) {
    forall z :: z in zs ==> z.count >= 0
  }

  /** Rewriting the selected counter in the store and its row in the database the same way
      keeps every counter of the store mirrored. */
  lemma MirrorsAfterReplace(view: seq<Zikir>, rows: seq<Zikir>, out: seq<Zikir>, updated: Zikir)
    requires forall z :: z in view ==> Mirrors(z, rows)
    requires Mirrors(updated, out)
    requires forall other :: other != updated.id ==> FindZikir(out, other) == FindZikir(rows, other)
    ensures forall z :: z in ReplaceById(view, updated.id, updated) ==> Mirrors(z, out)
  {
    ReplaceByIdMembers(view, updated);
  }

  /** Loading from well-formed rows mirrors every row. */
  lemma LoadedRowsMirror(rows: seq<Zikir>)
    requires StoredRows(rows)
    ensures forall z :: z in SortBy(rows, CreatedNoLater) ==> Mirrors(z, rows)
  {
    forall z | z in SortBy(rows, CreatedNoLater) ensures Mirrors(z, rows) {
      SortByMembers(rows, CreatedNoLater, z);
      FindUnique(rows, z);
    }
  }

  /** Deleting one id in both places keeps every remaining counter mirrored. */
  lemma MirrorsAfterDelete(view: seq<Zikir>, rows: seq<Zikir>, id: Id)
    requires forall z :: z in view ==> Mirrors(z, rows)
    ensures forall z :: z in DeleteZikirRows(view, id) ==> Mirrors(z, DeleteZikirRows(rows, id))
  {
    forall z | z in DeleteZikirRows(view, id) ensures Mirrors(z, DeleteZikirRows(rows, id)) {
      FindAfterDelete(rows, id, z.id);
    }
  }

  /** Appending a new counter under an unused id in both places keeps every counter mirrored. */
  lemma MirrorsAfterCreate(view: seq<Zikir>, rows: seq<Zikir>, d: ZikirDraft, s: Stamp)
    requires forall z :: z in view ==> Mirrors(z, rows)
    requires forall z :: z in rows ==> z.id != s.id
    ensures forall z :: z in view + [Created(d, s)] ==> Mirrors(z, rows + [ZikirRow(d, s)])
  {
    CreateThenFind(rows, d, s);
    forall z | z in view + [Created(d, s)] ensures Mirrors(z, rows + [ZikirRow(d, s)]) {
      if z in view {
        FindAppendOther(rows, ZikirRow(d, s), z.id);
      }
    }
  }

  /** Overwriting the count of a mirrored counter in its row mirrors the overwritten counter. */
  lemma MirrorsAfterSetCount(rows: seq<Zikir>, sel: Zikir, count: int)
    requires Mirrors(sel, rows)
    ensures Mirrors(sel.(count := count), SetCount(rows, sel.id, count))
    ensures forall other :: other != sel.id ==> FindZikir(SetCount(rows, sel.id, count), other) == FindZikir(rows, other)
  {
    SetCountOnlyThatRow(rows, sel.id, count);
  }

  lemma MirrorsAfterSetTarget(rows: seq<Zikir>, sel: Zikir, target: int)
    requires Mirrors(sel, rows)
    ensures Mirrors(sel.(target := target), SetTarget(rows, sel.id, target))
    ensures forall other :: other != sel.id ==> FindZikir(SetTarget(rows, sel.id, target), other) == FindZikir(rows, other)
  {
    SetTargetOnlyThatRow(rows, sel.id, target);
  }

  class ZikirStore {
    var zikirs: seq<Zikir>
    var selected: Option<Zikir>
    var isLoading: bool
    var error: Option<string>
    const db: DatabaseService
    const storage: StorageService

    constructor (database: DatabaseService, keyValue: StorageService)
      ensures db == database && storage == keyValue
      ensures zikirs == [] && selected.None? && !isLoading && error.None?
    {
      db, storage := database, keyValue;
      zikirs, selected := [], None;
      isLoading, error := false, None;
    }

    /** Every counter the store holds, and the selected one, agrees with its row. */
    predicate Synced()
      reads this, db
    {
      && (forall z :: z in zikirs ==> Mirrors(z, db.zikirs))
      && (selected.Some? ==> Mirrors(selected.value, db.zikirs))
    }

    /** No count the store holds is negative. */
    predicate CountsNonNegative()
      reads this
    {
      NonNegative(zikirs) && (selected.Some? ==> selected.value.count >= 0)
    }

    /** `loadZikirs`: every row oldest first, and the persisted selection restored. */
    method LoadZikirs()
      modifies this`zikirs, this`selected, this`isLoading, this`error
      ensures !isLoading
      ensures db.open ==> error.None? && zikirs == SortBy(db.zikirs, CreatedNoLater)
      ensures db.open ==> selected == InitialSelection(zikirs, storage.GetSelectedZikirId())
      ensures !db.open ==> error == Some("Failed to load zikirs")
      ensures !db.open ==> zikirs == old(zikirs) && selected == old(selected)
      ensures db.open && StoredRows(db.zikirs) ==> Synced()
      ensures db.open && NonNegative(db.zikirs) ==> CountsNonNegative()
    {
      isLoading, error := true, None;
      var all := db.GetAllZikirs();
      if all.Err? {
        error, isLoading := Some("Failed to load zikirs"), false;
        return;
      }
      var savedId := storage.GetSelectedZikirId();
      zikirs := all.value;
      selected := InitialSelection(zikirs, savedId);
      isLoading := false;
      if StoredRows(db.zikirs) {
        LoadedRowsMirror(db.zikirs);
      }
      assert forall z :: z in zikirs <==> z in db.zikirs by {
        forall z ensures z in zikirs <==> z in db.zikirs {
          SortByMembers(db.zikirs, CreatedNoLater, z);
        }
      }
    }

    /** `selectZikir`: persist the id, then select. */
    method SelectZikir(z: Zikir)
      modifies this`selected, storage`items
      ensures storage.items == if storage.available then old(storage.items)[SelectedZikirKey := z.id]
                               else old(storage.items)
      ensures storage.available ==> selected == Some(z) && SelectedIn(storage.items) == Some(z.id)
      ensures !storage.available ==> selected == old(selected)
      ensures old(Synced()) && z in zikirs ==> Synced()
      ensures old(CountsNonNegative()) && z in zikirs ==> CountsNonNegative()
    {
      var r := storage.SaveSelectedZikirId(z.id);
      if r.Done? {
        selected := Some(z);
      }
    }

    /** `incrementCount`: the selected count goes up by exactly one, in the selection, in
        the list and in the database; nothing happens with no selection. */
    method IncrementCount()
      modifies this`zikirs, this`selected, db`zikirs
      ensures old(selected).None? || !db.open ==>
                zikirs == old(zikirs) && selected == old(selected) && db.zikirs == old(db.zikirs)
      ensures old(selected).Some? && db.open ==>
                var sel := old(selected).value;
                var updated := sel.(count := sel.count + 1);
                && selected == Some(updated)
                && zikirs == ReplaceById(old(zikirs), sel.id, updated)
                && db.zikirs == SetCount(old(db.zikirs), sel.id, sel.count + 1)
      ensures old(Synced()) ==> Synced()
      ensures old(CountsNonNegative()) ==> CountsNonNegative()
    {
      if selected.None? {
        return;
      }
      var sel := selected.value;
      var newCount := sel.count + 1;
      var updated := sel.(count := newCount);
      var r := db.UpdateZikirCount(sel.id, newCount);
      if r.Failed? {
        return;
      }
      if old(Synced()) {
        MirrorsAfterSetCount(old(db.zikirs), sel, newCount);
        MirrorsAfterReplace(zikirs, old(db.zikirs), db.zikirs, updated);
      }
      if old(CountsNonNegative()) {
        NonNegativeAfterReplace(zikirs, updated);
      }
      selected, zikirs := Some(updated), ReplaceById(zikirs, sel.id, updated);
    }

    /** `decrementCount`: nothing at count 0 or with no selection; otherwise down by one. */
    method DecrementCount()
      modifies this`zikirs, this`selected, db`zikirs
      ensures old(selected).None? || old(selected).value.count == 0 || !db.open ==>
                zikirs == old(zikirs) && selected == old(selected) && db.zikirs == old(db.zikirs)
      ensures old(selected).Some? && old(selected).value.count != 0 && db.open ==>
                var sel := old(selected).value;
                var updated := sel.(count := sel.count - 1);
                && selected == Some(updated)
                && zikirs == ReplaceById(old(zikirs), sel.id, updated)
                && db.zikirs == SetCount(old(db.zikirs), sel.id, sel.count - 1)
      ensures old(Synced()) ==> Synced()
      ensures old(CountsNonNegative()) ==> CountsNonNegative()
    {
      if selected.None? || selected.value.count == 0 {
        return;
      }
      var sel := selected.value;
      var newCount := sel.count - 1;
      var updated := sel.(count := newCount);
      var r := db.UpdateZikirCount(sel.id, newCount);
      if r.Failed? {
        return;
      }
      if old(Synced()) {
        MirrorsAfterSetCount(old(db.zikirs), sel, newCount);
        MirrorsAfterReplace(zikirs, old(db.zikirs), db.zikirs, updated);
      }
      if old(CountsNonNegative()) {
        NonNegativeAfterReplace(zikirs, updated);
      }
      selected, zikirs := Some(updated), ReplaceById(zikirs, sel.id, updated);
    }

    /** `resetCount`: the selected count becomes 0 in all three places. */
    method ResetCount()
      modifies this`zikirs, this`selected, db`zikirs
      ensures old(selected).None? || !db.open ==>
                zikirs == old(zikirs) && selected == old(selected) && db.zikirs == old(db.zikirs)
      ensures old(selected).Some? && db.open ==>
                var sel := old(selected).value;
                && selected == Some(sel.(count := 0))
                && zikirs == ReplaceById(old(zikirs), sel.id, sel.(count := 0))
                && db.zikirs == SetCount(old(db.zikirs), sel.id, 0)
      ensures old(Synced()) ==> Synced()
      ensures old(CountsNonNegative()) ==> CountsNonNegative()
    {
      if selected.None? {
        return;
      }
      var sel := selected.value;
      var updated := sel.(count := 0);
      var r := db.ResetZikirCount(sel.id);
      if r.Failed? {
        return;
      }
      if old(Synced()) {
        MirrorsAfterSetCount(old(db.zikirs), sel, 0);
        MirrorsAfterReplace(zikirs, old(db.zikirs), db.zikirs, updated);
      }
      ReplaceByIdMembers(zikirs, updated);
      selected, zikirs := Some(updated), ReplaceById(zikirs, sel.id, updated);
    }

    /** `updateTarget(target)`: only the selected counter's target changes. */
    method UpdateTarget(target: int)
      modifies this`zikirs, this`selected, db`zikirs
      ensures old(selected).None? || !db.open ==>
                zikirs == old(zikirs) && selected == old(selected) && db.zikirs == old(db.zikirs)
      ensures old(selected).Some? && db.open ==>
                var sel := old(selected).value;
                && selected == Some(sel.(target := target))
                && zikirs == ReplaceById(old(zikirs), sel.id, sel.(target := target))
                && db.zikirs == SetTarget(old(db.zikirs), sel.id, target)
      ensures old(Synced()) ==> Synced()
      ensures old(CountsNonNegative()) ==> CountsNonNegative()
    {
      if selected.None? {
        return;
      }
      var sel := selected.value;
      var updated := sel.(target := target);
      var r := db.UpdateZikirTarget(sel.id, target);
      if r.Failed? {
        return;
      }
      if old(Synced()) {
        MirrorsAfterSetTarget(old(db.zikirs), sel, target);
        MirrorsAfterReplace(zikirs, old(db.zikirs), db.zikirs, updated);
      }
      ReplaceByIdMembers(zikirs, updated);
      selected, zikirs := Some(updated), ReplaceById(zikirs, sel.id, updated);
    }

    /** `saveToHistory`: nothing at count 0 or with no selection; otherwise one ledger entry
        with the selected id, name and count, then the count is reset. */
    method SaveToHistory(s: Stamp)
      modifies this`zikirs, this`selected, db`zikirs, db`history
      ensures old(selected).None? || old(selected).value.count == 0 || !db.open ==>
                && zikirs == old(zikirs) && selected == old(selected)
                && db.zikirs == old(db.zikirs) && db.history == old(db.history)
      ensures old(selected).Some? && old(selected).value.count != 0 && db.open ==>
                var sel := old(selected).value;
                && db.history == old(db.history) + [HistoryEntry(sel.id, sel.name, sel.count, s)]
                && selected == Some(sel.(count := 0))
                && zikirs == ReplaceById(old(zikirs), sel.id, sel.(count := 0))
                && db.zikirs == SetCount(old(db.zikirs), sel.id, 0)
      ensures old(Synced()) ==> Synced()
      ensures old(CountsNonNegative()) ==> CountsNonNegative()
    {
      if selected.None? || selected.value.count == 0 {
        return;
      }
      var sel := selected.value;
      var r := db.SaveZikirHistory(sel.id, sel.name, sel.count, s);
      if r.Failed? {
        return;
      }
      ResetCount();
    }

    /** `createCustomZikir`: one new counter at the end of the list; a database failure is
        rethrown and changes nothing. */
    method CreateCustomZikir(name: string, arabicText: Option<string>, target: Option<int>, s: Stamp)
      returns (r: Status<DbError>)
      modifies this`zikirs, db`zikirs
      ensures r.Done? <==> db.open
      ensures r.Done? ==> zikirs == old(zikirs) + [Created(CustomDraft(name, arabicText, target), s)]
      ensures r.Done? ==> db.zikirs == old(db.zikirs) + [ZikirRow(CustomDraft(name, arabicText, target), s)]
      ensures r.Failed? ==> zikirs == old(zikirs) && db.zikirs == old(db.zikirs)
      ensures selected == old(selected)
      ensures old(Synced()) && (forall z :: z in old(db.zikirs) ==> z.id != s.id) ==> Synced()
      ensures old(CountsNonNegative()) ==> CountsNonNegative()
    {
      var d := CustomDraft(name, arabicText, target);
      var created := db.CreateZikir(d, s);
      if created.Err? {
        return Failed(created.error);
      }
      if old(Synced()) && (forall z :: z in old(db.zikirs) ==> z.id != s.id) {
        MirrorsAfterCreate(zikirs, old(db.zikirs), d, s);
        if selected.Some? {
          FindAppendOther(old(db.zikirs), ZikirRow(d, s), selected.value.id);
        }
      }
      zikirs := zikirs + [created.value];
      r := Done;
    }

    /** `deleteZikir(id)`: the row and the list entry go; a deleted selection falls back to
        the first counter left, whose id is persisted first. A failure is rethrown; a failed
        persist leaves the store as it was although the row is already gone. */
    method DeleteZikir(id: Id) returns (r: Status<StoreError>)
      modifies this`zikirs, this`selected, db`zikirs, storage`items
      ensures !old(db.open) ==> r == Failed(DbFailed(NotInitialized))
      ensures db.zikirs == if db.open then DeleteZikirRows(old(db.zikirs), id) else old(db.zikirs)
      ensures var remaining := DeleteZikirRows(old(zikirs), id);
              var moves := old(selected).Some? && old(selected).value.id == id;
              var next := if moves then Fallback(remaining) else old(selected);
              && (r.Done? <==> db.open && (moves && next.Some? ==> storage.available))
              && (r.Done? ==> zikirs == remaining && selected == next)
              && (r.Done? && moves && next.Some? ==> SelectedIn(storage.items) == Some(next.value.id))
              && (r.Failed? ==> zikirs == old(zikirs) && selected == old(selected))
              && (storage.items == if old(db.open) && moves && next.Some? && storage.available
                                   then old(storage.items)[SelectedZikirKey := next.value.id]
                                   else old(storage.items))
      ensures r.Done? && old(Synced()) ==> Synced()
      ensures old(CountsNonNegative()) ==> CountsNonNegative()
    {
      var d := db.DeleteZikir(id);
      if d.Failed? {
        return Failed(DbFailed(d.error));
      }
      var remaining := DeleteZikirRows(zikirs, id);
      var next := selected;
      if selected.Some? && selected.value.id == id {
        next := Fallback(remaining);
        if next.Some? {
          var saved := storage.SaveSelectedZikirId(next.value.id);
          if saved.Failed? {
            return Failed(StorageFailed(saved.error));
          }
        }
      }
      if old(Synced()) {
        MirrorsAfterDelete(zikirs, old(db.zikirs), id);
        if selected.Some? && selected.value.id != id {
          FindAfterDelete(old(db.zikirs), id, selected.value.id);
        }
      }
      zikirs, selected := remaining, next;
      r := Done;
    }
  }
}
