/** The counter screen's handlers (src/features/zikirmatik/screens/ZikirmatikScreen.tsx):
    target editing, the add-counter form, and today's ledger. */
module ZikirmatikScreenModel {
  import opened Results
  import opened Types
  import opened Text
  import opened Database
  import opened ZikirStoreModel

  /** The alerts the handlers raise. */
  datatype Notice =
    | InvalidNumber   // 'Geçerli bir sayı girin'
    | MissingName     // 'Lütfen zikir adı girin'
    | InvalidTarget   // 'Geçerli bir hedef sayısı girin'
    | ZikirAdded      // 'Yeni zikir eklendi'
    | AddFailed       // 'Zikir eklenirken bir hata oluştu'

  /** `parseInt(text, 10)` is a number greater than 0. */
  predicate IsPositiveNumber(text: string) {
    ParseInt(text).Some? && ParseInt(text).value > 0
  }

  /** What the target field is reset to after a rejected edit. */
  function TargetFallback(selected: Option<Zikir>): (t: string)
    ensures selected.None? ==> t == "33"
    ensures selected.Some? ==> ParseInt(t) == Some(selected.value.target)
  {
    if selected.Some? then
      ParseIntOfIntToString(selected.value.target);
      IntToString(selected.value.target)
    else "33"
  }

  /** The add form's verdict: the trimmed name must be non-empty, then the target must be
      a positive number. */
  function AddFormCheck(name: string, target: string): (r: Result<int, Notice>)
    ensures r.Ok? <==> !IsBlank(name) && IsPositiveNumber(target)
    ensures r.Ok? ==> Some(r.value) == ParseInt(target) && r.value > 0
    ensures r.Err? ==> r.error == if IsBlank(name) then MissingName else InvalidTarget
  {
    if Trim(name) == "" then Err(MissingName)
    else
      var t := ParseInt(target);
      if t.None? || t.value <= 0 then Err(InvalidTarget) else Ok(t.value)
  }

  /** The form's default target is itself accepted. */
  lemma DefaultTargetAccepted(name: string)
    requires !IsBlank(name)
    ensures AddFormCheck(name, "33") == Ok(33)
  {
    ParseIntOfIntToString(33);
    assert IntToString(33) == "33";
  }

  class ZikirmatikScreen {
    var targetInput: string
    var editingTarget: bool
    var newZikirName: string
    var newZikirTarget: string
    var showAddModal: bool
    var todayHistory: seq<ZikirHistory>
    var loading: bool
    var notice: Option<Notice>
    const store: ZikirStore

    constructor (s: ZikirStore)
      ensures store == s
      ensures targetInput == "" && !editingTarget && newZikirName == "" && newZikirTarget == "33"
      ensures !showAddModal && todayHistory == [] && !loading && notice.None?
    {
      store := s;
      targetInput, editingTarget := "", false;
      newZikirName, newZikirTarget, showAddModal := "", "33", false;
      todayHistory, loading, notice := [], false, None;
    }

    /** `loadTodayHistory`: the range query from today to today, where today is the day of
        the clock reading `now`. */
    method LoadTodayHistory(now: Instant)
      modifies this`todayHistory, this`loading
      ensures !loading
      ensures store.db.open ==> todayHistory == HistoryBetween(store.db.history, DayOf(now), DayOf(now))
      ensures store.db.open ==> forall h :: h in todayHistory <==> h in store.db.history && h.date == DayOf(now)
      ensures !store.db.open ==> todayHistory == old(todayHistory)
    {
      loading := true;
      var today := DayOf(now);
      var r := store.db.GetZikirHistoryByDate(today, today);
      if r.Ok? {
        todayHistory := r.value;
      }
      loading := false;
    }

    /** `handleSaveToHistory`: save first, then reload, so an entry saved today is listed. */
    method HandleSaveToHistory(s: Stamp, now: Instant)
      modifies this`todayHistory, this`loading, store`zikirs, store`selected, store.db`zikirs, store.db`history
      ensures store.db.open ==> todayHistory == HistoryBetween(store.db.history, DayOf(now), DayOf(now))
      ensures old(store.selected).Some? && old(store.selected).value.count != 0 && store.db.open ==>
                var sel := old(store.selected).value;
                && store.db.history == old(store.db.history) + [HistoryEntry(sel.id, sel.name, sel.count, s)]
                && (DayOf(s.at) == DayOf(now) ==> HistoryEntry(sel.id, sel.name, sel.count, s) in todayHistory)
                && store.selected == Some(sel.(count := 0))
                && store.zikirs == ReplaceById(old(store.zikirs), sel.id, sel.(count := 0))
                && store.db.zikirs == SetCount(old(store.db.zikirs), sel.id, 0)
      ensures old(store.selected).None? || old(store.selected).value.count == 0 || !store.db.open ==>
                && store.db.history == old(store.db.history) && store.db.zikirs == old(store.db.zikirs)
                && store.zikirs == old(store.zikirs) && store.selected == old(store.selected)
      ensures old(store.Synced()) ==> store.Synced()
      ensures old(store.CountsNonNegative()) ==> store.CountsNonNegative()
    {
      var sel := store.selected;
      store.SaveToHistory(s);
      LoadTodayHistory(now);
      if sel.Some? && sel.value.count != 0 && store.db.open {
        var h := HistoryEntry(sel.value.id, sel.value.name, sel.value.count, s);
        assert h in store.db.history;
      }
    }

    /** `handleTargetChange`: a positive number with a selection becomes the target and ends
        editing; anything else raises an alert and resets the field. */
    method HandleTargetChange()
      modifies this`targetInput, this`editingTarget, this`notice
      modifies store`zikirs, store`selected, store.db`zikirs
      ensures var ok := IsPositiveNumber(old(targetInput)) && old(store.selected).Some?;
              && (ok ==> !editingTarget && notice == old(notice))
              && (ok && store.db.open ==>
                    var sel := old(store.selected).value;
                    var t := ParseInt(old(targetInput)).value;
                    && store.selected == Some(sel.(target := t))
                    && store.zikirs == ReplaceById(old(store.zikirs), sel.id, sel.(target := t))
                    && store.db.zikirs == SetTarget(old(store.db.zikirs), sel.id, t)
                    && targetInput == IntToString(t)
                    && ParseInt(targetInput) == Some(t))
              && (ok && !old(store.db.open) ==>
                    && targetInput == old(targetInput) && store.db.zikirs == old(store.db.zikirs)
                    && store.selected == old(store.selected) && store.zikirs == old(store.zikirs))
              && (!ok ==> notice == Some(InvalidNumber) && editingTarget == old(editingTarget))
              && (!ok ==> targetInput == TargetFallback(old(store.selected)))
              && (!ok ==> store.zikirs == old(store.zikirs) && store.selected == old(store.selected))
      ensures store.db.zikirs == old(store.db.zikirs) || (IsPositiveNumber(old(targetInput)) && old(store.selected).Some?)
      ensures old(store.Synced()) ==> store.Synced()
      ensures old(store.CountsNonNegative()) ==> store.CountsNonNegative()
    {
      var parsed := ParseInt(targetInput);
      if parsed.Some? && parsed.value > 0 && store.selected.Some? {
        // A failed write leaves the selection as it was, so the effect does not re-run.
        var wrote := store.db.open;
        store.UpdateTarget(parsed.value);
        editingTarget := false;
        if wrote {
          SyncTargetInput();
        }
      } else {
        notice := Some(InvalidNumber);
        targetInput := TargetFallback(store.selected);
      }
    }

    /** The effect that copies a new selection's target into the field. */
    method SyncTargetInput()
      modifies this`targetInput
      ensures store.selected.Some? ==> targetInput == IntToString(store.selected.value.target)
      ensures store.selected.Some? ==> ParseInt(targetInput) == Some(store.selected.value.target)
      ensures store.selected.None? ==> targetInput == old(targetInput)
    {
      if store.selected.Some? {
        targetInput := IntToString(store.selected.value.target);
        ParseIntOfIntToString(store.selected.value.target);
      }
    }

    /** `handleAddZikir`: checks the form, creates the counter with the untrimmed name and
        no Arabic text, and on success closes and clears the form. */
    method HandleAddZikir(s: Stamp)
      modifies this`notice, this`showAddModal, this`newZikirName, this`newZikirTarget
      modifies store`zikirs, store.db`zikirs
      ensures AddFormCheck(old(newZikirName), old(newZikirTarget)).Err? ==>
                && notice == Some(AddFormCheck(old(newZikirName), old(newZikirTarget)).error)
                && store.zikirs == old(store.zikirs) && store.db.zikirs == old(store.db.zikirs)
                && newZikirName == old(newZikirName) && newZikirTarget == old(newZikirTarget)
                && showAddModal == old(showAddModal)
      ensures AddFormCheck(old(newZikirName), old(newZikirTarget)).Ok? ==>
                AddOutcome(old(newZikirName), old(newZikirTarget), AddFormCheck(old(newZikirName), old(newZikirTarget)).value, s)
      ensures store.selected == old(store.selected)
      ensures old(store.Synced()) && (forall z :: z in old(store.db.zikirs) ==> z.id != s.id) ==> store.Synced()
      ensures old(store.CountsNonNegative()) ==> store.CountsNonNegative()
    {
      var form := AddFormCheck(newZikirName, newZikirTarget);
      if form.Err? {
        notice := Some(form.error);
        return;
      }
      SubmitForm(form.value, s);
    }

    /** What a submitted form with an accepted target leaves behind: the counter appended
        and the form closed and cleared, or, on a closed database, an alert and nothing else
        changed. */
    twostate predicate AddOutcome(name: string, target: string, value: int, s: Stamp)
      reads this, store, store.db
    {
      if store.db.open then
        && store.zikirs == old(store.zikirs) + [Created(CustomDraft(name, None, Some(value)), s)]
        && store.db.zikirs == old(store.db.zikirs) + [ZikirRow(CustomDraft(name, None, Some(value)), s)]
        && notice == Some(ZikirAdded) && !showAddModal && newZikirName == "" && newZikirTarget == "33"
      else
        && notice == Some(AddFailed) && store.zikirs == old(store.zikirs) && store.db.zikirs == old(store.db.zikirs)
        && newZikirName == name && newZikirTarget == target
        && showAddModal == old(showAddModal)
    }

    /** The part of `handleAddZikir` once the form is valid. */
    method SubmitForm(value: int, s: Stamp)
      modifies this`notice, this`showAddModal, this`newZikirName, this`newZikirTarget
      modifies store`zikirs, store.db`zikirs
      ensures AddOutcome(old(newZikirName), old(newZikirTarget), value, s)
      ensures store.selected == old(store.selected)
      ensures old(store.Synced()) && (forall z :: z in old(store.db.zikirs) ==> z.id != s.id) ==> store.Synced()
      ensures old(store.CountsNonNegative()) ==> store.CountsNonNegative()
    {
      var r := store.CreateCustomZikir(newZikirName, None, Some(value), s);
      if r.Failed? {
        notice := Some(AddFailed);
        return;
      }
      showAddModal := false;
      newZikirName := "";
      newZikirTarget := "33";
      notice := Some(ZikirAdded);
    }
  }
}
