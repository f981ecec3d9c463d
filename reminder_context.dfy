/**
 * The JavaScript stack's reminder provider: the two lists the screens show
 * (held copies, re-read from the store by `refreshReminders`) and the
 * operations that change a reminder, each of which talks to the trigger
 * service and the store in a fixed order and then re-reads the lists.
 */
module Context {
  import opened Wrappers
  import opened Sequences
  import opened Reminders
  import opened Platform
  import opened Storage
  import opened BackgroundTasks

  /** Why a provider operation throws: the id is not on either held list, or the store refused. */
  datatype ContextError = ReminderNotFound | StorageFailed(cause: StorageError)

  /** The active tab: the store's active, uncompleted entries by ascending due time. */
  function ActiveView(items: seq<Reminder>): seq<Reminder> {
    SortBy(ActiveOf(items), DateTimeOf)
  }

  /** The completed tab: the store's completed entries, most recently touched first. */
  function CompletedView(items: seq<Reminder>): seq<Reminder> {
    SortBy(CompletedOf(items), UpdatedAtDescKey)
  }

  /**
   * The tabs show exactly the store entries in their lifecycle state, each as
   * often as it is stored, in tab order.
   */
  lemma ViewsShowLifecycle(items: seq<Reminder>, x: Reminder)
    ensures x in ActiveView(items) <==> x in items && InActiveList(x)
    ensures x in CompletedView(items) <==> x in items && InCompletedList(x)
    ensures multiset(ActiveView(items)) == multiset(ActiveOf(items))
    ensures multiset(CompletedView(items)) == multiset(CompletedOf(items))
    ensures SortedBy(ActiveView(items), DateTimeOf) && SortedBy(CompletedView(items), UpdatedAtDescKey)
  {
    SortByMembers(ActiveOf(items), DateTimeOf, x);
    SortByMembers(CompletedOf(items), UpdatedAtDescKey, x);
    FilterMembers(items, InActiveList);
    FilterMembers(items, InCompletedList);
    if x in items {
      var j :| 0 <= j < |items| && items[j] == x;
    }
    if x in ActiveOf(items) {
      var i :| 0 <= i < |ActiveOf(items)| && ActiveOf(items)[i] == x;
    }
    if x in CompletedOf(items) {
      var i :| 0 <= i < |CompletedOf(items)| && CompletedOf(items)[i] == x;
    }
  }

  /** The two tabs together show exactly the stored entries that are not archived. */
  lemma ShownEntries(items: seq<Reminder>, x: Reminder)
    ensures x in ActiveView(items) + CompletedView(items) <==> x in items && !IsArchived(x)
  {
    ViewsShowLifecycle(items, x);
  }

  /**
   * An id is on one of the tabs exactly when some stored entry with that id is
   * not archived; so an archived reminder can be reached by no tab operation.
   */
  lemma ShownIffNotArchived(items: seq<Reminder>, id: string)
    ensures HasId(ActiveView(items) + CompletedView(items), id)
      <==> exists j :: 0 <= j < |items| && items[j].id == id && !IsArchived(items[j])
  {
    var shown := ActiveView(items) + CompletedView(items);
    if HasId(shown, id) {
      var i :| 0 <= i < |shown| && shown[i].id == id;
      ShownEntries(items, shown[i]);
      var j :| 0 <= j < |items| && items[j] == shown[i];
    }
    if exists j :: 0 <= j < |items| && items[j].id == id && !IsArchived(items[j]) {
      var j :| 0 <= j < |items| && items[j].id == id && !IsArchived(items[j]);
      ShownEntries(items, items[j]);
      var i :| 0 <= i < |shown| && shown[i] == items[j];
    }
  }

  /** `list.find(r => r.id === id)`, when there is one. */
  function HeldIn(list: seq<Reminder>, id: string): (r: Reminder)
    requires HasId(list, id)
    ensures r in list && r.id == id
  {
    list[IndexOfId(list, id)]
  }

  /** Every entry of `list` is a stored entry. */
  ghost predicate DrawnFrom(list: seq<Reminder>, items: seq<Reminder>) {
    forall x :: x in list ==> x in items
  }

  /** Both tabs, together, are drawn from the store they were read from. */
  lemma ViewsDrawnFrom(items: seq<Reminder>)
    ensures DrawnFrom(ActiveView(items), items)
    ensures DrawnFrom(ActiveView(items) + CompletedView(items), items)
  {
    forall x | x in ActiveView(items) + CompletedView(items) ensures x in items {
      ViewsShowLifecycle(items, x);
    }
    forall x | x in ActiveView(items) ensures x in items {
      ViewsShowLifecycle(items, x);
    }
  }

  /** The first stored entry with `r`'s id carries `r`'s handle: `r` is a faithful copy as far as triggers go. */
  predicate HandleMatches(items: seq<Reminder>, r: Reminder) {
    HasId(items, r.id) && items[IndexOfId(items, r.id)].notificationId == r.notificationId
  }

  /**
   * With distinct ids in the store, the copy a held list yields for an id is
   * the stored entry with that id.
   */
  lemma HeldIsStored(items: seq<Reminder>, list: seq<Reminder>, id: string)
    requires DrawnFrom(list, items) && HasId(list, id)
    ensures HasId(items, id)
    ensures UniqueIds(items) ==> items[IndexOfId(items, id)] == HeldIn(list, id)
    ensures UniqueIds(items) ==> HandleMatches(items, HeldIn(list, id))
  {
    var r := HeldIn(list, id);
    assert r in items;
    var j :| 0 <= j < |items| && items[j] == r;
  }

  // ---------------------------------------------------------------------------
  // The records the operations write

  /**
   * `updateReminder`'s tab move: the copy is touched and, when it is completed
   * but due in the future, made active again. Nothing else changes.
   */
  function Retabbed(r: Reminder, now: int): (t: Reminder)
    ensures t.updatedAt == now
    ensures t.(updatedAt := r.updatedAt, isActive := r.isActive, isCompleted := r.isCompleted) == r
    ensures r.dateTime > now && r.isCompleted ==> InActiveList(t)
    ensures !(r.dateTime > now && r.isCompleted) ==> t.isActive == r.isActive && t.isCompleted == r.isCompleted
  {
    var touched := r.(updatedAt := now);
    if touched.dateTime > now && touched.isCompleted
    then touched.(isCompleted := false, isActive := true)
    else touched
  }

  /** `updateReminder` asks for a trigger when the record is active, not completed and due in the future. */
  predicate ShouldSchedule(r: Reminder, now: int) {
    r.isActive && !r.isCompleted && r.dateTime > now
  }

  /**
   * After the tab move a trigger is requested exactly for a future reminder
   * that was active or completed: a future archived reminder stays unscheduled.
   * It unfolds `Retabbed` and `ShouldSchedule`; it is stated as a reference point.
   */
  lemma RetabbedSchedules(r: Reminder, now: int)
    ensures ShouldSchedule(Retabbed(r, now), now) <==> r.dateTime > now && (r.isActive || r.isCompleted)
  {
  }

  /** The copy with the handle just obtained, or with its old handle when none was obtained. */
  function WithHandle(r: Reminder, handle: Option<int>): Reminder {
    if handle.Some? then r.(notificationId := handle) else r
  }

  /** The record `updateReminder` stores for the copy `r`, given the handle obtained (if any). */
  function TsUpdated(r: Reminder, now: int, handle: Option<int>): Reminder {
    WithHandle(Retabbed(r, now), handle)
  }

  /**
   * The stored record takes the handle just obtained; when none was obtained it
   * keeps the handle the copy already carried, stale or not. Its id, text and
   * time are the copy's.
   */
  lemma TsUpdatedHandle(r: Reminder, now: int, handle: Option<int>)
    ensures handle.Some? ==> TsUpdated(r, now, handle).notificationId == handle
    ensures handle.None? ==> TsUpdated(r, now, handle).notificationId == r.notificationId
    ensures var u := TsUpdated(r, now, handle);
      && u.id == r.id && u.title == r.title && u.description == r.description && u.dateTime == r.dateTime
      && u.createdAt == r.createdAt && u.updatedAt == now
  {
  }

  /** The record `completeReminder` stores: completed, inactive, touched, with its handle left on it. */
  function TsCompleted(r: Reminder, now: int): Reminder {
    r.(isCompleted := true, isActive := false, updatedAt := now)
  }

  /** The copy `postponeReminder` hands to `updateReminder`: moved by `minutes` minutes and touched. */
  function TsPostponed(r: Reminder, minutes: int, now: int): Reminder {
    r.(dateTime := r.dateTime + minutes * MINUTE_MS, updatedAt := now)
  }

  /**
   * A postponed active reminder is stored active with the new time, and a
   * trigger is requested for it exactly when the new time is in the future.
   */
  lemma PostponedSchedules(r: Reminder, minutes: int, now: int, handle: Option<int>)
    requires InActiveList(r)
    ensures ShouldSchedule(Retabbed(TsPostponed(r, minutes, now), now), now) <==> r.dateTime + minutes * MINUTE_MS > now
    ensures var s := TsUpdated(TsPostponed(r, minutes, now), now, handle);
      && InActiveList(s) && s.dateTime == r.dateTime + minutes * MINUTE_MS && s.updatedAt == now
      && s.id == r.id && s.title == r.title && s.description == r.description && s.createdAt == r.createdAt
    ensures minutes > 0 ==> TsPostponed(r, minutes, now).dateTime > r.dateTime
  {
  }

  /**
   * Completing the active entry with id `id` of a store with distinct ids moves
   * that id from the active tab to the completed tab.
   */
  lemma CompletingMovesTab(items: seq<Reminder>, id: string, now: int)
    requires UniqueIds(items) && HasId(ActiveView(items), id)
    ensures var after := ReplaceFirst(items, TsCompleted(HeldIn(ActiveView(items), id), now));
      HasId(CompletedView(after), id) && !HasId(ActiveView(after), id)
  {
    var held := HeldIn(ActiveView(items), id);
    var c := TsCompleted(held, now);
    ViewsDrawnFrom(items);
    HeldIsStored(items, ActiveView(items), id);
    var k := IndexOfId(items, id);
    var after := ReplaceFirst(items, c);
    assert after == items[k := c];
    ReplaceFirstKeepsIds(items, c);
    ViewsShowLifecycle(after, c);
    var i :| 0 <= i < |CompletedView(after)| && CompletedView(after)[i] == c;
    forall m | 0 <= m < |ActiveView(after)| ensures ActiveView(after)[m].id != id {
      var y := ActiveView(after)[m];
      ViewsShowLifecycle(after, y);
      var j :| 0 <= j < |after| && after[j] == y;
      assert j != k;
      assert after[j].id == items[j].id;
    }
  }

  /** Deleting an id takes it off both tabs. */
  lemma DeletingClearsTabs(items: seq<Reminder>, id: string)
    ensures !HasId(ActiveView(RemoveId(items, id)) + CompletedView(RemoveId(items, id)), id)
  {
    var after := RemoveId(items, id);
    RemoveIdSpec(items, id, Reminder(id, "", "", 0, false, false, 0, 0, None));
    ShownIffNotArchived(after, id);
  }

  // ---------------------------------------------------------------------------
  // Trigger bookkeeping across one store write

  /** A trigger newly carried by a stored entry is tracked. */
  lemma TrackNew(items: seq<Reminder>, pending: map<int, Trigger>, k: int, h: int, t: Trigger)
    requires TrackedIn(items, pending) && 0 <= k < |items| && Carries(items[k], h, t)
    ensures TrackedIn(items, pending[h := t])
  {
    forall g | g in pending || g == h
      ensures exists j :: 0 <= j < |items| && Carries(items[j], g, pending[h := t][g])
    {
      if g == h {
        assert Carries(items[k], g, pending[h := t][g]);
      } else {
        var j :| 0 <= j < |items| && Carries(items[j], g, pending[g]);
        assert Carries(items[j], g, pending[h := t][g]);
      }
    }
  }

  /** Appending an entry keeps every trigger tracked, and keeps ids distinct when its id is new. */
  lemma AppendKeeps(items: seq<Reminder>, pending: map<int, Trigger>, r: Reminder)
    ensures TrackedIn(items, pending) ==> TrackedIn(items + [r], pending)
    ensures UniqueIds(items) && !HasId(items, r.id) ==> UniqueIds(items + [r])
  {
    var after := items + [r];
    if TrackedIn(items, pending) {
      forall h | h in pending ensures exists j :: 0 <= j < |after| && Carries(after[j], h, pending[h]) {
        var j :| 0 <= j < |items| && Carries(items[j], h, pending[h]);
        assert after[j] == items[j];
      }
    }
    if UniqueIds(items) && !HasId(items, r.id) {
      forall i, j | 0 <= i < j < |after| ensures after[i].id != after[j].id {
        if j == |items| {
          assert after[i] == items[i];
        } else {
          assert after[i] == items[i] && after[j] == items[j];
        }
      }
    }
  }

  /**
   * Overwriting the stored entry `r` stands for, once `r`'s handle is
   * cancelled, leaves every other outstanding trigger tracked.
   */
  lemma ReplaceKeepsTracking(items: seq<Reminder>, pending: map<int, Trigger>, r: Reminder, u: Reminder)
    requires TrackedIn(items, pending) && HandleMatches(items, r) && u.id == r.id
    ensures TrackedIn(ReplaceFirst(items, u), WithoutHandle(pending, r.notificationId))
  {
    var after := ReplaceFirst(items, u);
    var rest := WithoutHandle(pending, r.notificationId);
    var k := IndexOfId(items, r.id);
    assert after == items[k := u];
    forall h | h in rest ensures exists j :: 0 <= j < |after| && Carries(after[j], h, rest[h]) {
      var j :| 0 <= j < |items| && Carries(items[j], h, pending[h]);
      assert j != k;
      assert Carries(after[j], h, rest[h]);
    }
  }

  /**
   * Deleting the id of the stored entry `r` stands for, in a store with distinct
   * ids and once `r`'s handle is cancelled, leaves every other trigger tracked.
   */
  lemma RemoveKeepsTracking(items: seq<Reminder>, pending: map<int, Trigger>, r: Reminder)
    requires TrackedIn(items, pending) && UniqueIds(items) && HandleMatches(items, r)
    ensures TrackedIn(RemoveId(items, r.id), WithoutHandle(pending, r.notificationId))
  {
    var after := RemoveId(items, r.id);
    var rest := WithoutHandle(pending, r.notificationId);
    var k := IndexOfId(items, r.id);
    FilterMembers(items, WithoutId(r.id));
    forall h | h in rest ensures exists j :: 0 <= j < |after| && Carries(after[j], h, rest[h]) {
      var j :| 0 <= j < |items| && Carries(items[j], h, pending[h]);
      assert j != k;
      assert items[j].id != items[k].id;
      assert WithoutId(r.id)(items[j]);
      var m :| 0 <= m < |after| && after[m] == items[j];
      assert Carries(after[m], h, rest[h]);
    }
  }

  /**
   * `updateReminder`'s writes keep every outstanding trigger tracked when its
   * copy carries the stored entry's handle.
   */
  lemma UpdateKeepsTracking(items: seq<Reminder>, pending: map<int, Trigger>, after: map<int, Trigger>,
                            accepting: bool, r: Reminder, now: int, handle: Option<int>)
    requires TrackedIn(items, pending) && HandleMatches(items, r)
    requires Retriggered(pending, after, accepting, r.notificationId,
                         ShouldSchedule(Retabbed(r, now), now), Trigger(r.id, r.dateTime), handle)
    ensures TrackedIn(ReplaceFirst(items, TsUpdated(r, now, handle)), after)
  {
    var u := TsUpdated(r, now, handle);
    ReplaceKeepsTracking(items, pending, r, u);
    if handle.Some? {
      var k := IndexOfId(items, r.id);
      assert ReplaceFirst(items, u)[k] == u;
      TrackNew(ReplaceFirst(items, u), WithoutHandle(pending, r.notificationId), k, handle.value, Trigger(r.id, r.dateTime));
    }
  }

  class ReminderProvider {
    const storage: ReminderStorage
    const scheduler: Scheduler
    /** The held copy of the active tab. */
    var activeReminders: seq<Reminder>
    /** The held copy of the completed tab. */
    var completedReminders: seq<Reminder>

    ghost predicate Valid()
      reads this, scheduler
    {
      scheduler.Valid()
    }

    /** The held lists are the tabs of what the store holds now. */
    ghost predicate Synced()
      reads this, storage
    {
      activeReminders == ActiveView(storage.Items()) && completedReminders == CompletedView(storage.Items())
    }

    /** Every outstanding trigger is recorded on a stored entry. */
    ghost predicate Tracked()
      reads this, storage, scheduler
    {
      TrackedIn(storage.Items(), scheduler.pending)
    }

    /** The provider mounts with both lists empty. */
    constructor (storage: ReminderStorage, scheduler: Scheduler)
      requires scheduler.Valid()
      ensures this.storage == storage && this.scheduler == scheduler && Valid()
      ensures activeReminders == [] && completedReminders == []
    {
      this.storage := storage;
      this.scheduler := scheduler;
      activeReminders := [];
      completedReminders := [];
    }

    /** `refreshReminders`: re-reads both tabs from the store and sorts them. */
    method RefreshReminders()
      modifies this
      ensures Synced()
    {
      var active := storage.GetActiveReminders();
      var completed := storage.GetCompletedReminders();
      activeReminders := SortBy(active, DateTimeOf);
      completedReminders := SortBy(completed, UpdatedAtDescKey);
    }

    /**
     * `addReminder`: builds an active, uncompleted record, requests a trigger
     * for it whatever its time, stores it with the handle when one was
     * obtained, and re-reads the tabs. `id` stands for the clock-and-random id.
     */
    method AddReminder(id: string, title: string, description: string, dateTime: int, now: int)
      returns (ghost handle: Option<int>)
      requires Valid()
      modifies this, storage, scheduler
      ensures Valid() && scheduler.accepting == old(scheduler.accepting)
      ensures storage.slot == Holds(old(storage.Items())
        + [Reminder(id, title, description, dateTime, false, true, now, now, handle)])
      ensures scheduler.accepting ==> (handle.Some? && handle.value !in old(scheduler.pending)
        && scheduler.pending == old(scheduler.pending)[handle.value := Trigger(id, dateTime)])
      ensures !scheduler.accepting ==> handle == None && scheduler.pending == old(scheduler.pending)
      ensures scheduler.calls == old(scheduler.calls) + ScheduleStep(handle, Trigger(id, dateTime))
      ensures Synced()
      ensures old(Tracked()) ==> Tracked()
      ensures old(UniqueIds(storage.Items())) && !old(HasId(storage.Items(), id)) ==> UniqueIds(storage.Items())
    {
      ghost var items := storage.Items();
      ghost var pending := scheduler.pending;
      var reminder := Reminder(id, title, description, dateTime, false, true, now, now, None);
      var notificationId := scheduler.Schedule(reminder.id, reminder.dateTime);
      handle := notificationId;
      if notificationId.Some? {
        reminder := reminder.(notificationId := notificationId);
      }
      ghost var armed := scheduler.pending;
      ghost var log := scheduler.calls;
      storage.AddReminder(reminder);
      RefreshReminders();
      assert storage.Items() == items + [reminder];
      assert scheduler.pending == armed && scheduler.calls == log;
      AppendKeeps(items, pending, reminder);
      if TrackedIn(items, pending) && notificationId.Some? {
        TrackNew(storage.Items(), pending, |items|, notificationId.value, Trigger(id, dateTime));
      }
    }

    /**
     * `updateReminder`: moves the copy between tabs, cancels the handle it
     * carries, requests a new trigger when it is then active, uncompleted and
     * due in the future, and writes it back by id. When the store has no entry
     * with the id the error is rethrown, after the trigger calls were made,
     * and the tabs are not re-read.
     */
    method UpdateReminder(reminder: Reminder, now: int) returns (res: Outcome<ContextError>, ghost handle: Option<int>)
      requires Valid()
      modifies this, storage, scheduler
      ensures Valid() && scheduler.accepting == old(scheduler.accepting)
      ensures res.Pass? <==> HasId(old(storage.Items()), reminder.id)
      ensures res.Pass? ==> (Synced()
        && storage.slot == Holds(ReplaceFirst(old(storage.Items()), TsUpdated(reminder, now, handle))))
      ensures res.Fail? ==> (res.error == StorageFailed(NotFoundForUpdate) && storage.slot == old(storage.slot)
        && activeReminders == old(activeReminders) && completedReminders == old(completedReminders))
      ensures Retriggered(old(scheduler.pending), scheduler.pending, scheduler.accepting, reminder.notificationId,
                          ShouldSchedule(Retabbed(reminder, now), now), Trigger(reminder.id, reminder.dateTime), handle)
      ensures scheduler.calls == old(scheduler.calls) + RetriggerLog(reminder.notificationId,
                ShouldSchedule(Retabbed(reminder, now), now), Trigger(reminder.id, reminder.dateTime), handle)
      ensures old(Tracked()) && old(HandleMatches(storage.Items(), reminder)) ==> Tracked()
    {
      ghost var items := storage.Items();
      ghost var pending := scheduler.pending;
      var updatedReminder;
      updatedReminder, handle := RetriggerCopy(reminder, now);
      res := WriteBack(updatedReminder);
      if res.Pass? && TrackedIn(items, pending) && HandleMatches(items, reminder) {
        UpdateKeepsTracking(items, pending, scheduler.pending, scheduler.accepting, reminder, now, handle);
      }
    }

    /**
     * The store half of `updateReminder` and `completeReminder`: writes the
     * record back by id and, when the store accepted it, re-reads the tabs.
     * When the store has no entry with the id, the error is passed on and
     * neither the store nor the tabs change.
     */
    method WriteBack(updated: Reminder) returns (res: Outcome<ContextError>)
      modifies this, storage
      ensures res.Pass? <==> HasId(old(storage.Items()), updated.id)
      ensures res.Pass? ==> Synced() && storage.slot == Holds(ReplaceFirst(old(storage.Items()), updated))
      ensures res.Fail? ==> (res.error == StorageFailed(NotFoundForUpdate) && storage.slot == old(storage.slot)
        && activeReminders == old(activeReminders) && completedReminders == old(completedReminders))
    {
      var saved := storage.UpdateReminder(updated);
      if saved.Fail? {
        res := Fail(StorageFailed(saved.error));
        return;
      }
      RefreshReminders();
      res := Pass;
    }

    /**
     * The trigger half of `updateReminder`: the tab move, the cancel of the
     * copy's handle and, when the moved copy is active, uncompleted and due in
     * the future, the request for a new trigger.
     */
    method RetriggerCopy(reminder: Reminder, now: int) returns (updated: Reminder, ghost handle: Option<int>)
      requires scheduler.Valid()
      modifies scheduler
      ensures scheduler.Valid() && scheduler.accepting == old(scheduler.accepting)
      ensures updated == TsUpdated(reminder, now, handle)
      ensures Retriggered(old(scheduler.pending), scheduler.pending, scheduler.accepting, reminder.notificationId,
                          ShouldSchedule(Retabbed(reminder, now), now), Trigger(reminder.id, reminder.dateTime), handle)
      ensures scheduler.calls == old(scheduler.calls) + RetriggerLog(reminder.notificationId,
                ShouldSchedule(Retabbed(reminder, now), now), Trigger(reminder.id, reminder.dateTime), handle)
    {
      updated := Retabbed(reminder, now);
      if updated.notificationId.Some? {
        scheduler.Cancel(updated.notificationId.value);
      }
      handle := None;
      if ShouldSchedule(updated, now) {
        var notificationId := scheduler.Schedule(updated.id, updated.dateTime);
        handle := notificationId;
        if notificationId.Some? {
          updated := updated.(notificationId := notificationId);
        }
      }
    }

    /**
     * `deleteReminder`: finds the copy on the held tabs (not found is thrown),
     * cancels the handle it carries, deletes the id from the store (a store
     * without it is thrown), drops it from the held tabs, and re-reads them.
     */
    method DeleteReminder(id: string) returns (res: Outcome<ContextError>)
      requires Valid()
      modifies this, storage, scheduler
      ensures Valid() && scheduler.accepting == old(scheduler.accepting)
      ensures res == Fail(ReminderNotFound) <==> !HasId(old(activeReminders + completedReminders), id)
      ensures res == Fail(ReminderNotFound) ==> (storage.slot == old(storage.slot)
        && scheduler.pending == old(scheduler.pending) && scheduler.calls == old(scheduler.calls)
        && activeReminders == old(activeReminders) && completedReminders == old(completedReminders))
      ensures HasId(old(activeReminders + completedReminders), id) ==>
        scheduler.pending == WithoutHandle(old(scheduler.pending),
                                           HeldIn(old(activeReminders + completedReminders), id).notificationId)
        && scheduler.calls == old(scheduler.calls)
             + CancelStep(HeldIn(old(activeReminders + completedReminders), id).notificationId)
      ensures res.Pass? <==> HasId(old(activeReminders + completedReminders), id) && HasId(old(storage.Items()), id)
      ensures res.Pass? ==> storage.slot == Holds(RemoveId(old(storage.Items()), id)) && Synced()
      ensures res == Fail(StorageFailed(NotFoundForDeletion)) ==> (storage.slot == old(storage.slot)
        && activeReminders == old(activeReminders) && completedReminders == old(completedReminders))
      ensures res.Fail? ==> res == Fail(ReminderNotFound) || res == Fail(StorageFailed(NotFoundForDeletion))
      ensures old(Synced()) ==> res.Pass? || res == Fail(ReminderNotFound)
      ensures old(Tracked()) && old(Synced()) && old(UniqueIds(storage.Items())) ==> Tracked()
    {
      ghost var items := storage.Items();
      ghost var pending := scheduler.pending;
      ghost var wasSynced := Synced();
      var allReminders := activeReminders + completedReminders;
      var index := IndexOfId(allReminders, id);
      if index == -1 {
        res := Fail(ReminderNotFound);
        return;
      }
      var reminder := allReminders[index];
      assert reminder == HeldIn(allReminders, id);
      scheduler.CancelStored(reminder.notificationId);
      if wasSynced {
        ViewsDrawnFrom(items);
        HeldIsStored(items, allReminders, id);
      }
      var saved := storage.DeleteReminder(id);
      if saved.Fail? {
        res := Fail(StorageFailed(saved.error));
        return;
      }
      activeReminders := RemoveId(activeReminders, id);
      completedReminders := RemoveId(completedReminders, id);
      RefreshReminders();
      res := Pass;
      if TrackedIn(items, pending) && wasSynced && UniqueIds(items) {
        RemoveKeepsTracking(items, pending, reminder);
      }
    }

    /**
     * `completeReminder`: finds the copy on the held active tab (a miss is
     * silently ignored), cancels the handle it carries, writes it back
     * completed, inactive and touched, and re-reads the tabs.
     */
    method CompleteReminder(id: string, now: int) returns (res: Outcome<ContextError>)
      requires Valid()
      modifies this, storage, scheduler
      ensures Valid() && scheduler.accepting == old(scheduler.accepting)
      ensures !HasId(old(activeReminders), id) ==> (res.Pass? && storage.slot == old(storage.slot)
        && scheduler.pending == old(scheduler.pending) && scheduler.calls == old(scheduler.calls)
        && activeReminders == old(activeReminders) && completedReminders == old(completedReminders))
      ensures HasId(old(activeReminders), id) ==>
        scheduler.pending == WithoutHandle(old(scheduler.pending), HeldIn(old(activeReminders), id).notificationId)
        && scheduler.calls == old(scheduler.calls) + CancelStep(HeldIn(old(activeReminders), id).notificationId)
        && (res.Pass? <==> HasId(old(storage.Items()), id))
        && (res.Pass? ==> (Synced() && storage.slot ==
              Holds(ReplaceFirst(old(storage.Items()), TsCompleted(HeldIn(old(activeReminders), id), now)))))
        && (res.Fail? ==> res.error == StorageFailed(NotFoundForUpdate) && storage.slot == old(storage.slot))
      ensures old(Synced()) ==> res.Pass?
      ensures old(Tracked()) && old(Synced()) && old(UniqueIds(storage.Items())) ==> Tracked()
    {
      ghost var items := storage.Items();
      ghost var pending := scheduler.pending;
      ghost var wasSynced := Synced();
      var index := IndexOfId(activeReminders, id);
      if index == -1 {
        res := Pass;
        return;
      }
      var reminder := activeReminders[index];
      assert reminder == HeldIn(activeReminders, id);
      var updatedReminder := reminder.(isCompleted := true, isActive := false, updatedAt := now);
      scheduler.CancelStored(updatedReminder.notificationId);
      ghost var cancelled := scheduler.pending;
      ghost var log := scheduler.calls;
      if wasSynced {
        ViewsDrawnFrom(items);
        HeldIsStored(items, activeReminders, id);
      }
      res := WriteBack(updatedReminder);
      assert scheduler.pending == cancelled && scheduler.calls == log;
      if res.Pass? && TrackedIn(items, pending) && wasSynced && UniqueIds(items) {
        ReplaceKeepsTracking(items, pending, reminder, updatedReminder);
      }
    }

    /**
     * `postponeReminder`: finds the copy on the held active tab (a miss is
     * silently ignored), moves it by `minutes * 60 * 1000` milliseconds, and
     * hands it to `updateReminder`.
     */
    method PostponeReminder(id: string, minutes: int, now: int) returns (res: Outcome<ContextError>, ghost handle: Option<int>)
      requires Valid()
      modifies this, storage, scheduler
      ensures Valid() && scheduler.accepting == old(scheduler.accepting)
      ensures !HasId(old(activeReminders), id) ==> (res.Pass? && handle == None && storage.slot == old(storage.slot)
        && scheduler.pending == old(scheduler.pending) && scheduler.calls == old(scheduler.calls)
        && activeReminders == old(activeReminders) && completedReminders == old(completedReminders))
      ensures HasId(old(activeReminders), id) ==>
        var held := HeldIn(old(activeReminders), id);
        var moved := TsPostponed(held, minutes, now);
        && (res.Pass? <==> HasId(old(storage.Items()), id))
        && (res.Pass? ==> (Synced()
              && storage.slot == Holds(ReplaceFirst(old(storage.Items()), TsUpdated(moved, now, handle)))))
        && Retriggered(old(scheduler.pending), scheduler.pending, scheduler.accepting, held.notificationId,
                       ShouldSchedule(Retabbed(moved, now), now), Trigger(id, moved.dateTime), handle)
        && scheduler.calls == old(scheduler.calls) + RetriggerLog(held.notificationId,
             ShouldSchedule(Retabbed(moved, now), now), Trigger(id, moved.dateTime), handle)
      ensures old(Synced()) ==> res.Pass?
      ensures old(Tracked()) && old(Synced()) && old(UniqueIds(storage.Items())) ==> Tracked()
    {
      ghost var items := storage.Items();
      ghost var wasSynced := Synced();
      handle := None;
      var index := IndexOfId(activeReminders, id);
      if index == -1 {
        res := Pass;
        return;
      }
      var reminder := activeReminders[index];
      var newDateTime := reminder.dateTime + minutes * MINUTE_MS;
      var updatedReminder := reminder.(dateTime := newDateTime, updatedAt := now);
      assert updatedReminder == TsPostponed(HeldIn(activeReminders, id), minutes, now);
      if wasSynced {
        ViewsDrawnFrom(items);
        HeldIsStored(items, activeReminders, id);
      }
      res, handle := UpdateReminder(updatedReminder, now);
    }

    /**
     * The provider's start-up: re-reads the tabs, then runs the background
     * passes (reschedule with clock `scheduleNow`, then cleanup with clock
     * `cleanupNow`), with the store after the first pass returned as `middle`.
     * The tabs are not re-read afterwards, so they show the store as it was
     * before the passes.
     */
    method InitializeApp(scheduleNow: int, cleanupNow: int) returns (cleanedCount: nat, ghost middle: seq<Reminder>)
      requires Valid()
      modifies this, storage, scheduler
      ensures Valid() && scheduler.accepting == old(scheduler.accepting)
      ensures activeReminders == ActiveView(old(storage.Items()))
      ensures completedReminders == CompletedView(old(storage.Items()))
      ensures DueAfter(scheduler.pending, scheduleNow)
      ensures ScheduleAllLog(old(scheduler.calls), scheduler.calls)
      ensures Requested(scheduler.calls[|old(scheduler.calls)| + 1..])
        == DueTriggers(ActiveOf(old(storage.Items())), scheduleNow)
      ensures !scheduler.accepting ==> scheduler.pending == map[] && middle == old(storage.Items())
      ensures SameIds(old(storage.Items()), middle) && SameIds(middle, storage.Items())
      ensures old(UniqueIds(storage.Items())) ==>
        RescheduledFrom(old(storage.Items()), middle, scheduler.pending, scheduleNow, scheduler.accepting)
      ensures old(UniqueIds(storage.Items())) ==> forall j :: 0 <= j < |storage.Items()| ==>
        storage.Items()[j] == Archived(middle[j], ExpiredCutoff(cleanupNow))
      ensures cleanedCount == |Filter(ActiveOf(middle), ExpiredBefore(ExpiredCutoff(cleanupNow)))|
      ensures |storage.Items()| == |old(storage.Items())|
      ensures old(UniqueIds(storage.Items())) ==> UniqueIds(storage.Items())
      ensures old(UniqueIds(storage.Items())) && ExpiredCutoff(cleanupNow) <= scheduleNow ==> Tracked()
    {
      RefreshReminders();
      ghost var before := storage.Items();
      cleanedCount, middle := InitializeBackgroundTasks(storage, scheduler, scheduleNow, cleanupNow);
      if UniqueIds(before) && ExpiredCutoff(cleanupNow) <= scheduleNow {
        TrackedByFutureIsTracked(storage.Items(), scheduler.pending, scheduleNow);
      }
    }
  }
}
