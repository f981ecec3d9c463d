/**
 * The Android stack's lifecycle manager: each operation runs its side effects
 * on the alarm service and the reminders table in order (cancel the old alarm,
 * schedule a new one, then write the row).
 */
module Repository {
  import opened Wrappers
  import opened Reminders
  import opened Platform
  import opened Dao

  /** `scheduleNotification` on Android returns the alarm id, or -1 when the alarm could not be set. */
  function AlarmId(handle: Option<int>): int {
    match handle
    case Some(h) => h
    case None => -1
  }

  /** The row `completeReminder` writes: completed, inactive, touched, no alarm. */
  function Completed(r: Reminder, now: int): Reminder {
    r.(isCompleted := true, isActive := false, updatedAt := now, notificationId := None)
  }

  /** The record `postponeReminder` hands to `updateReminder`: moved by the `Int` product of the minutes, touched. */
  function Postponed(r: Reminder, minutes: int, now: int): Reminder
    requires IsInt32(minutes)
  {
    r.(dateTime := r.dateTime + PostponeDeltaInt32(minutes), updatedAt := now)
  }

  /**
   * The row `updateReminder` writes for `r`: touched, with the new alarm id when
   * `r` is active and not completed (-1 on failure), and no alarm id otherwise.
   */
  function Resynced(r: Reminder, now: int, handle: Option<int>): Reminder {
    r.(updatedAt := now, notificationId := if InActiveList(r) then Some(AlarmId(handle)) else None)
  }

  /**
   * After an update the alarm id is present exactly when the reminder is active
   * and not completed, whatever its time; a successfully set alarm is the id
   * stored, a failed one is stored as -1.
   */
  lemma ResyncedHandle(r: Reminder, now: int, handle: Option<int>)
    ensures Resynced(r, now, handle).notificationId.Some? <==> r.isActive && !r.isCompleted
    ensures InActiveList(r) && handle.Some? ==> Resynced(r, now, handle).notificationId == handle
    ensures InActiveList(r) && handle.None? ==> Resynced(r, now, handle).notificationId == Some(-1)
    ensures Resynced(r, now, handle).updatedAt == now
    ensures Resynced(r, now, handle).(updatedAt := r.updatedAt, notificationId := r.notificationId) == r
  {
  }

  /**
   * Postponing keeps the id, title, description, creation time and both flags;
   * for a preset-sized positive count it moves the time later by exactly that
   * many minutes.
   */
  lemma PostponeKeepsIdentity(r: Reminder, minutes: int, now: int, handle: Option<int>)
    requires IsInt32(minutes)
    ensures var s := Resynced(Postponed(r, minutes, now), now, handle);
      && s.id == r.id && s.title == r.title && s.description == r.description
      && s.createdAt == r.createdAt && s.isActive == r.isActive && s.isCompleted == r.isCompleted
    ensures 0 < minutes <= MAX_EXACT_POSTPONE_MINUTES ==>
      Resynced(Postponed(r, minutes, now), now, handle).dateTime == r.dateTime + minutes * MINUTE_MS > r.dateTime
  {
    if 0 < minutes <= MAX_EXACT_POSTPONE_MINUTES {
      PostponeDeltaExact(minutes);
    }
  }

  class ReminderRepository {
    const dao: ReminderDao
    const scheduler: Scheduler

    ghost predicate Valid()
      reads this, dao, scheduler
    {
      dao.Valid() && scheduler.Valid()
    }

    /** Every outstanding alarm is the one recorded on its reminder's row, for that row's time. */
    ghost predicate Tracked()
      reads this, dao, scheduler
    {
      TrackedInTable(dao.rows, scheduler.pending)
    }

    constructor (dao: ReminderDao, scheduler: Scheduler)
      requires dao.Valid() && scheduler.Valid()
      ensures this.dao == dao && this.scheduler == scheduler && Valid()
    {
      this.dao := dao;
      this.scheduler := scheduler;
    }

    /**
     * `addReminder`: schedules an alarm for a new active, uncompleted record and
     * inserts it with the alarm id (-1 when scheduling failed). `id` stands for
     * the entity's random UUID.
     */
    method AddReminder(id: string, title: string, description: string, dateTime: int, now: int)
      returns (ghost handle: Option<int>)
      requires Valid()
      modifies dao, scheduler
      ensures Valid() && scheduler.accepting == old(scheduler.accepting)
      ensures dao.rows == old(dao.rows)[id :=
        Reminder(id, title, description, dateTime, false, true, now, now, Some(AlarmId(handle)))]
      ensures scheduler.accepting ==> (handle.Some? && handle.value !in old(scheduler.pending)
        && scheduler.pending == old(scheduler.pending)[handle.value := Trigger(id, dateTime)])
      ensures !scheduler.accepting ==> handle == None && scheduler.pending == old(scheduler.pending)
      ensures scheduler.calls == old(scheduler.calls) + ScheduleStep(handle, Trigger(id, dateTime))
      ensures old(Tracked()) && id !in old(dao.rows) ==> Tracked()
    {
      var reminder := Reminder(id, title, description, dateTime, false, true, now, now, None);
      var h := scheduler.Schedule(reminder.id, reminder.dateTime);
      handle := h;
      var withNotification := reminder.(notificationId := Some(AlarmId(h)));
      dao.InsertReminder(withNotification);
    }

    /**
     * `updateReminder`: cancels the alarm id the argument carries, schedules a
     * new alarm exactly when the argument is active and not completed (even for a
     * past time), and writes the argument back touched and with the new alarm id
     * or none. Nothing is written when no row has the id.
     */
    method UpdateReminder(reminder: Reminder, now: int) returns (ghost handle: Option<int>)
      requires Valid()
      modifies dao, scheduler
      ensures Valid() && scheduler.accepting == old(scheduler.accepting)
      ensures dao.rows == if reminder.id in old(dao.rows)
                          then old(dao.rows)[reminder.id := Resynced(reminder, now, handle)]
                          else old(dao.rows)
      ensures InActiveList(reminder) && scheduler.accepting ==> (handle.Some?
        && handle.value !in WithoutHandle(old(scheduler.pending), reminder.notificationId)
        && scheduler.pending == WithoutHandle(old(scheduler.pending), reminder.notificationId)
                                  [handle.value := Trigger(reminder.id, reminder.dateTime)])
      ensures !(InActiveList(reminder) && scheduler.accepting) ==>
        handle == None && scheduler.pending == WithoutHandle(old(scheduler.pending), reminder.notificationId)
      ensures scheduler.calls == old(scheduler.calls) + CancelStep(reminder.notificationId)
        + (if InActiveList(reminder) then ScheduleStep(handle, Trigger(reminder.id, reminder.dateTime)) else [])
      ensures (old(Tracked()) && reminder.id in old(dao.rows)
        && old(dao.rows)[reminder.id].notificationId == reminder.notificationId) ==> Tracked()
    {
      if reminder.notificationId.Some? {
        scheduler.Cancel(reminder.notificationId.value);
      }
      var notificationId: Option<int> := None;
      handle := None;
      if reminder.isActive && !reminder.isCompleted {
        var h := scheduler.Schedule(reminder.id, reminder.dateTime);
        handle := h;
        notificationId := Some(AlarmId(h));
      }
      var updated := reminder.(updatedAt := now, notificationId := notificationId);
      dao.UpdateReminder(updated);
    }

    /** `deleteReminder`: cancels the stored row's alarm, if any, then deletes the row; a missing id is not an error. */
    method DeleteReminder(id: string)
      requires Valid()
      modifies dao, scheduler
      ensures Valid() && scheduler.accepting == old(scheduler.accepting)
      ensures dao.rows == old(dao.rows) - {id}
      ensures scheduler.pending == if id in old(dao.rows)
                                   then WithoutHandle(old(scheduler.pending), old(dao.rows)[id].notificationId)
                                   else old(scheduler.pending)
      ensures scheduler.calls == old(scheduler.calls)
        + (if id in old(dao.rows) then CancelStep(old(dao.rows)[id].notificationId) else [])
      ensures old(Tracked()) ==> Tracked()
    {
      var reminder := dao.GetReminderById(id);
      if reminder.Some? && reminder.value.notificationId.Some? {
        scheduler.Cancel(reminder.value.notificationId.value);
      }
      dao.DeleteReminderById(id);
    }

    /**
     * `completeReminder`: for any existing row, whatever its flags, cancels its
     * alarm and writes it completed, inactive, touched and without alarm id; a
     * missing id is a no-op.
     */
    method CompleteReminder(id: string, now: int)
      requires Valid()
      modifies dao, scheduler
      ensures Valid() && scheduler.accepting == old(scheduler.accepting)
      ensures dao.rows == if id in old(dao.rows) then old(dao.rows)[id := Completed(old(dao.rows)[id], now)]
                          else old(dao.rows)
      ensures scheduler.pending == if id in old(dao.rows)
                                   then WithoutHandle(old(scheduler.pending), old(dao.rows)[id].notificationId)
                                   else old(scheduler.pending)
      ensures scheduler.calls == old(scheduler.calls)
        + (if id in old(dao.rows) then CancelStep(old(dao.rows)[id].notificationId) else [])
      ensures old(Tracked()) ==> Tracked()
    {
      var reminder := dao.GetReminderById(id);
      if reminder.Some? {
        var r := reminder.value;
        if r.notificationId.Some? {
          scheduler.Cancel(r.notificationId.value);
        }
        var completed := r.(isCompleted := true, isActive := false, updatedAt := now, notificationId := None);
        dao.UpdateReminder(completed);
      }
    }

    /**
     * `postponeReminder`: moves the stored row's time by `minutes * 60 * 1000`
     * computed in `Int` and hands the result to `updateReminder`; a missing id is
     * a no-op.
     */
    method PostponeReminder(id: string, minutes: int, now: int) returns (ghost handle: Option<int>)
      requires Valid()
      requires IsInt32(minutes)
      modifies dao, scheduler
      ensures Valid() && scheduler.accepting == old(scheduler.accepting)
      ensures dao.rows == if id in old(dao.rows)
                          then old(dao.rows)[id := Resynced(Postponed(old(dao.rows)[id], minutes, now), now, handle)]
                          else old(dao.rows)
      ensures id !in old(dao.rows) ==>
        handle == None && scheduler.pending == old(scheduler.pending) && scheduler.calls == old(scheduler.calls)
      ensures id in old(dao.rows) ==>
        var p := Postponed(old(dao.rows)[id], minutes, now);
        && (InActiveList(p) && scheduler.accepting ==> (handle.Some?
              && handle.value !in WithoutHandle(old(scheduler.pending), p.notificationId)
              && scheduler.pending == WithoutHandle(old(scheduler.pending), p.notificationId)
                                        [handle.value := Trigger(id, p.dateTime)]))
        && (!(InActiveList(p) && scheduler.accepting) ==>
              handle == None && scheduler.pending == WithoutHandle(old(scheduler.pending), p.notificationId))
        && scheduler.calls == old(scheduler.calls) + CancelStep(p.notificationId)
             + (if InActiveList(p) then ScheduleStep(handle, Trigger(id, p.dateTime)) else [])
      ensures old(Tracked()) ==> Tracked()
    {
      handle := None;
      var reminder := dao.GetReminderById(id);
      if reminder.Some? {
        var postponed := reminder.value.(dateTime := reminder.value.dateTime + PostponeDeltaInt32(minutes),
                                         updatedAt := now);
        handle := UpdateReminder(postponed, now);
      }
    }
  }
}
