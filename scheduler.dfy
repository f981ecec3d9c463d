/**
 * The platform's one-shot trigger service (local notifications on the
 * JavaScript stack, `AlarmManager` alarms on Android), reduced to its contract:
 * `schedule` yields a fresh handle or nothing, `cancel` never fails and is a
 * no-op on a handle that is not outstanding, and everything can be cancelled at
 * once. Firing is not modelled, so a trigger stays outstanding until cancelled.
 */
module Platform {
  import opened Wrappers
  import opened Reminders

  /** What an outstanding trigger carries: the reminder it is for and when it fires. */
  datatype Trigger = Trigger(reminderId: string, fireAt: int)

  /** One request made to the trigger service, in the order the client made it. */
  datatype Call =
    | Scheduled(handle: int, trigger: Trigger)
    | ScheduleFailed(trigger: Trigger)
    | Cancelled(handle: int)
    | CancelledAll

  class Scheduler {
    /** The outstanding triggers by handle. */
    var pending: map<int, Trigger>
    /** The fresh-handle oracle: no handle at or above it was ever handed out. */
    var nextHandle: int
    /** Whether the platform currently accepts new triggers (permission granted, alarm service healthy). */
    var accepting: bool
    /** Every request made so far. */
    ghost var calls: seq<Call>

    ghost predicate Valid()
      reads this
    {
      0 <= nextHandle && forall h :: h in pending ==> 0 <= h < nextHandle
    }

    constructor (accepting: bool)
      ensures Valid() && pending == map[] && this.accepting == accepting && calls == []
    {
      pending := map[];
      nextHandle := 0;
      this.accepting := accepting;
      calls := [];
    }

    /** Requests a trigger for `reminderId` at `fireAt`; `None` when the platform refuses. */
    method Schedule(reminderId: string, fireAt: int) returns (handle: Option<int>)
      requires Valid()
      modifies this
      ensures Valid() && accepting == old(accepting)
      ensures accepting ==> (handle.Some? && 0 <= handle.value && handle.value !in old(pending)
                             && pending == old(pending)[handle.value := Trigger(reminderId, fireAt)])
      ensures !accepting ==> handle == None && pending == old(pending)
      ensures calls == old(calls) + ScheduleStep(handle, Trigger(reminderId, fireAt))
    {
      if accepting {
        handle := Some(nextHandle);
        pending := pending[nextHandle := Trigger(reminderId, fireAt)];
        nextHandle := nextHandle + 1;
      } else {
        handle := None;
      }
      calls := calls + ScheduleStep(handle, Trigger(reminderId, fireAt));
    }

    /** Cancels `handle`; nothing happens when it is not outstanding. */
    method Cancel(handle: int)
      requires Valid()
      modifies this
      ensures Valid() && accepting == old(accepting)
      ensures pending == old(pending) - {handle}
      ensures calls == old(calls) + [Cancelled(handle)]
    {
      pending := pending - {handle};
      calls := calls + [Cancelled(handle)];
    }

    /** Cancels the handle a record carries, when it carries one; a record without one makes no request. */
    method CancelStored(handle: Option<int>)
      requires Valid()
      modifies this
      ensures Valid() && accepting == old(accepting)
      ensures pending == WithoutHandle(old(pending), handle)
      ensures calls == old(calls) + CancelStep(handle)
    {
      if handle.Some? {
        Cancel(handle.value);
      }
    }

    /**
     * The platform's answer changes between operations: permission is granted
     * or revoked, or the alarm service starts or stops failing. No trigger is
     * touched and no request is logged.
     */
    method SetAccepting(accepting: bool)
      requires Valid()
      modifies this
      ensures Valid() && this.accepting == accepting
      ensures pending == old(pending) && nextHandle == old(nextHandle) && calls == old(calls)
    {
      this.accepting := accepting;
    }

    /** Cancels every outstanding trigger. */
    method CancelAll()
      requires Valid()
      modifies this
      ensures Valid() && accepting == old(accepting)
      ensures pending == map[]
      ensures calls == old(calls) + [CancelledAll]
    {
      pending := map[];
      calls := calls + [CancelledAll];
    }
  }

  /** The log entry of one schedule request. */
  function ScheduleStep(handle: Option<int>, t: Trigger): seq<Call> {
    match handle
    case Some(h) => [Scheduled(h, t)]
    case None => [ScheduleFailed(t)]
  }

  /** The log entry of cancelling a handle stored on a record, if there is one. */
  function CancelStep(handle: Option<int>): seq<Call> {
    match handle
    case Some(h) => [Cancelled(h)]
    case None => []
  }

  /** The outstanding triggers once the handle stored on a record (if any) is cancelled. */
  function WithoutHandle(pending: map<int, Trigger>, handle: Option<int>): map<int, Trigger> {
    match handle
    case Some(h) => pending - {h}
    case None => pending
  }

  /**
   * The outstanding triggers after cancelling `cancelled` and then, when
   * `wanted`, requesting trigger `t`: with the platform accepting, `handle` is
   * a fresh handle for `t`; otherwise nothing was obtained.
   */
  predicate Retriggered(before: map<int, Trigger>, after: map<int, Trigger>, accepting: bool,
                        cancelled: Option<int>, wanted: bool, t: Trigger, handle: Option<int>) {
    && (wanted && accepting ==> (handle.Some? && handle.value !in WithoutHandle(before, cancelled)
                                 && after == WithoutHandle(before, cancelled)[handle.value := t]))
    && (!(wanted && accepting) ==> handle == None && after == WithoutHandle(before, cancelled))
  }

  /** The log entries of that cancel-then-request sequence. */
  function RetriggerLog(cancelled: Option<int>, wanted: bool, t: Trigger, handle: Option<int>): seq<Call> {
    CancelStep(cancelled) + (if wanted then ScheduleStep(handle, t) else [])
  }

  /**
   * Every outstanding trigger is recorded on a reminder of the list store: an
   * entry with the trigger's reminder id carries its handle and fires at the
   * trigger's time.
   */
  ghost predicate TrackedIn(items: seq<Reminder>, pending: map<int, Trigger>) {
    forall h :: h in pending ==> exists j :: 0 <= j < |items| && Carries(items[j], h, pending[h])
  }

  /** The same bookkeeping for the table store keyed by reminder id. */
  ghost predicate TrackedInTable(rows: map<string, Reminder>, pending: map<int, Trigger>) {
    forall h :: h in pending ==> pending[h].reminderId in rows && Carries(rows[pending[h].reminderId], h, pending[h])
  }

  /** `r` is the reminder `t` is for, carries handle `h`, and is due when `t` fires. */
  predicate Carries(r: Reminder, h: int, t: Trigger) {
    r.id == t.reminderId && r.notificationId == Some(h) && r.dateTime == t.fireAt
  }

  /**
   * With distinct ids in the list store, tracked triggers are at most one per
   * reminder: two outstanding triggers for the same reminder are the same one.
   */
  lemma AtMostOneTriggerPerReminder(items: seq<Reminder>, pending: map<int, Trigger>, h1: int, h2: int)
    requires TrackedIn(items, pending) && UniqueIds(items)
    requires h1 in pending && h2 in pending
    requires pending[h1].reminderId == pending[h2].reminderId
    ensures h1 == h2
  {
    var j1 :| 0 <= j1 < |items| && Carries(items[j1], h1, pending[h1]);
    var j2 :| 0 <= j2 < |items| && Carries(items[j2], h2, pending[h2]);
    assert items[j1].id == items[j2].id;
  }

  /** In the table store, tracked triggers are at most one per reminder, and it fires at the reminder's time. */
  lemma AtMostOneTriggerPerRow(rows: map<string, Reminder>, pending: map<int, Trigger>, h1: int, h2: int)
    requires TrackedInTable(rows, pending)
    requires h1 in pending && h2 in pending
    requires pending[h1].reminderId == pending[h2].reminderId
    ensures h1 == h2
    ensures pending[h1].fireAt == rows[pending[h1].reminderId].dateTime
  {
  }
}
