/**
 * The JavaScript stack's start-up housekeeping: re-arming a trigger for every
 * future active reminder, and archiving active reminders that are more than a
 * day overdue. Both passes work on a snapshot of the active list taken at
 * their start and write changed entries back one by one.
 */
module BackgroundTasks {
  import opened Wrappers
  import opened Sequences
  import opened Reminders
  import opened Platform
  import opened Storage

  // ---------------------------------------------------------------------------
  // Positions in the active snapshot

  /** `after` holds the same ids as `before`, position by position. */
  predicate SameIds(before: seq<Reminder>, after: seq<Reminder>) {
    |after| == |before| && forall j :: 0 <= j < |before| ==> after[j].id == before[j].id
  }

  /** With distinct ids, an entry of the active snapshot sits at exactly one position of the store. */
  lemma SnapshotEntryPosition(items: seq<Reminder>, k: int) returns (j: int)
    requires UniqueIds(items) && 0 <= k < |ActiveOf(items)|
    ensures 0 <= j < |items| && items[j] == ActiveOf(items)[k] && InActiveList(items[j])
    ensures forall j' :: 0 <= j' < |items| && items[j'].id == items[j].id ==> j' == j
  {
    var a := ActiveOf(items);
    FilterMembers(items, InActiveList);
    assert a[k] in items;
    j :| 0 <= j < |items| && items[j] == a[k];
  }

  /** With distinct ids, looking up a snapshot entry's id in the snapshot finds that entry. */
  lemma SnapshotIndexOfEntry(items: seq<Reminder>, k: int)
    requires UniqueIds(items) && 0 <= k < |ActiveOf(items)|
    ensures IndexOfId(ActiveOf(items), ActiveOf(items)[k].id) == k
  {
    var a := ActiveOf(items);
    FilterKeepsUniqueIds(items, InActiveList);
    assert HasId(a, a[k].id);
  }

  /** With distinct ids, an active entry of the store is found in the snapshot by its id. */
  lemma SnapshotPositionOfActive(items: seq<Reminder>, j: int) returns (k: int)
    requires UniqueIds(items) && 0 <= j < |items| && InActiveList(items[j])
    ensures k == IndexOfId(ActiveOf(items), items[j].id)
    ensures 0 <= k < |ActiveOf(items)| && ActiveOf(items)[k] == items[j]
  {
    var a := ActiveOf(items);
    FilterMembers(items, InActiveList);
    assert items[j] in a;
    var m :| 0 <= m < |a| && a[m] == items[j];
    assert HasId(a, items[j].id);
    k := IndexOfId(a, items[j].id);
    var j2 := SnapshotEntryPosition(items, k);
  }

  /** With distinct ids, a store entry that is not active is not found in the snapshot. */
  lemma SnapshotMissesInactive(items: seq<Reminder>, j: int)
    requires UniqueIds(items) && 0 <= j < |items| && !InActiveList(items[j])
    ensures IndexOfId(ActiveOf(items), items[j].id) == -1
  {
    var a := ActiveOf(items);
    var k := IndexOfId(a, items[j].id);
    if k != -1 {
      var j2 := SnapshotEntryPosition(items, k);
      assert false;
    }
  }

  /**
   * While the store keeps its ids in place, a snapshot entry's id is still
   * stored, so writing back an entry with that id succeeds and keeps every id in
   * its place.
   */
  lemma WriteBackKeepsIds(before: seq<Reminder>, items: seq<Reminder>, i: int, u: Reminder)
    requires 0 <= i < |ActiveOf(before)| && u.id == ActiveOf(before)[i].id
    requires SameIds(before, items)
    ensures HasId(items, u.id)
    ensures SameIds(before, ReplaceFirst(items, u))
  {
    var a := ActiveOf(before);
    FilterMembers(before, InActiveList);
    assert a[i] in before;
    var j :| 0 <= j < |before| && before[j] == a[i];
    assert items[j].id == u.id;
    ReplaceFirstKeepsIds(items, u);
  }

  /** The rescheduling step's write-back keeps every id in its place. */
  lemma HandleWriteBackKeepsIds(before: seq<Reminder>, items: seq<Reminder>, i: int, h: Option<int>)
    requires 0 <= i < |ActiveOf(before)| && SameIds(before, items)
    ensures SameIds(before, WrittenBack(items, ActiveOf(before)[i], h))
  {
    WriteBackKeepsIds(before, items, i, ActiveOf(before)[i].(notificationId := h));
  }

  /** The cleanup step's write-back keeps every id in its place. */
  lemma ExpiryWriteBackKeepsIds(before: seq<Reminder>, items: seq<Reminder>, i: int, cutoff: int)
    requires 0 <= i < |ActiveOf(before)| && SameIds(before, items)
    ensures SameIds(before, ExpiredWrittenBack(items, ActiveOf(before)[i], cutoff))
  {
    WriteBackKeepsIds(before, items, i, ActiveOf(before)[i].(isActive := false));
  }

  /** Counting the expired entries of a growing prefix. */
  lemma CountExpiredStep(s: seq<Reminder>, i: int, cutoff: int)
    requires 0 <= i < |s|
    ensures |Filter(s[..i + 1], ExpiredBefore(cutoff))|
      == |Filter(s[..i], ExpiredBefore(cutoff))| + (if s[i].dateTime < cutoff then 1 else 0)
  {
    assert s[..i + 1] == s[..i] + [s[i]];
    FilterConcat(s[..i], [s[i]], ExpiredBefore(cutoff));
    assert Filter([s[i]], ExpiredBefore(cutoff))
      == (if s[i].dateTime < cutoff then [s[i]] else []) + Filter([], ExpiredBefore(cutoff));
  }

  // ---------------------------------------------------------------------------
  // scheduleAllPendingReminders

  /** A stretch of the request log holding schedule requests only. */
  predicate ScheduleRequestsOnly(tail: seq<Call>) {
    forall k :: 0 <= k < |tail| ==> tail[k].Scheduled? || tail[k].ScheduleFailed?
  }

  /** Every outstanding trigger fires after `now`. */
  predicate DueAfter(pending: map<int, Trigger>, now: int) {
    forall h :: h in pending ==> pending[h].fireAt > now
  }

  /** The log entries of one rescheduling step for `r`, which obtained handle `h`. */
  function RescheduleLog(r: Reminder, now: int, h: Option<int>): (step: seq<Call>)
    ensures ScheduleRequestsOnly(step)
  {
    if r.dateTime > now then ScheduleStep(h, Trigger(r.id, r.dateTime)) else []
  }

  /** The triggers a stretch of the log asks for, accepted or refused, in the order asked. */
  function Requested(log: seq<Call>): seq<Trigger> {
    if log == [] then []
    else
      var c := log[|log| - 1];
      Requested(log[..|log| - 1]) + (if c.Scheduled? || c.ScheduleFailed? then [c.trigger] else [])
  }

  /** The triggers the rescheduling pass asks for over `snapshot`: one per entry due after `now`, in snapshot order. */
  function DueTriggers(snapshot: seq<Reminder>, now: int): seq<Trigger> {
    if snapshot == [] then []
    else
      var r := snapshot[|snapshot| - 1];
      DueTriggers(snapshot[..|snapshot| - 1], now) + (if r.dateTime > now then [Trigger(r.id, r.dateTime)] else [])
  }

  /** One more loop step asks for exactly the trigger of its entry when that entry is due after `now`. */
  lemma {:induction false} RequestStep(tail: seq<Call>, active: seq<Reminder>, i: int, now: int, h: Option<int>)
    requires 0 <= i < |active| && Requested(tail) == DueTriggers(active[..i], now)
    ensures Requested(tail + RescheduleLog(active[i], now, h)) == DueTriggers(active[..i + 1], now)
  {
    var r := active[i];
    assert active[..i + 1][..i] == active[..i];
    var step := RescheduleLog(r, now, h);
    if r.dateTime > now {
      assert |step| == 1 && step[0].trigger == Trigger(r.id, r.dateTime);
      assert (tail + step)[..|tail + step| - 1] == tail;
    } else {
      assert tail + step == tail;
    }
  }

  /** The rescheduling loop's test `reminder.dateTime > now`. */
  function DueLater(now: int): Reminder -> bool {
    (r: Reminder) => r.dateTime > now
  }

  /**
   * The log of the rescheduling loop after the first `i` snapshot entries: the
   * log before the loop, then schedule requests only, one for each of those
   * entries due after `now`, in snapshot order.
   */
  predicate LoggedSoFar(prefix: seq<Call>, tail: seq<Call>, calls: seq<Call>, active: seq<Reminder>, i: int, now: int) {
    && 0 <= i <= |active|
    && calls == prefix + tail
    && ScheduleRequestsOnly(tail)
    && Requested(tail) == DueTriggers(active[..i], now)
  }

  /** The log after one more loop step. */
  lemma LogStep(prefix: seq<Call>, tail: seq<Call>, calls: seq<Call>, active: seq<Reminder>, i: int, now: int,
                h: Option<int>)
    requires 0 <= i < |active| && LoggedSoFar(prefix, tail, calls, active, i, now)
    ensures LoggedSoFar(prefix, tail + RescheduleLog(active[i], now, h), calls + RescheduleLog(active[i], now, h),
                        active, i + 1, now)
  {
    ExtendRequests(prefix, tail, RescheduleLog(active[i], now, h));
    RequestStep(tail, active, i, now, h);
  }

  /** A snapshot with `n` entries due after `now` makes exactly `n` requests, each for one of them. */
  lemma {:induction false} DueTriggersCount(snapshot: seq<Reminder>, now: int)
    ensures |DueTriggers(snapshot, now)| == |Filter(snapshot, DueLater(now))|
    ensures forall k :: 0 <= k < |DueTriggers(snapshot, now)| ==>
      exists r :: r in snapshot && r.dateTime > now && DueTriggers(snapshot, now)[k] == Trigger(r.id, r.dateTime)
  {
    if snapshot != [] {
      var init := snapshot[..|snapshot| - 1];
      var r := snapshot[|snapshot| - 1];
      DueTriggersCount(init, now);
      assert snapshot == init + [r];
      FilterConcat(init, [r], DueLater(now));
      assert [r][1..] == [];
      var d := DueTriggers(snapshot, now);
      forall k | 0 <= k < |d|
        ensures exists x :: x in snapshot && x.dateTime > now && d[k] == Trigger(x.id, x.dateTime)
      {
        if k < |DueTriggers(init, now)| {
          var x :| x in init && x.dateTime > now && DueTriggers(init, now)[k] == Trigger(x.id, x.dateTime);
          assert x in snapshot;
        } else {
          assert d[k] == Trigger(r.id, r.dateTime);
        }
      }
    }
  }

  /** Appending schedule requests to a stretch of schedule requests. */
  lemma ExtendRequests(prefix: seq<Call>, tail: seq<Call>, step: seq<Call>)
    requires ScheduleRequestsOnly(tail) && ScheduleRequestsOnly(step)
    ensures prefix + tail + step == prefix + (tail + step)
    ensures ScheduleRequestsOnly(tail + step)
  {
    assert forall k :: 0 <= k < |step| ==> (tail + step)[|tail| + k] == step[k];
  }

  /** `r` carries a handle whose outstanding trigger is for `r` at `r`'s time. */
  predicate HasPendingTrigger(r: Reminder, pending: map<int, Trigger>) {
    r.notificationId.Some? && r.notificationId.value in pending
    && pending[r.notificationId.value] == Trigger(r.id, r.dateTime)
  }

  /**
   * Every outstanding trigger is recorded on an active reminder of the store
   * that is due after `t`.
   */
  ghost predicate TrackedByFuture(items: seq<Reminder>, pending: map<int, Trigger>, t: int) {
    forall h :: h in pending ==> exists j :: (0 <= j < |items|
      && Carries(items[j], h, pending[h]) && InActiveList(items[j]) && items[j].dateTime > t)
  }

  lemma TrackedByFutureIsTracked(items: seq<Reminder>, pending: map<int, Trigger>, t: int)
    requires TrackedByFuture(items, pending, t)
    ensures TrackedIn(items, pending)
    ensures forall h :: h in pending ==> pending[h].fireAt > t
  {
    forall h | h in pending ensures pending[h].fireAt > t {
      var j :| 0 <= j < |items| && Carries(items[j], h, pending[h]) && InActiveList(items[j]) && items[j].dateTime > t;
    }
  }

  /**
   * A store entry after the rescheduling pass: when its snapshot entry received
   * a handle, the entry carries that handle; otherwise it is as it was.
   */
  function Reattached(r: Reminder, active: seq<Reminder>, handles: seq<Option<int>>): Reminder
    requires |handles| == |active|
  {
    var k := IndexOfId(active, r.id);
    if k != -1 && handles[k].Some? then r.(notificationId := handles[k]) else r
  }

  /**
   * What a rescheduling pass over `before` at clock `now` leaves: the same
   * reminders with distinct ids, only alarm handles changed and only on future
   * active entries (none at all when the platform refuses triggers), every
   * future active entry armed for its own time, and every outstanding trigger
   * recorded on a future active entry.
   */
  ghost predicate RescheduledFrom(before: seq<Reminder>, after: seq<Reminder>, pending: map<int, Trigger>,
                                  now: int, accepting: bool) {
    && |after| == |before| && UniqueIds(after)
    && TrackedByFuture(after, pending, now)
    && (forall j :: 0 <= j < |after| ==> after[j].(notificationId := before[j].notificationId) == before[j])
    && (forall j :: 0 <= j < |after| && !(accepting && InActiveList(before[j]) && before[j].dateTime > now) ==>
          after[j] == before[j])
    && (forall j :: 0 <= j < |after| && accepting && InActiveList(after[j]) && after[j].dateTime > now ==>
          HasPendingTrigger(after[j], pending))
  }

  /**
   * The handles the rescheduling loop has obtained after `i` snapshot entries:
   * entry `k` has a handle exactly when it was processed, is due after `now`
   * and the platform accepts triggers; that handle's trigger is for the entry at
   * its time; and every outstanding trigger is one of those handles.
   */
  ghost predicate IssuedSoFar(active: seq<Reminder>, handles: seq<Option<int>>, pending: map<int, Trigger>,
                              i: int, now: int, accepting: bool) {
    && |handles| == |active| && 0 <= i <= |active|
    && (forall k :: i <= k < |handles| ==> handles[k] == None)
    && (forall k :: 0 <= k < i ==> (handles[k].Some? <==> accepting && active[k].dateTime > now))
    && (forall k :: 0 <= k < |handles| && handles[k].Some? ==>
          handles[k].value in pending && pending[handles[k].value] == Trigger(active[k].id, active[k].dateTime))
    && (forall h :: h in pending ==> exists k :: 0 <= k < |handles| && handles[k] == Some(h))
  }

  /** The store is in step with the handles: each entry carries its snapshot entry's handle, if one was obtained. */
  ghost predicate InStepWith(before: seq<Reminder>, items: seq<Reminder>, handles: seq<Option<int>>) {
    && |items| == |before| && |handles| == |ActiveOf(before)|
    && forall j :: 0 <= j < |before| ==> items[j] == Reattached(before[j], ActiveOf(before), handles)
  }

  /** Processing snapshot entry `i` extends the handles obtained so far. */
  lemma IssueStep(active: seq<Reminder>, handles: seq<Option<int>>, pending: map<int, Trigger>,
                  pending': map<int, Trigger>, i: int, now: int, accepting: bool, h: Option<int>)
    requires IssuedSoFar(active, handles, pending, i, now, accepting) && i < |active|
    requires accepting && active[i].dateTime > now ==>
      h.Some? && h.value !in pending && pending' == pending[h.value := Trigger(active[i].id, active[i].dateTime)]
    requires !(accepting && active[i].dateTime > now) ==> h == None && pending' == pending
    ensures IssuedSoFar(active, handles[i := h], pending', i + 1, now, accepting)
  {
    var handles' := handles[i := h];
    forall h' | h' in pending' ensures exists k :: 0 <= k < |handles'| && handles'[k] == Some(h') {
      if h.Some? && h' == h.value {
        assert handles'[i] == Some(h');
      } else {
        var k :| 0 <= k < |handles| && handles[k] == Some(h');
        assert handles'[k] == Some(h');
      }
    }
  }

  /** At the end of the loop, every outstanding trigger is recorded on a future active entry. */
  lemma RescheduleTracked(before: seq<Reminder>, after: seq<Reminder>, pending: map<int, Trigger>,
                          handles: seq<Option<int>>, now: int, accepting: bool)
    requires UniqueIds(before) && InStepWith(before, after, handles)
    requires IssuedSoFar(ActiveOf(before), handles, pending, |handles|, now, accepting)
    ensures TrackedByFuture(after, pending, now)
  {
    var a := ActiveOf(before);
    forall h | h in pending
      ensures exists j :: (0 <= j < |after|
        && Carries(after[j], h, pending[h]) && InActiveList(after[j]) && after[j].dateTime > now)
    {
      var k :| 0 <= k < |handles| && handles[k] == Some(h);
      var j := SnapshotEntryPosition(before, k);
      SnapshotIndexOfEntry(before, k);
      assert after[j] == a[k].(notificationId := Some(h));
    }
  }

  /** At the end of the loop, entries that were not future and active are unchanged, and the others are armed. */
  lemma RescheduleEntries(before: seq<Reminder>, after: seq<Reminder>, pending: map<int, Trigger>,
                          handles: seq<Option<int>>, now: int, accepting: bool)
    requires UniqueIds(before) && InStepWith(before, after, handles)
    requires IssuedSoFar(ActiveOf(before), handles, pending, |handles|, now, accepting)
    ensures forall j :: 0 <= j < |after| && !(accepting && InActiveList(before[j]) && before[j].dateTime > now) ==>
      after[j] == before[j]
    ensures forall j :: 0 <= j < |after| && accepting && InActiveList(after[j]) && after[j].dateTime > now ==>
      HasPendingTrigger(after[j], pending)
  {
    forall j | 0 <= j < |after| && !(accepting && InActiveList(before[j]) && before[j].dateTime > now)
      ensures after[j] == before[j]
    {
      if InActiveList(before[j]) {
        var k := SnapshotPositionOfActive(before, j);
      } else {
        SnapshotMissesInactive(before, j);
      }
    }
    forall j | 0 <= j < |after| && accepting && InActiveList(after[j]) && after[j].dateTime > now
      ensures HasPendingTrigger(after[j], pending)
    {
      assert InActiveList(before[j]);
      var k := SnapshotPositionOfActive(before, j);
    }
  }

  /** The bookkeeping of the rescheduling loop, once it has run to the end, means `RescheduledFrom`. */
  lemma RescheduleMeaning(before: seq<Reminder>, after: seq<Reminder>, pending: map<int, Trigger>,
                          handles: seq<Option<int>>, now: int, accepting: bool)
    requires UniqueIds(before) && InStepWith(before, after, handles)
    requires IssuedSoFar(ActiveOf(before), handles, pending, |handles|, now, accepting)
    ensures RescheduledFrom(before, after, pending, now, accepting)
  {
    assert UniqueIds(after) by {
      forall i, j | 0 <= i < j < |after| ensures after[i].id != after[j].id {
        assert after[i].id == before[i].id && after[j].id == before[j].id;
      }
    }
    RescheduleTracked(before, after, pending, handles, now, accepting);
    RescheduleEntries(before, after, pending, handles, now, accepting);
  }

  /** Entries other than the one with snapshot entry `i`'s id do not see that entry's handle. */
  lemma ReattachOthers(before: seq<Reminder>, handles: seq<Option<int>>, i: int, h: Option<int>, j: int)
    requires UniqueIds(before) && |handles| == |ActiveOf(before)| && 0 <= i < |handles|
    requires 0 <= j < |before| && before[j].id != ActiveOf(before)[i].id
    ensures Reattached(before[j], ActiveOf(before), handles[i := h]) == Reattached(before[j], ActiveOf(before), handles)
  {
    var a := ActiveOf(before);
    var k := IndexOfId(a, before[j].id);
    assert k != -1 ==> a[k].id != a[i].id;
  }

  /** The store after one rescheduling step wrote snapshot entry `r` back with handle `h`, if it did. */
  function WrittenBack(items: seq<Reminder>, r: Reminder, h: Option<int>): seq<Reminder> {
    if h.Some? && r.notificationId != h then ReplaceFirst(items, r.(notificationId := h)) else items
  }

  /** One step of the rescheduling loop keeps the store in step with the handles handed out so far. */
  lemma ReattachStep(before: seq<Reminder>, items: seq<Reminder>, handles: seq<Option<int>>, i: int, h: Option<int>)
    requires UniqueIds(before) && InStepWith(before, items, handles)
    requires 0 <= i < |handles| && handles[i] == None
    ensures InStepWith(before, WrittenBack(items, ActiveOf(before)[i], h), handles[i := h])
  {
    var a := ActiveOf(before);
    var handles' := handles[i := h];
    var js := SnapshotEntryPosition(before, i);
    SnapshotIndexOfEntry(before, i);
    assert items[js] == a[i];
    forall j | 0 <= j < |before| && j != js
      ensures Reattached(before[j], a, handles') == items[j]
    {
      ReattachOthers(before, handles, i, h, j);
    }
    var u := a[i].(notificationId := h);
    if h.Some? && a[i].notificationId != h {
      assert Reattached(before[js], a, handles') == u;
      assert HasId(items, u.id) by { assert items[js].id == u.id; }
      var written := ReplaceFirst(items, u);
      var k :| IsFirstWithId(items, u.id, k) && written == items[k := u];
      assert items[k].id == before[k].id;
      assert k == js;
    } else {
      assert Reattached(before[js], a, handles') == a[i];
    }
  }

  /** The log of a rescheduling pass: the earlier log, one cancel-all, then schedule requests only. */
  predicate ScheduleAllLog(old_calls: seq<Call>, calls: seq<Call>) {
    |calls| > |old_calls| && calls[..|old_calls|] == old_calls && calls[|old_calls|] == CancelledAll
    && ScheduleRequestsOnly(calls[|old_calls| + 1..])
  }

  /**
   * The trigger and store work of the rescheduling loop for snapshot entry `reminder`: when it is
   * due after `now`, request a trigger and, when one is obtained and differs
   * from the stored handle, write the entry back with it.
   */
  method RescheduleEntry(storage: ReminderStorage, scheduler: Scheduler, reminder: Reminder, now: int)
    returns (ghost h: Option<int>)
    requires scheduler.Valid() && HasId(storage.Items(), reminder.id)
    modifies storage, scheduler
    ensures scheduler.Valid() && scheduler.accepting == old(scheduler.accepting)
    ensures scheduler.accepting && reminder.dateTime > now ==> (h.Some? && h.value !in old(scheduler.pending)
      && scheduler.pending == old(scheduler.pending)[h.value := Trigger(reminder.id, reminder.dateTime)])
    ensures !(scheduler.accepting && reminder.dateTime > now) ==> h == None && scheduler.pending == old(scheduler.pending)
    ensures scheduler.calls == old(scheduler.calls) + RescheduleLog(reminder, now, h)
    ensures DueAfter(old(scheduler.pending), now) ==> DueAfter(scheduler.pending, now)
    ensures storage.Items() == WrittenBack(old(storage.Items()), reminder, h)
    ensures h == None ==> storage.slot == old(storage.slot)
  {
    h := None;
    if reminder.dateTime > now {
      var notificationId := scheduler.Schedule(reminder.id, reminder.dateTime);
      h := notificationId;
      if notificationId.Some? && reminder.notificationId != notificationId {
        var updated := reminder.(notificationId := notificationId);
        // Cannot fail: the entry's id is stored.
        var saved := storage.UpdateReminder(updated);
      }
    }
  }

  /**
   * `scheduleAllPendingReminders`: takes the active snapshot, cancels every
   * trigger, then schedules one for each snapshot entry due after `now` and
   * writes the new handle back when it differs from the stored one.
   */
  method ScheduleAllPendingReminders(storage: ReminderStorage, scheduler: Scheduler, now: int)
    requires scheduler.Valid()
    modifies storage, scheduler
    ensures scheduler.Valid() && scheduler.accepting == old(scheduler.accepting)
    ensures SameIds(old(storage.Items()), storage.Items())
    ensures DueAfter(scheduler.pending, now)
    ensures ScheduleAllLog(old(scheduler.calls), scheduler.calls)
    ensures Requested(scheduler.calls[|old(scheduler.calls)| + 1..]) == DueTriggers(ActiveOf(old(storage.Items())), now)
    ensures !scheduler.accepting ==> scheduler.pending == map[] && storage.slot == old(storage.slot)
    ensures old(UniqueIds(storage.Items())) ==>
      RescheduledFrom(old(storage.Items()), storage.Items(), scheduler.pending, now, scheduler.accepting)
  {
    var activeReminders := storage.GetActiveReminders();
    ghost var before := storage.Items();
    ghost var calls0 := scheduler.calls;
    scheduler.CancelAll();
    ghost var prefix := calls0 + [CancelledAll];
    ghost var handles, tail := RescheduleSnapshot(storage, scheduler, activeReminders, before, now);
    assert scheduler.calls[|calls0| + 1..] == tail;
    assert activeReminders[..|activeReminders|] == activeReminders;
    if UniqueIds(before) {
      RescheduleMeaning(before, storage.Items(), scheduler.pending, handles, now, scheduler.accepting);
    }
  }

  /**
   * The loop of `scheduleAllPendingReminders`, run after the cancel-all over
   * the snapshot `activeReminders` of the store `before`: `handles[k]` is the
   * handle obtained for snapshot entry `k`, and `tail` the requests made.
   */
  method RescheduleSnapshot(storage: ReminderStorage, scheduler: Scheduler, activeReminders: seq<Reminder>,
                            ghost before: seq<Reminder>, now: int)
    returns (ghost handles: seq<Option<int>>, ghost tail: seq<Call>)
    requires scheduler.Valid() && scheduler.pending == map[]
    requires storage.Items() == before && activeReminders == ActiveOf(before)
    modifies storage, scheduler
    ensures scheduler.Valid() && scheduler.accepting == old(scheduler.accepting)
    ensures IssuedSoFar(activeReminders, handles, scheduler.pending, |activeReminders|, now, scheduler.accepting)
    ensures SameIds(before, storage.Items())
    ensures DueAfter(scheduler.pending, now)
    ensures LoggedSoFar(old(scheduler.calls), tail, scheduler.calls, activeReminders, |activeReminders|, now)
    ensures !scheduler.accepting ==> scheduler.pending == map[] && storage.slot == old(storage.slot)
    ensures UniqueIds(before) ==> InStepWith(before, storage.Items(), handles)
  {
    ghost var prefix := scheduler.calls;
    tail := [];
    handles := seq(|activeReminders|, _ => None);
    var i := 0;
    while i < |activeReminders|
      invariant scheduler.Valid() && scheduler.accepting == old(scheduler.accepting)
      invariant PassSoFar(before, activeReminders, handles, prefix, tail, storage.Items(), scheduler.pending,
                          scheduler.calls, scheduler.accepting, i, now)
      invariant !scheduler.accepting ==> scheduler.pending == map[] && storage.slot == old(storage.slot)
    {
      handles, tail := RescheduleAt(storage, scheduler, activeReminders, before, now, prefix, handles, tail, i);
      i := i + 1;
    }
  }

  /**
   * What the rescheduling loop knows after the first `i` snapshot entries:
   * handles issued for exactly the processed future entries, ids in place,
   * every trigger in the future, the log so far, and (with distinct ids) the
   * store in step with the handles obtained.
   */
  ghost predicate PassSoFar(before: seq<Reminder>, active: seq<Reminder>, handles: seq<Option<int>>,
                            prefix: seq<Call>, tail: seq<Call>, items: seq<Reminder>,
                            pending: map<int, Trigger>, calls: seq<Call>, accepting: bool, i: int, now: int) {
    && IssuedSoFar(active, handles, pending, i, now, accepting)
    && SameIds(before, items)
    && DueAfter(pending, now)
    && LoggedSoFar(prefix, tail, calls, active, i, now)
    && (UniqueIds(before) ==> InStepWith(before, items, handles))
  }

  /** One pass of the rescheduling loop, for snapshot entry `i`: the loop's facts after `i` entries become its facts after `i + 1`. */
  method RescheduleAt(storage: ReminderStorage, scheduler: Scheduler, activeReminders: seq<Reminder>,
                      ghost before: seq<Reminder>, now: int, ghost prefix: seq<Call>,
                      ghost handles: seq<Option<int>>, ghost tail: seq<Call>, i: int)
    returns (ghost handles': seq<Option<int>>, ghost tail': seq<Call>)
    requires 0 <= i < |activeReminders| && activeReminders == ActiveOf(before) && scheduler.Valid()
    requires PassSoFar(before, activeReminders, handles, prefix, tail, storage.Items(), scheduler.pending,
                       scheduler.calls, scheduler.accepting, i, now)
    modifies storage, scheduler
    ensures scheduler.Valid() && scheduler.accepting == old(scheduler.accepting)
    ensures PassSoFar(before, activeReminders, handles', prefix, tail', storage.Items(), scheduler.pending,
                      scheduler.calls, scheduler.accepting, i + 1, now)
    ensures !scheduler.accepting ==> scheduler.pending == old(scheduler.pending) && storage.slot == old(storage.slot)
  {
    var reminder := activeReminders[i];
    ghost var items := storage.Items();
    ghost var pending := scheduler.pending;
    ghost var calls := scheduler.calls;
    WriteBackKeepsIds(before, items, i, reminder);
    ghost var h := RescheduleEntry(storage, scheduler, reminder, now);
    HandleWriteBackKeepsIds(before, items, i, h);
    LogStep(prefix, tail, calls, activeReminders, i, now, h);
    tail' := tail + RescheduleLog(reminder, now, h);
    IssueStep(activeReminders, handles, pending, scheduler.pending, i, now, scheduler.accepting, h);
    if UniqueIds(before) {
      ReattachStep(before, items, handles, i, h);
    }
    handles' := handles[i := h];
  }

  // ---------------------------------------------------------------------------
  // cleanupExpiredReminders

  /** `expiredCutoff`: 24 hours before the clock. */
  function ExpiredCutoff(now: int): int {
    now - DAY_MS
  }

  /** The pass's test `reminder.dateTime < expiredCutoff`. */
  function ExpiredBefore(cutoff: int): Reminder -> bool {
    (r: Reminder) => r.dateTime < cutoff
  }

  /** What the cleanup pass does to one store entry: an active entry due before the cutoff is made inactive. */
  function Archived(r: Reminder, cutoff: int): Reminder {
    if InActiveList(r) && r.dateTime < cutoff then r.(isActive := false) else r
  }

  /**
   * After cleanup no entry is both active and expired; an entry it changes was
   * active and overdue and becomes archived (neither active nor completed);
   * only `isActive` changes; entries due at or after the cutoff are untouched.
   */
  lemma ArchivedSpec(r: Reminder, now: int)
    ensures var a := Archived(r, ExpiredCutoff(now));
      && !(InActiveList(a) && a.dateTime < ExpiredCutoff(now))
      && (a != r ==> InActiveList(r) && IsOverdue(r, now) && IsArchived(a))
      && a.(isActive := r.isActive) == r
      && (r.dateTime >= ExpiredCutoff(now) ==> a == r)
  {
  }

  /** A store entry once the cleanup loop has processed the first `i` snapshot entries. */
  function ArchivedUpTo(r: Reminder, active: seq<Reminder>, i: int, cutoff: int): Reminder {
    var k := IndexOfId(active, r.id);
    if 0 <= k < i then Archived(r, cutoff) else r
  }

  /** The store after the cleanup loop has processed the first `i` snapshot entries. */
  ghost predicate ArchivedSoFar(before: seq<Reminder>, items: seq<Reminder>, i: int, cutoff: int) {
    && |items| == |before|
    && forall j :: 0 <= j < |before| ==> items[j] == ArchivedUpTo(before[j], ActiveOf(before), i, cutoff)
  }

  /** Processing snapshot entry `i` leaves entries with other ids as they were. */
  lemma ArchiveOthers(before: seq<Reminder>, i: int, j: int, cutoff: int)
    requires UniqueIds(before) && 0 <= i < |ActiveOf(before)|
    requires 0 <= j < |before| && before[j].id != ActiveOf(before)[i].id
    ensures ArchivedUpTo(before[j], ActiveOf(before), i + 1, cutoff) == ArchivedUpTo(before[j], ActiveOf(before), i, cutoff)
  {
    var a := ActiveOf(before);
    var k := IndexOfId(a, before[j].id);
    assert k != -1 ==> a[k].id != a[i].id;
  }

  /** The store after one cleanup step for snapshot entry `r`. */
  function ExpiredWrittenBack(items: seq<Reminder>, r: Reminder, cutoff: int): seq<Reminder> {
    if r.dateTime < cutoff then ReplaceFirst(items, r.(isActive := false)) else items
  }

  /** One step of the cleanup loop keeps the store in step with the snapshot entries processed so far. */
  lemma ArchiveStep(before: seq<Reminder>, items: seq<Reminder>, i: int, cutoff: int)
    requires UniqueIds(before) && 0 <= i < |ActiveOf(before)|
    requires ArchivedSoFar(before, items, i, cutoff)
    ensures ArchivedSoFar(before, ExpiredWrittenBack(items, ActiveOf(before)[i], cutoff), i + 1, cutoff)
  {
    var a := ActiveOf(before);
    var js := SnapshotEntryPosition(before, i);
    SnapshotIndexOfEntry(before, i);
    assert items[js] == a[i];
    forall j | 0 <= j < |before| && j != js
      ensures ArchivedUpTo(before[j], a, i + 1, cutoff) == items[j]
    {
      ArchiveOthers(before, i, j, cutoff);
    }
    if a[i].dateTime < cutoff {
      var u := a[i].(isActive := false);
      assert ArchivedUpTo(before[js], a, i + 1, cutoff) == u;
      assert HasId(items, u.id) by { assert items[js].id == u.id; }
      var written := ReplaceFirst(items, u);
      var k :| IsFirstWithId(items, u.id, k) && written == items[k := u];
      assert items[k].id == before[k].id;
      assert k == js;
    } else {
      assert ArchivedUpTo(before[js], a, i + 1, cutoff) == a[i];
    }
  }

  /** Once the whole snapshot is processed, every entry of the store is archived or left as it is by `Archived`. */
  lemma ArchiveDone(before: seq<Reminder>, items: seq<Reminder>, cutoff: int)
    requires UniqueIds(before) && ArchivedSoFar(before, items, |ActiveOf(before)|, cutoff)
    ensures forall j :: 0 <= j < |items| ==> items[j] == Archived(before[j], cutoff)
  {
    forall j | 0 <= j < |before| ensures items[j] == Archived(before[j], cutoff) {
      if !InActiveList(before[j]) {
        SnapshotMissesInactive(before, j);
      } else {
        var k := SnapshotPositionOfActive(before, j);
      }
    }
  }

  /** How many of the first `i` entries of `s` are due before `cutoff`. */
  function ExpiredAmong(s: seq<Reminder>, i: nat, cutoff: int): nat
    requires i <= |s|
  {
    if i == 0 then 0 else ExpiredAmong(s, i - 1, cutoff) + (if s[i - 1].dateTime < cutoff then 1 else 0)
  }

  /** One more entry of the prefix counts when it is due before `cutoff`. */
  lemma ExpiredAmongStep(s: seq<Reminder>, i: nat, cutoff: int)
    requires i < |s|
    ensures ExpiredAmong(s, i + 1, cutoff) == ExpiredAmong(s, i, cutoff) + if s[i].dateTime < cutoff then 1 else 0
  {
  }

  /** The running count is the number of entries the expiry test keeps. */
  lemma {:induction false} ExpiredAmongIsFilter(s: seq<Reminder>, i: nat, cutoff: int)
    requires i <= |s|
    ensures ExpiredAmong(s, i, cutoff) == |Filter(s[..i], ExpiredBefore(cutoff))|
    decreases i
  {
    if i == 0 {
      assert s[..0] == [];
    } else {
      ExpiredAmongIsFilter(s, i - 1, cutoff);
      CountExpiredStep(s, i - 1, cutoff);
    }
  }

  /** What the cleanup loop knows after the first `i` snapshot entries: ids in place and, with distinct ids, each entry archived so far. */
  ghost predicate CleanedSoFar(before: seq<Reminder>, items: seq<Reminder>, i: int, cutoff: int) {
    SameIds(before, items) && (UniqueIds(before) ==> ArchivedSoFar(before, items, i, cutoff))
  }

  /** One pass of the cleanup loop, for snapshot entry `i`; `expired` says whether it counts. */
  method ExpireAt(storage: ReminderStorage, activeReminders: seq<Reminder>, ghost before: seq<Reminder>,
                  i: int, cutoff: int) returns (expired: bool)
    requires 0 <= i < |activeReminders| && activeReminders == ActiveOf(before)
    requires CleanedSoFar(before, storage.Items(), i, cutoff)
    modifies storage
    ensures CleanedSoFar(before, storage.Items(), i + 1, cutoff)
    ensures ExpiredAmong(activeReminders, i + 1, cutoff) == ExpiredAmong(activeReminders, i, cutoff) + (if expired then 1 else 0)
    ensures !expired ==> storage.slot == old(storage.slot)
  {
    var reminder := activeReminders[i];
    ghost var items := storage.Items();
    WriteBackKeepsIds(before, items, i, reminder.(isActive := false));
    ExpiryWriteBackKeepsIds(before, items, i, cutoff);
    if UniqueIds(before) {
      ArchiveStep(before, items, i, cutoff);
    }
    expired := ExpireEntry(storage, reminder, cutoff);
    ExpiredAmongStep(activeReminders, i, cutoff);
  }

  /** The store write of the cleanup loop for snapshot entry `reminder`: write it back inactive when it is due before `cutoff`. */
  method ExpireEntry(storage: ReminderStorage, reminder: Reminder, cutoff: int) returns (expired: bool)
    requires HasId(storage.Items(), reminder.id)
    modifies storage
    ensures expired == (reminder.dateTime < cutoff)
    ensures storage.Items() == ExpiredWrittenBack(old(storage.Items()), reminder, cutoff)
    ensures !expired ==> storage.slot == old(storage.slot)
  {
    expired := false;
    if reminder.dateTime < cutoff {
      var updated := reminder.(isActive := false);
      // Cannot fail: the entry's id is stored.
      var saved := storage.UpdateReminder(updated);
      expired := true;
    }
  }

  /**
   * `cleanupExpiredReminders`: every entry of the active snapshot due more than
   * a day before `now` is written back inactive; the result is how many were.
   */
  method CleanupExpiredReminders(storage: ReminderStorage, now: int) returns (cleanedCount: nat)
    modifies storage
    ensures cleanedCount == |Filter(ActiveOf(old(storage.Items())), ExpiredBefore(ExpiredCutoff(now)))|
    ensures cleanedCount == 0 ==> storage.slot == old(storage.slot)
    ensures SameIds(old(storage.Items()), storage.Items())
    ensures old(UniqueIds(storage.Items())) ==> forall j :: 0 <= j < |storage.Items()| ==>
      storage.Items()[j] == Archived(old(storage.Items())[j], ExpiredCutoff(now))
  {
    var activeReminders := storage.GetActiveReminders();
    ghost var before := storage.Items();
    var expiredCutoff := now - DAY_MS;
    cleanedCount := 0;
    for i := 0 to |activeReminders|
      invariant activeReminders == ActiveOf(before)
      invariant CleanedSoFar(before, storage.Items(), i, expiredCutoff)
      invariant cleanedCount == ExpiredAmong(activeReminders, i, expiredCutoff)
      invariant cleanedCount == 0 ==> storage.slot == old(storage.slot)
    {
      var expired := ExpireAt(storage, activeReminders, before, i, expiredCutoff);
      if expired {
        cleanedCount := cleanedCount + 1;
      }
    }
    ExpiredAmongIsFilter(activeReminders, |activeReminders|, expiredCutoff);
    assert activeReminders[..|activeReminders|] == activeReminders;
    if UniqueIds(before) {
      ArchiveDone(before, storage.Items(), expiredCutoff);
    }
  }

  /** The cleanup pass keeps every trigger recorded when the triggers are all due after its cutoff. */
  lemma CleanupKeepsTracking(before: seq<Reminder>, after: seq<Reminder>, pending: map<int, Trigger>,
                             t: int, cutoff: int)
    requires TrackedByFuture(before, pending, t) && cutoff <= t
    requires |after| == |before|
    requires forall j :: 0 <= j < |before| ==> after[j] == Archived(before[j], cutoff)
    ensures TrackedByFuture(after, pending, t)
  {
    forall h | h in pending
      ensures exists j :: (0 <= j < |after|
        && Carries(after[j], h, pending[h]) && InActiveList(after[j]) && after[j].dateTime > t)
    {
      var j :| 0 <= j < |before| && Carries(before[j], h, pending[h]) && InActiveList(before[j]) && before[j].dateTime > t;
      assert after[j] == before[j];
    }
  }

  /**
   * `initializeBackgroundTasks`: the rescheduling pass at clock `scheduleNow`,
   * which leaves the store `middle`, then the cleanup pass at the later clock
   * `cleanupNow`, which archives the entries of `middle` more than a day overdue
   * and counts them. With distinct ids, when the cleanup cutoff is not after the
   * rescheduling clock, every outstanding trigger afterwards belongs to a
   * reminder that is still active.
   */
  method InitializeBackgroundTasks(storage: ReminderStorage, scheduler: Scheduler, scheduleNow: int, cleanupNow: int)
    returns (cleanedCount: nat, ghost middle: seq<Reminder>)
    requires scheduler.Valid()
    modifies storage, scheduler
    ensures scheduler.Valid() && scheduler.accepting == old(scheduler.accepting)
    ensures DueAfter(scheduler.pending, scheduleNow)
    ensures ScheduleAllLog(old(scheduler.calls), scheduler.calls)
    ensures Requested(scheduler.calls[|old(scheduler.calls)| + 1..])
      == DueTriggers(ActiveOf(old(storage.Items())), scheduleNow)
    ensures !scheduler.accepting ==> scheduler.pending == map[] && middle == old(storage.Items())
    ensures SameIds(old(storage.Items()), middle) && SameIds(middle, storage.Items())
    ensures old(UniqueIds(storage.Items())) ==>
      RescheduledFrom(old(storage.Items()), middle, scheduler.pending, scheduleNow, scheduler.accepting)
    ensures old(UniqueIds(storage.Items())) ==> forall j :: 0 <= j < |storage.Items()| ==>
      storage.Items()[j] == Archived(middle[j], ExpiredCutoff(cleanupNow))
    ensures cleanedCount == |Filter(ActiveOf(middle), ExpiredBefore(ExpiredCutoff(cleanupNow)))|
    ensures |storage.Items()| == |old(storage.Items())|
    ensures old(UniqueIds(storage.Items())) ==> UniqueIds(storage.Items())
    ensures old(UniqueIds(storage.Items())) && ExpiredCutoff(cleanupNow) <= scheduleNow ==>
      TrackedByFuture(storage.Items(), scheduler.pending, scheduleNow)
  {
    ghost var before := storage.Items();
    ScheduleAllPendingReminders(storage, scheduler, scheduleNow);
    middle := storage.Items();
    cleanedCount := CleanupExpiredReminders(storage, cleanupNow);
    if UniqueIds(before) {
      assert UniqueIds(storage.Items()) by {
        forall i, j | 0 <= i < j < |storage.Items()| ensures storage.Items()[i].id != storage.Items()[j].id {
          assert storage.Items()[i].id == middle[i].id && storage.Items()[j].id == middle[j].id;
        }
      }
      if ExpiredCutoff(cleanupNow) <= scheduleNow {
        CleanupKeepsTracking(middle, storage.Items(), scheduler.pending, scheduleNow, ExpiredCutoff(cleanupNow));
      }
    }
  }
}
