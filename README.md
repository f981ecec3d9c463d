# Reminder lifecycle, verified in Dafny

This project is a Dafny model of the reminder lifecycle of a reminder app. The app is written twice: a React Native (TypeScript) client and an Android (Kotlin) client. Both stacks keep reminders with two flags, `isActive` and `isCompleted`. The states are:

- **active**: shown on the active tab;
- **completed**: shown on the completed tab;
- **archived**: neither flag set, shown on no tab.

Each reminder carries the handle (`notificationId`) of the platform trigger last scheduled for it. The model covers:

- the records and helpers: the `Reminder` record, `isOverdue`, the today/tomorrow date buckets, the six postpone presets, and the 32-bit `Int` arithmetic of the Android postpone (module `Reminders`);
- the platform trigger service, reduced to its contract: `schedule` gives a fresh handle or nothing, `cancel` never fails and is a no-op on an unknown handle, and everything can be cancelled at once (module `Platform`). A ghost log records every request in order, so the model can state "cancel before schedule" and "cancel-all first";
- the JavaScript store, one list kept under one key, with load-modify-write operations (module `Storage`, class `ReminderStorage`);
- the Android Room table keyed by id (module `Dao`, class `ReminderDao`);
- the Android lifecycle manager (module `Repository`, class `ReminderRepository`);
- the JavaScript start-up housekeeping: re-arm the future active reminders, then archive those more than a day overdue (module `BackgroundTasks`);
- the JavaScript provider, with its held tab lists and its add, update, delete, complete, postpone, refresh and start-up operations (module `Context`, class `ReminderProvider`);
- the JavaScript add/edit form's save handler (module `Modal`) and the Android dialog's confirm guard (module `Dialog`);
- helpers, with their properties proved: order-preserving filtering and key-ordered insertion sort (module `Sequences`), trimming and blank tests over each stack's whitespace set (module `Text`), and `Option`/`Outcome` (module `Wrappers`).

The central invariant is that every outstanding trigger is recorded on a stored reminder under its own handle and time:

- `Platform.TrackedIn` for the list store;
- `Platform.TrackedInTable` for the table.

With distinct ids this means at most one trigger per reminder. Every operation is proved to preserve the invariant, under the conditions given in its row and on its "## Left out" line.

Clocks are parameters: each operation takes the one `now` it reads. Ids are parameters as well: the model takes the id as given instead of generating one from the clock and a random number (JavaScript) or a UUID (Android). Whether the trigger service accepts requests is the scheduler's `accepting` field. It can change between operations (`Platform.Scheduler.SetAccepting`) and holds for the length of one operation. A store that refuses an id is an `Outcome` failure. Timestamps are integers (epoch milliseconds).

The model follows the code as written, including these behaviours:

- on the JavaScript stack, complete and postpone of an id that is not on the held active tab do nothing, and raise no not-found error;
- on the JavaScript stack, an update that obtains no new trigger keeps the stale handle on the record;
- `completeReminder` on the JavaScript stack leaves the old handle on the completed record;
- when the JavaScript store refuses an update, the trigger calls have already been made: the old trigger is cancelled and a new one may be outstanding, unrecorded. The tabs are not re-read;
- the Android dialog has no future-time check, and the Android delete of a missing id is silent;
- the JavaScript start-up re-reads the tabs before the housekeeping passes and not after, so they show the store as it was before them.

## Model

| member | source | states |
|---|---|---|
| Reminders.LifecycleStatesPartition | services/reminderStorage.ts:104-116 | every record is active, completed or archived; no record is on both tabs; an archived record is on neither |
| Reminders.FilterKeepsUniqueIds | services/reminderStorage.ts:90 | a filtered sub-list of a list with distinct ids has distinct ids |
| Reminders.NewReminderIsActive | data/Reminder.kt:9-19 | the entity's defaults give an active, uncompleted record with empty description and no trigger handle |
| Reminders.OverdueIffPendingAndPast | data/Reminder.kt:49-51 | a completed reminder is never overdue; any other one is overdue exactly when its time is before the clock |
| Reminders.BucketByDayOffset | data/Reminder.kt:34-46 | the label is "today" exactly on day offset 0 from local midnight, "tomorrow" exactly on offset 1, the full date on every other day |
| Reminders.AscendingMinutesOrdered | types/reminder.ts:19-26 | presets whose minutes rise one step at a time rise between any two positions |
| Reminders.PostponeOptionsShape | data/Reminder.kt:59-66 | six presets, positive, strictly ascending, the largest exactly one day, all within the bound where the Android arithmetic is exact |
| Reminders.PostponeOptionsDistinct | types/reminder.ts:20-25 | any two presets have different minute counts, the earlier one smaller |
| Reminders.WrapInt32 | repository/ReminderRepository.kt:138 | the result is a 32-bit value congruent to the input modulo 2^32, and it is the input itself when that already fits |
| Reminders.PostponeDeltaExact | repository/ReminderRepository.kt:138 | up to 35791 minutes `minutes * 60 * 1000` in `Int` equals the true product, so a positive count moves the time later |
| Reminders.PostponeDeltaWrapsPastBound | repository/ReminderRepository.kt:138 | at 35792 minutes the `Int` product wraps to a negative delta, which would move the reminder earlier |
| Platform.Scheduler.constructor | services/notificationService.ts:58-104 | the service starts with no outstanding triggers and an empty request log |
| Platform.Scheduler.Schedule | services/NotificationService.kt:17-54 | when the platform accepts, a handle not outstanding before is returned and its trigger added; otherwise nothing is returned and nothing changes; the request is logged |
| Platform.Scheduler.Cancel | services/notificationService.ts:90-96 | cancelling removes exactly that handle and cannot fail, an unknown handle included |
| Platform.Scheduler.CancelStored | contexts/ReminderContext.tsx:118-125 | a record's handle is cancelled and logged when it carries one; a record without one leaves the triggers and the log as they were |
| Platform.Scheduler.CancelAll | services/notificationService.ts:98-104 | afterwards no trigger is outstanding |
| Platform.Scheduler.SetAccepting | services/notificationService.ts:58-61 | the platform's answer to later requests changes, with nothing outstanding touched and nothing logged; permission is asked again on every request |
| Platform.AtMostOneTriggerPerReminder | contexts/ReminderContext.tsx:117-138 | with tracked triggers and distinct ids in the list store, two outstanding triggers for the same reminder are the same trigger |
| Platform.AtMostOneTriggerPerRow | repository/ReminderRepository.kt:59-67 | with tracked triggers in the table, at most one trigger is outstanding per reminder, and it fires at the row's time |
| Storage.IndexOfId | services/reminderStorage.ts:61 | -1 exactly when no entry has the id; otherwise the position of the first entry with it |
| Storage.ReplaceFirst | services/reminderStorage.ts:61-63 | the length is kept; with no entry for the id the list is unchanged; otherwise only the first entry with the id is replaced |
| Storage.ReplaceFirstKeepsIds | services/reminderStorage.ts:61-63 | replacing by id keeps every id in its place, so distinct ids stay distinct |
| Storage.RemoveIdSpec | services/reminderStorage.ts:84-93 | no entry with the id is left; every other entry is kept as often as it occurred; deletion distributes over concatenation, so relative order is kept |
| Storage.ActiveCompletedDisjoint | services/reminderStorage.ts:104-116 | the active and completed filters never share an element, and an archived entry is in neither |
| Storage.FilteredEntryIsEntry | services/reminderStorage.ts:104-116 | an entry of a filtered list is a stored entry that passes the filter |
| Storage.HasIdCheck | services/reminderStorage.ts:84 | `some(r => r.id === id)` holds exactly when an entry has the id |
| Storage.ReminderStorage.GetReminders | services/reminderStorage.ts:8-30 | the stored list, or the empty list when the key is absent or the blob does not load |
| Storage.ReminderStorage.SaveReminders | services/reminderStorage.ts:32-42 | the key then holds exactly the given list |
| Storage.ReminderStorage.AddReminder | services/reminderStorage.ts:44-55 | the new list is the old one with the record appended at the end, with no duplicate-id check |
| Storage.ReminderStorage.UpdateReminder | services/reminderStorage.ts:57-75 | succeeds exactly when an entry has the id, and then replaces only the first such entry; otherwise fails with not-found and writes nothing |
| Storage.ReminderStorage.DeleteReminder | services/reminderStorage.ts:77-99 | succeeds exactly when an entry has the id, and then removes every entry with it; otherwise fails with not-found and writes nothing |
| Storage.ReminderStorage.GetActiveReminders | services/reminderStorage.ts:101-111 | the stored entries that are active and not completed, in stored order |
| Storage.ReminderStorage.GetCompletedReminders | services/reminderStorage.ts:113-123 | the stored entries that are completed, in stored order |
| Storage.ReminderStorage.ClearAllReminders | services/reminderStorage.ts:126-135 | the key is removed, so loading yields the empty list |
| Dao.ReminderDao.constructor | data/ReminderDao.kt:7-33 | the table starts empty |
| Dao.ReminderDao.SelectWhere | data/ReminderDao.kt:10-14 | one scan of the table yields every row satisfying the condition exactly once |
| Dao.ReminderDao.GetActiveReminders | data/ReminderDao.kt:10-11 | exactly the rows with `isActive = 1 AND isCompleted = 0`, each once, by ascending time |
| Dao.ReminderDao.GetCompletedReminders | data/ReminderDao.kt:13-14 | exactly the rows with `isCompleted = 1`, each once, by descending `updatedAt` |
| Dao.ReminderDao.GetReminderById | data/ReminderDao.kt:16-17 | the row with that primary key if there is one, otherwise null |
| Dao.ReminderDao.InsertReminder | data/ReminderDao.kt:19-20 | an upsert: afterwards the one row with the record's id is the record, and no other row changes |
| Dao.ReminderDao.UpdateReminder | data/ReminderDao.kt:22-23 | replaces the row with the record's id; the table is unchanged when there is none |
| Dao.ReminderDao.DeleteReminder | data/ReminderDao.kt:25-26 | removes the row with the record's primary key, if any, and no other |
| Dao.ReminderDao.DeleteReminderById | data/ReminderDao.kt:28-29 | removes the row with that id, if present, and leaves every other row unchanged |
| Dao.ReminderDao.GetAllReminders | data/ReminderDao.kt:31-32 | every row exactly once |
| Repository.ResyncedHandle | repository/ReminderRepository.kt:65-72 | after an update the row has an alarm id exactly when it is active and not completed, whatever its time: the new id, or -1 when scheduling failed; `updatedAt` is the clock; nothing else changes |
| Repository.PostponeKeepsIdentity | repository/ReminderRepository.kt:136-146 | postponing keeps id, title, description, creation time and both flags; a preset-sized positive count moves the time exactly that many minutes later |
| Repository.ReminderRepository.constructor | repository/ReminderRepository.kt:12-16 | the manager works on the given table and alarm service |
| Repository.ReminderRepository.AddReminder | repository/ReminderRepository.kt:26-52 | one alarm is requested for the new record, which is inserted active, uncompleted and stamped with the clock, carrying the alarm id or -1; the invariant is kept for a new id |
| Repository.ReminderRepository.UpdateReminder | repository/ReminderRepository.kt:54-81 | the argument's alarm is cancelled before a new one is requested, and one is requested exactly when the record is active and not completed; the row is rewritten only when it exists; the invariant is kept when the argument carries the stored handle |
| Repository.ReminderRepository.DeleteReminder | repository/ReminderRepository.kt:83-100 | the stored row's alarm is cancelled, then the row is deleted; a missing id changes nothing; the invariant is kept |
| Repository.ReminderRepository.CompleteReminder | repository/ReminderRepository.kt:102-129 | any existing row, whatever its flags, has its alarm cancelled and becomes completed, inactive and without alarm id; a missing id changes nothing; the invariant is kept |
| Repository.ReminderRepository.PostponeReminder | repository/ReminderRepository.kt:131-152 | the stored row moves by the `Int`-computed delta and goes through the update rules: its alarm is cancelled before any request, and a fresh alarm is requested exactly when it is active and not completed; a missing id makes no call and writes nothing; the invariant is kept |
| BackgroundTasks.SnapshotEntryPosition | utils/backgroundTasks.ts:9 | with distinct ids, each entry of the active snapshot sits at exactly one store position |
| BackgroundTasks.SnapshotIndexOfEntry | utils/backgroundTasks.ts:9 | with distinct ids, looking up a snapshot entry's id in the snapshot finds that entry |
| BackgroundTasks.SnapshotPositionOfActive | utils/backgroundTasks.ts:9 | with distinct ids, every active stored entry is in the snapshot under its id |
| BackgroundTasks.SnapshotMissesInactive | utils/backgroundTasks.ts:9 | with distinct ids, no stored entry that is not active is in the snapshot |
| BackgroundTasks.WriteBackKeepsIds | utils/backgroundTasks.ts:21-44 | a snapshot entry's id is still stored while ids stay in place, so writing it back succeeds and keeps every id in place |
| BackgroundTasks.TrackedByFutureIsTracked | utils/backgroundTasks.ts:13-24 | triggers recorded on future active entries are tracked, and all fire after the clock |
| BackgroundTasks.RescheduleMeaning | utils/backgroundTasks.ts:16-24 | the loop's bookkeeping at the end means: only handles changed, only on future active entries, each such entry is armed for its own time, every trigger is on one |
| BackgroundTasks.ReattachStep | utils/backgroundTasks.ts:19-22 | one loop step keeps the store in step with the handles obtained so far |
| BackgroundTasks.IssueStep | utils/backgroundTasks.ts:17-18 | one loop step extends the handles obtained: a handle exactly for a processed future entry while the platform accepts |
| BackgroundTasks.RescheduleEntry | utils/backgroundTasks.ts:17-22 | a trigger is requested exactly for an entry due after the clock, and the entry is written back only when a handle was obtained that differs from its old one |
| BackgroundTasks.RequestStep | utils/backgroundTasks.ts:15-23 | one more loop step adds exactly the request for its entry when that entry is due after the clock, and nothing otherwise |
| BackgroundTasks.DueTriggersCount | utils/backgroundTasks.ts:15-23 | the pass makes as many requests as the snapshot has entries due after the clock, each for one of them |
| BackgroundTasks.LogStep | utils/backgroundTasks.ts:15-23 | after one more loop step the log is still the cancel-all followed by one request per processed entry due after the clock |
| BackgroundTasks.RescheduleAt | utils/backgroundTasks.ts:15-23 | one loop step keeps the issued handles, the ids, the future-only triggers, the log and the store's agreement with the handles |
| BackgroundTasks.RescheduleSnapshot | utils/backgroundTasks.ts:15-23 | after the loop a handle was issued for exactly the future entries while the platform accepts, the ids are in place, the log holds one request per future entry, and with distinct ids the store carries the handles |
| BackgroundTasks.ScheduleAllPendingReminders | utils/backgroundTasks.ts:7-30 | everything is cancelled before any request; then exactly one request is made per snapshot entry due after the clock, for that entry's id and time, in snapshot order, accepted or refused; afterwards every trigger fires after the clock; with distinct ids every future active entry is armed, every trigger is recorded on one, and nothing else changes |
| BackgroundTasks.ArchivedSpec | utils/backgroundTasks.ts:36-45 | after archiving no entry is both active and a day overdue; a changed entry was active and overdue and is now archived; only `isActive` changes; entries at or after the cutoff are untouched |
| BackgroundTasks.ArchiveStep | utils/backgroundTasks.ts:40-46 | one cleanup step keeps the store in step with the snapshot entries processed so far |
| BackgroundTasks.ArchiveDone | utils/backgroundTasks.ts:40-47 | once the snapshot is processed, each stored entry is its archived form |
| BackgroundTasks.ExpiredAmongIsFilter | utils/backgroundTasks.ts:38-46 | the running count is the number of snapshot entries due before the cutoff |
| BackgroundTasks.ExpireAt | utils/backgroundTasks.ts:40-47 | one cleanup step keeps the ids in place and archives its entry, and the count grows exactly when that entry is due before the cutoff |
| BackgroundTasks.ExpireEntry | utils/backgroundTasks.ts:42-45 | an entry is reported and written back inactive exactly when it is due before the cutoff |
| BackgroundTasks.CleanupExpiredReminders | utils/backgroundTasks.ts:32-55 | the cutoff is 24 hours before the clock; `cleanedCount` is the number of active entries due before it; with distinct ids each stored entry becomes its archived form |
| BackgroundTasks.CleanupKeepsTracking | utils/backgroundTasks.ts:60-63 | archiving before a cutoff no later than the reschedule clock keeps every trigger on a future active entry |
| BackgroundTasks.InitializeBackgroundTasks | utils/backgroundTasks.ts:57-69 | reschedule, then cleanup: one request per snapshot entry due after the reschedule clock, in snapshot order; the store after the first pass is the rescheduled store, the final store is its archived form, and the count is the number of its active entries a day overdue; a refusing platform leaves nothing outstanding; when the cutoff is not after the reschedule clock no archived reminder keeps a trigger |
| Sequences.FilterMembers | services/reminderStorage.ts:104-116 | a filter keeps exactly the accepted elements |
| Sequences.FilterCount | services/reminderStorage.ts:90 | a filter keeps each accepted element as often as it occurs and drops every rejected one |
| Sequences.InsertBy | contexts/ReminderContext.tsx:47-48 | inserting into a key-ordered list keeps it ordered and adds exactly the element |
| Sequences.SortBy | contexts/ReminderContext.tsx:47-48 | the result is ordered by the key and a permutation of the input |
| Sequences.SortByMembers | contexts/ReminderContext.tsx:47-48 | sorting keeps exactly the elements of the input |
| Text.TrimIsSlice | components/ReminderModal.tsx:52-72 | the trim is a contiguous slice, with only whitespace cut away and non-whitespace at both ends |
| Text.TrimEmptyIffBlank | components/ReminderModal.tsx:52 | a string trims to empty exactly when it is blank |
| Text.TrimIdempotent | ui/components/ReminderDialog.kt:71 | trimming twice is trimming once |
| Context.ViewsShowLifecycle | contexts/ReminderContext.tsx:36-57 | the tabs show exactly the stored entries in their state, as often as stored; the active tab by ascending time, the completed tab by descending `updatedAt` |
| Context.ShownEntries | contexts/ReminderContext.tsx:156 | the two tabs together show exactly the stored entries that are not archived |
| Context.ShownIffNotArchived | contexts/ReminderContext.tsx:156-163 | an id is on a tab exactly when a stored entry with it is not archived, so an archived reminder is not found by delete |
| Context.HeldIn | contexts/ReminderContext.tsx:157 | `find` by id yields an entry of the list with that id |
| Context.ViewsDrawnFrom | contexts/ReminderContext.tsx:36-57 | every entry on the tabs is a stored entry |
| Context.HeldIsStored | contexts/ReminderContext.tsx:156-157 | with distinct ids, the copy a re-read tab yields for an id is the stored entry, handle included |
| Context.Retabbed | contexts/ReminderContext.tsx:100-115 | `updatedAt` becomes the clock; a completed reminder due in the future becomes active and uncompleted; otherwise the flags stay; nothing else changes |
| Context.RetabbedSchedules | contexts/ReminderContext.tsx:105-128 | after the tab move a trigger is requested exactly for a future reminder that was active or completed, never for a future archived one |
| Context.TsUpdatedHandle | contexts/ReminderContext.tsx:128-140 | the stored record has the new handle when one was obtained and otherwise keeps the handle it had; text, id and time are the copy's |
| Context.PostponedSchedules | contexts/ReminderContext.tsx:243-252 | a postponed active reminder stays active at the old time plus `minutes * 60000`, strictly later for a positive count; a trigger is requested exactly when the new time is in the future |
| Context.CompletingMovesTab | contexts/ReminderContext.tsx:209-228 | with distinct ids, completing an active reminder moves its id from the active tab to the completed tab |
| Context.DeletingClearsTabs | contexts/ReminderContext.tsx:179-196 | after deleting an id it is on neither tab |
| Context.TrackNew | contexts/ReminderContext.tsx:77-85 | a trigger recorded on a stored entry under its handle and time keeps the invariant |
| Context.AppendKeeps | contexts/ReminderContext.tsx:85 | appending keeps every trigger tracked, and keeps ids distinct for a new id |
| Context.ReplaceKeepsTracking | contexts/ReminderContext.tsx:216-225 | overwriting the entry a copy stands for, once its handle is cancelled, keeps every other trigger tracked |
| Context.RemoveKeepsTracking | contexts/ReminderContext.tsx:168-179 | deleting the id of the entry a copy stands for, with distinct ids and its handle cancelled, keeps every other trigger tracked |
| Context.UpdateKeepsTracking | contexts/ReminderContext.tsx:117-140 | the update's cancel, request and write keep every trigger tracked when the copy carries the stored handle |
| Context.ReminderProvider.constructor | contexts/ReminderContext.tsx:31-34 | the provider mounts with both tabs empty |
| Context.ReminderProvider.RefreshReminders | contexts/ReminderContext.tsx:36-57 | the held tabs become the sorted views of what the store holds |
| Context.ReminderProvider.AddReminder | contexts/ReminderContext.tsx:59-94 | one trigger is requested whatever the time, then the active, uncompleted record stamped with the clock is appended, carrying the handle only when one was obtained; tabs re-read; invariant kept; ids stay distinct for a new id |
| Context.ReminderProvider.UpdateReminder | contexts/ReminderContext.tsx:96-149 | the copy is re-tabbed, its handle cancelled before any request, a trigger requested exactly when it is active, uncompleted and future; success exactly when the store has the id; on failure nothing is written or re-read; invariant kept when the copy carries the stored handle |
| Context.ReminderProvider.RetriggerCopy | contexts/ReminderContext.tsx:100-138 | the record to write is the re-tabbed copy with the new handle if one was obtained, after the cancel-then-request sequence |
| Context.ReminderProvider.DeleteReminder | contexts/ReminderContext.tsx:151-203 | not-found exactly when the id is on neither held tab, and then nothing happens; otherwise the held copy's handle is cancelled and every entry with the id removed; with re-read tabs the store cannot refuse; invariant kept with re-read tabs and distinct ids |
| Context.ReminderProvider.WriteBack | contexts/ReminderContext.tsx:140-143 | success exactly when the store has the id; then the entry is replaced in place and the tabs re-read; otherwise the not-found error is passed on and neither the store nor the tabs change |
| Context.ReminderProvider.CompleteReminder | contexts/ReminderContext.tsx:205-237 | an id not on the held active tab is silently ignored; otherwise its handle is cancelled and it is written back completed, inactive and touched; with re-read tabs it succeeds; invariant kept with re-read tabs and distinct ids |
| Context.ReminderProvider.PostponeReminder | contexts/ReminderContext.tsx:239-260 | an id not on the held active tab is silently ignored; otherwise the copy is moved by `minutes * 60000` and goes through the update rules; with re-read tabs it succeeds; invariant kept with re-read tabs and distinct ids |
| Context.ReminderProvider.InitializeApp | contexts/ReminderContext.tsx:262-270 | the tabs are read, then the housekeeping runs; the tabs show the store as before it; the store becomes the archived form of the rescheduled store; every trigger fires after the reschedule clock; cancel-all comes first, then one request per active entry due after the reschedule clock, in store order |
| Modal.InitialForm | components/ReminderModal.tsx:39-49 | a new form opens with a blank title and description and a time not in the future, so saving it as opened is refused (Modal.BlankNewFormRefused); an edit form saved as opened asks for the reminder itself with its text trimmed (Modal.UnchangedEditRoundTrip) |
| Modal.HandleSave | components/ReminderModal.tsx:51-79 | a blank title is refused first; then a time not after the clock, equality included; otherwise exactly the trimmed request is made, and the form closes exactly when it does not throw |
| Modal.SavedTitleIsClean | components/ReminderModal.tsx:66-72 | the title an accepted save hands over is not blank and has nothing left to trim |
| Modal.EditKeepsOtherFields | components/ReminderModal.tsx:64-69 | an edit keeps every field of the reminder except title, description and time, which become the trimmed text and the selected time |
| Modal.UnchangedEditRoundTrip | components/ReminderModal.tsx:39-74 | saving an edit form left as opened hands back the reminder itself, when its text is trimmed, its title not blank and its time in the future |
| Modal.BlankNewFormRefused | components/ReminderModal.tsx:44-55 | a new form saved as opened is refused for its blank title and saves nothing |
| Dialog.InitialFields | ui/components/ReminderDialog.kt:20-26 | a new dialog cannot be confirmed and proposes a time after the clock (Dialog.NewDialogDisabled); an edit dialog can be confirmed exactly when the reminder's title is not blank, and then hands back its trimmed text and its time (Dialog.UnchangedEditRoundTrip) |
| Dialog.OnConfirm | ui/components/ReminderDialog.kt:67-78 | saves exactly when the title is not blank, the same condition that enables the button; title and description are trimmed and the time passed through unchecked |
| Dialog.NewDialogDisabled | ui/components/ReminderDialog.kt:20-26 | a new dialog cannot be confirmed until a title is typed |
| Dialog.UnchangedEditRoundTrip | ui/components/ReminderDialog.kt:20-78 | confirming an edit dialog left as opened hands back the reminder's text and time, a past time included |

## Left out

- Delivery of triggers is not modelled: receivers, full-screen alerts, sound, and the listeners in contexts/ReminderContext.tsx:272-290. A trigger stays outstanding until it is cancelled, so the invariant does not age triggers out once their time passes.
- The trigger service's internals are not modelled: permission requests, channels, `AlarmManager` and `PendingIntent`. Only their contract is kept. The Android ids come from `Random.nextInt(1000, 9999)` and can collide; the model's handles are always fresh.
- Handle truthiness is not modelled. JavaScript tests handles with `if (notificationId)`, so an empty-string handle would count as none. The model's handles are opaque, and `Some` is always a real handle.
- Storage I/O failures are not modelled, nor are JSON serialisation and `Date` revival. An unreadable blob is a `Slot` state that loads as the empty list. `getRawStorageData` is a debug accessor and is not modelled.
- The stacks' `async`/`await` interleaving and coroutine dispatch are not modelled. Each operation is one uninterrupted sequence of steps, and the React state updates take effect at once.
- The React and Android state plumbing is not modelled: the `loading` flag, `useCallback` dependencies, view-model `StateFlow`s, and the observable queries' `Flow` wrapper. The view-model's try/catch rethrows and adds nothing.
- Locale formatting and calendar midnight are not modelled: `getFormattedDateTime`'s strings and the `Calendar` computation of `todayStart`. The date bucket takes `todayStart` as a parameter.
- The form's date-picker field merging is not modelled, nor the UI around the modal and dialog.
- Ids are parameters and are not generated: `Date.now()` plus `Math.random()` on JavaScript, `UUID.randomUUID()` on Android.
- Clocks are parameters: one `now` per operation. A call that reads the clock twice reads the same value both times.
- JavaScript number arithmetic is exact integer arithmetic here. Fractional minutes and precision loss beyond 2^53 are not modelled. Kotlin `Long` overflow of a time is not modelled either.
- Text.IsJsWhitespace, Text.IsKotlinWhitespace: each stack's whitespace set is written out as a fixed set of code points. The model works on code points rather than UTF-16 units.
- Sequences.SortBy: the result is proved sorted and a permutation, but not stable. The JavaScript `sort` is stable.
- The in-place `sort` in `refreshReminders` is modelled as a function on a value. The array it sorts is the fresh result of `filter`, shared with nothing else.
- Context.ReminderProvider.UpdateReminder: the invariant is preserved only when the copy passed in carries the stored entry's handle. The source trusts the caller's copy, so the weaker statement is the faithful one.
- Context.ReminderProvider.DeleteReminder: the invariant is preserved when the tabs were re-read from the store and ids are distinct. A stale held copy can cancel the wrong handle.
- Context.ReminderProvider.CompleteReminder: the invariant is preserved under the same two conditions as delete.
- Context.ReminderProvider.PostponeReminder: the invariant is preserved under the same two conditions as delete.
- Context.ReminderProvider.InitializeApp: the invariant is stated only when ids are distinct and the cleanup cutoff is no later than the reschedule clock. The store after each pass is given only when ids are distinct.
- BackgroundTasks.InitializeBackgroundTasks: the store after each pass is given only when ids are distinct. It is the same condition the two passes need.
- Platform.Scheduler.Schedule: the platform's answer is fixed for the length of one operation. It can change only between operations, through Platform.Scheduler.SetAccepting. This matters only for the rescheduling pass, the one operation that makes several requests. A permission revoked halfway through the pass, or a single failing request, is not expressed. So BackgroundTasks.ScheduleAllPendingReminders promises either that every future active reminder is armed or that none is, and never states a mix.
- Repository.ReminderRepository.UpdateReminder: the invariant is preserved only when the argument carries the stored row's alarm id. The source trusts the caller's copy.
- Repository.ReminderRepository.PostponeReminder: `minutes` must fit in a 32-bit `Int`, as in the source's signature. Past 35791 minutes the delta wraps, as shown by Reminders.PostponeDeltaWrapsPastBound.
