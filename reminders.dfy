/**
 * The reminder record shared by both client stacks, its lifecycle flags, the
 * record helpers of the Android entity (defaults, overdue test, date buckets),
 * the postpone presets and the 32-bit `Int` arithmetic of the Android code.
 * Timestamps are epoch milliseconds.
 */
module Reminders {
  import opened Wrappers
  import opened Sequences

  const MINUTE_MS: int := 60 * 1000
  const HOUR_MS: int := 60 * MINUTE_MS
  const DAY_MS: int := 24 * HOUR_MS

  /**
   * One reminder. `notificationId` is the handle of the platform trigger last
   * recorded for it (a string on the JavaScript stack, an `Int` on Android,
   * both opaque here); every other field is required.
   */
  datatype Reminder = Reminder(
    id: string,
    title: string,
    description: string,
    dateTime: int,
    isCompleted: bool,
    isActive: bool,
    createdAt: int,
    updatedAt: int,
    notificationId: Option<int>)

  /** Shown on the active tab: `isActive && !isCompleted`. */
  predicate InActiveList(r: Reminder) {
    r.isActive && !r.isCompleted
  }

  /** Shown on the completed tab: `isCompleted`. */
  predicate InCompletedList(r: Reminder) {
    r.isCompleted
  }

  /** Neither flag set: archived by the startup housekeeping, shown on no tab. */
  predicate IsArchived(r: Reminder) {
    !r.isActive && !r.isCompleted
  }

  /**
   * The three lifecycle states partition the flag combinations the tabs look at.
   * It follows from the three definitions at once; it is stated as a reference point.
   */
  lemma LifecycleStatesPartition(r: Reminder)
    ensures InActiveList(r) || InCompletedList(r) || IsArchived(r)
    ensures !(InActiveList(r) && InCompletedList(r))
    ensures IsArchived(r) ==> !InActiveList(r) && !InCompletedList(r)
  {
  }

  function DateTimeOf(r: Reminder): int { r.dateTime }

  /** Sort key for "newest `updatedAt` first". */
  function UpdatedAtDescKey(r: Reminder): int { -r.updatedAt }

  /** Ids are pairwise distinct. */
  predicate UniqueIds(s: seq<Reminder>) {
    forall i, j :: 0 <= i < j < |s| ==> s[i].id != s[j].id
  }

  /** Some entry of `s` has id `id`. */
  predicate HasId(s: seq<Reminder>, id: string) {
    exists i :: 0 <= i < |s| && s[i].id == id
  }

  /** A sub-list of a list with distinct ids has distinct ids. */
  lemma {:induction false} FilterKeepsUniqueIds(s: seq<Reminder>, p: Reminder -> bool)
    requires UniqueIds(s)
    ensures UniqueIds(Filter(s, p))
  {
    if s != [] {
      FilterKeepsUniqueIds(s[1..], p);
      FilterMembers(s[1..], p);
      var rest := Filter(s[1..], p);
      forall k | 0 <= k < |rest| ensures rest[k].id != s[0].id {
        var m :| 0 <= m < |s[1..]| && s[1..][m] == rest[k];
        assert s[m + 1] == rest[k];
      }
    }
  }

  // ---------------------------------------------------------------------------
  // Android entity helpers

  /**
   * A record built with the entity's defaults: empty description, active, not
   * completed, no trigger handle, both timestamps taken from the clock.
   */
  function NewReminder(id: string, title: string, dateTime: int, now: int): Reminder {
    Reminder(id, title, "", dateTime, false, true, now, now, None)
  }

  /** The defaults, read off `NewReminder` and stated as a reference point. */
  lemma NewReminderIsActive(id: string, title: string, dateTime: int, now: int)
    ensures InActiveList(NewReminder(id, title, dateTime, now))
    ensures NewReminder(id, title, dateTime, now).notificationId == None
    ensures NewReminder(id, title, dateTime, now).description == ""
  {
  }

  /** `isOverdue()`: not completed and due before the clock. */
  predicate IsOverdue(r: Reminder, now: int) {
    !r.isCompleted && r.dateTime < now
  }

  /**
   * A completed reminder is never overdue; any other one is overdue exactly when
   * its time has passed. It unfolds `IsOverdue`; it is stated as a reference point.
   */
  lemma OverdueIffPendingAndPast(r: Reminder, now: int)
    ensures r.isCompleted ==> !IsOverdue(r, now)
    ensures !r.isCompleted ==> (IsOverdue(r, now) <==> r.dateTime < now)
  {
  }

  /** How `getFormattedDateTime` labels an instant relative to local midnight. */
  datatype DateBucket = Today | Tomorrow | FullDate

  function BucketOf(dateTime: int, todayStart: int): DateBucket {
    var tomorrowStart := todayStart + DAY_MS;
    if dateTime >= todayStart && dateTime < tomorrowStart then Today
    else if dateTime >= tomorrowStart && dateTime < tomorrowStart + DAY_MS then Tomorrow
    else FullDate
  }

  /** Whole days from local midnight to `dateTime`, rounded down. */
  function DayOffset(dateTime: int, todayStart: int): int {
    (dateTime - todayStart) / DAY_MS
  }

  /** The bucket is Today on day offset 0, Tomorrow on day offset 1, the full date on every other day. */
  lemma {:induction false} BucketByDayOffset(dateTime: int, todayStart: int)
    ensures BucketOf(dateTime, todayStart) == Today <==> DayOffset(dateTime, todayStart) == 0
    ensures BucketOf(dateTime, todayStart) == Tomorrow <==> DayOffset(dateTime, todayStart) == 1
    ensures BucketOf(dateTime, todayStart) == FullDate <==> DayOffset(dateTime, todayStart) !in {0, 1}
  {
    var d := dateTime - todayStart;
    var q := d / DAY_MS;
    assert d == q * DAY_MS + d % DAY_MS && 0 <= d % DAY_MS < DAY_MS;
    if q <= -1 {
      assert q * DAY_MS <= -DAY_MS;
    } else if q >= 2 {
      assert q * DAY_MS >= 2 * DAY_MS;
    }
  }

  // ---------------------------------------------------------------------------
  // Postpone presets (the same six on both stacks)

  /** A postpone preset: the label shown for it (`labelText`, as `label` is a reserved word) and its minute count. */
  datatype PostponeOption = PostponeOption(labelText: string, minutes: int)

  const POSTPONE_OPTIONS: seq<PostponeOption> := [
    PostponeOption("5 мин", 5),
    PostponeOption("10 мин", 10),
    PostponeOption("15 мин", 15),
    PostponeOption("30 мин", 30),
    PostponeOption("1 час", 60),
    PostponeOption("1 день", 1440)
  ]

  /** Each option's minutes exceed the previous option's. */
  predicate AscendingMinutes(opts: seq<PostponeOption>) {
    forall i :: 0 < i < |opts| ==> opts[i - 1].minutes < opts[i].minutes
  }

  /** Minutes ascending step by step are ascending between any two positions, hence distinct. */
  lemma {:induction false} AscendingMinutesOrdered(opts: seq<PostponeOption>, i: int, j: int)
    requires AscendingMinutes(opts)
    requires 0 <= i < j < |opts|
    ensures opts[i].minutes < opts[j].minutes
    decreases j - i
  {
    if i + 1 < j {
      AscendingMinutesOrdered(opts, i + 1, j);
    }
  }

  /** The largest minute count the Android `Int` arithmetic of postpone converts without overflow. */
  const MAX_EXACT_POSTPONE_MINUTES: int := 35791

  /** Six presets, all positive, strictly ascending (so distinct), the largest one day, all exact on Android. */
  lemma PostponeOptionsShape()
    ensures |POSTPONE_OPTIONS| == 6
    ensures AscendingMinutes(POSTPONE_OPTIONS)
    ensures forall i :: 0 <= i < |POSTPONE_OPTIONS| ==>
      0 < POSTPONE_OPTIONS[i].minutes <= POSTPONE_OPTIONS[5].minutes
    ensures POSTPONE_OPTIONS[5].minutes * MINUTE_MS == DAY_MS
    ensures forall i :: 0 <= i < |POSTPONE_OPTIONS| ==> POSTPONE_OPTIONS[i].minutes <= MAX_EXACT_POSTPONE_MINUTES
  {
  }

  lemma PostponeOptionsDistinct(i: int, j: int)
    requires 0 <= i < j < |POSTPONE_OPTIONS|
    ensures POSTPONE_OPTIONS[i].minutes < POSTPONE_OPTIONS[j].minutes
  {
    PostponeOptionsShape();
    AscendingMinutesOrdered(POSTPONE_OPTIONS, i, j);
  }

  // ---------------------------------------------------------------------------
  // Kotlin `Int` (32-bit two's complement) arithmetic

  const INT32_MIN: int := -0x8000_0000
  const INT32_MAX: int := 0x7fff_ffff
  const INT32_RANGE: int := 0x1_0000_0000

  predicate IsInt32(x: int) {
    INT32_MIN <= x <= INT32_MAX
  }

  /** Reduces `x` into the 32-bit range, as the JVM's `Int` multiplication does. */
  function WrapInt32(x: int): (r: int)
    ensures IsInt32(r)
    ensures IsInt32(x) ==> r == x
    ensures (x - r) % INT32_RANGE == 0
  {
    (x - INT32_MIN) % INT32_RANGE + INT32_MIN
  }

  function Int32Mul(a: int, b: int): int
    requires IsInt32(a) && IsInt32(b)
  {
    WrapInt32(a * b)
  }

  /** `minutes * 60 * 1000` evaluated in `Int`, before it is widened and added to the `Long` time. */
  function PostponeDeltaInt32(minutes: int): int
    requires IsInt32(minutes)
  {
    Int32Mul(Int32Mul(minutes, 60), 1000)
  }

  /** Up to 35791 minutes the `Int` product is exact, so a positive count moves the time strictly later. */
  lemma PostponeDeltaExact(minutes: int)
    requires 0 <= minutes <= MAX_EXACT_POSTPONE_MINUTES
    ensures PostponeDeltaInt32(minutes) == minutes * MINUTE_MS
    ensures minutes > 0 ==> PostponeDeltaInt32(minutes) > 0
  {
    assert IsInt32(minutes * 60);
    assert IsInt32(minutes * 60 * 1000);
  }

  /** One minute past the bound the product wraps to a negative delta. */
  lemma PostponeDeltaWrapsPastBound()
    ensures PostponeDeltaInt32(MAX_EXACT_POSTPONE_MINUTES + 1) < 0
  {
    assert (MAX_EXACT_POSTPONE_MINUTES + 1) * 60 == 2147520;
    assert 2147520 * 1000 - INT32_RANGE == -2147447296;
    assert WrapInt32(2147520 * 1000) == -2147447296;
  }
}
