/**
 * The JavaScript stack's persistent store: the whole reminder list kept as one
 * blob under a single key of the device's key-value storage. Every operation
 * loads the list, changes it, and writes the whole list back.
 */
module Storage {
  import opened Wrappers
  import opened Sequences
  import opened Reminders

  /** What the storage key holds: nothing, a blob that does not load, or a list. */
  datatype Slot = Absent | Unreadable | Holds(items: seq<Reminder>)

  datatype StorageError = NotFoundForUpdate | NotFoundForDeletion

  /** The list `getReminders` yields for a slot: empty when the key is absent or the blob does not load. */
  function Loaded(slot: Slot): seq<Reminder> {
    match slot
    case Holds(items) => items
    case _ => []
  }

  /** `k` is the position of the first entry with id `id`. */
  predicate IsFirstWithId(s: seq<Reminder>, id: string, k: int) {
    0 <= k < |s| && s[k].id == id && forall j :: 0 <= j < k ==> s[j].id != id
  }

  /** `findIndex` by id: the first matching position, or -1. */
  function IndexOfId(s: seq<Reminder>, id: string): (k: int)
    ensures -1 <= k < |s|
    ensures k == -1 <==> !HasId(s, id)
    ensures k != -1 ==> IsFirstWithId(s, id, k)
  {
    if s == [] then -1
    else if s[0].id == id then 0
    else
      var k := IndexOfId(s[1..], id);
      if k == -1 then -1 else k + 1
  }

  /** `reminders[index] = updated` at the first entry with the same id; the list is unchanged when there is none. */
  function ReplaceFirst(s: seq<Reminder>, u: Reminder): (r: seq<Reminder>)
    ensures |r| == |s|
    ensures !HasId(s, u.id) ==> r == s
    ensures HasId(s, u.id) ==> exists k :: IsFirstWithId(s, u.id, k) && r == s[k := u]
  {
    var k := IndexOfId(s, u.id);
    if k == -1 then s else s[k := u]
  }

  function WithoutId(id: string): Reminder -> bool {
    (r: Reminder) => r.id != id
  }

  /** `filter(r => r.id !== id)`. */
  function RemoveId(s: seq<Reminder>, id: string): seq<Reminder> {
    Filter(s, WithoutId(id))
  }

  /** `filter(r => r.isActive && !r.isCompleted)`. */
  function ActiveOf(s: seq<Reminder>): seq<Reminder> {
    Filter(s, InActiveList)
  }

  /** `filter(r => r.isCompleted)`. */
  function CompletedOf(s: seq<Reminder>): seq<Reminder> {
    Filter(s, InCompletedList)
  }

  /** Replacing by id keeps every id in its place, so distinct ids stay distinct. */
  lemma ReplaceFirstKeepsIds(s: seq<Reminder>, u: Reminder)
    ensures forall i :: 0 <= i < |s| ==> ReplaceFirst(s, u)[i].id == s[i].id
    ensures UniqueIds(s) ==> UniqueIds(ReplaceFirst(s, u))
  {
  }

  /**
   * Deleting by id removes every entry with that id and keeps every other
   * entry, as often as it occurred and in its relative order.
   */
  lemma RemoveIdSpec(s: seq<Reminder>, id: string, x: Reminder)
    ensures !HasId(RemoveId(s, id), id)
    ensures x.id != id ==> multiset(RemoveId(s, id))[x] == multiset(s)[x]
    ensures forall a, b :: s == a + b ==> RemoveId(s, id) == RemoveId(a, id) + RemoveId(b, id)
  {
    FilterCount(s, WithoutId(id), x);
    FilterMembers(s, WithoutId(id));
    forall a, b | s == a + b ensures RemoveId(s, id) == RemoveId(a, id) + RemoveId(b, id) {
      FilterConcat(a, b, WithoutId(id));
    }
  }

  /** The active and completed filters never share an element; an archived entry is in neither. */
  lemma ActiveCompletedDisjoint(s: seq<Reminder>, x: Reminder)
    ensures !(x in ActiveOf(s) && x in CompletedOf(s))
    ensures IsArchived(x) ==> x !in ActiveOf(s) && x !in CompletedOf(s)
  {
    FilterMembers(s, InActiveList);
    FilterMembers(s, InCompletedList);
    if x in ActiveOf(s) {
      var i :| 0 <= i < |ActiveOf(s)| && ActiveOf(s)[i] == x;
    }
    if x in CompletedOf(s) {
      var i :| 0 <= i < |CompletedOf(s)| && CompletedOf(s)[i] == x;
    }
  }

  /** An entry of a filtered list is an entry of the list. */
  lemma FilteredEntryIsEntry(s: seq<Reminder>, p: Reminder -> bool, x: Reminder)
    requires x in Filter(s, p)
    ensures x in s && p(x)
  {
    FilterMembers(s, p);
    var i :| 0 <= i < |Filter(s, p)| && Filter(s, p)[i] == x;
  }

  class ReminderStorage {
    var slot: Slot

    /** The list the store currently yields. */
    function Items(): seq<Reminder>
      reads this
    {
      Loaded(slot)
    }

    constructor (slot: Slot)
      ensures this.slot == slot
    {
      this.slot := slot;
    }

    /** `getReminders`: the stored list, or the empty list when the key is absent or the blob does not load. */
    method GetReminders() returns (reminders: seq<Reminder>)
      ensures slot.Holds? ==> reminders == slot.items
      ensures !slot.Holds? ==> reminders == []
    {
      match slot
      case Holds(items) => reminders := items;
      case _ => reminders := [];
    }

    /** `saveReminders`: writes the whole list under the key. */
    method SaveReminders(reminders: seq<Reminder>)
      modifies this
      ensures slot == Holds(reminders)
    {
      slot := Holds(reminders);
    }

    /** `addReminder`: appends at the end, with no check for an existing id. */
    method AddReminder(r: Reminder)
      modifies this
      ensures slot == Holds(old(Items()) + [r])
    {
      var reminders := GetReminders();
      reminders := reminders + [r];
      SaveReminders(reminders);
    }

    /** `updateReminder`: replaces the first entry with the same id, or fails and writes nothing. */
    method UpdateReminder(updated: Reminder) returns (res: Outcome<StorageError>)
      modifies this
      ensures res.Pass? <==> HasId(old(Items()), updated.id)
      ensures res.Pass? ==> slot == Holds(ReplaceFirst(old(Items()), updated))
      ensures res.Fail? ==> res.error == NotFoundForUpdate && slot == old(slot)
    {
      var reminders := GetReminders();
      var index := IndexOfId(reminders, updated.id);
      if index != -1 {
        reminders := reminders[index := updated];
        SaveReminders(reminders);
        res := Pass;
      } else {
        res := Fail(NotFoundForUpdate);
      }
    }

    /** `deleteReminder`: removes every entry with the id, or fails and writes nothing when there is none. */
    method DeleteReminder(id: string) returns (res: Outcome<StorageError>)
      modifies this
      ensures res.Pass? <==> HasId(old(Items()), id)
      ensures res.Pass? ==> slot == Holds(RemoveId(old(Items()), id))
      ensures res.Fail? ==> res.error == NotFoundForDeletion && slot == old(slot)
    {
      var reminders := GetReminders();
      if !HasIdCheck(reminders, id) {
        res := Fail(NotFoundForDeletion);
        return;
      }
      var filtered := RemoveId(reminders, id);
      SaveReminders(filtered);
      res := Pass;
    }

    /** `getActiveReminders`: the stored entries that are active and not completed, in stored order. */
    method GetActiveReminders() returns (reminders: seq<Reminder>)
      ensures reminders == ActiveOf(Items())
    {
      var all := GetReminders();
      reminders := ActiveOf(all);
    }

    /** `getCompletedReminders`: the stored entries that are completed, in stored order. */
    method GetCompletedReminders() returns (reminders: seq<Reminder>)
      ensures reminders == CompletedOf(Items())
    {
      var all := GetReminders();
      reminders := CompletedOf(all);
    }

    /** `clearAllReminders`: removes the key, after which the store yields the empty list. */
    method ClearAllReminders()
      modifies this
      ensures slot == Absent && Items() == []
    {
      slot := Absent;
    }
  }

  /** `some(r => r.id === id)`. */
  function HasIdCheck(s: seq<Reminder>, id: string): (b: bool)
    ensures b <==> HasId(s, id)
  {
    IndexOfId(s, id) != -1
  }
}
