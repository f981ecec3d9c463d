/**
 * The Android stack's persistent store: the `reminders` table keyed by id,
 * changed by insert-or-replace, update and delete, read by filtering queries.
 */
module Dao {
  import opened Wrappers
  import opened Sequences
  import opened Reminders

  class ReminderDao {
    /** The table: the row with primary key `id`. */
    var rows: map<string, Reminder>

    /** Each row is filed under its own primary key. */
    ghost predicate Valid()
      reads this
    {
      forall id :: id in rows ==> rows[id].id == id
    }

    /** The rows satisfying `p`, as a set. */
    ghost function RowsWhere(p: Reminder -> bool): set<Reminder>
      reads this
    {
      set id | id in rows && p(rows[id]) :: rows[id]
    }

    constructor ()
      ensures Valid() && rows == map[]
    {
      rows := map[];
    }

    /** Scans the table once, collecting each row that satisfies `p` exactly once. */
    method SelectWhere(p: Reminder -> bool) returns (found: seq<Reminder>)
      requires Valid()
      ensures multiset(found) == multiset(RowsWhere(p))
    {
      var keys := rows.Keys;
      found := [];
      while keys != {}
        invariant keys <= rows.Keys
        invariant multiset(found) == multiset(set id | id in rows.Keys - keys && p(rows[id]) :: rows[id])
        decreases keys
      {
        var id :| id in keys;
        ghost var before := set k | k in rows.Keys - keys && p(rows[k]) :: rows[k];
        ghost var after := set k | k in rows.Keys - (keys - {id}) && p(rows[k]) :: rows[k];
        if p(rows[id]) {
          assert rows[id] !in before;
          assert after == before + {rows[id]};
          found := found + [rows[id]];
        } else {
          assert after == before;
        }
        keys := keys - {id};
      }
      assert rows.Keys - keys == rows.Keys;
    }

    /** `isActive = 1 AND isCompleted = 0 ORDER BY dateTime ASC`: every such row once, earliest first. */
    method GetActiveReminders() returns (result: seq<Reminder>)
      requires Valid()
      ensures multiset(result) == multiset(RowsWhere(InActiveList))
      ensures SortedBy(result, DateTimeOf)
    {
      var found := SelectWhere(InActiveList);
      result := SortBy(found, DateTimeOf);
    }

    /** `isCompleted = 1 ORDER BY updatedAt DESC`: every such row once, most recently updated first. */
    method GetCompletedReminders() returns (result: seq<Reminder>)
      requires Valid()
      ensures multiset(result) == multiset(RowsWhere(InCompletedList))
      ensures forall i, j :: 0 <= i < j < |result| ==> result[i].updatedAt >= result[j].updatedAt
    {
      var found := SelectWhere(InCompletedList);
      result := SortBy(found, UpdatedAtDescKey);
      assert SortedBy(result, UpdatedAtDescKey);
    }

    /** `WHERE id = :id`: the row with that primary key, or null. */
    method GetReminderById(id: string) returns (result: Option<Reminder>)
      requires Valid()
      ensures result.Some? <==> id in rows
      ensures result.Some? ==> result.value == rows[id] && result.value.id == id
    {
      if id in rows {
        result := Some(rows[id]);
      } else {
        result := None;
      }
    }

    /** `@Insert(onConflict = REPLACE)`: afterwards the row under the record's id is the record; other rows are untouched. */
    method InsertReminder(reminder: Reminder)
      requires Valid()
      modifies this
      ensures Valid()
      ensures rows == old(rows)[reminder.id := reminder]
    {
      rows := rows[reminder.id := reminder];
    }

    /** `@Update`: replaces the row with the record's primary key; changes nothing when there is none. */
    method UpdateReminder(reminder: Reminder)
      requires Valid()
      modifies this
      ensures Valid()
      ensures rows == if reminder.id in old(rows) then old(rows)[reminder.id := reminder] else old(rows)
    {
      if reminder.id in rows {
        rows := rows[reminder.id := reminder];
      }
    }

    /** `@Delete`: removes the row with the record's primary key, if any. */
    method DeleteReminder(reminder: Reminder)
      requires Valid()
      modifies this
      ensures Valid()
      ensures rows == old(rows) - {reminder.id}
    {
      rows := rows - {reminder.id};
    }

    /** `DELETE ... WHERE id = :id`: removes that row, if present, and no other. */
    method DeleteReminderById(id: string)
      requires Valid()
      modifies this
      ensures Valid()
      ensures rows == old(rows) - {id}
    {
      rows := rows - {id};
    }

    /** `SELECT *`: every row exactly once, in no particular order. */
    method GetAllReminders() returns (result: seq<Reminder>)
      requires Valid()
      ensures multiset(result) == multiset(rows.Values)
    {
      result := SelectWhere(r => true);
      assert RowsWhere(r => true) == rows.Values;
    }
  }
}
