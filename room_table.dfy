/**
 * What the three Room tables of the Android client have in common: an
 * `INTEGER PRIMARY KEY AUTOINCREMENT` id (`autoGenerate = true`) and
 * `@Insert(onConflict = REPLACE)`. Rows are kept in their stored order.
 */
module RoomTable {
  import opened Seqs

  ghost predicate UniqueIds<T>(rows: seq<T>, idOf: T -> int)
  {
    forall i, j :: 0 <= i < j < |rows| ==> idOf(rows[i]) != idOf(rows[j])
  }

  /**
   * The table invariant: ids are unique and none exceeds `lastRowId`, the
   * largest id ever handed out (SQLite's `sqlite_sequence` entry, which a
   * `DELETE FROM` does not reset).
   */
  ghost predicate Valid<T>(rows: seq<T>, idOf: T -> int, lastRowId: int)
  {
    UniqueIds(rows, idOf) && forall i :: 0 <= i < |rows| ==> idOf(rows[i]) <= lastRowId
  }

  /**
   * The id an inserted row gets: Room binds an id of 0 as NULL, and
   * AUTOINCREMENT then takes one past the largest id ever used; any other
   * id is stored as given.
   */
  function AssignedRowId(id: int, lastRowId: int): (r: int)
    ensures id != 0 ==> r == id
    ensures id == 0 ==> r == lastRowId + 1
  {
    if id == 0 then lastRowId + 1 else id
  }

  function IdDiffers<T>(id: int, idOf: T -> int): T -> bool
  {
    row => idOf(row) != id
  }

  /** INSERT OR REPLACE: any row with the same id is deleted, then the row is added. */
  function Replace<T>(rows: seq<T>, row: T, idOf: T -> int): (r: seq<T>)
  {
    Filter(rows, IdDiffers(idOf(row), idOf)) + [row]
  }

  lemma {:induction false} FilterKeepsUnique<T>(rows: seq<T>, p: T -> bool, idOf: T -> int)
    requires UniqueIds(rows, idOf)
    ensures UniqueIds(Filter(rows, p), idOf)
  {
    if rows != [] {
      FilterKeepsUnique(rows[1..], p, idOf);
      FilterMembers(rows[1..], p);
      var tail := Filter(rows[1..], p);
      forall k | 0 <= k < |tail| ensures idOf(rows[0]) != idOf(tail[k]) {
        var j :| 0 <= j < |rows[1..]| && rows[1..][j] == tail[k];
        assert rows[j + 1] == tail[k];
      }
    }
  }

  /** Deleting rows keeps the table invariant. */
  lemma FilterKeepsValid<T>(rows: seq<T>, p: T -> bool, idOf: T -> int, lastRowId: int)
    requires Valid(rows, idOf, lastRowId)
    ensures Valid(Filter(rows, p), idOf, lastRowId)
  {
    FilterKeepsUnique(rows, p, idOf);
    FilterMembers(rows, p);
    var f := Filter(rows, p);
    forall k | 0 <= k < |f| ensures idOf(f[k]) <= lastRowId {
      var j :| 0 <= j < |rows| && rows[j] == f[k];
    }
  }

  /**
   * After INSERT OR REPLACE the new row is the only one with its id, every
   * other row is kept, and the invariant holds with the id counter advanced
   * to cover the new id.
   */
  lemma {:induction false} ReplaceKeepsValid<T>(rows: seq<T>, row: T, idOf: T -> int, lastRowId: int)
    requires Valid(rows, idOf, lastRowId)
    ensures var r := Replace(rows, row, idOf);
      && Valid(r, idOf, if idOf(row) > lastRowId then idOf(row) else lastRowId)
      && r[|r| - 1] == row
      && (forall i :: 0 <= i < |rows| && idOf(rows[i]) != idOf(row) ==> rows[i] in r)
      && (forall i :: 0 <= i < |r| - 1 ==> r[i] in rows && idOf(r[i]) != idOf(row))
  {
    var p := IdDiffers(idOf(row), idOf);
    var kept := Filter(rows, p);
    FilterKeepsValid(rows, p, idOf, lastRowId);
    FilterMembers(rows, p);
    var r := kept + [row];
    assert forall i :: 0 <= i < |r| - 1 ==> r[i] == kept[i];
    forall i | 0 <= i < |rows| && idOf(rows[i]) != idOf(row) ensures rows[i] in r {
      assert p(rows[i]);
    }
  }

  /** A row whose id is above every stored id replaces nothing: it is appended. */
  lemma ReplaceFreshAppends<T>(rows: seq<T>, row: T, idOf: T -> int, lastRowId: int)
    requires Valid(rows, idOf, lastRowId) && idOf(row) > lastRowId
    ensures Replace(rows, row, idOf) == rows + [row]
  {
    FilterKeepsAll(rows, IdDiffers(idOf(row), idOf));
  }
}
