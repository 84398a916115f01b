/**
 * List logic the three Android history ViewModels share: toggling an id
 * in the selection set, the `drop((page - 1) * 50).take(50)` page slice,
 * the progress pairs a batch delete publishes, and the history left after
 * deleting a batch of keys one call at a time.
 */
module ListState {
  import opened Seqs
  import Pagination

  /** Kotlin's `if (id in s) s - id else s + id` (and the macOS tap on a row's circle). */
  function Toggled(s: set<int>, id: int): (r: set<int>)
    ensures id in r <==> id !in s
    ensures forall x :: x != id ==> (x in r <==> x in s)
  {
    if id in s then s - {id} else s + {id}
  }

  /** Toggling the same id twice restores the selection. */
  lemma ToggledTwice(s: set<int>, id: int)
    ensures Toggled(Toggled(s, id), id) == s
  {
  }

  /** `list.drop((page - 1) * 50).take(50)`. */
  function DropTake<T>(list: seq<T>, page: int): (r: seq<T>)
    requires page >= 1
    ensures |r| <= Pagination.PageSize
  {
    var start := (page - 1) * Pagination.PageSize;
    var rest := if start >= |list| then [] else list[start..];
    if |rest| <= Pagination.PageSize then rest else rest[..Pagination.PageSize]
  }

  /** The Android drop/take page and the macOS slice page are the same items. */
  lemma DropTakeIsPage<T>(list: seq<T>, page: int)
    requires page >= 1
    ensures DropTake(list, page) == Pagination.Page(list, page)
  {
  }

  /**
   * The pairs `(done, total)` a batch delete of `total` items publishes:
   * `(0, total)` first, then one after each item.
   */
  function ProgressTrace(total: nat): (r: seq<(int, int)>)
    ensures |r| == total + 1
    ensures forall k :: 0 <= k < |r| ==> r[k] == (k, total)
  {
    seq(total + 1, k => (k, total))
  }

  /**
   * The rows left after deleting `keys` in order, where the i-th delete took
   * effect only if `done[i]`; `differs(k)` keeps the rows not under key `k`.
   */
  function BatchDeleted<T, K>(rows: seq<T>, keys: seq<K>, done: seq<bool>, differs: K -> (T -> bool)): seq<T>
    requires |done| == |keys|
    decreases |keys|
  {
    if keys == [] then rows
    else
      var n := |keys| - 1;
      var before := BatchDeleted(rows, keys[..n], done[..n], differs);
      if done[n] then Filter(before, differs(keys[n])) else before
  }

  /** One more delete extends the batch by one step: a filter when it took effect. */
  lemma BatchDeletedStep<T, K>(rows: seq<T>, keys: seq<K>, done: seq<bool>, differs: K -> (T -> bool), i: nat)
    requires |done| == |keys| && i < |keys|
    ensures BatchDeleted(rows, keys[..i + 1], done[..i + 1], differs) ==
      if done[i] then Filter(BatchDeleted(rows, keys[..i], done[..i], differs), differs(keys[i]))
      else BatchDeleted(rows, keys[..i], done[..i], differs)
  {
    assert keys[..i + 1][..i] == keys[..i] && done[..i + 1][..i] == done[..i];
  }

  /** A prefix one longer is the prefix and the next element. */
  lemma PrefixStep<T>(s: seq<T>, i: nat)
    requires i < |s|
    ensures s[..i + 1] == s[..i] + [s[i]]
  {
  }

  /** The progress published so far grows by the next pair. */
  lemma ProgressTraceStep(total: nat, i: nat)
    requires i < total
    ensures ProgressTrace(total)[..i + 2] == ProgressTrace(total)[..i + 1] + [(i + 1, total)]
  {
  }

  /**
   * After the batch, a row survives exactly when it was stored and no
   * delete that took effect had its key: the deleted keys are gone and
   * nothing else is.
   */
  lemma {:induction false} BatchDeletedMembers<T, K>(rows: seq<T>, keys: seq<K>, done: seq<bool>, differs: K -> (T -> bool))
    requires |done| == |keys|
    ensures forall x :: x in BatchDeleted(rows, keys, done, differs) <==>
      x in rows && forall i :: 0 <= i < |keys| && done[i] ==> differs(keys[i])(x)
    decreases |keys|
  {
    if keys != [] {
      var n := |keys| - 1;
      var before := BatchDeleted(rows, keys[..n], done[..n], differs);
      BatchDeletedMembers(rows, keys[..n], done[..n], differs);
      if done[n] {
        FilterMembers(before, differs(keys[n]));
        assert forall x :: x in Filter(before, differs(keys[n])) <==> x in before && differs(keys[n])(x) by {
          forall x
            ensures x in Filter(before, differs(keys[n])) <==> x in before && differs(keys[n])(x)
          {
            if x in before {
              var j :| 0 <= j < |before| && before[j] == x;
            }
          }
        }
      }
      forall x
        ensures (forall i :: 0 <= i < |keys| && done[i] ==> differs(keys[i])(x)) <==>
          (forall i :: 0 <= i < n && done[..n][i] ==> differs(keys[..n][i])(x)) && (done[n] ==> differs(keys[n])(x))
      {
        if forall i :: 0 <= i < n && done[..n][i] ==> differs(keys[..n][i])(x) {
          assert forall i :: 0 <= i < n && done[i] ==> differs(keys[i])(x) by {
            forall i | 0 <= i < n && done[i]
              ensures differs(keys[i])(x)
            {
              assert done[..n][i] && keys[..n][i] == keys[i];
            }
          }
        }
      }
    }
  }

  /** A batch in which nothing took effect leaves the rows as they were. */
  lemma {:induction false} BatchDeletedNothing<T, K>(rows: seq<T>, keys: seq<K>, done: seq<bool>, differs: K -> (T -> bool))
    requires |done| == |keys|
    requires forall i :: 0 <= i < |done| ==> !done[i]
    ensures BatchDeleted(rows, keys, done, differs) == rows
    decreases |keys|
  {
    if keys != [] {
      var n := |keys| - 1;
      BatchDeletedNothing(rows, keys[..n], done[..n], differs);
    }
  }
}
