/**
 * The macOS tag picker: the selected tag ids are an ordered list that a
 * tap toggles, with an optional cap on how many may be selected, and a
 * caption "n/max selected" shown only when there is a cap.
 */
module TagSelector {
  import opened Wrappers
  import opened Seqs
  import opened Text

  /** No id occurs twice in the list. */
  predicate NoDuplicates(ids: seq<int>)
  {
    forall i, j :: 0 <= i < j < |ids| ==> ids[i] != ids[j]
  }

  /** The list respects the cap, if there is one. */
  predicate WithinCap(ids: seq<int>, maxSelection: Option<int>)
  {
    maxSelection.Some? ==> |ids| <= maxSelection.value
  }

  /** The list after a tap on tag `id`: `removeAll` when selected, `append` when there is room. */
  function Toggled(ids: seq<int>, id: int, maxSelection: Option<int>): seq<int>
  {
    if id in ids then Filter(ids, x => x != id)
    else if maxSelection.Some? && |ids| >= maxSelection.value then ids
    else ids + [id]
  }

  /** A tap on a selected tag removes every occurrence of it and keeps the other ids in their order. */
  lemma ToggleRemovesEveryOccurrence(ids: seq<int>, id: int, maxSelection: Option<int>)
    requires id in ids
    ensures id !in Toggled(ids, id, maxSelection)
    ensures forall x :: x != id ==> (x in Toggled(ids, id, maxSelection) <==> x in ids)
    ensures |Toggled(ids, id, maxSelection)| < |ids|
  {
    var p := x => x != id;
    var r := Filter(ids, p);
    FilterMembers(ids, p);
    forall x | x != id && x in ids
      ensures x in r
    {
      var i :| 0 <= i < |ids| && ids[i] == x;
    }
    var k :| 0 <= k < |ids| && ids[k] == id;
    FilterDropsOne(ids, p, k);
  }

  /** A filter that drops the element at some index is strictly shorter. */
  lemma {:induction false} FilterDropsOne<T>(s: seq<T>, p: T -> bool, k: int)
    requires 0 <= k < |s| && !p(s[k])
    ensures |Filter(s, p)| < |s|
  {
    if k > 0 {
      FilterDropsOne(s[1..], p, k - 1);
    }
  }

  /** A tap on an unselected tag appends it at the end exactly when there is no cap or room under it. */
  lemma ToggleAppends(ids: seq<int>, id: int, maxSelection: Option<int>)
    requires id !in ids
    ensures maxSelection.None? || |ids| < maxSelection.value ==> Toggled(ids, id, maxSelection) == ids + [id]
    ensures maxSelection.Some? && |ids| >= maxSelection.value ==> Toggled(ids, id, maxSelection) == ids
  {
  }

  /** A selection within the cap stays within it. */
  lemma ToggleKeepsCap(ids: seq<int>, id: int, maxSelection: Option<int>)
    requires WithinCap(ids, maxSelection)
    ensures WithinCap(Toggled(ids, id, maxSelection), maxSelection)
  {
  }

  /** Filtering a duplicate-free list leaves it duplicate-free. */
  lemma {:induction false} FilterKeepsNoDuplicates(s: seq<int>, p: int -> bool)
    requires NoDuplicates(s)
    ensures NoDuplicates(Filter(s, p))
  {
    if s != [] {
      var tail := Filter(s[1..], p);
      FilterKeepsNoDuplicates(s[1..], p);
      FilterMembers(s[1..], p);
      assert s[0] !in s[1..] by {
        forall i | 0 <= i < |s[1..]|
          ensures s[1..][i] != s[0]
        {
          assert s[1..][i] == s[i + 1];
        }
      }
      if p(s[0]) {
        var r := [s[0]] + tail;
        forall i, j | 0 <= i < j < |r|
          ensures r[i] != r[j]
        {
          if i > 0 {
            assert r[i] == tail[i - 1] && r[j] == tail[j - 1];
          } else {
            assert r[j] == tail[j - 1] && tail[j - 1] in s[1..];
          }
        }
      }
    }
  }

  /** A duplicate-free selection stays duplicate-free. */
  lemma ToggleKeepsNoDuplicates(ids: seq<int>, id: int, maxSelection: Option<int>)
    requires NoDuplicates(ids)
    ensures NoDuplicates(Toggled(ids, id, maxSelection))
  {
    if id in ids {
      FilterKeepsNoDuplicates(ids, x => x != id);
    }
  }

  /** Tapping an unselected tag twice, when it was added, gives back the original list. */
  lemma ToggleTwice(ids: seq<int>, id: int, maxSelection: Option<int>)
    requires id !in ids
    requires maxSelection.None? || |ids| < maxSelection.value
    ensures Toggled(Toggled(ids, id, maxSelection), id, maxSelection) == ids
  {
    var p := x => x != id;
    FilterAppend(ids, [id], p);
    FilterKeepsAll(ids, p);
    assert Filter([id], p) == [];
  }

  /** The caption `"\(count)/\(maxSelection) selected"`, shown only when there is a cap. */
  function Caption(count: int, maxSelection: Option<int>): (r: Option<string>)
    ensures r.Some? <==> maxSelection.Some?
  {
    if maxSelection.Some? then Some(IntToString(count) + "/" + IntToString(maxSelection.value) + " selected")
    else None
  }

  /** The caption starts with the count, which reads back from its leading digits. */
  lemma CaptionShowsCount(count: int, maxSelection: Option<int>)
    requires maxSelection.Some?
    ensures |IntToString(count)| < |Caption(count, maxSelection).value|
    ensures ParseInt(Caption(count, maxSelection).value[..|IntToString(count)|]) == Some(count)
    ensures Caption(count, maxSelection).value[|IntToString(count)|] == '/'
  {
    var c := Caption(count, maxSelection).value;
    var n := IntToString(count);
    assert c[..|n|] == n;
    IntToStringRoundTrip(count);
  }

  /** The picker's binding: the selected ids and the cap it was given. */
  class Picker {
    var selectedTagIDs: seq<int>
    const maxSelection: Option<int>

    constructor (selectedTagIDs: seq<int>, maxSelection: Option<int>)
      ensures this.selectedTagIDs == selectedTagIDs && this.maxSelection == maxSelection
    {
      this.selectedTagIDs := selectedTagIDs;
      this.maxSelection := maxSelection;
    }

    /** The caption for the current selection. */
    function SelectionCaption(): (r: Option<string>)
      reads this
      ensures r.Some? <==> maxSelection.Some?
    {
      Caption(|selectedTagIDs|, maxSelection)
    }

    /** `toggle(tag)`: the tap handler, which changes the bound list in place. */
    method Toggle(id: int)
      modifies this
      ensures selectedTagIDs == Toggled(old(selectedTagIDs), id, maxSelection)
      ensures WithinCap(old(selectedTagIDs), maxSelection) ==> WithinCap(selectedTagIDs, maxSelection)
      ensures NoDuplicates(old(selectedTagIDs)) ==> NoDuplicates(selectedTagIDs)
    {
      if WithinCap(selectedTagIDs, maxSelection) {
        ToggleKeepsCap(selectedTagIDs, id, maxSelection);
      }
      if NoDuplicates(selectedTagIDs) {
        ToggleKeepsNoDuplicates(selectedTagIDs, id, maxSelection);
      }
      if id in selectedTagIDs {
        selectedTagIDs := Filter(selectedTagIDs, x => x != id);
      } else {
        if maxSelection.Some? && |selectedTagIDs| >= maxSelection.value {
          return;
        }
        selectedTagIDs := selectedTagIDs + [id];
      }
    }
  }
}
