/**
 * The roster and the selection mask: `checkedState` holds one boolean per roster entry,
 * a checkbox change flips one of them, and a click selects the roster entries whose
 * bit is set, in roster order. App.jsx and CODE.jsx share this logic verbatim.
 */
module Roster {

  /** One record of the static roster file (`id`, `name`, `sex`, `espn_league`, `espn_club_id`). */
  datatype Player = Player(id: int, name: string, sex: int, espnLeague: string, espnClubId: string)

  /** The initial mask `playersData.map(() => true)`. */
  function InitialMask(n: nat): (mask: seq<bool>)
    ensures |mask| == n
    ensures forall i :: 0 <= i < n ==> mask[i]
  {
    seq(n, _ => true)
  }

  /**
   * `checkedState[i]` read as a filter condition: an index past the end of the mask
   * reads `undefined`, which is falsy.
   */
  predicate Bit(mask: seq<bool>, i: int)
  {
    0 <= i < |mask| && mask[i]
  }

  /** `handleCheckboxChange(index)`: the mask mapped with `idx === index ? !isChecked : isChecked`. */
  function Toggle(mask: seq<bool>, index: int): (toggled: seq<bool>)
    ensures |toggled| == |mask|
    ensures 0 <= index < |mask| ==> toggled[index] == !mask[index]
    ensures forall i :: 0 <= i < |mask| && i != index ==> toggled[i] == mask[i]
  {
    seq(|mask|, i requires 0 <= i < |mask| => if i == index then !mask[i] else mask[i])
  }

  /** Toggling the same index twice restores the mask. */
  lemma ToggleTwice(mask: seq<bool>, index: int)
    ensures Toggle(Toggle(mask, index), index) == mask
  {
  }

  /** `playersData.filter((_, index) => checkedState[index])`. */
  function Select<T>(xs: seq<T>, mask: seq<bool>): (selected: seq<T>)
    decreases |xs|
  {
    if xs == [] then []
    else Select(xs[..|xs| - 1], mask) + (if Bit(mask, |xs| - 1) then [xs[|xs| - 1]] else [])
  }

  /** The indices below `n` whose bit is set, in increasing order. */
  function SelectedIndices(mask: seq<bool>, n: nat): (indices: seq<nat>)
    ensures forall k :: 0 <= k < |indices| ==> indices[k] < n && Bit(mask, indices[k])
    ensures forall k, l :: 0 <= k < l < |indices| ==> indices[k] < indices[l]
    ensures forall i :: 0 <= i < n && Bit(mask, i) ==> i in indices
  {
    if n == 0 then []
    else SelectedIndices(mask, n - 1) + (if Bit(mask, n - 1) then [n - 1] else [])
  }

  /**
   * The selection is exactly the roster read at the increasing indices of the set bits:
   * every selected entry is a roster entry whose bit is set, every such entry is selected,
   * and roster order is kept.
   */
  lemma {:induction false} SelectByIndices<T>(xs: seq<T>, mask: seq<bool>)
    ensures |Select(xs, mask)| == |SelectedIndices(mask, |xs|)|
    ensures forall k :: 0 <= k < |Select(xs, mask)| ==>
              Select(xs, mask)[k] == xs[SelectedIndices(mask, |xs|)[k]]
  {
    if xs != [] {
      var n := |xs| - 1;
      SelectByIndices(xs[..n], mask);
    }
  }

  /** Only the bits below `|xs|` matter to the selection. */
  lemma {:induction false} SelectAgree<T>(xs: seq<T>, mask: seq<bool>, other: seq<bool>)
    requires forall i :: 0 <= i < |xs| ==> Bit(mask, i) == Bit(other, i)
    ensures Select(xs, mask) == Select(xs, other)
  {
    if xs != [] {
      SelectAgree(xs[..|xs| - 1], mask, other);
    }
  }

  /** With the initial all-true mask, every roster entry is selected. */
  lemma {:induction false} InitialSelectsAll<T>(xs: seq<T>)
    ensures Select(xs, InitialMask(|xs|)) == xs
  {
    if xs != [] {
      var n := |xs| - 1;
      SelectAgree(xs[..n], InitialMask(|xs|), InitialMask(n));
      InitialSelectsAll(xs[..n]);
    }
  }

  /** The selection's contents: those of the roster without its last entry, plus that entry if ticked. */
  lemma SelectLast<T>(xs: seq<T>, mask: seq<bool>)
    requires |xs| > 0
    ensures multiset(Select(xs, mask))
            == multiset(Select(xs[..|xs| - 1], mask)) + multiset(if Bit(mask, |xs| - 1) then [xs[|xs| - 1]] else [])
  {
    assert Select(xs, mask)
           == Select(xs[..|xs| - 1], mask) + (if Bit(mask, |xs| - 1) then [xs[|xs| - 1]] else []);
  }

  /**
   * Box `index` of `mask` holds the player `xs[index]`: the selection with the box ticked is the
   * selection with it unticked plus that one player, compared as multisets.
   */
  ghost predicate ToggledContents<T>(xs: seq<T>, mask: seq<bool>, index: nat)
    requires index < |xs| && index < |mask|
  {
    var toggled := multiset(Select(xs, Toggle(mask, index)));
    if mask[index] then multiset(Select(xs, mask)) == toggled + multiset{xs[index]}
    else toggled == multiset(Select(xs, mask)) + multiset{xs[index]}
  }

  /** `ToggleSelectContents` for the box of the last roster entry. */
  lemma ToggleLastContents<T>(xs: seq<T>, mask: seq<bool>)
    requires 0 < |xs| <= |mask|
    ensures ToggledContents(xs, mask, |xs| - 1)
  {
    var n := |xs| - 1;
    var toggled := Toggle(mask, n);
    var before := multiset(Select(xs[..n], mask));
    assert multiset(Select(xs[..n], toggled)) == before by {
      assert forall i :: 0 <= i < n ==> Bit(toggled, i) == Bit(mask, i);
      SelectAgree(xs[..n], toggled, mask);
    }
    var x := multiset{xs[n]};
    if mask[n] {
      assert multiset(Select(xs, mask)) == before + x by { SelectLast(xs, mask); }
      assert multiset(Select(xs, toggled)) == before by { SelectLast(xs, toggled); }
    } else {
      assert multiset(Select(xs, mask)) == before by { SelectLast(xs, mask); }
      assert multiset(Select(xs, toggled)) == before + x by { SelectLast(xs, toggled); }
    }
  }

  /** `ToggleSelectContents` carried from `xs[..|xs| - 1]` to `xs` when the toggled box is not the last one. */
  lemma ToggleEarlierContents<T>(xs: seq<T>, mask: seq<bool>, index: nat)
    requires index < |xs| - 1 && index < |mask|
    requires ToggledContents(xs[..|xs| - 1], mask, index)
    ensures ToggledContents(xs, mask, index)
  {
    var n := |xs| - 1;
    var toggled := Toggle(mask, index);
    var last := multiset(if Bit(mask, n) then [xs[n]] else []);
    assert Bit(toggled, n) == Bit(mask, n);
    var before, beforeToggled := multiset(Select(xs[..n], mask)), multiset(Select(xs[..n], toggled));
    assert multiset(Select(xs, mask)) == before + last by { SelectLast(xs, mask); }
    assert multiset(Select(xs, toggled)) == beforeToggled + last by { SelectLast(xs, toggled); }
    var x := multiset{xs[index]};
    if mask[index] {
      assert before == beforeToggled + x;
    } else {
      assert beforeToggled == before + x;
    }
  }

  /**
   * Unticking a box removes exactly that box's player from the selection and keeps the rest;
   * ticking one adds exactly that player. Multisets are compared, since a player may occur
   * in the roster more than once.
   */
  lemma {:induction false} ToggleSelectContents<T>(xs: seq<T>, mask: seq<bool>, index: nat)
    requires index < |xs| && index < |mask|
    ensures ToggledContents(xs, mask, index)
  {
    var n := |xs| - 1;
    if index == n {
      ToggleLastContents(xs, mask);
    } else {
      ToggleSelectContents(xs[..n], mask, index);
      assert xs[..n][index] == xs[index];
      ToggleEarlierContents(xs, mask, index);
    }
  }

  /** Hence toggling a box changes the selection's size by exactly one. */
  lemma ToggleSelectCount<T>(xs: seq<T>, mask: seq<bool>, index: nat)
    requires index < |xs| && index < |mask|
    ensures |Select(xs, Toggle(mask, index))|
            == if mask[index] then |Select(xs, mask)| - 1 else |Select(xs, mask)| + 1
  {
    ToggleSelectContents(xs, mask, index);
    assert |multiset(Select(xs, mask))| == |Select(xs, mask)|;
    assert |multiset(Select(xs, Toggle(mask, index)))| == |Select(xs, Toggle(mask, index))|;
  }
}
