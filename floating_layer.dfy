/** The stand-alone stack of floating windows (src/tree/floating-layer.ts). */
module FloatingLayers {
  import opened Wrappers
  import opened Seqs

  /** Where the focused index goes when the window at `index` is spliced out
      (src/tree/floating-layer.ts:21-27); `index` is -1 when nothing was removed. */
  function AfterRemove(focused: Option<nat>, index: int): (r: Option<nat>)
    ensures index < 0 || focused.None? ==> r == focused
    ensures focused.Some? && focused.value == index ==> r.None?
    ensures focused.Some? && 0 <= index < focused.value ==> r == Some(focused.value - 1)
    ensures focused.Some? && focused.value < index ==> r == focused
  {
    if index < 0 || focused.None? then focused
    else if focused.value == index then None
    else if focused.value > index then Some(focused.value - 1)
    else focused
  }

  /** The index focusNext moves to on a non-empty stack of `n` windows. */
  function NextIndex(focused: Option<nat>, n: nat): (r: nat)
    requires n > 0
    ensures r < n
    ensures focused.None? ==> r == 0
    ensures focused.Some? && focused.value < n - 1 ==> r == focused.value + 1
    ensures focused.Some? && focused.value == n - 1 ==> r == 0
  {
    if focused.None? then 0 else (focused.value + 1) % n
  }

  /** The focused index after `k` calls of focusNext from an unset index. */
  function AfterFocusNext(k: nat, n: nat): Option<nat>
    requires n > 0
  {
    if k == 0 then None else Some(NextIndex(AfterFocusNext(k - 1, n), n))
  }

  /** The first `n` calls of focusNext visit the slots bottom to top. */
  lemma {:induction false} FocusNextVisits(k: nat, n: nat)
    requires 1 <= k <= n
    ensures AfterFocusNext(k, n) == Some(k - 1)
  {
    if k > 1 {
      FocusNextVisits(k - 1, n);
    }
  }

  /** After visiting every slot focusNext starts again at the bottom: the focus sequence
      repeats with period `n` (a, b, c, a, ... for three windows). */
  lemma {:induction false} FocusNextWraps(k: nat, n: nat)
    requires n > 0 && k >= 1
    ensures AfterFocusNext(k + n, n) == AfterFocusNext(k, n)
  {
    if k == 1 {
      FocusNextVisits(n, n);
    } else {
      FocusNextWraps(k - 1, n);
      assert k + n - 1 == (k - 1) + n;
    }
  }

  class FloatingLayer<W(==)> {
    var windows: seq<W>
    var focusedIndex: Option<nat>

    /** An empty stack with nothing focused (src/tree/floating-layer.ts:5-8). */
    constructor ()
      ensures windows == [] && focusedIndex == None
    {
      windows := [];
      focusedIndex := None;
    }

    /** `add` pushes the window on top, duplicates included (src/tree/floating-layer.ts:10-12). */
    method Add(w: W)
      modifies this
      ensures windows == old(windows) + [w]
      ensures focusedIndex == old(focusedIndex)
      ensures multiset(windows) == multiset(old(windows)) + multiset{w}
    {
      windows := windows + [w];
    }

    /** `remove` splices out the first occurrence and shifts the focused index so that it
        keeps naming the same window, or clears it when that window was the one removed
        (src/tree/floating-layer.ts:14-28). */
    method Remove(w: W)
      modifies this
      ensures windows == RemoveFirst(old(windows), w)
      ensures focusedIndex == AfterRemove(old(focusedIndex), IndexOf(old(windows), w))
      ensures Without(windows, w) == Without(old(windows), w)
      ensures (old(focusedIndex).Some? && old(focusedIndex).value == IndexOf(old(windows), w)) || FocusedWindow() == old(FocusedWindow())
    {
      var index := IndexOf(windows, w);
      RemoveFirstWithout(windows, w);
      if index == -1 {
        return;
      }
      windows := RemoveAt(windows, index);
      if focusedIndex.Some? {
        if focusedIndex.value == index {
          focusedIndex := None;
        } else if focusedIndex.value > index {
          focusedIndex := Some(focusedIndex.value - 1);
        }
      }
    }

    /** `topWindow`: the last window, or null on an empty stack (src/tree/floating-layer.ts:30-32). */
    function TopWindow(): (r: Option<W>)
      reads this
      ensures r.None? <==> windows == []
      ensures r.Some? ==> r.value in windows && r.value == windows[|windows| - 1]
    {
      if windows == [] then None else Some(windows[|windows| - 1])
    }

    /** `raise` moves the first occurrence to the top and leaves the focused index as it
        was (src/tree/floating-layer.ts:34-42). */
    method Raise(w: W)
      modifies this
      ensures windows == (if w in old(windows) then RemoveFirst(old(windows), w) + [w] else old(windows))
      ensures focusedIndex == old(focusedIndex)
      ensures multiset(windows) == multiset(old(windows))
      ensures Without(windows, w) == Without(old(windows), w)
      ensures w in old(windows) ==> TopWindow() == Some(w)
    {
      var index := IndexOf(windows, w);
      if index == -1 {
        return;
      }
      MovedToBack(windows, w);
      windows := RemoveAt(windows, index) + [w];
    }

    /** `lower` moves the first occurrence to the bottom and bumps a set focused index by
        one, which may leave it past the last slot (src/tree/floating-layer.ts:44-55). */
    method Lower(w: W)
      modifies this
      ensures windows == (if w in old(windows) then [w] + RemoveFirst(old(windows), w) else old(windows))
      ensures focusedIndex == (if w in old(windows) && old(focusedIndex).Some?
                               then Some(old(focusedIndex).value + 1) else old(focusedIndex))
      ensures multiset(windows) == multiset(old(windows))
      ensures Without(windows, w) == Without(old(windows), w)
      ensures w in old(windows) ==> windows[0] == w
    {
      var index := IndexOf(windows, w);
      if index == -1 {
        return;
      }
      MovedToFront(windows, w);
      var next := if focusedIndex.Some? then Some(focusedIndex.value + 1) else None;
      windows, focusedIndex := [w] + RemoveAt(windows, index), next;
    }

    /** `focus` points the focused index at the first occurrence; an absent window
        changes nothing (src/tree/floating-layer.ts:57-64). */
    method Focus(w: W)
      modifies this
      ensures windows == old(windows)
      ensures w in windows ==> focusedIndex == Some(IndexOf(windows, w) as nat) && FocusedWindow() == Some(w)
      ensures w !in windows ==> focusedIndex == old(focusedIndex)
    {
      var index := IndexOf(windows, w);
      if index == -1 {
        return;
      }
      focusedIndex := Some(index as nat);
    }

    /** `focusedWindow`: the window at the focused index, or null when the index is unset
        or past the end (src/tree/floating-layer.ts:66-72). */
    function FocusedWindow(): (r: Option<W>)
      reads this
      ensures r.Some? <==> focusedIndex.Some? && focusedIndex.value < |windows|
      ensures r.Some? ==> r.value == windows[focusedIndex.value]
    {
      if focusedIndex.None? || focusedIndex.value >= |windows| then None
      else Some(windows[focusedIndex.value])
    }

    /** `focusNext`: nothing on an empty stack; otherwise the next slot, wrapping around,
        and the window there (src/tree/floating-layer.ts:74-86). */
    method FocusNext() returns (r: Option<W>)
      modifies this
      ensures windows == old(windows)
      ensures windows == [] ==> r.None? && focusedIndex == old(focusedIndex)
      ensures windows != [] ==> focusedIndex == Some(NextIndex(old(focusedIndex), |windows|))
      ensures windows != [] ==> r.Some? && r == FocusedWindow()
    {
      if |windows| == 0 {
        return None;
      }
      if focusedIndex.None? {
        focusedIndex := Some(0);
        return Some(windows[0]);
      }
      focusedIndex := Some((focusedIndex.value + 1) % |windows|);
      r := Some(windows[focusedIndex.value]);
    }

    /** `toJSON`: the windows, bottom to top (src/tree/floating-layer.ts:88-90). */
    function ToJson(): (r: seq<W>)
      reads this
      ensures |r| == |windows| && forall i :: 0 <= i < |r| ==> r[i] == windows[i]
    {
      windows
    }
  }
}
