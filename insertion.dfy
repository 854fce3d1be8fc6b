/** insertWindowWithStrategy (src/window-insertion.ts): a new window either joins the end of
    the split, or, when the layout strategy plans a wrap, a new split perpendicular to the
    old one takes the wrap target's slot and holds the target and the new window. */
module Insertion {
  import opened Wrappers
  import opened Seqs
  import opened Containers
  import opened Arena
  import opened Tree
  import opened Strategy
  import opened Splice

  /** A planned wrap: the slot (`parent`, `index`) of the wrap target `target`, and the
      layout of the split that replaces it. */
  datatype Wrap = Wrap(parent: Ref, index: nat, target: Ref, layout: Layout)

  /** The decision of src/window-insertion.ts:18-55, with the strategy looked up by the
      split's layout: None when the window is appended (no hook, no plan, no wrap target,
      a target whose parent is not a split or does not list it), else the wrap. */
  function WrapPlan(nodes: map<Ref, Node>, ch: map<Ref, seq<Ref>>, pa: map<Ref, Option<Ref>>,
                    ghost de: map<Ref, nat>, ghost bd: nat, ghost next: Ref,
                    split: Ref, focused: Ref, mode: InsertionMode): (w: Option<Wrap>)
    requires Shaped(nodes, ch, pa, de, bd, next) && split in nodes && focused in nodes
    ensures w.Some? ==>
      && w.value.parent in ch && w.value.index < |ch[w.value.parent]|
      && ch[w.value.parent][w.value.index] == w.value.target
      && pa[w.value.target] == Some(w.value.parent)
      && nodes[w.value.parent].Kind() == Split
  {
    var l := nodes[split].layout;
    if !GetLayoutStrategy(l).HasWindowAddedHook() then None
    else
      match OnWindowAdded(nodes, ch, pa, InsertionContext(split, focused, mode))
      case None => None
      case Some(plan) =>
        if plan.wrapTarget.None? then None
        else
          var target := plan.wrapTarget.value;
          TargetLinked(nodes, ch, pa, de, bd, next, split, focused, mode);
          var wrapLayout := plan.wrapLayout.GetOr(l);
          if pa[target].None? || nodes[pa[target].value].Kind() != Split then None
          else
            var tp := pa[target].value;
            var index := IndexOf(ch[tp], target);
            if index == -1 then None else Some(Wrap(tp, index, target, wrapLayout))
  }

  /** The wrap target of a plan is a container of the tree. */
  lemma TargetLinked(nodes: map<Ref, Node>, ch: map<Ref, seq<Ref>>, pa: map<Ref, Option<Ref>>,
                     de: map<Ref, nat>, bd: nat, next: Ref, split: Ref, focused: Ref, mode: InsertionMode)
    requires Shaped(nodes, ch, pa, de, bd, next) && split in nodes && focused in nodes
    ensures var r := OnWindowAdded(nodes, ch, pa, InsertionContext(split, focused, mode));
            r.Some? && r.value.wrapTarget.Some? ==> r.value.wrapTarget.value in pa
  {
    var r := OnWindowAdded(nodes, ch, pa, InsertionContext(split, focused, mode));
    if r.Some? && mode.TailMode? {
      var cs := ch[pa[focused].value];
      assert cs[|cs| - 1] in pa;
    }
  }

  /** In a consistent tree the source's fallbacks after a plan never fire: the window is
      wrapped exactly when the split's layout is Alternating, the mode is focused or tail,
      the focused window sits in a split (with a last child, in tail mode); the target is
      the focused window or that split's last child, in its own slot, and the new split is
      SplitV under a SplitH parent and SplitH otherwise. */
  lemma WrapPlanIff(nodes: map<Ref, Node>, ch: map<Ref, seq<Ref>>, pa: map<Ref, Option<Ref>>,
                    de: map<Ref, nat>, bd: nat, next: Ref, split: Ref, focused: Ref, mode: InsertionMode)
    requires Shaped(nodes, ch, pa, de, bd, next) && split in nodes && focused in nodes
    ensures var w := WrapPlan(nodes, ch, pa, de, bd, next, split, focused, mode);
      w.Some? <==>
        (nodes[split].layout == Alternating && !mode.AppendMode? && pa[focused].Some?
         && nodes[pa[focused].value].Kind() == Split
         && (mode.TailMode? ==> ch[pa[focused].value] != []))
    ensures var w := WrapPlan(nodes, ch, pa, de, bd, next, split, focused, mode);
      w.Some? ==>
        && w.value.parent == pa[focused].value
        && (mode.FocusedMode? ==> w.value.target == focused)
        && (mode.TailMode? ==> w.value.index == |ch[w.value.parent]| - 1)
        && w.value.layout == (if nodes[w.value.parent].layout == SplitH then SplitV else SplitH)
  {
    var l := nodes[split].layout;
    var r := OnWindowAdded(nodes, ch, pa, InsertionContext(split, focused, mode));
    if l == Alternating && r.Some? {
      var p := pa[focused].value;
      var target := r.value.wrapTarget.value;
      var cs := ch[p];
      if mode.FocusedMode? {
        assert focused in cs;
      } else {
        assert pa[cs[|cs| - 1]] == Some(p);
      }
      assert pa[target] == Some(p);
      SlotOf(ch, pa, p, target);
      if mode.TailMode? {
        assert IndexOf(cs, target) == |cs| - 1 by {
          NoDupIndex(cs, |cs| - 1);
        }
      }
    }
  }

  /** A container with parent `p` is listed by `p`. */
  lemma SlotOf(ch: map<Ref, seq<Ref>>, pa: map<Ref, Option<Ref>>, p: Ref, c: Ref)
    requires UpLinks(ch, pa) && c in pa && pa[c] == Some(p)
    ensures p in ch && IndexOf(ch[p], c) != -1
  {
  }

  /** In a list without duplicates, the first position of an element is its position. */
  lemma NoDupIndex<T>(s: seq<T>, i: nat)
    requires NoDup(s) && i < |s|
    ensures IndexOf(s, s[i]) == i
  {
    var k := IndexOf(s, s[i]);
    assert s[k] == s[i];
  }

  /** `ch` with `c` taken out of its parent's list: the first step of addChild. */
  ghost function Unlisted(ch: map<Ref, seq<Ref>>, pa: map<Ref, Option<Ref>>, c: Ref): map<Ref, seq<Ref>> {
    if c in pa && pa[c].Some? && pa[c].value in ch then ch[pa[c].value := RemoveFirst(ch[pa[c].value], c)] else ch
  }

  /** `ch` with `c` at the end of `p`'s list: the second step of addChild. */
  ghost function Adopted(ch: map<Ref, seq<Ref>>, p: Ref, c: Ref): map<Ref, seq<Ref>> {
    var row: seq<Ref> := (if p in ch then ch[p] else []) + [c];
    ch[p := row]
  }

  /** Where addChild's own precondition holds, its two steps are the tree's. */
  lemma UnlistedDetached(ch: map<Ref, seq<Ref>>, pa: map<Ref, Option<Ref>>, p: Ref, c: Ref)
    requires c in pa && (pa[c].Some? ==> pa[c].value in ch)
    ensures var d := Tree.Detached(ch, pa, c);
            p in d ==> Adopted(Unlisted(ch, pa, c), p, c) == d[p := d[p] + [c]]
  {
  }

  /** The child lists after the append branch (`split.addChild(container)`). */
  ghost function Appended(ch: map<Ref, seq<Ref>>, pa: map<Ref, Option<Ref>>, split: Ref, c: Ref): map<Ref, seq<Ref>> {
    Adopted(Unlisted(ch, pa, c), split, c)
  }

  /** The parent links after the wrap (src/window-insertion.ts:57-61): the new split `s`
      hangs below the target's old parent and holds the target, then the window. */
  function WrappedParents(pa: map<Ref, Option<Ref>>, w: Wrap, s: Ref, c: Ref): map<Ref, Option<Ref>> {
    PlacedParents(pa, w, s)[c := Some(s)]
  }

  /** The child lists once the split `s` has taken the target's slot and adopted it. */
  ghost function Placed(ch: map<Ref, seq<Ref>>, w: Wrap, s: Ref): map<Ref, seq<Ref>>
    requires w.parent in ch && w.index < |ch[w.parent]|
  {
    var row: seq<Ref> := ch[w.parent][w.index := s];
    var one: seq<Ref> := [w.target];
    ch[w.parent := row][s := one]
  }

  /** The child lists after the wrap: `s` in the target's slot, holding the target, and then
      the window, which addChild first takes out of its old list. */
  ghost function Wrapped(ch: map<Ref, seq<Ref>>, pa: map<Ref, Option<Ref>>, w: Wrap, s: Ref, c: Ref): map<Ref, seq<Ref>>
    requires w.parent in ch && w.index < |ch[w.parent]|
  {
    Adopted(Unlisted(Placed(ch, w, s), PlacedParents(pa, w, s), c), s, c)
  }

  /** For a window that had no parent, wrapping puts the new split exactly in the target's
      slot, so the target parent keeps its child count and the order of its other
      children; the new split holds the target then the window, and no other list
      changes. */
  lemma WrapShape(ch: map<Ref, seq<Ref>>, pa: map<Ref, Option<Ref>>, w: Wrap, s: Ref, c: Ref)
    requires w.parent in ch && w.index < |ch[w.parent]| && ch[w.parent][w.index] == w.target
    requires c in pa && pa[c] == None && c != s && s !in ch && s !in pa && w.target in pa && pa[w.target] == Some(w.parent)
    ensures var r := Wrapped(ch, pa, w, s, c);
      && r[w.parent] == ch[w.parent][w.index := s]
      && |r[w.parent]| == |ch[w.parent]|
      && (forall k :: 0 <= k < |ch[w.parent]| && k != w.index ==> r[w.parent][k] == ch[w.parent][k])
      && r[s] == [w.target, c]
      && (forall x :: x in ch && x != w.parent ==> r[x] == ch[x])
    ensures var q := WrappedParents(pa, w, s, c);
      q[s] == Some(w.parent) && q[w.target] == Some(s) && q[c] == Some(s)
  {
    assert c != w.target;
  }

  /** For a window that had no parent, the append branch puts it at the end of the split and
      changes no other list. */
  lemma AppendShape(ch: map<Ref, seq<Ref>>, pa: map<Ref, Option<Ref>>, split: Ref, c: Ref)
    requires c in pa && pa[c] == None && split in ch
    ensures var r := Appended(ch, pa, split, c);
      r[split] == ch[split] + [c] && forall x :: x in ch && x != split ==> r[x] == ch[x]
  {
  }

  /** `split.addChild(container)` for a window: a window has no children, so the split is
      not below it. */
  method Append(t: Tree, split: Ref, container: Ref)
    requires t.Valid() && split in t.nodes && container in t.nodes
    requires t.nodes[split].Kind() == Split && t.nodes[container].IsWindow()
    modifies t`children, t`parent, t`depth, t`bound
    ensures t.Valid() && t.nodes == old(t.nodes) && t.nextRef == old(t.nextRef) && t.idCounter == old(t.idCounter)
    ensures t.parent == old(t.parent)[container := Some(split)]
    ensures t.children == Appended(old(t.children), old(t.parent), split, container)
  {
    BelowChildless(t.children, t.parent, t.depth, t.bound, split, container);
    UnlistedDetached(t.children, t.parent, split, container);
    t.AddChild(split, container);
  }

  /** The wrap (src/window-insertion.ts:57-61): a fresh split with the next id takes the
      target's slot, and the target and then the window are added to it. */
  method WrapWith(t: Tree, w: Wrap, container: Ref) returns (s: Ref)
    requires t.Valid() && container in t.nodes && t.nodes[container].IsWindow()
    requires w.parent in t.nodes && w.index < |t.children[w.parent]|
    requires t.children[w.parent][w.index] == w.target
    modifies t`nodes, t`children, t`parent, t`depth, t`bound, t`nextRef, t`idCounter
    ensures t.Valid()
    ensures s == old(t.nextRef) && t.nextRef == s + 1 && t.idCounter == old(t.idCounter) + 1
    ensures t.nodes == old(t.nodes)[s := SplitNode(old(t.idCounter) + 1, w.layout)]
    ensures t.parent == WrappedParents(old(t.parent), w, s, container)
    ensures t.children == Wrapped(old(t.children), old(t.parent), w, s, container)
  {
    s := NewSplit(t, w.layout);
    FillSplit(t, w, s, container, old(t.children), old(t.parent));
  }

  /** Lines 58-61 of the wrap: the parentless, childless split `s` takes the target's slot,
      adopts the target, then the window. `ch0` and `pa0` are the links before `s` was
      made. */
  method FillSplit(t: Tree, w: Wrap, s: Ref, container: Ref, ghost ch0: map<Ref, seq<Ref>>, ghost pa0: map<Ref, Option<Ref>>)
    requires t.Valid() && w.parent in t.nodes && s in t.nodes && t.nodes[s].Kind() == Split
    requires w.index < |t.children[w.parent]| && t.children[w.parent][w.index] == w.target
    requires t.children[s] == [] && t.parent[s] == None
    requires container in t.nodes && t.nodes[container].IsWindow()
    requires w.parent in ch0 && w.parent != s && container in pa0 && container != s
    requires pa0[container].Some? && container != w.target ==> pa0[container].value in ch0
    requires t.children == ch0[s := []] && t.parent == pa0[s := None]
    modifies t`children, t`parent, t`depth, t`bound
    ensures t.Valid() && t.nodes == old(t.nodes) && t.nextRef == old(t.nextRef) && t.idCounter == old(t.idCounter)
    ensures t.parent == WrappedParents(pa0, w, s, container)
    ensures t.children == Wrapped(ch0, pa0, w, s, container)
  {
    FreshWrapped(ch0, pa0, w, s, container);
    FreshPlaced(t.children, t.parent, w, s);
    ghost var n0 := t.nodes;
    PlaceSplit(t, w, s);
    assert t.nodes == n0;
    Append(t, s, container);
  }

  /** The wrap over maps that already hold the fresh split's empty entries equals the wrap
      over the maps before it was made. */
  lemma FreshWrapped(ch: map<Ref, seq<Ref>>, pa: map<Ref, Option<Ref>>, w: Wrap, s: Ref, c: Ref)
    requires w.parent in ch && w.index < |ch[w.parent]| && w.parent != s && c in pa && c != s
    requires pa[c].Some? && c != w.target ==> pa[c].value in ch
    ensures Wrapped(ch[s := []], pa[s := None], w, s, c) == Wrapped(ch, pa, w, s, c)
    ensures WrappedParents(pa[s := None], w, s, c) == WrappedParents(pa, w, s, c)
  {
    FreshPlaced(ch, pa, w, s);
    assert PlacedParents(pa[s := None], w, s) == PlacedParents(pa, w, s);
  }

  /** The split of the wrap: the next id, and a fresh parentless, childless container. */
  method NewSplit(t: Tree, l: Layout) returns (s: Ref)
    requires t.Valid()
    modifies t`nodes, t`children, t`parent, t`depth, t`bound, t`nextRef, t`idCounter
    ensures t.Valid()
    ensures s == old(t.nextRef) && s !in old(t.nodes) && t.nextRef == s + 1 && t.idCounter == old(t.idCounter) + 1
    ensures t.nodes == old(t.nodes)[s := SplitNode(old(t.idCounter) + 1, l)]
    ensures t.children == old(t.children)[s := []]
    ensures t.parent == old(t.parent)[s := None]
  {
    var id := t.NextId();
    s := t.NewContainer(SplitNode(id, l));
  }

  /** The parent links once the split `s` has taken the target's slot and adopted it. */
  function PlacedParents(pa: map<Ref, Option<Ref>>, w: Wrap, s: Ref): map<Ref, Option<Ref>> {
    pa[s := Some(w.parent)][w.target := Some(s)]
  }

  /** Placing a fresh split gives the same maps whether or not its empty entries were
      made first. */
  lemma FreshPlaced(ch: map<Ref, seq<Ref>>, pa: map<Ref, Option<Ref>>, w: Wrap, s: Ref)
    requires w.parent in ch && w.index < |ch[w.parent]| && w.parent != s
    ensures Placed(ch[s := []], w, s) == Placed(ch, w, s)
    ensures PlacedParents(pa[w.target := None], w, s) == PlacedParents(pa, w, s)
  {
  }

  /** Lines 58-60 of the wrap: the parentless, childless split `s` takes the target's slot
      and then adopts the target. */
  method PlaceSplit(t: Tree, w: Wrap, s: Ref)
    requires t.Valid() && w.parent in t.nodes && s in t.nodes && !t.nodes[s].IsWindow()
    requires w.index < |t.children[w.parent]| && t.children[w.parent][w.index] == w.target
    requires t.children[s] == [] && t.parent[s] == None
    modifies t`children, t`parent, t`depth, t`bound
    ensures t.Valid() && t.nodes == old(t.nodes) && t.nextRef == old(t.nextRef) && t.idCounter == old(t.idCounter)
    ensures t.children == Placed(old(t.children), w, s)
    ensures t.parent == PlacedParents(old(t.parent)[w.target := None], w, s)
  {
    assert w.target in t.children[w.parent];
    assert t.depth[w.target] == t.depth[w.parent] + 1;
    ReplaceChildAt(t, w.parent, w.index, s);
    ghost var ch1, pa1 := t.children, t.parent;
    ghost var one: seq<Ref> := [w.target];
    assert pa1[w.target] == None && ch1[s] == [];
    FreshSlot(t.parent, t.depth, s, w.target);
    t.AddChild(s, w.target);
    assert Tree.Detached(ch1, pa1, w.target) == ch1;
    assert t.children == ch1[s := [] + [w.target]];
    assert [] + [w.target] == one;
    assert t.children == ch1[s := one];
  }

  /** The new split is as deep as the container that left its slot, so it is not below
      that container. */
  lemma FreshSlot(pa: map<Ref, Option<Ref>>, de: map<Ref, nat>, s: Ref, target: Ref)
    requires DepthSteps(pa, de) && pa.Keys == de.Keys && s in pa && target in pa && s != target
    requires de[s] == de[target]
    ensures !Below(pa, de, s, target)
  {
    if Below(pa, de, s, target) {
      BelowDeeper(pa, de, s, target);
    }
  }

  /** insertWindowWithStrategy with the strategy of the split's layout. */
  method InsertWindow(t: Tree, split: Ref, container: Ref, focused: Ref, mode: InsertionMode) returns (ghost w: Option<Wrap>)
    requires t.Valid() && split in t.nodes && container in t.nodes && focused in t.nodes
    requires t.nodes[split].Kind() == Split && t.nodes[container].IsWindow()
    modifies t`nodes, t`children, t`parent, t`depth, t`bound, t`nextRef, t`idCounter
    ensures t.Valid()
    ensures w == WrapPlan(old(t.nodes), old(t.children), old(t.parent), old(t.depth), old(t.bound),
                          old(t.nextRef), split, focused, mode)
    ensures w.None? ==>
      && t.nodes == old(t.nodes) && t.nextRef == old(t.nextRef) && t.idCounter == old(t.idCounter)
      && t.parent == old(t.parent)[container := Some(split)]
      && t.children == Appended(old(t.children), old(t.parent), split, container)
    ensures w.Some? ==>
      var s := old(t.nextRef);
      && w.value.parent in old(t.children) && w.value.index < |old(t.children)[w.value.parent]|
      && t.nextRef == s + 1 && t.idCounter == old(t.idCounter) + 1
      && t.nodes == old(t.nodes)[s := SplitNode(old(t.idCounter) + 1, w.value.layout)]
      && t.parent == WrappedParents(old(t.parent), w.value, s, container)
      && t.children == Wrapped(old(t.children), old(t.parent), w.value, s, container)
  {
    var plan := WrapPlan(t.nodes, t.children, t.parent, t.depth, t.bound, t.nextRef, split, focused, mode);
    w := plan;
    if plan.None? {
      Append(t, split, container);
      return;
    }
    var s := WrapWith(t, plan.value, container);
  }

  /** insertWindowWithStrategy as written: `getLayoutStrategy(split)` passes the split
      object where a layout is expected (src/window-insertion.ts:18). The table is keyed by
      layouts, so the lookup yields the fallback strategy, which has no `onWindowAdded`;
      there is never a plan and the window is always appended. */
  method InsertWindowAsWritten(t: Tree, split: Ref, container: Ref, focused: Ref, mode: InsertionMode)
    requires t.Valid() && split in t.nodes && container in t.nodes && focused in t.nodes
    requires t.nodes[split].Kind() == Split && t.nodes[container].IsWindow()
    modifies t`children, t`parent, t`depth, t`bound
    ensures t.Valid()
    ensures t.parent == old(t.parent)[container := Some(split)]
    ensures t.children == Appended(old(t.children), old(t.parent), split, container)
  {
    Append(t, split, container);
  }

  /** The lookup as written: a split object is not a key of the layout table. */
  function StrategyAsWritten(split: Node): (s: LayoutStrategy)
    ensures !s.HasWindowAddedHook()
  {
    FallbackStrategy
  }

  /** What the written lookup loses: an Alternating split, in focused mode, with the focused
      window inside a split, is planned for a wrap around the focused window, which the
      written code appends instead. */
  lemma AsWrittenMissesWrap(nodes: map<Ref, Node>, ch: map<Ref, seq<Ref>>, pa: map<Ref, Option<Ref>>,
                            de: map<Ref, nat>, bd: nat, next: Ref, split: Ref, focused: Ref)
    requires Shaped(nodes, ch, pa, de, bd, next) && split in nodes && focused in nodes
    requires nodes[split].layout == Alternating
    requires pa[focused].Some? && nodes[pa[focused].value].Kind() == Split
    ensures var w := WrapPlan(nodes, ch, pa, de, bd, next, split, focused, FocusedMode);
            w.Some? && w.value.target == focused && w.value.parent == pa[focused].value
    ensures !StrategyAsWritten(nodes[split]).HasWindowAddedHook()
  {
    WrapPlanIff(nodes, ch, pa, de, bd, next, split, focused, FocusedMode);
  }
}
