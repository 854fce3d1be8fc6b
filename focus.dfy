/** Focus-flag management over the container tree (src/tree/focus.ts). */
module Focus {
  import opened Wrappers
  import opened Containers
  import opened Arena
  import opened Tree

  /** `nodes` with the focus flag cleared on every node of `s`. */
  function Unfocused(nodes: map<Ref, Node>, s: set<Ref>): map<Ref, Node> {
    map y | y in nodes :: if y in s then nodes[y].(focused := false) else nodes[y]
  }

  /** The node map setFocusedContainer leaves behind: the flags of `s` cleared, then the
      target's flag set. */
  function FocusResult(nodes: map<Ref, Node>, s: set<Ref>, target: Option<Ref>): map<Ref, Node> {
    var m := Unfocused(nodes, s);
    if target.Some? && target.value in m then m[target.value := m[target.value].(focused := true)] else m
  }

  lemma UnfocusedTwice(nodes: map<Ref, Node>, a: set<Ref>, b: set<Ref>)
    ensures Unfocused(Unfocused(nodes, a), b) == Unfocused(nodes, a + b)
  {
  }

  lemma UnfocusedOne(nodes: map<Ref, Node>, x: Ref)
    requires x in nodes
    ensures nodes[x := nodes[x].(focused := false)] == Unfocused(nodes, {x})
  {
  }

  /** Changing only focus flags keeps the arena invariant. */
  lemma UnfocusedShaped(nodes: map<Ref, Node>, s: set<Ref>, ch: map<Ref, seq<Ref>>, pa: map<Ref, Option<Ref>>,
                        de: map<Ref, nat>, bd: nat, next: Ref)
    requires Shaped(nodes, ch, pa, de, bd, next)
    ensures Shaped(Unfocused(nodes, s), ch, pa, de, bd, next)
  {
    var m := Unfocused(nodes, s);
    assert m.Keys == nodes.Keys;
    forall r | r in m && m[r].IsWindow() ensures r in ch && ch[r] == [] {
      assert nodes[r].IsWindow();
    }
  }

  /** One child's subtree cleared: the cleared set grows by that subtree. */
  lemma Advance(n0: map<Ref, Node>, before: map<Ref, Node>, after: map<Ref, Node>, pa: map<Ref, Option<Ref>>,
                de: map<Ref, nat>, x: Ref, cs: seq<Ref>, i: nat)
    requires DepthSteps(pa, de) && pa.Keys == de.Keys && i < |cs|
    requires before == Unfocused(n0, {x} + SubtreesOf(pa, de, cs, i))
    requires after == Unfocused(before, Subtree(pa, de, cs[i]))
    ensures after == Unfocused(n0, {x} + SubtreesOf(pa, de, cs, i + 1))
  {
    UnfocusedTwice(n0, {x} + SubtreesOf(pa, de, cs, i), Subtree(pa, de, cs[i]));
    SubtreesOfNext(pa, de, cs, i);
  }

  /** clearFocus (src/tree/focus.ts:3-8): clears the flag on `x` and, recursively, on every
      node below it; nothing else changes. */
  method ClearFocus(t: Tree, x: Ref)
    requires t.Keyed() && x in t.nodes
    modifies t`nodes
    ensures t.nodes == Unfocused(old(t.nodes), Subtree(t.parent, t.depth, x))
    decreases t.bound - t.depth[x]
  {
    ghost var n0 := t.nodes;
    UnfocusedOne(t.nodes, x);
    t.nodes := t.nodes[x := t.nodes[x].(focused := false)];
    var i := 0;
    while i < |t.children[x]|
      invariant t.Keyed()
      invariant 0 <= i <= |t.children[x]|
      invariant t.nodes == Unfocused(n0, {x} + SubtreesOf(t.parent, t.depth, t.children[x], i))
    {
      var c := t.children[x][i];
      assert t.parent[c] == Some(x);
      ghost var before := t.nodes;
      ClearFocus(t, c);
      Advance(n0, before, t.nodes, t.parent, t.depth, x, t.children[x], i);
      i := i + 1;
    }
    SubtreeSplit(t.children, t.parent, t.depth, t.bound, x);
  }

  /** setFocusedContainer (src/tree/focus.ts:10-19): clears every flag under `root`, then
      focuses `target`, which need not lie under `root`. */
  method SetFocusedContainer(t: Tree, root: Ref, target: Option<Ref>)
    requires t.Valid() && root in t.nodes && (target.Some? ==> target.value in t.nodes)
    modifies t`nodes
    ensures t.Valid()
    ensures t.nodes == FocusResult(old(t.nodes), Subtree(t.parent, t.depth, root), target)
  {
    ClearFocus(t, root);
    UnfocusedShaped(old(t.nodes), Subtree(t.parent, t.depth, root), t.children, t.parent, t.depth, t.bound, t.nextRef);
    if target.Some? {
      var y := target.value;
      t.SetNode(y, t.nodes[y].(focused := true));
    }
  }

  /** After setFocusedContainer no node of the cleared set but the target is focused, the
      target is, and every node keeps all its other fields. */
  lemma FocusExclusive(nodes: map<Ref, Node>, s: set<Ref>, target: Option<Ref>)
    requires target.Some? ==> target.value in nodes
    ensures FocusResult(nodes, s, target).Keys == nodes.Keys
    ensures target.Some? ==> FocusResult(nodes, s, target)[target.value].focused
    ensures forall y :: y in s && y in nodes && Some(y) != target ==> !FocusResult(nodes, s, target)[y].focused
    ensures forall y :: y in nodes && y !in s && Some(y) != target ==> FocusResult(nodes, s, target)[y] == nodes[y]
    ensures forall y :: y in nodes ==> FocusResult(nodes, s, target)[y].(focused := nodes[y].focused) == nodes[y]
  {
  }

  /** A second identical setFocusedContainer changes nothing. */
  lemma FocusIdempotent(nodes: map<Ref, Node>, s: set<Ref>, target: Option<Ref>)
    ensures FocusResult(FocusResult(nodes, s, target), s, target) == FocusResult(nodes, s, target)
  {
    var m := FocusResult(nodes, s, target);
    var m2 := FocusResult(m, s, target);
    assert m2.Keys == m.Keys;
    forall y | y in m ensures m2[y] == m[y] {
    }
  }
}
