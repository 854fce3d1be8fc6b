/** reflow (src/tree/reflow.ts): recomputes the rects of a container's subtree, top down, with
    the layout strategy of each container and one gap setting for the whole walk. */
module Reflow {
  import opened Wrappers
  import opened Seqs
  import opened Containers
  import opened Arena
  import opened Strategy

  /** A member of `x`'s child list is a linked container one level below `x`. */
  lemma ChildLinked(ch: map<Ref, seq<Ref>>, pa: map<Ref, Option<Ref>>, de: map<Ref, nat>, bd: nat, x: Ref, c: Ref)
    requires LinkedMaps(ch, pa, de, bd) && x in ch && c in ch[x]
    ensures c in ch && pa[c] == Some(x) && de[c] == de[x] + 1
  {
    var j :| 0 <= j < |ch[x]| && ch[x][j] == c;
  }

  /** A layout strategy's computeRects, seen from reflow: the rects it gives the layout
      children of a container, from the container and the children's proportions. */
  type Tiler = (Node, seq<real>) -> seq<Rect>

  /** The tiler gives one rect per layout child. */
  ghost predicate Fits(t: Tiler) {
    forall n, ps :: |t(n, ps)| == |ps|
  }

  /** computeRects of the split strategies (src/layout/strategy.ts:120-181 and 215-219): the
      strategy of the container's layout picks the axis, the gaps come with the walk. */
  function SplitTiler(gaps: Option<Gaps>): (t: Tiler)
    ensures Fits(t)
  {
    (n: Node, ps: seq<real>) => SplitRects(n.rect, GetLayoutStrategy(n.layout).Horizontal(), ps, gaps)
  }

  /** The tiles `t` gives the layout children `lc` of `x`. */
  function Tiles(nodes: map<Ref, Node>, x: Ref, lc: seq<Ref>, t: Tiler): (rs: seq<Rect>)
    requires Fits(t) && x in nodes && forall c :: c in lc ==> c in nodes
    ensures |rs| == |lc|
  {
    t(nodes[x], Proportions(nodes, lc))
  }

  /** The node map after `reflow(x, gaps)`: nothing when `x` has no layout children; otherwise
      the layout children are placed with the strategy of `x`'s layout, then each of them is
      reflowed in turn. */
  ghost function Reflowed(nodes: map<Ref, Node>, ch: map<Ref, seq<Ref>>, pa: map<Ref, Option<Ref>>,
                          de: map<Ref, nat>, bd: nat, x: Ref, t: Tiler): (r: map<Ref, Node>)
    requires Fits(t) && LinkedMaps(ch, pa, de, bd) && x in ch && ch.Keys <= nodes.Keys
    ensures r.Keys == nodes.Keys
    decreases bd - de[x], 1, 0
  {
    var lc := LayoutChildren(nodes, ch[x]);
    if |ch[x]| == 0 || |lc| == 0 then nodes
    else ReflowEach(Placed(nodes, lc, Tiles(nodes, x, lc, t)), ch, pa, de, bd, x, lc, t, |lc|)
  }

  /** The map after reflowing the first `i` of `x`'s layout children `lc`, in order. */
  ghost function ReflowEach(nodes: map<Ref, Node>, ch: map<Ref, seq<Ref>>, pa: map<Ref, Option<Ref>>,
                            de: map<Ref, nat>, bd: nat, x: Ref, lc: seq<Ref>, t: Tiler, i: nat)
    : (r: map<Ref, Node>)
    requires Fits(t) && LinkedMaps(ch, pa, de, bd) && x in ch && ch.Keys <= nodes.Keys
    requires i <= |lc| && forall c :: c in lc ==> c in ch[x]
    ensures r.Keys == nodes.Keys
    decreases bd - de[x], 0, i
  {
    if i == 0 then nodes
    else
      var prev := ReflowEach(nodes, ch, pa, de, bd, x, lc, t, i - 1);
      ChildLinked(ch, pa, de, bd, x, lc[i - 1]);
      Reflowed(prev, ch, pa, de, bd, lc[i - 1], t)
  }

  /** `b` has the containers of `a` with the same fields except, perhaps, their rects. */
  predicate OnlyRects(a: map<Ref, Node>, b: map<Ref, Node>) {
    a.Keys == b.Keys && forall y {:trigger b[y]} :: y in a ==> b[y] == a[y].(rect := b[y].rect)
  }

  lemma OnlyRectsTrans(a: map<Ref, Node>, b: map<Ref, Node>, c: map<Ref, Node>)
    requires OnlyRects(a, b) && OnlyRects(b, c)
    ensures OnlyRects(a, c)
  {
    forall y | y in a ensures c[y] == a[y].(rect := c[y].rect) {
      assert b[y] == a[y].(rect := b[y].rect);
    }
  }

  /** `y` is not strictly below `x`: `x` itself, or outside its subtree. */
  ghost predicate NotInside(pa: map<Ref, Option<Ref>>, de: map<Ref, nat>, y: Ref, x: Ref)
    requires DepthSteps(pa, de) && pa.Keys == de.Keys
  {
    y !in pa || y == x || !Below(pa, de, y, x)
  }

  /** `b` differs from `a` in rects only, of tiled containers strictly below `x`. */
  ghost predicate Frame(a: map<Ref, Node>, b: map<Ref, Node>, pa: map<Ref, Option<Ref>>, de: map<Ref, nat>, x: Ref)
    requires DepthSteps(pa, de) && pa.Keys == de.Keys
  {
    && OnlyRects(a, b)
    && (forall y :: y in a && NotInside(pa, de, y, x) ==> b[y] == a[y])
    && (forall y :: y in a && !a[y].IsTiled() ==> b[y] == a[y])
  }

  /** As `Frame`, and the children of `x` keep their rects too. */
  ghost predicate FrameEach(a: map<Ref, Node>, b: map<Ref, Node>, pa: map<Ref, Option<Ref>>, de: map<Ref, nat>, x: Ref)
    requires DepthSteps(pa, de) && pa.Keys == de.Keys
  {
    && OnlyRects(a, b)
    && (forall y :: y in a && (NotInside(pa, de, y, x) || (y in pa && pa[y] == Some(x))) ==> b[y] == a[y])
    && (forall y :: y in a && !a[y].IsTiled() ==> b[y] == a[y])
  }

  /** What reflow writes: only rects, only of containers strictly below `x`, and never the
      rect of a floating window. */
  lemma {:induction false} ReflowedFrame(nodes: map<Ref, Node>, ch: map<Ref, seq<Ref>>, pa: map<Ref, Option<Ref>>,
                                         de: map<Ref, nat>, bd: nat, x: Ref, t: Tiler, r: map<Ref, Node>)
    requires Fits(t) && LinkedMaps(ch, pa, de, bd) && x in ch && ch.Keys <= nodes.Keys
    requires r == Reflowed(nodes, ch, pa, de, bd, x, t)
    ensures Frame(nodes, r, pa, de, x)
    decreases bd - de[x], 1, 0
  {
    var lc := LayoutChildren(nodes, ch[x]);
    if |ch[x]| != 0 && |lc| != 0 {
      var placed := Placed(nodes, lc, Tiles(nodes, x, lc, t));
      PlacedOnlyRects(nodes, lc, Tiles(nodes, x, lc, t));
      ReflowEachFrame(placed, ch, pa, de, bd, x, lc, t, |lc|, r);
      OnlyRectsTrans(nodes, placed, r);
      forall y | y in nodes && NotInside(pa, de, y, x) ensures r[y] == nodes[y] {
        if y in lc {
          ChildLinked(ch, pa, de, bd, x, y);
          assert Below(pa, de, y, x);
        }
      }
      forall y | y in nodes && !nodes[y].IsTiled() ensures r[y] == nodes[y] {
        assert y !in lc;
        assert !placed[y].IsTiled();
      }
    }
  }

  /** Reflowing the layout children of `x` in turn writes only rects strictly below them: not
      `x`, not anything outside `x`'s subtree, not `x`'s children themselves. */
  lemma {:induction false} ReflowEachFrame(nodes: map<Ref, Node>, ch: map<Ref, seq<Ref>>, pa: map<Ref, Option<Ref>>,
                                           de: map<Ref, nat>, bd: nat, x: Ref, lc: seq<Ref>, t: Tiler, i: nat,
                                           r: map<Ref, Node>)
    requires Fits(t) && LinkedMaps(ch, pa, de, bd) && x in ch && ch.Keys <= nodes.Keys
    requires i <= |lc| && forall c :: c in lc ==> c in ch[x]
    requires r == ReflowEach(nodes, ch, pa, de, bd, x, lc, t, i)
    ensures FrameEach(nodes, r, pa, de, x)
    decreases bd - de[x], 0, i
  {
    if i > 0 {
      var c := lc[i - 1];
      ChildLinked(ch, pa, de, bd, x, c);
      var prev := ReflowEach(nodes, ch, pa, de, bd, x, lc, t, i - 1);
      ReflowEachFrame(nodes, ch, pa, de, bd, x, lc, t, i - 1, prev);
      ReflowedFrame(prev, ch, pa, de, bd, c, t, r);
      FrameStep(nodes, prev, r, pa, de, x, c);
    }
  }

  /** One step of `ReflowEachFrame`: the frame of reflowing the child `c` composed with the
      frame of the children before it. */
  lemma FrameStep(nodes: map<Ref, Node>, prev: map<Ref, Node>, r: map<Ref, Node>,
                  pa: map<Ref, Option<Ref>>, de: map<Ref, nat>, x: Ref, c: Ref)
    requires DepthSteps(pa, de) && pa.Keys == de.Keys && c in pa && pa[c] == Some(x)
    requires FrameEach(nodes, prev, pa, de, x) && Frame(prev, r, pa, de, c)
    ensures FrameEach(nodes, r, pa, de, x)
  {
    OnlyRectsTrans(nodes, prev, r);
    forall y | y in nodes && (NotInside(pa, de, y, x) || (y in pa && pa[y] == Some(x)))
      ensures r[y] == nodes[y]
    {
      SiblingOutside(pa, de, x, c, y);
    }
  }

  /** Nothing at or outside `x`, and no child of `x`, lies strictly below the child `c`. */
  lemma SiblingOutside(pa: map<Ref, Option<Ref>>, de: map<Ref, nat>, x: Ref, c: Ref, y: Ref)
    requires DepthSteps(pa, de) && pa.Keys == de.Keys && c in pa && pa[c] == Some(x)
    requires NotInside(pa, de, y, x) || (y in pa && pa[y] == Some(x))
    ensures NotInside(pa, de, y, c)
  {
    if y in pa && y != c && Below(pa, de, y, c) {
      BelowDeeper(pa, de, y, c);
      if y != x && pa[y] != Some(x) {
        assert Below(pa, de, c, x);
        BelowTrans(pa, de, y, c, x);
      }
    }
  }

  /** After reflow, the layout children of `x` hold the tiles of `x`'s strategy, in order;
      a container without layout children is left as it was. */
  lemma {:induction false} ReflowedPlaces(nodes: map<Ref, Node>, ch: map<Ref, seq<Ref>>, pa: map<Ref, Option<Ref>>,
                                          de: map<Ref, nat>, bd: nat, x: Ref, t: Tiler, r: map<Ref, Node>)
    requires Fits(t) && LinkedMaps(ch, pa, de, bd) && x in ch && ch.Keys <= nodes.Keys
    requires r == Reflowed(nodes, ch, pa, de, bd, x, t)
    ensures var lc := LayoutChildren(nodes, ch[x]);
            && (lc == [] ==> r == nodes)
            && forall i :: 0 <= i < |lc| ==> r[lc[i]].rect == Tiles(nodes, x, lc, t)[i]
  {
    var lc := LayoutChildren(nodes, ch[x]);
    if |ch[x]| != 0 && |lc| != 0 {
      var rs := Tiles(nodes, x, lc, t);
      var placed := Placed(nodes, lc, rs);
      assert NoDup(ch[x]);
      LayoutChildrenNoDup(nodes, ch[x]);
      PlacedAt(nodes, lc, rs);
      ReflowEachFrame(placed, ch, pa, de, bd, x, lc, t, |lc|, r);
      forall i | 0 <= i < |lc| ensures r[lc[i]].rect == rs[i] {
        ChildLinked(ch, pa, de, bd, x, lc[i]);
        assert r[lc[i]] == placed[lc[i]];
      }
    }
  }

  // ---- reflow is idempotent ----

  /** `x`'s subtree is laid out: the layout children of every container reached by reflow
      already hold their tiles. */
  ghost predicate Settled(nodes: map<Ref, Node>, ch: map<Ref, seq<Ref>>, pa: map<Ref, Option<Ref>>,
                          de: map<Ref, nat>, bd: nat, x: Ref, t: Tiler)
    requires Fits(t) && LinkedMaps(ch, pa, de, bd) && x in ch && ch.Keys <= nodes.Keys
    decreases bd - de[x], 1, 0
  {
    var lc := LayoutChildren(nodes, ch[x]);
    (forall i :: 0 <= i < |lc| ==> nodes[lc[i]].rect == Tiles(nodes, x, lc, t)[i])
    && SettledEach(nodes, ch, pa, de, bd, x, lc, t, |lc|)
  }

  /** The first `i` of the children `lc` of `x` are settled. */
  ghost predicate SettledEach(nodes: map<Ref, Node>, ch: map<Ref, seq<Ref>>, pa: map<Ref, Option<Ref>>,
                              de: map<Ref, nat>, bd: nat, x: Ref, lc: seq<Ref>, t: Tiler, i: nat)
    requires Fits(t) && LinkedMaps(ch, pa, de, bd) && x in ch && ch.Keys <= nodes.Keys
    requires i <= |lc| && forall c :: c in lc ==> c in ch[x]
    decreases bd - de[x], 0, i
  {
    i == 0
    || (SettledEach(nodes, ch, pa, de, bd, x, lc, t, i - 1)
        && (ChildLinked(ch, pa, de, bd, x, lc[i - 1]); Settled(nodes, ch, pa, de, bd, lc[i - 1], t)))
  }

  /** Placing containers at the rects they already hold changes nothing. */
  lemma {:induction false} PlacedSame(nodes: map<Ref, Node>, cs: seq<Ref>, rs: seq<Rect>)
    requires |cs| == |rs| && forall c :: c in cs ==> c in nodes
    requires forall i :: 0 <= i < |cs| ==> nodes[cs[i]].rect == rs[i]
    ensures Placed(nodes, cs, rs) == nodes
    decreases |cs|
  {
    if cs != [] {
      var k := |cs| - 1;
      PlacedSame(nodes, cs[..k], rs[..k]);
      assert nodes[cs[k]].(rect := rs[k]) == nodes[cs[k]];
    }
  }

  /** Reflow leaves a settled subtree as it is. */
  lemma {:induction false} SettledFixed(nodes: map<Ref, Node>, ch: map<Ref, seq<Ref>>, pa: map<Ref, Option<Ref>>,
                                        de: map<Ref, nat>, bd: nat, x: Ref, t: Tiler)
    requires Fits(t) && LinkedMaps(ch, pa, de, bd) && x in ch && ch.Keys <= nodes.Keys
    requires Settled(nodes, ch, pa, de, bd, x, t)
    ensures Reflowed(nodes, ch, pa, de, bd, x, t) == nodes
    decreases bd - de[x], 1, 0
  {
    var lc := LayoutChildren(nodes, ch[x]);
    if |ch[x]| != 0 && |lc| != 0 {
      PlacedSame(nodes, lc, Tiles(nodes, x, lc, t));
      SettledEachFixed(nodes, ch, pa, de, bd, x, lc, t, |lc|);
    }
  }

  lemma {:induction false} SettledEachFixed(nodes: map<Ref, Node>, ch: map<Ref, seq<Ref>>, pa: map<Ref, Option<Ref>>,
                                            de: map<Ref, nat>, bd: nat, x: Ref, lc: seq<Ref>, t: Tiler, i: nat)
    requires Fits(t) && LinkedMaps(ch, pa, de, bd) && x in ch && ch.Keys <= nodes.Keys
    requires i <= |lc| && forall c :: c in lc ==> c in ch[x]
    requires SettledEach(nodes, ch, pa, de, bd, x, lc, t, i)
    ensures ReflowEach(nodes, ch, pa, de, bd, x, lc, t, i) == nodes
    decreases bd - de[x], 0, i
  {
    if i > 0 {
      ChildLinked(ch, pa, de, bd, x, lc[i - 1]);
      SettledEachFixed(nodes, ch, pa, de, bd, x, lc, t, i - 1);
      SettledFixed(nodes, ch, pa, de, bd, lc[i - 1], t);
    }
  }

  /** Maps that differ in rects only have the same layout children and proportions. */
  lemma {:induction false} OnlyRectsLayout(a: map<Ref, Node>, b: map<Ref, Node>, cs: seq<Ref>)
    requires OnlyRects(a, b) && forall c :: c in cs ==> c in a
    ensures LayoutChildren(a, cs) == LayoutChildren(b, cs) && Proportions(a, cs) == Proportions(b, cs)
  {
    if cs != [] {
      OnlyRectsLayout(a, b, cs[1..]);
      assert b[cs[0]] == a[cs[0]].(rect := b[cs[0]].rect);
    }
    forall i | 0 <= i < |cs| ensures Proportions(a, cs)[i] == Proportions(b, cs)[i] {
      assert b[cs[i]] == a[cs[i]].(rect := b[cs[i]].rect);
    }
  }

  /** Two containers of the same depth above the same node are the same container. */
  lemma {:induction false} BelowSameDepth(pa: map<Ref, Option<Ref>>, de: map<Ref, nat>, y: Ref, a: Ref, b: Ref)
    requires DepthSteps(pa, de) && pa.Keys == de.Keys && y in pa && a in pa && b in pa
    requires Below(pa, de, y, a) && Below(pa, de, y, b) && de[a] == de[b]
    ensures a == b
    decreases de[y]
  {
    if y == a || y == b {
      BelowDeeper(pa, de, y, a);
      BelowDeeper(pa, de, y, b);
    } else {
      BelowSameDepth(pa, de, pa[y].value, a, b);
    }
  }

  /** Being settled depends only on the containers of the subtree. */
  lemma {:induction false} SettledLocal(m1: map<Ref, Node>, m2: map<Ref, Node>, ch: map<Ref, seq<Ref>>,
                                        pa: map<Ref, Option<Ref>>, de: map<Ref, nat>, bd: nat, x: Ref, t: Tiler)
    requires Fits(t) && LinkedMaps(ch, pa, de, bd) && x in ch && ch.Keys <= m1.Keys && OnlyRects(m1, m2)
    requires forall y :: y in pa && Below(pa, de, y, x) ==> m2[y] == m1[y]
    requires Settled(m1, ch, pa, de, bd, x, t)
    ensures Settled(m2, ch, pa, de, bd, x, t)
    decreases bd - de[x], 1, 0
  {
    var lc := LayoutChildren(m1, ch[x]);
    TilesLocal(m1, m2, ch, pa, de, bd, x, t);
    SettledEachLocal(m1, m2, ch, pa, de, bd, x, lc, t, |lc|);
    SettledIntro(m2, ch, pa, de, bd, x, t);
  }

  /** The layout children of `x` and their tiles depend only on the containers of the subtree. */
  lemma TilesLocal(m1: map<Ref, Node>, m2: map<Ref, Node>, ch: map<Ref, seq<Ref>>,
                   pa: map<Ref, Option<Ref>>, de: map<Ref, nat>, bd: nat, x: Ref, t: Tiler)
    requires Fits(t) && LinkedMaps(ch, pa, de, bd) && x in ch && ch.Keys <= m1.Keys && OnlyRects(m1, m2)
    requires forall y :: y in pa && Below(pa, de, y, x) ==> m2[y] == m1[y]
    requires var lc := LayoutChildren(m1, ch[x]);
             forall i :: 0 <= i < |lc| ==> m1[lc[i]].rect == Tiles(m1, x, lc, t)[i]
    ensures LayoutChildren(m2, ch[x]) == LayoutChildren(m1, ch[x])
    ensures var lc := LayoutChildren(m1, ch[x]);
            forall i :: 0 <= i < |lc| ==> m2[lc[i]].rect == Tiles(m2, x, lc, t)[i]
  {
    var lc := LayoutChildren(m1, ch[x]);
    OnlyRectsLayout(m1, m2, ch[x]);
    assert m2[x] == m1[x];
    forall c | c in lc ensures c in ch && Below(pa, de, c, x) {
      ChildLinked(ch, pa, de, bd, x, c);
    }
    OnlyRectsLayout(m1, m2, lc);
    var tiles := Tiles(m1, x, lc, t);
    assert Tiles(m2, x, lc, t) == tiles;
    forall i | 0 <= i < |lc| ensures m2[lc[i]].rect == tiles[i] {
      assert lc[i] in lc;
    }
  }

  /** The two halves of `Settled`, put together. */
  lemma SettledIntro(m: map<Ref, Node>, ch: map<Ref, seq<Ref>>, pa: map<Ref, Option<Ref>>,
                     de: map<Ref, nat>, bd: nat, x: Ref, t: Tiler)
    requires Fits(t) && LinkedMaps(ch, pa, de, bd) && x in ch && ch.Keys <= m.Keys
    requires var lc := LayoutChildren(m, ch[x]);
             (forall i :: 0 <= i < |lc| ==> m[lc[i]].rect == Tiles(m, x, lc, t)[i])
             && SettledEach(m, ch, pa, de, bd, x, lc, t, |lc|)
    ensures Settled(m, ch, pa, de, bd, x, t)
  {
  }

  lemma {:induction false} SettledEachLocal(m1: map<Ref, Node>, m2: map<Ref, Node>, ch: map<Ref, seq<Ref>>,
                                            pa: map<Ref, Option<Ref>>, de: map<Ref, nat>, bd: nat, x: Ref,
                                            lc: seq<Ref>, t: Tiler, i: nat)
    requires Fits(t) && LinkedMaps(ch, pa, de, bd) && x in ch && ch.Keys <= m1.Keys && OnlyRects(m1, m2)
    requires i <= |lc| && forall c :: c in lc ==> c in ch[x]
    requires forall y :: y in pa && Below(pa, de, y, x) ==> m2[y] == m1[y]
    requires SettledEach(m1, ch, pa, de, bd, x, lc, t, i)
    ensures SettledEach(m2, ch, pa, de, bd, x, lc, t, i)
    decreases bd - de[x], 0, i
  {
    if i > 0 {
      var c := lc[i - 1];
      ChildLinked(ch, pa, de, bd, x, c);
      SettledEachLocal(m1, m2, ch, pa, de, bd, x, lc, t, i - 1);
      forall y | y in pa && Below(pa, de, y, c) ensures m2[y] == m1[y] {
        assert Below(pa, de, c, x);
        BelowTrans(pa, de, y, c, x);
      }
      SettledLocal(m1, m2, ch, pa, de, bd, c, t);
    }
  }

  /** Reflow leaves `x`'s subtree settled. */
  lemma {:induction false} ReflowedSettles(nodes: map<Ref, Node>, ch: map<Ref, seq<Ref>>, pa: map<Ref, Option<Ref>>,
                                           de: map<Ref, nat>, bd: nat, x: Ref, t: Tiler, r: map<Ref, Node>)
    requires Fits(t) && LinkedMaps(ch, pa, de, bd) && x in ch && ch.Keys <= nodes.Keys
    requires r == Reflowed(nodes, ch, pa, de, bd, x, t)
    ensures Settled(r, ch, pa, de, bd, x, t)
    decreases bd - de[x], 1, 0
  {
    var lc := LayoutChildren(nodes, ch[x]);
    ReflowedFrame(nodes, ch, pa, de, bd, x, t, r);
    OnlyRectsLayout(nodes, r, ch[x]);
    if |ch[x]| != 0 && |lc| != 0 {
      var placed := Placed(nodes, lc, Tiles(nodes, x, lc, t));
      forall c | c in lc ensures c in ch {
        ChildLinked(ch, pa, de, bd, x, c);
      }
      OnlyRectsLayout(nodes, r, lc);
      assert Tiles(r, x, lc, t) == Tiles(nodes, x, lc, t);
      ReflowedPlaces(nodes, ch, pa, de, bd, x, t, r);
      assert NoDup(ch[x]);
      LayoutChildrenNoDup(nodes, ch[x]);
      ReflowEachSettles(placed, ch, pa, de, bd, x, lc, t, |lc|, r);
    }
  }

  /** After reflowing the first `i` layout children of `x`, each of them is settled. */
  lemma {:induction false} ReflowEachSettles(nodes: map<Ref, Node>, ch: map<Ref, seq<Ref>>, pa: map<Ref, Option<Ref>>,
                                             de: map<Ref, nat>, bd: nat, x: Ref, lc: seq<Ref>, t: Tiler, i: nat,
                                             r: map<Ref, Node>)
    requires Fits(t) && LinkedMaps(ch, pa, de, bd) && x in ch && ch.Keys <= nodes.Keys
    requires i <= |lc| && NoDup(lc) && forall c :: c in lc ==> c in ch[x]
    requires r == ReflowEach(nodes, ch, pa, de, bd, x, lc, t, i)
    ensures SettledEach(r, ch, pa, de, bd, x, lc, t, i)
    decreases bd - de[x], 0, i, 1
  {
    if i > 0 {
      var c := lc[i - 1];
      var prev := ReflowEach(nodes, ch, pa, de, bd, x, lc, t, i - 1);
      ReflowEachSettles(nodes, ch, pa, de, bd, x, lc, t, i - 1, prev);
      forall j | 0 <= j < i - 1 ensures lc[j] != c {
        assert NoDup(lc);
      }
      ChildLinked(ch, pa, de, bd, x, c);
      SettledStep(prev, ch, pa, de, bd, x, lc, t, i, r);
    }
  }

  /** Reflowing the `i`-th layout child settles it and keeps the ones before it settled. */
  lemma SettledStep(prev: map<Ref, Node>, ch: map<Ref, seq<Ref>>, pa: map<Ref, Option<Ref>>,
                    de: map<Ref, nat>, bd: nat, x: Ref, lc: seq<Ref>, t: Tiler, i: nat, r: map<Ref, Node>)
    requires Fits(t) && LinkedMaps(ch, pa, de, bd) && x in ch && ch.Keys <= prev.Keys
    requires 0 < i <= |lc| && (forall c :: c in lc ==> c in ch[x]) && lc[i - 1] in ch
    requires forall j :: 0 <= j < i - 1 ==> lc[j] != lc[i - 1]
    requires SettledEach(prev, ch, pa, de, bd, x, lc, t, i - 1)
    requires r == Reflowed(prev, ch, pa, de, bd, lc[i - 1], t)
    ensures SettledEach(r, ch, pa, de, bd, x, lc, t, i)
    decreases bd - de[x], 0, i, 0
  {
    var c := lc[i - 1];
    ChildLinked(ch, pa, de, bd, x, c);
    ReflowedSettles(prev, ch, pa, de, bd, c, t, r);
    ReflowedFrame(prev, ch, pa, de, bd, c, t, r);
    SettledEachKept(prev, r, ch, pa, de, bd, x, lc, t, i - 1, c);
    SettledEachNext(r, ch, pa, de, bd, x, lc, t, i);
  }

  /** One more settled layout child extends the settled prefix. */
  lemma SettledEachNext(m: map<Ref, Node>, ch: map<Ref, seq<Ref>>, pa: map<Ref, Option<Ref>>,
                        de: map<Ref, nat>, bd: nat, x: Ref, lc: seq<Ref>, t: Tiler, i: nat)
    requires Fits(t) && LinkedMaps(ch, pa, de, bd) && x in ch && ch.Keys <= m.Keys
    requires 0 < i <= |lc| && (forall c :: c in lc ==> c in ch[x]) && lc[i - 1] in ch
    requires SettledEach(m, ch, pa, de, bd, x, lc, t, i - 1)
    requires Settled(m, ch, pa, de, bd, lc[i - 1], t)
    ensures SettledEach(m, ch, pa, de, bd, x, lc, t, i)
  {
  }

  /** Changes strictly below the child `c` of `x` keep the first `k` children settled when
      `c` is not among them. */
  lemma {:induction false} SettledEachKept(m1: map<Ref, Node>, m2: map<Ref, Node>, ch: map<Ref, seq<Ref>>,
                                           pa: map<Ref, Option<Ref>>, de: map<Ref, nat>, bd: nat, x: Ref,
                                           lc: seq<Ref>, t: Tiler, k: nat, c: Ref)
    requires Fits(t) && LinkedMaps(ch, pa, de, bd) && x in ch && ch.Keys <= m1.Keys && OnlyRects(m1, m2)
    requires k <= |lc| && (forall d :: d in lc ==> d in ch[x]) && c in ch[x]
    requires forall j :: 0 <= j < k ==> lc[j] != c
    requires forall y :: y in m1 && NotInside(pa, de, y, c) ==> m2[y] == m1[y]
    requires SettledEach(m1, ch, pa, de, bd, x, lc, t, k)
    ensures SettledEach(m2, ch, pa, de, bd, x, lc, t, k)
    decreases k
  {
    if k > 0 {
      var d := lc[k - 1];
      SettledEachKept(m1, m2, ch, pa, de, bd, x, lc, t, k - 1, c);
      ChildLinked(ch, pa, de, bd, x, c);
      ChildLinked(ch, pa, de, bd, x, d);
      forall y | y in pa && Below(pa, de, y, d) ensures m2[y] == m1[y] {
        if y != c && Below(pa, de, y, c) {
          BelowSameDepth(pa, de, y, d, c);
        }
      }
      SettledLocal(m1, m2, ch, pa, de, bd, d, t);
    }
  }

  /** reflow is idempotent: reflowing again with nothing changed in between changes nothing. */
  lemma ReflowIdempotent(nodes: map<Ref, Node>, ch: map<Ref, seq<Ref>>, pa: map<Ref, Option<Ref>>,
                         de: map<Ref, nat>, bd: nat, x: Ref, t: Tiler)
    requires Fits(t) && LinkedMaps(ch, pa, de, bd) && x in ch && ch.Keys <= nodes.Keys
    ensures var r := Reflowed(nodes, ch, pa, de, bd, x, t);
            Reflowed(r, ch, pa, de, bd, x, t) == r
  {
    var r := Reflowed(nodes, ch, pa, de, bd, x, t);
    ReflowedSettles(nodes, ch, pa, de, bd, x, t, r);
    SettledFixed(r, ch, pa, de, bd, x, t);
  }

  /** reflow (src/tree/reflow.ts:10-35) over the node map: returns early when `x` has no
      children or only floating ones; otherwise sets the layout children's rects with the
      strategy for `x`'s layout (the gaps passed down as a parameter), then reflows each
      layout child. */
  method ReflowAt(nodes: map<Ref, Node>, ch: map<Ref, seq<Ref>>, ghost pa: map<Ref, Option<Ref>>,
                  ghost de: map<Ref, nat>, ghost bd: nat, x: Ref, gaps: Option<Gaps>)
    returns (out: map<Ref, Node>)
    requires LinkedMaps(ch, pa, de, bd) && x in ch && ch.Keys <= nodes.Keys
    ensures out == Reflowed(nodes, ch, pa, de, bd, x, SplitTiler(gaps))
    decreases bd - de[x], 1
  {
    var children := ch[x];
    if |children| == 0 {
      return nodes;
    }
    var lc := LayoutChildren(nodes, children);
    if |lc| == 0 {
      return nodes;
    }
    var strategy := GetLayoutStrategy(nodes[x].layout);
    out := ComputeSplitRects(nodes, children, nodes[x].rect, strategy.Horizontal(), gaps);
    out := ReflowChildren(out, ch, pa, de, bd, x, lc, gaps);
  }

  /** The `forEach` of reflow: each layout child of `x` in turn. */
  method ReflowChildren(nodes: map<Ref, Node>, ch: map<Ref, seq<Ref>>, ghost pa: map<Ref, Option<Ref>>,
                        ghost de: map<Ref, nat>, ghost bd: nat, x: Ref, lc: seq<Ref>, gaps: Option<Gaps>)
    returns (out: map<Ref, Node>)
    requires LinkedMaps(ch, pa, de, bd) && x in ch && ch.Keys <= nodes.Keys
    requires forall c :: c in lc ==> c in ch[x]
    ensures out == ReflowEach(nodes, ch, pa, de, bd, x, lc, SplitTiler(gaps), |lc|)
    decreases bd - de[x], 0
  {
    out := nodes;
    var i := 0;
    while i < |lc|
      invariant 0 <= i <= |lc|
      invariant out == ReflowEach(nodes, ch, pa, de, bd, x, lc, SplitTiler(gaps), i)
    {
      ReflowEachNext(nodes, ch, pa, de, bd, x, lc, SplitTiler(gaps), i);
      out := ReflowAt(out, ch, pa, de, bd, lc[i], gaps);
      i := i + 1;
    }
  }

  /** One more step of `ReflowEach`: reflowing the next layout child. */
  lemma ReflowEachNext(nodes: map<Ref, Node>, ch: map<Ref, seq<Ref>>, pa: map<Ref, Option<Ref>>,
                       de: map<Ref, nat>, bd: nat, x: Ref, lc: seq<Ref>, t: Tiler, i: nat)
    requires Fits(t) && LinkedMaps(ch, pa, de, bd) && x in ch && ch.Keys <= nodes.Keys
    requires i < |lc| && forall c :: c in lc ==> c in ch[x]
    ensures lc[i] in ch && de[lc[i]] == de[x] + 1
    ensures ReflowEach(nodes, ch, pa, de, bd, x, lc, t, i + 1)
            == Reflowed(ReflowEach(nodes, ch, pa, de, bd, x, lc, t, i), ch, pa, de, bd, lc[i], t)
  {
    ChildLinked(ch, pa, de, bd, x, lc[i]);
  }
}
