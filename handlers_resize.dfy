/** The resize handler of src/commands/handlers/core.ts (lines 403-493): the focused
    container's proportion is set so that it takes the requested size along its parent's
    main axis, within the minimum sizes of it and its siblings. */
module ResizeHandler {
  import opened Wrappers
  import opened Seqs
  import opened Text
  import opened Containers
  import opened Commands
  import opened Arena
  import opened Tree
  import opened Strategy
  import opened Reflow
  import opened ApplyLayout
  import opened HandlerContext

  datatype Axis = Width | Height

  /** The second word names an axis. */
  predicate HasAxis(cmd: Command) {
    Arg(cmd, 1) == Some("width") || Arg(cmd, 1) == Some("height")
  }

  /** The axis word, or by default the parent's main axis: height under a vertical split,
      width otherwise (core.ts:416-422). */
  function AxisOf(cmd: Command, layout: Layout): (a: Axis)
    ensures HasAxis(cmd) ==> (a == Width <==> Arg(cmd, 1) == Some("width"))
    ensures !HasAxis(cmd) ==> (a == Height <==> layout == SplitV)
  {
    if Arg(cmd, 1) == Some("width") then Width
    else if Arg(cmd, 1) == Some("height") then Height
    else if layout == SplitV then Height
    else Width
  }

  /** `Number.parseFloat(amountRaw ?? "0")` (core.ts:423, 426): the word after the axis,
      or after the mode when there is no axis word. */
  function AmountOf(cmd: Command): Option<real> {
    var raw := if HasAxis(cmd) then Arg(cmd, 2) else Arg(cmd, 1);
    ParseFloat(if raw.Some? then raw.value else "0")
  }

  /** `unit === "ppt"` (core.ts:424-425, 446): the unit word is `ppt`; a missing or any
      other unit means pixels. */
  predicate InPpt(cmd: Command) {
    (if HasAxis(cmd) then Arg(cmd, 3) else Arg(cmd, 2)) == Some("ppt")
  }

  /** An axis across the parent's split (core.ts:431-434). */
  predicate Mismatched(layout: Layout, axis: Axis) {
    (layout == SplitH && axis == Height) || (layout == SplitV && axis == Width)
  }

  /** Without an axis word the axis always follows the layout. */
  lemma DefaultAxisMatches(cmd: Command, layout: Layout)
    requires !HasAxis(cmd)
    ensures !Mismatched(layout, AxisOf(cmd, layout))
  {
  }

  function MainOf(r: Rect, axis: Axis): int {
    if axis == Width then r.width else r.height
  }

  function MaxR(a: real, b: real): real { if a < b then b else a }
  function MinR(a: real, b: real): real { if a < b then a else b }

  /** `siblings.reduce((sum, child) => sum + child.proportion, 0) || 1` (core.ts:444): a
      zero total counts as 1. */
  function TotalOf(ps: seq<real>): (t: real)
    ensures t != 0.0
  {
    if SumReal(ps) == 0.0 then 1.0 else SumReal(ps)
  }

  /** getMinSize (core.ts:454-473): the minimum tile size for the axis, at least 1, raised
      to the window's own minimum when it is a window that reports one. */
  function MinSizeOf(n: Node, axis: Axis, minTile: int, minSizes: map<Handle, (int, int)>): (m: int)
    ensures m >= 1 && m >= minTile
    ensures n.IsWindow() && n.extra.handle in minSizes ==>
              m >= (if axis == Width then minSizes[n.extra.handle].0 else minSizes[n.extra.handle].1)
    ensures !(n.IsWindow() && n.extra.handle in minSizes) ==> m == (if minTile < 1 then 1 else minTile)
  {
    var base := if minTile < 1 then 1 else minTile;
    if !n.IsWindow() || n.extra.handle !in minSizes then base
    else
      var windowMin := if axis == Width then minSizes[n.extra.handle].0 else minSizes[n.extra.handle].1;
      if base < windowMin then windowMin else base
  }

  /** The minimum sizes of the siblings other than `f`, added up (core.ts:476-478). */
  function SiblingMinTotal(nodes: map<Ref, Node>, cs: seq<Ref>, f: Ref, axis: Axis, minTile: int,
                           minSizes: map<Handle, (int, int)>): (t: int)
    requires forall c :: c in cs ==> c in nodes
    ensures t >= 0
    ensures t >= |cs| - (if f in cs then |cs| else 0)
    ensures cs != [] && cs[0] != f ==> t >= 1
  {
    if cs == [] then 0
    else
      (if cs[0] == f then 0 else MinSizeOf(nodes[cs[0]], axis, minTile, minSizes))
      + SiblingMinTotal(nodes, cs[1..], f, axis, minTile, minSizes)
  }

  /** The numbers the new proportion is made from: the clamped target size, its share of
      the parent, and the siblings' proportion total (at least 0.1). */
  datatype Sizing = Sizing(next: real, minSize: int, maxSize: int, clamped: real, share: real, siblings: real)

  /** core.ts:445-452 and 479-483: the target size along the main axis (`set` the
      amount, `shrink` by it, anything else grows by it; `ppt` amounts are hundredths of
      the parent), clamped between the container's minimum and what its siblings'
      minimums leave. */
  function Sized(p: real, total: real, main: int, amount: real, ppt: bool, mode: Option<string>,
                 minSize: int, siblingMin: int): (z: Sizing)
    requires total != 0.0 && main > 0
  {
    var current := p / total * main as real;
    var delta := if ppt then amount / 100.0 * main as real else amount;
    var next := if mode == Some("set") then delta else if mode == Some("shrink") then current - delta else current + delta;
    var maxSize := if minSize < main - siblingMin then main - siblingMin else minSize;
    var clamped := MinR(MaxR(next, minSize as real), maxSize as real);
    Sizing(next, minSize, maxSize, clamped, clamped / main as real, MaxR(total - p, 0.1))
  }

  /** The clamp keeps the target between the container's minimum and the room its
      siblings leave (but never below the minimum), and leaves a target already in that
      range alone; the share is positive. With at least one sibling needing room and a
      minimum below the parent's size, the share stays below 1. */
  lemma SizedBounds(p: real, total: real, main: int, amount: real, ppt: bool, mode: Option<string>,
                    minSize: int, siblingMin: int)
    requires total != 0.0 && main > 0 && minSize >= 1
    ensures var z := Sized(p, total, main, amount, ppt, mode, minSize, siblingMin);
            && z.maxSize == (if minSize < main - siblingMin then main - siblingMin else minSize)
            && minSize as real <= z.clamped <= z.maxSize as real
            && (minSize as real <= z.next <= z.maxSize as real ==> z.clamped == z.next)
            && z.share > 0.0 && z.siblings >= 0.1
            && (siblingMin >= 1 && minSize < main ==> z.share < 1.0)
  {
    var z := Sized(p, total, main, amount, ppt, mode, minSize, siblingMin);
    assert z.clamped > 0.0;
    if siblingMin >= 1 && minSize < main {
      assert z.clamped < main as real;
      BelowWhole(z.clamped, main as real);
    }
  }

  lemma BelowWhole(a: real, m: real)
    requires 0.0 < m && a < m
    ensures a / m < 1.0
  {
    assert (a / m) * m == a;
  }

  /** `(nextShare * siblingsProportion) / (1 - nextShare)` then `Math.max(0.1, ...)`, as
      written (core.ts:484-486): at a share of exactly 1 the division is by zero and
      JavaScript stores Infinity, which this result gives as None. */
  function NewProportionAsWritten(z: Sizing): (q: Option<real>)
    ensures q.None? <==> z.share == 1.0
  {
    if 1.0 - z.share == 0.0 then None
    else Some(MaxR(0.1, z.share * z.siblings / (1.0 - z.share)))
  }

  /** The new proportion: the one that gives the container `share` of the parent next to
      siblings of total `siblings`, at least 0.1. A share above 1 makes the quotient
      negative, so the floor 0.1 is stored, as in the source; a share of exactly 1, which
      no finite proportion gives, keeps the current proportion `p`. */
  function NewProportion(z: Sizing, p: real): (q: real)
    ensures z.share != 1.0 ==> q >= 0.1
    ensures z.share > 1.0 && z.siblings >= 0.0 ==> q == 0.1
    ensures z.share == 1.0 ==> q == p
  {
    if z.share == 1.0 then p
    else
      var q := z.share * z.siblings / (1.0 - z.share);
      assert z.share > 1.0 && z.siblings >= 0.0 ==> q <= 0.0 by {
        if z.share > 1.0 && z.siblings >= 0.0 {
          var k := 1.0 - z.share;
          assert q * k == z.share * z.siblings;
          assert z.share * z.siblings >= 0.0;
        }
      }
      MaxR(0.1, q)
  }

  /** Below a share of 1 the proportion does what the source means: unless the 0.1 floor
      applies, the container's part of the new total is exactly the requested share. */
  lemma NewProportionMeetsShare(z: Sizing, p: real)
    requires 0.0 < z.share < 1.0 && z.siblings > 0.0
    requires z.share * z.siblings / (1.0 - z.share) >= 0.1
    ensures var q := NewProportion(z, p); q / (q + z.siblings) == z.share
  {
    var q := NewProportion(z, p);
    var k := 1.0 - z.share;
    assert q == z.share * z.siblings / k;
    assert q * k == z.share * z.siblings;
    assert (q + z.siblings) * k == z.siblings;
    assert q == z.share * (q + z.siblings);
  }

  /** The corrected proportion agrees with the source wherever the source's division is
      by a non-zero number, that is for every share other than 1, above 1 included. */
  lemma NewProportionAgrees(z: Sizing, p: real)
    ensures NewProportionAsWritten(z).Some? <==> z.share != 1.0
    ensures z.share != 1.0 ==> NewProportionAsWritten(z) == Some(NewProportion(z, p))
  {
  }

  /** A resize whose target exceeds the parent: two containers of proportion 1 in a parent
      300 pixels wide with a minimum tile width of 400, `resize grow width 10 px` on the
      first. The clamp raises the target to the 400-pixel minimum, a share of 4/3, and both
      the source and this model store the floor proportion 0.1. */
  lemma ResizeBeyondParent()
    ensures var z := Sized(1.0, 2.0, 300, 10.0, false, Some("grow"), 400, 400);
            z.share > 1.0 && NewProportionAsWritten(z) == Some(0.1) && NewProportion(z, 1.0) == 0.1
  {
    var z := Sized(1.0, 2.0, 300, 10.0, false, Some("grow"), 400, 400);
    assert z.next == 160.0;
    assert z.maxSize == 400;
    assert z.clamped == 400.0;
    assert z.share == 400.0 / 300.0;
    assert z.siblings == 1.0;
  }

  /** A resize the source turns into an Infinity proportion: two containers in a parent
      300 pixels wide with a minimum tile width of 300, `resize grow width 10 px` on the
      first. Its minimum (300) exceeds the 0 pixels its sibling's minimum leaves, so the
      target is the whole parent and the share is 1. */
  lemma ResizeToFullShare()
    ensures var z := Sized(1.0, 2.0, 300, 10.0, false, Some("grow"), 300, 300);
            z.share == 1.0 && NewProportionAsWritten(z).None? && NewProportion(z, 1.0) == 1.0
  {
    var z := Sized(1.0, 2.0, 300, 10.0, false, Some("grow"), 300, 300);
    assert z.next == 160.0;
    assert z.maxSize == 300;
    assert z.clamped == 300.0;
  }

  /** The handler's verdict once the focused container and its parent exist. */
  datatype Decision = Refuse(message: string) | Resize(proportion: real)

  /** core.ts:414-486 for focused container `f` with siblings `cs` under a parent of
      layout `layout` and rect `rect`: an unreadable amount, an axis across the split and a
      parent without size refuse, in that order; otherwise the new proportion. */
  function Decide(cmd: Command, nodes: map<Ref, Node>, cs: seq<Ref>, f: Ref, layout: Layout, rect: Rect,
                  minTileWidth: int, minTileHeight: int, minSizes: map<Handle, (int, int)>): (d: Decision)
    requires f in nodes && forall c :: c in cs ==> c in nodes
    ensures var axis := AxisOf(cmd, layout);
            && (AmountOf(cmd).None? ==> d == Refuse("Invalid resize amount"))
            && (AmountOf(cmd).Some? && Mismatched(layout, axis) ==> d == Refuse("Resize axis does not match layout"))
            && (AmountOf(cmd).Some? && !Mismatched(layout, axis) && MainOf(rect, axis) <= 0 ==>
                  d == Refuse("Invalid parent size"))
            && (AmountOf(cmd).Some? && !Mismatched(layout, axis) && MainOf(rect, axis) > 0 ==>
                  d.Resize? && (d.proportion >= 0.1 || d.proportion == nodes[f].proportion))
  {
    var axis := AxisOf(cmd, layout);
    var amount := AmountOf(cmd);
    if amount.None? then Refuse("Invalid resize amount")
    else if Mismatched(layout, axis) then Refuse("Resize axis does not match layout")
    else
      var main := MainOf(rect, axis);
      if main <= 0 then Refuse("Invalid parent size")
      else
        var minTile := if axis == Width then minTileWidth else minTileHeight;
        var p := nodes[f].proportion;
        var z := Sized(p, TotalOf(Proportions(nodes, cs)), main, amount.value, InPpt(cmd), Arg(cmd, 0),
                       MinSizeOf(nodes[f], axis, minTile, minSizes),
                       SiblingMinTotal(nodes, cs, f, axis, minTile, minSizes));
        Resize(NewProportion(z, p))
  }

  /** The outcome of the resize handler on `s`: without a focused container, without a
      parent, or refused by `Decide`, a failure that changes nothing; otherwise the focused
      container takes the new proportion and its parent is reflowed and laid out. */
  ghost predicate ResizeOutcome(s: Snapshot, cmd: Command, minTileWidth: int, minTileHeight: int,
                                minSizes: map<Handle, (int, int)>, gaps: Option<Gaps>, r: Outcome,
                                after: map<Ref, Node>, log0: seq<Call>, log1: seq<Call>)
    requires Sound(s)
  {
    if s.focused.None? then
      r == Fail("No focused container to resize") && after == s.nodes && log1 == log0
    else if s.pa[s.focused.value].None? then
      r == Fail("No parent container to resize") && after == s.nodes && log1 == log0
    else
      ResizeUnderOutcome(s, cmd, minTileWidth, minTileHeight, minSizes, gaps, r, after, log0, log1)
  }

  /** The outcome once the focused container has a parent: refused by `Decide`, a failure
      that changes nothing; otherwise the new proportion, then reflow and layout of the
      parent. */
  ghost predicate ResizeUnderOutcome(s: Snapshot, cmd: Command, minTileWidth: int, minTileHeight: int,
                                     minSizes: map<Handle, (int, int)>, gaps: Option<Gaps>, r: Outcome,
                                     after: map<Ref, Node>, log0: seq<Call>, log1: seq<Call>)
    requires Sound(s) && s.focused.Some? && s.pa[s.focused.value].Some?
  {
    var f := s.focused.value;
    var p := s.pa[f].value;
    assert forall c :: c in s.ch[p] ==> c in s.nodes by {
      forall c | c in s.ch[p] ensures c in s.nodes {
        var i :| 0 <= i < |s.ch[p]| && s.ch[p][i] == c;
      }
    }
    match Decide(cmd, s.nodes, s.ch[p], f, s.nodes[p].layout, s.nodes[p].rect, minTileWidth, minTileHeight, minSizes)
    case Refuse(m) => r == Fail(m) && after == s.nodes && log1 == log0
    case Resize(q) => r == Ok() && Reproportioned(s, f, p, q, gaps, after, log0, log1)
  }

  /** The effect of `focused.proportion = q` followed by reflow and applyLayout from the
      parent `p`: the rects below `p` are recomputed from the changed proportions, and one
      moveResize per tiled window below `p` follows `log0`. */
  ghost predicate Reproportioned(s: Snapshot, f: Ref, p: Ref, q: real, gaps: Option<Gaps>,
                                 after: map<Ref, Node>, log0: seq<Call>, log1: seq<Call>)
    requires Sound(s) && f in s.nodes && p in s.nodes
  {
    var changed := s.nodes[f := s.nodes[f].(proportion := q)];
    && after == Reflowed(changed, s.ch, s.pa, s.de, s.bd, p, SplitTiler(gaps))
    && log1 == log0 + Emitted(after, Arena.Walk(s.ch, s.pa, s.de, s.bd, p))
  }

  /** The resize handler (core.ts:403-493). */
  method ResizeHandler(cmd: Command, ctx: Context) returns (r: Outcome)
    requires ctx.Ready()
    modifies ctx.tree`nodes, ctx`log
    ensures ctx.Ready() && Sound(old(ctx.View()))
    ensures ResizeOutcome(old(ctx.View()), cmd, ctx.config.minTileWidth, ctx.config.minTileHeight, ctx.minSizes,
                          ctx.config.gaps, r, ctx.tree.nodes, old(ctx.log), ctx.log)
  {
    ctx.ReadySound();
    if ctx.focused.None? {
      return Fail("No focused container to resize");
    }
    if ctx.tree.parent[ctx.focused.value].None? {
      return Fail("No parent container to resize");
    }
    r := ResizeUnder(cmd, ctx);
  }

  /** core.ts:414-489, once the focused container has a parent. */
  method ResizeUnder(cmd: Command, ctx: Context) returns (r: Outcome)
    requires ctx.Ready() && ctx.focused.Some? && ctx.tree.parent[ctx.focused.value].Some?
    modifies ctx.tree`nodes, ctx`log
    ensures ctx.Ready() && Sound(old(ctx.View()))
    ensures ResizeUnderOutcome(old(ctx.View()), cmd, ctx.config.minTileWidth, ctx.config.minTileHeight, ctx.minSizes,
                               ctx.config.gaps, r, ctx.tree.nodes, old(ctx.log), ctx.log)
  {
    ctx.ReadySound();
    var t := ctx.tree;
    ghost var s := ctx.View();
    assert s.nodes == t.nodes && s.ch == t.children && s.pa == t.parent && s.focused == ctx.focused;
    var f := ctx.focused.value;
    var p := t.parent[f].value;
    forall c | c in t.children[p] ensures c in t.nodes {
      var i :| 0 <= i < |t.children[p]| && t.children[p][i] == c;
    }
    var d := Decide(cmd, t.nodes, t.children[p], f, t.nodes[p].layout, t.nodes[p].rect,
                    ctx.config.minTileWidth, ctx.config.minTileHeight, ctx.minSizes);
    if d.Refuse? {
      return Fail(d.message);
    }
    SetProportion(ctx, f, p, d.proportion);
    return Ok();
  }

  /** `focused.proportion = ...`, then reflow and applyLayout from the parent
      (core.ts:486-489). */
  method SetProportion(ctx: Context, f: Ref, p: Ref, q: real)
    requires ctx.Ready() && f in ctx.tree.nodes && p in ctx.tree.nodes
    modifies ctx.tree`nodes, ctx`log
    ensures ctx.Ready() && Sound(old(ctx.View()))
    ensures Reproportioned(old(ctx.View()), f, p, q, ctx.config.gaps, ctx.tree.nodes, old(ctx.log), ctx.log)
  {
    ctx.ReadySound();
    ctx.tree.SetNode(f, ctx.tree.nodes[f].(proportion := q));
    Relayout(ctx, p);
  }
}
