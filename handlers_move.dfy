/** The move handler (src/commands/handlers/core.ts:281-401): `move container to workspace
    <n>` carries the focused window into workspace n's first split, and `move <direction>`
    swaps it with its neighbour that way. */
module MoveHandlers {
  import opened Wrappers
  import opened Seqs
  import opened Text
  import opened Containers
  import opened Commands
  import opened Arena
  import opened Tree
  import opened Config
  import opened Strategy
  import opened Reflow
  import opened ApplyLayout
  import opened Focus
  import opened Navigation
  import opened HandlerContext
  import opened CoreHandlers
  import opened WindowWorkspace
  import opened WindowFocus
  import opened Splice

  /** The handler left the tree and the log as they were. */
  ghost predicate Unchanged(s0: Snapshot, s1: Snapshot, log0: seq<Call>, log1: seq<Call>) {
    s1.nodes == s0.nodes && s1.ch == s0.ch && s1.pa == s0.pa && log1 == log0
  }

  // ---- move container to workspace <n>

  /** The first three arguments are `container to workspace`. */
  predicate IsWorkspaceMove(cmd: Command) {
    Arg(cmd, 0) == Some("container") && Arg(cmd, 1) == Some("to") && Arg(cmd, 2) == Some("workspace")
  }

  /** A workspace number read from the command, or the message refusing it. */
  datatype Target = Number(index: int) | Refused(message: string)

  /** The fourth argument read with `Number.parseInt(target, 10)` (core.ts:291-298). */
  function WorkspaceTarget(cmd: Command): (t: Target)
    ensures !Given(Arg(cmd, 3)) ==> t == Refused("Workspace target required")
    ensures Given(Arg(cmd, 3)) ==>
              var n := ParseInt(Arg(cmd, 3).value);
              && (t.Number? <==> n.Some? && n.value > 0)
              && (t.Number? ==> t.index == n.value)
              && (t.Refused? ==> t.message == "Workspace target must be a positive number")
  {
    var target := Arg(cmd, 3);
    if !Given(target) then Refused("Workspace target required")
    else
      var index := ParseInt(target.value);
      if index.None? || index.value <= 0 then Refused("Workspace target must be a positive number")
      else Number(index.value)
  }

  /** `move container to workspace n` with `n` written in decimal names workspace `n`. */
  lemma WorkspaceTargetWritten(raw: string, n: int)
    requires n > 0
    ensures WorkspaceTarget(Command(raw, "move", ["container", "to", "workspace", IntToString(n)], [])) == Number(n)
  {
    ParseIntOfString(n);
  }

  predicate IsSplitNode(n: Node) {
    n.Kind() == Split
  }

  /** Containers keep their kinds and ids from `a` to `b`. */
  ghost predicate Retained(a: map<Ref, Node>, b: map<Ref, Node>) {
    a.Keys == b.Keys && forall y :: y in a ==> b[y].Kind() == a[y].Kind() && b[y].id == a[y].id
  }

  /** The first split of a list does not depend on anything but the kinds. */
  lemma {:induction false} FirstSplitKept(a: map<Ref, Node>, b: map<Ref, Node>, s: seq<Ref>)
    requires Retained(a, b)
    ensures FirstOf(a, s, IsSplitNode) == FirstOf(b, s, IsSplitNode)
  {
    if s != [] {
      FirstSplitKept(a, b, s[1..]);
    }
  }

  /** The facts about `s0` that the move reads: `w` is a window with a parent link (or
      none) into the tree and `ws` is a workspace. */
  ghost predicate MoveSource(s0: Snapshot, w: Ref, ws: Ref) {
    && w in s0.nodes && s0.nodes[w].IsWindow() && IsWorkspaceIn(s0.nodes, ws)
    && w in s0.pa && (s0.pa[w].Some? ==> s0.pa[w].value in s0.ch) && ws in s0.ch
  }

  /** Where the window `w` of `n0` ends up in `s1` when it joins the workspace `ws`, whose
      children were `rest`: the last child of a split whose parent is `ws` — the first
      split in `rest`, or else a fresh alternating split numbered
      `ws.id * 100 + |rest| + 1` with the workspace's rect; `w` is the one focused
      container under the root, `ws` records its window id, and a floating `w` is the last
      entry of `ws`'s floating list. */
  ghost predicate Entered(n0: map<Ref, Node>, rest: seq<Ref>, s1: Snapshot, w: Ref, ws: Ref)
    requires w in n0 && ws in n0 && n0[w].IsWindow()
    requires DepthSteps(s1.pa, s1.de) && s1.pa.Keys == s1.de.Keys
  {
    var first := FirstOf(n0, rest, IsSplitNode);
    && w in s1.pa && s1.pa[w].Some? && ws in s1.nodes
    && var sp := s1.pa[w].value;
    && sp in s1.nodes && sp in s1.pa && sp in s1.ch && s1.pa[sp] == Some(ws) && s1.nodes[sp].Kind() == Split
    && |s1.ch[sp]| > 0 && s1.ch[sp][|s1.ch[sp]| - 1] == w
    && (first.Some? ==> sp == first.value)
    && (first.None? ==>
          && sp !in n0 && s1.nodes[sp].layout == Alternating
          && s1.nodes[sp].id == n0[ws].id * 100 + |rest| + 1
          && s1.nodes[sp].rect == s1.nodes[ws].rect)
    && w in s1.nodes && s1.nodes[w].focused
    && (forall y :: y in Subtree(s1.pa, s1.de, s1.root) && y in s1.nodes && y != w ==> !s1.nodes[y].focused)
    && s1.nodes[ws].extra.WorkspaceData?
    && s1.nodes[ws].extra.lastFocusedWindowId == Some(n0[w].extra.windowId)
    && (n0[w].extra.floating ==>
          var fl := s1.nodes[ws].extra.floatingWindows; |fl| > 0 && fl[|fl| - 1] == ContainerEntry(w))
  }

  /** The move of `w` from `s0` into workspace `ws` in `s1`: it enters `ws` as it is once
      detached from its old parent. */
  ghost predicate MovedInto(s0: Snapshot, s1: Snapshot, w: Ref, ws: Ref)
    requires MoveSource(s0, w, ws) && DepthSteps(s1.pa, s1.de) && s1.pa.Keys == s1.de.Keys
  {
    Entered(s0.nodes, Tree.Detached(s0.ch, s0.pa, w)[ws], s1, w, ws)
  }

  /** The two adapter calls that end every accepted workspace move. */
  function Announced(h: Handle, index: int): (cs: seq<Call>)
    ensures |cs| == 2 && cs[0].MoveToWorkspace? && cs[0].index == index - 1 && cs[1] == Activate(h)
  {
    [MoveToWorkspace(h, index - 1, true), Activate(h)]
  }

  /** The outcome of `move container to workspace <n>` with a focused container: a bad or
      missing number, a missing adapter member or no window at or below the focused
      container fail in that order and change nothing; otherwise the window moves into the
      first workspace numbered `n` (outputs in order, then their workspaces), if any, and
      the adapter is told to move it to index `n - 1` and activate it. */
  ghost predicate WorkspaceMoveOutcome(s0: Snapshot, cmd: Command, r: Outcome, s1: Snapshot, gaps: Option<Gaps>,
                                       log0: seq<Call>, log1: seq<Call>)
    requires Sound(s0) && Sound(s1)
  {
    var target := WorkspaceTarget(cmd);
    if target.Refused? then r == Fail(target.message) && Unchanged(s0, s1, log0, log1)
    else if !s0.caps.moveToWorkspace then r == Fail("Move to workspace is unavailable") && Unchanged(s0, s1, log0, log1)
    else if Current(s0).None? then r == Fail("No focused window") && Unchanged(s0, s1, log0, log1)
    else
      var w := Current(s0).value;
      var ws := FirstOf(s0.nodes, WorkspacesUnder(s0.nodes, s0.ch, s0.ch[s0.root], true), NumberIs(target.index));
      r == Ok() && MovedAndAnnounced(s0, s1, log0, log1, w, ws, target.index, gaps)
  }

  /** Without a workspace numbered `index` nothing moves; with one, `w` moves into it,
      exactly as `Relocated` says. Either way the log ends with the announcement of the
      move. */
  ghost predicate MovedAndAnnounced(s0: Snapshot, s1: Snapshot, log0: seq<Call>, log1: seq<Call>, w: Ref,
                                    ws: Option<Ref>, index: int, gaps: Option<Gaps>)
    requires Sound(s0) && Sound(s1) && w in s0.nodes && s0.nodes[w].IsWindow()
  {
    var h := s0.nodes[w].extra.handle;
    && (ws.None? ==> Unchanged(s0, s1, log0 + Announced(h, index), log1))
    && (ws.Some? ==>
          && MoveSource(s0, w, ws.value) && MovedInto(s0, s1, w, ws.value)
          && |log1| >= |log0| + 2 && log1[..|log0|] == log0
          && log1[|log1| - 2..] == Announced(h, index)
          && Relocated(s0, s1, w, ws.value, gaps, log0, log1[..|log1| - 2]))
  }

  /** The reflow root once `p` has lost or gained a child (core.ts:316-319, 388-391): its
      parent when that is not a workspace, else `p`. */
  function ReflowRootOf(nodes: map<Ref, Node>, pa: map<Ref, Option<Ref>>, p: Ref): (x: Ref)
    requires p in pa && (pa[p].Some? ==> pa[p].value in nodes)
    ensures x == p || Some(x) == pa[p]
    ensures x != p ==> nodes[x].Kind() != Workspace
  {
    if pa[p].Some? && nodes[pa[p].value].Kind() != Workspace then pa[p].value else p
  }

  /** Reflow and applyLayout from `x` (core.ts:316-319, 333-334): the rects below `x` are
      recomputed and one moveResize per tiled window below `x` is logged; only rects
      change, and `x` itself and `keep`, which is `x` or its parent, keep theirs. */
  method RelayoutKeeping(ctx: Context, x: Ref, keep: Ref)
    requires ctx.Ready() && x in ctx.tree.nodes && keep in ctx.tree.nodes
    requires keep == x || ctx.tree.parent[x] == Some(keep)
    modifies ctx.tree`nodes, ctx`log
    ensures ctx.Ready()
    ensures ctx.tree.nodes == Reflowed(old(ctx.tree.nodes), ctx.tree.children, ctx.tree.parent, ctx.tree.depth,
                                       ctx.tree.bound, x, SplitTiler(ctx.config.gaps))
    ensures ctx.log == old(ctx.log) + Emitted(ctx.tree.nodes, Arena.Walk(ctx.tree.children, ctx.tree.parent,
                                                                         ctx.tree.depth, ctx.tree.bound, x))
    ensures OnlyRects(old(ctx.tree.nodes), ctx.tree.nodes)
    ensures ctx.tree.nodes[x] == old(ctx.tree.nodes[x]) && ctx.tree.nodes[keep] == old(ctx.tree.nodes[keep])
    ensures old(ctx.log) <= ctx.log
  {
    if keep != x {
      BelowDeeperOne(ctx.tree.parent, ctx.tree.depth, keep, x);
    }
    Relayout(ctx, x);
    assert NotInside(ctx.tree.parent, ctx.tree.depth, x, x) && NotInside(ctx.tree.parent, ctx.tree.depth, keep, x);
  }

  /** A container does not lie below its own child. */
  lemma BelowDeeperOne(pa: map<Ref, Option<Ref>>, de: map<Ref, nat>, p: Ref, c: Ref)
    requires DepthSteps(pa, de) && pa.Keys == de.Keys && c in pa && pa[c] == Some(p)
    ensures p in pa && !Below(pa, de, p, c)
  {
    if Below(pa, de, p, c) {
      BelowDeeper(pa, de, p, c);
    }
  }

  /** The tree `n0`, `c0`, `p0` with depths `de` below `bd` stays linked once `w` leaves
      its parent, whose reflow root lies in it. */
  ghost predicate Detachable(n0: map<Ref, Node>, c0: map<Ref, seq<Ref>>, p0: map<Ref, Option<Ref>>,
                             de: map<Ref, nat>, bd: nat, w: Ref)
  {
    && w in p0
    && (p0[w].Some? ==> var p := p0[w].value; p in c0 && p in p0 && (p0[p].Some? ==> p0[p].value in n0))
    && var c1 := Tree.Detached(c0, p0, w);
    && LinkedMaps(c1, p0[w := None], de, bd) && c1.Keys <= n0.Keys
    && (p0[w].Some? ==> ReflowRootOf(n0, p0, p0[w].value) in c1)
  }

  /** Every window of a sound snapshot can be detached. */
  lemma DetachableOf(s0: Snapshot, w: Ref)
    requires Sound(s0) && w in s0.nodes
    ensures Detachable(s0.nodes, s0.ch, s0.pa, s0.de, s0.bd, w)
  {
    if s0.pa[w].Some? {
      var p := s0.pa[w].value;
      CutLinked(s0.ch, s0.pa, s0.de, s0.bd, p, w);
    } else {
      assert s0.pa[w := None] == s0.pa;
    }
  }

  /** The containers after the detaching step: with a parent, the rects below its reflow
      root recomputed on the tree without `w`; without one, as they were. */
  ghost function LeftNodes(n0: map<Ref, Node>, c0: map<Ref, seq<Ref>>, p0: map<Ref, Option<Ref>>,
                           de: map<Ref, nat>, bd: nat, w: Ref, gaps: Option<Gaps>): map<Ref, Node>
    requires Detachable(n0, c0, p0, de, bd, w)
  {
    if p0[w].None? then n0
    else Reflowed(n0, Tree.Detached(c0, p0, w), p0[w := None], de, bd, ReflowRootOf(n0, p0, p0[w].value),
                  SplitTiler(gaps))
  }

  /** The calls of the detaching step: with a parent, one moveResize per tiled window
      below its reflow root, with the new rects; without one, none. */
  ghost function LeftCalls(n0: map<Ref, Node>, c0: map<Ref, seq<Ref>>, p0: map<Ref, Option<Ref>>,
                           de: map<Ref, nat>, bd: nat, w: Ref, gaps: Option<Gaps>): seq<Call>
    requires Detachable(n0, c0, p0, de, bd, w)
  {
    if p0[w].None? then []
    else Emitted(LeftNodes(n0, c0, p0, de, bd, w, gaps),
                 Arena.Walk(Tree.Detached(c0, p0, w), p0[w := None], de, bd, ReflowRootOf(n0, p0, p0[w].value)))
  }

  /** The detaching step (core.ts:312-322): `w` leaves its parent, whose reflow root is
      reflowed and laid out again on the tree without `w`. */
  method DetachWindow(ctx: Context, w: Ref)
    requires ctx.Ready() && w in ctx.tree.nodes
    modifies ctx.tree`nodes, ctx.tree`children, ctx.tree`parent, ctx`log
    ensures ctx.Ready()
    ensures ctx.tree.children == Tree.Detached(old(ctx.tree.children), old(ctx.tree.parent), w)
    ensures ctx.tree.parent == old(ctx.tree.parent)[w := None]
    ensures OnlyRects(old(ctx.tree.nodes), ctx.tree.nodes)
    ensures Detachable(old(ctx.tree.nodes), old(ctx.tree.children), old(ctx.tree.parent), ctx.tree.depth,
                       ctx.tree.bound, w)
    ensures ctx.tree.nodes == LeftNodes(old(ctx.tree.nodes), old(ctx.tree.children), old(ctx.tree.parent),
                                        ctx.tree.depth, ctx.tree.bound, w, ctx.config.gaps)
    ensures ctx.log == old(ctx.log) + LeftCalls(old(ctx.tree.nodes), old(ctx.tree.children), old(ctx.tree.parent),
                                                ctx.tree.depth, ctx.tree.bound, w, ctx.config.gaps)
    ensures old(ctx.log) <= ctx.log
  {
    var t := ctx.tree;
    var sp := t.parent[w];
    if sp.None? {
      assert t.parent[w := None] == t.parent;
      return;
    }
    var p := sp.value;
    assert w in t.children[p];
    var x := ReflowRootOf(t.nodes, t.parent, p);
    t.RemoveChild(p, w);
    RelayoutKeeping(ctx, x, x);
  }

  /** The containers after `w` leaves the floating list of workspace `cw` (when floating). */
  function Dropped(nodes: map<Ref, Node>, cw: Option<Ref>, w: Ref, floating: bool): map<Ref, Node>
    requires cw.Some? ==> IsWorkspaceIn(nodes, cw.value)
  {
    if floating && cw.Some?
    then nodes[cw.value := nodes[cw.value].(extra := nodes[cw.value].extra.(
           floatingWindows := RemoveFirst(nodes[cw.value].extra.floatingWindows, ContainerEntry(w))))]
    else nodes
  }

  /** Relayout and the floating list keep kinds, ids and the window's own fields. */
  lemma DroppedRetains(n0: map<Ref, Node>, n1: map<Ref, Node>, cw: Option<Ref>, w: Ref, floating: bool)
    requires OnlyRects(n0, n1) && w in n0 && n0[w].IsWindow() && (cw.Some? ==> IsWorkspaceIn(n1, cw.value))
    ensures Retained(n0, Dropped(n1, cw, w, floating))
    ensures Dropped(n1, cw, w, floating)[w].extra == n0[w].extra
  {
    var n2 := Dropped(n1, cw, w, floating);
    forall y | y in n0 ensures n2[y].Kind() == n0[y].Kind() && n2[y].id == n0[y].id {
      assert n1[y] == n0[y].(rect := n1[y].rect);
    }
    assert n1[w] == n0[w].(rect := n1[w].rect);
  }

  /** The workspace the move finds `w` in (core.ts:312): the nearest one at or above it. */
  ghost function FoundWorkspace(s0: Snapshot, w: Ref): Option<Ref>
    requires Sound(s0) && w in s0.pa
  {
    NearestWorkspace(s0.nodes, s0.pa, s0.de, w)
  }

  /** What leaving `s0` leaves (core.ts:312-326): child lists `c1` and parent links `p1`
      without `w`, containers `n2` as the detaching step leaves them, less `w`'s entry in
      the floating list of the workspace it was found in when it floats, and `log1` is
      `log0` followed by the calls of the detaching step. */
  ghost predicate LeftFrom(s0: Snapshot, w: Ref, gaps: Option<Gaps>, n2: map<Ref, Node>, c1: map<Ref, seq<Ref>>,
                           p1: map<Ref, Option<Ref>>, log0: seq<Call>, log1: seq<Call>)
    requires Sound(s0) && w in s0.nodes && s0.nodes[w].IsWindow()
  {
    && Detachable(s0.nodes, s0.ch, s0.pa, s0.de, s0.bd, w)
    && c1 == Tree.Detached(s0.ch, s0.pa, w) && p1 == s0.pa[w := None]
    && var n1 := LeftNodes(s0.nodes, s0.ch, s0.pa, s0.de, s0.bd, w, gaps);
    && var cw := FoundWorkspace(s0, w);
    && OnlyRects(s0.nodes, n1) && (cw.Some? ==> IsWorkspaceIn(n1, cw.value))
    && n2 == Dropped(n1, cw, w, s0.nodes[w].extra.floating)
    && log1 == log0 + LeftCalls(s0.nodes, s0.ch, s0.pa, s0.de, s0.bd, w, gaps)
  }

  /** Leaving (core.ts:312-326): `w` is detached from its parent and, when floating, leaves
      the floating list of the workspace it was found in. */
  method Leave(ctx: Context, w: Ref)
    requires ctx.Ready() && w in ctx.tree.nodes && ctx.tree.nodes[w].IsWindow()
    modifies ctx.tree`nodes, ctx.tree`children, ctx.tree`parent, ctx`log
    ensures ctx.Ready() && Sound(old(ctx.View()))
    ensures ctx.tree.children == Tree.Detached(old(ctx.tree.children), old(ctx.tree.parent), w)
    ensures ctx.tree.parent == old(ctx.tree.parent)[w := None]
    ensures Retained(old(ctx.tree.nodes), ctx.tree.nodes) && ctx.tree.nodes[w].extra == old(ctx.tree.nodes[w].extra)
    ensures LeftFrom(old(ctx.View()), w, ctx.config.gaps, ctx.tree.nodes, ctx.tree.children, ctx.tree.parent,
                     old(ctx.log), ctx.log)
    ensures old(ctx.log) <= ctx.log
  {
    ctx.ReadySound();
    ghost var s0, log0 := ctx.View(), ctx.log;
    var current := DetachFound(ctx, w);
    ghost var n1 := ctx.tree.nodes;
    DropFound(ctx, w, current, s0, log0);
    LeftFromIntro(s0, w, ctx.config.gaps, n1, current, ctx.tree.nodes, ctx.tree.children, ctx.tree.parent, log0,
                  ctx.log);
  }

  /** Leaving's second half (core.ts:323-325): after the detaching step from `s0`, `w`
      leaves the floating list of the workspace `current` it was found in, when it floats. */
  method DropFound(ctx: Context, w: Ref, current: Option<Ref>, ghost s0: Snapshot, ghost log0: seq<Call>)
    requires ctx.Ready() && Sound(s0) && w in s0.nodes && s0.nodes[w].IsWindow()
    requires DetachedFrom(s0, w, ctx.config.gaps, current, ctx.tree.nodes, ctx.tree.children, ctx.tree.parent, log0,
                          ctx.log)
    modifies ctx.tree`nodes
    ensures ctx.Ready()
    ensures Retained(s0.nodes, ctx.tree.nodes) && ctx.tree.nodes[w].extra == s0.nodes[w].extra
    ensures ctx.tree.nodes == Dropped(old(ctx.tree.nodes), current, w, s0.nodes[w].extra.floating)
  {
    var t := ctx.tree;
    ghost var n1 := t.nodes;
    assert n1[w] == s0.nodes[w].(rect := n1[w].rect);
    var floating := t.nodes[w].extra.floating;
    DropFloating(t, current, w, floating);
    DroppedRetains(s0.nodes, n1, current, w, floating);
  }

  /** findWorkspaceForContainer(w), then the detaching step (core.ts:312-322). */
  method DetachFound(ctx: Context, w: Ref) returns (current: Option<Ref>)
    requires ctx.Ready() && w in ctx.tree.nodes
    modifies ctx.tree`nodes, ctx.tree`children, ctx.tree`parent, ctx`log
    ensures ctx.Ready() && Sound(old(ctx.View()))
    ensures DetachedFrom(old(ctx.View()), w, ctx.config.gaps, current, ctx.tree.nodes, ctx.tree.children,
                         ctx.tree.parent, old(ctx.log), ctx.log)
    ensures ctx.tree.nodes[w] == old(ctx.tree.nodes[w]).(rect := ctx.tree.nodes[w].rect)
    ensures old(ctx.log) <= ctx.log
  {
    ghost var s0 := ctx.View();
    current := FindCurrent(ctx, w);
    DetachWindow(ctx, w);
    RectsMoved(s0.nodes, ctx.tree.nodes, current, w);
  }

  /** The detaching step from `s0`, with `cw` the workspace `w` was found in: child lists
      `c1` and parent links `p1` without `w`, containers `n1` and `log1` as `LeftNodes`
      and `LeftCalls` say. */
  ghost predicate DetachedFrom(s0: Snapshot, w: Ref, gaps: Option<Gaps>, cw: Option<Ref>, n1: map<Ref, Node>,
                               c1: map<Ref, seq<Ref>>, p1: map<Ref, Option<Ref>>, log0: seq<Call>, log1: seq<Call>)
    requires Sound(s0) && w in s0.nodes
  {
    && Detachable(s0.nodes, s0.ch, s0.pa, s0.de, s0.bd, w)
    && c1 == Tree.Detached(s0.ch, s0.pa, w) && p1 == s0.pa[w := None]
    && n1 == LeftNodes(s0.nodes, s0.ch, s0.pa, s0.de, s0.bd, w, gaps) && OnlyRects(s0.nodes, n1)
    && cw == FoundWorkspace(s0, w) && (cw.Some? ==> IsWorkspaceIn(n1, cw.value))
    && log1 == log0 + LeftCalls(s0.nodes, s0.ch, s0.pa, s0.de, s0.bd, w, gaps)
  }

  /** findWorkspaceForContainer(w) (core.ts:312). */
  method FindCurrent(ctx: Context, w: Ref) returns (current: Option<Ref>)
    requires ctx.Ready() && w in ctx.tree.nodes
    ensures Sound(ctx.View()) && current == FoundWorkspace(ctx.View(), w)
    ensures current.Some? ==> IsWorkspaceIn(ctx.tree.nodes, current.value)
  {
    ctx.ReadySound();
    var t := ctx.tree;
    current := FindWorkspaceForContainer(t.nodes, t.parent, t.depth, w);
    NearestWorkspaceIs(t.nodes, t.parent, t.depth, w);
  }

  /** `removeFloatingWindow` on the workspace `w` was found in, when `w` floats
      (core.ts:323-325). */
  method DropFloating(t: Tree, current: Option<Ref>, w: Ref, floating: bool)
    requires t.Valid() && (current.Some? ==> IsWorkspaceIn(t.nodes, current.value))
    modifies t`nodes
    ensures t.Valid() && t.nodes == Dropped(old(t.nodes), current, w, floating)
  {
    if floating && current.Some? {
      t.RemoveFloatingWindow(current.value, ContainerEntry(w));
    }
  }

  /** When only rects change, a workspace stays one and `w` keeps its other fields. */
  lemma RectsMoved(a: map<Ref, Node>, b: map<Ref, Node>, cw: Option<Ref>, w: Ref)
    requires OnlyRects(a, b) && w in a && (cw.Some? ==> IsWorkspaceIn(a, cw.value))
    ensures cw.Some? ==> IsWorkspaceIn(b, cw.value)
    ensures w in b && b[w] == a[w].(rect := b[w].rect)
  {
    if cw.Some? {
      assert b[cw.value] == a[cw.value].(rect := b[cw.value].rect);
    }
  }

  /** The detaching step and the floating list, as `LeftFrom` states them. */
  lemma LeftFromIntro(s0: Snapshot, w: Ref, gaps: Option<Gaps>, n1: map<Ref, Node>, cw: Option<Ref>,
                      n2: map<Ref, Node>, c1: map<Ref, seq<Ref>>, p1: map<Ref, Option<Ref>>, log0: seq<Call>,
                      log1: seq<Call>)
    requires Sound(s0) && w in s0.nodes && s0.nodes[w].IsWindow()
    requires DetachedFrom(s0, w, gaps, cw, n1, c1, p1, log0, log1)
    requires n2 == Dropped(n1, cw, w, s0.nodes[w].extra.floating)
    ensures LeftFrom(s0, w, gaps, n2, c1, p1, log0, log1)
  {
  }

  /** What findSplitTarget (core.ts:58-74) leaves in the maps: with a split among `ws`'s
      children the first one and nothing changed; otherwise a fresh alternating split,
      numbered from the workspace's id and child count, with the workspace's rect,
      appended to the workspace. */
  ghost predicate SplitFound(n0: map<Ref, Node>, c0: map<Ref, seq<Ref>>, p0: map<Ref, Option<Ref>>, ws: Ref,
                             n1: map<Ref, Node>, c1: map<Ref, seq<Ref>>, p1: map<Ref, Option<Ref>>, split: Ref)
    requires IsWorkspaceIn(n0, ws) && ws in c0
  {
    var first := FirstOf(n0, c0[ws], IsSplitNode);
    && split in n1 && n1[split].Kind() == Split && split in p1 && p1[split] == Some(ws) && split in c1
    && (first.Some? ==> split == first.value && n1 == n0 && c1 == c0 && p1 == p0)
    && (first.None? ==>
          && split !in n0
          && n1 == n0[split := SplitNode(n0[ws].id * 100 + |c0[ws]| + 1, Alternating).(rect := n0[ws].rect)]
          && c1 == c0[split := []][ws := c0[ws] + [split]]
          && p1 == p0[split := Some(ws)])
  }

  /** findSplitTarget (core.ts:58-74). */
  method FindSplitTarget(t: Tree, ws: Ref) returns (split: Ref)
    requires t.Valid() && IsWorkspaceIn(t.nodes, ws)
    modifies t`nodes, t`children, t`parent, t`depth, t`bound, t`nextRef
    ensures t.Valid()
    ensures SplitFound(old(t.nodes), old(t.children), old(t.parent), ws, t.nodes, t.children, t.parent, split)
  {
    var existing := FirstOf(t.nodes, t.children[ws], IsSplitNode);
    if existing.Some? {
      split := existing.value;
      return;
    }
    var n := SplitNode(t.nodes[ws].id * 100 + |t.children[ws]| + 1, Alternating).(rect := t.nodes[ws].rect);
    split := t.NewContainer(n);
    BelowChildless(t.children, t.parent, t.depth, t.bound, ws, split);
    t.Attach(ws, split);
  }

  /** `ws`'s floating list gains `w` at its end when `floating`. */
  function Floated(n: map<Ref, Node>, ws: Ref, w: Ref, floating: bool): (r: map<Ref, Node>)
    requires IsWorkspaceIn(n, ws)
    ensures r.Keys == n.Keys && r[ws].extra.WorkspaceData?
    ensures r[ws].extra.floatingWindows ==
              if floating then n[ws].extra.floatingWindows + [ContainerEntry(w)] else n[ws].extra.floatingWindows
    ensures r[ws].(extra := n[ws].extra) == n[ws] && r[ws].extra.(floatingWindows := n[ws].extra.floatingWindows) == n[ws].extra
  {
    if floating then n[ws := n[ws].(extra := n[ws].extra.(floatingWindows := n[ws].extra.floatingWindows + [ContainerEntry(w)]))]
    else n
  }

  /** The tree half of joining (core.ts:328-332): `w` becomes the last child of `split`
      and, when floating, the last entry of `ws`'s floating list. */
  method JoinSplit(t: Tree, w: Ref, ws: Ref, split: Ref, floating: bool)
    requires t.Valid() && w in t.nodes && t.nodes[w].IsWindow() && t.parent[w].None?
    requires IsWorkspaceIn(t.nodes, ws) && split in t.nodes && t.nodes[split].Kind() == Split
    requires t.parent[split] == Some(ws)
    modifies t`nodes, t`children, t`parent, t`depth, t`bound
    ensures t.Valid()
    ensures t.children == old(t.children)[split := old(t.children[split]) + [w]]
    ensures t.parent == old(t.parent)[w := Some(split)]
    ensures t.nodes == Floated(old(t.nodes), ws, w, floating)
    ensures w in t.nodes && IsWorkspaceIn(t.nodes, ws) && split in t.nodes && t.nodes[split].Kind() == Split
    ensures t.parent[split] == Some(ws)
  {
    BelowChildless(t.children, t.parent, t.depth, t.bound, split, w);
    t.Attach(split, w);
    if floating {
      t.AddFloatingWindow(ws, ContainerEntry(w));
    }
  }

  /** What joining does to the containers (core.ts:328-336): `w` is focused and nothing else
      of `sub` is, `ws` records `id` and keeps its rect, `ws`'s floating list gains `w` at
      its end exactly when `floating`, and `split` keeps every field but its focus flag. */
  ghost predicate Joined(a: map<Ref, Node>, b: map<Ref, Node>, sub: set<Ref>, w: Ref, ws: Ref, split: Ref, id: int,
                         floating: bool) {
    && a.Keys == b.Keys && w in a && ws in a && split in a
    && b[w].focused
    && (forall y :: y in sub && y in b && y != w ==> !b[y].focused)
    && a[ws].extra.WorkspaceData? && b[ws].extra.WorkspaceData?
    && b[ws].extra.lastFocusedWindowId == Some(id) && b[ws].rect == a[ws].rect
    && b[split].(focused := a[split].focused) == a[split]
    && b[ws].extra.floatingWindows ==
         if floating then a[ws].extra.floatingWindows + [ContainerEntry(w)] else a[ws].extra.floatingWindows
  }

  /** Reflowing `split`, focusing `w` and stamping `ws` join them, floating list aside. */
  lemma SettledIntro(n1: map<Ref, Node>, n2: map<Ref, Node>, n3: map<Ref, Node>, sub: set<Ref>, w: Ref, ws: Ref,
                     split: Ref, id: int)
    requires w in n1 && IsWorkspaceIn(n1, ws) && split in n1 && n1[split].Kind() == Split
    requires OnlyRects(n1, n2) && n2[ws] == n1[ws] && n2[split] == n1[split]
    requires n3 == Stamped(FocusResult(n2, sub, Some(w)), Some(ws), id)
    ensures Joined(n1, n3, sub, w, ws, split, id, false)
  {
    FocusExclusive(n2, sub, Some(w));
    FocusedWindowEffect(n2, sub, w, Some(ws), id);
  }

  /** `setFocusedContainer(root, w)` then `ws.lastFocusedWindowId = id` (core.ts:335-336). */
  method FocusAndStamp(ctx: Context, w: Ref, ws: Ref, id: int)
    requires ctx.Ready() && w in ctx.tree.nodes && IsWorkspaceIn(ctx.tree.nodes, ws)
    modifies ctx.tree`nodes
    ensures ctx.Ready()
    ensures ctx.tree.nodes == Stamped(FocusResult(old(ctx.tree.nodes), Subtree(ctx.tree.parent, ctx.tree.depth, ctx.root),
                                                  Some(w)), Some(ws), id)
  {
    ghost var n0 := ctx.tree.nodes;
    SetFocusedContainer(ctx.tree, ctx.root, Some(w));
    FocusKeepsExtra(n0, Subtree(ctx.tree.parent, ctx.tree.depth, ctx.root), Some(w), ws);
    StampWorkspace(ctx.tree, Some(ws), id);
  }

  /** Setting the focus flags leaves every other field of a container alone. */
  lemma FocusKeepsExtra(nodes: map<Ref, Node>, s: set<Ref>, target: Option<Ref>, y: Ref)
    requires y in nodes && (target.Some? ==> target.value in nodes)
    ensures y in FocusResult(nodes, s, target) && FocusResult(nodes, s, target)[y].extra == nodes[y].extra
  {
    FocusExclusive(nodes, s, target);
  }

  /** The screen half of joining as it leaves `s1`, from containers `n0`: the rects below
      `split` are recomputed on `s1`'s tree, then `w` is focused under the root and `ws`
      records `id`; `log1` is `log0` followed by one moveResize per tiled window below
      `split`, with the new rects. */
  ghost predicate Settled(n0: map<Ref, Node>, s1: Snapshot, split: Ref, w: Ref, ws: Ref, id: int, gaps: Option<Gaps>,
                          log0: seq<Call>, log1: seq<Call>)
  {
    && LinkedMaps(s1.ch, s1.pa, s1.de, s1.bd) && split in s1.ch && s1.ch.Keys <= n0.Keys
    && var n1 := Reflowed(n0, s1.ch, s1.pa, s1.de, s1.bd, split, SplitTiler(gaps));
    && s1.nodes == Stamped(FocusResult(n1, Subtree(s1.pa, s1.de, s1.root), Some(w)), Some(ws), id)
    && log1 == log0 + Emitted(n1, Arena.Walk(s1.ch, s1.pa, s1.de, s1.bd, split))
  }

  /** The screen half of joining (core.ts:333-336): `split` is reflowed and laid out, `w`
      is focused and `ws` records `id`. */
  method Settle(ctx: Context, w: Ref, ws: Ref, split: Ref, id: int)
    requires ctx.Ready() && w in ctx.tree.nodes && IsWorkspaceIn(ctx.tree.nodes, ws)
    requires split in ctx.tree.nodes && ctx.tree.nodes[split].Kind() == Split && ctx.tree.parent[split] == Some(ws)
    modifies ctx.tree`nodes, ctx`log
    ensures ctx.Ready()
    ensures Joined(old(ctx.tree.nodes), ctx.tree.nodes, Subtree(ctx.tree.parent, ctx.tree.depth, ctx.root), w, ws, split,
                   id, false)
    ensures Settled(old(ctx.tree.nodes), ctx.View(), split, w, ws, id, ctx.config.gaps, old(ctx.log), ctx.log)
    ensures old(ctx.log) <= ctx.log
  {
    ghost var n1 := ctx.tree.nodes;
    RelayoutKeeping(ctx, split, ws);
    ghost var n2 := ctx.tree.nodes;
    FocusAndStamp(ctx, w, ws, id);
    SettledIntro(n1, n2, ctx.tree.nodes, Subtree(ctx.tree.parent, ctx.tree.depth, ctx.root), w, ws, split, id);
  }

  /** Joining after the floating list grew is joining with `floating` set. */
  lemma JoinedAfterFloat(n0: map<Ref, Node>, n1: map<Ref, Node>, n2: map<Ref, Node>, sub: set<Ref>, w: Ref, ws: Ref,
                         split: Ref, id: int, floating: bool)
    requires w in n0 && IsWorkspaceIn(n0, ws) && split in n0 && n0[split].Kind() == Split
    requires n1 == Floated(n0, ws, w, floating)
    requires Joined(n1, n2, sub, w, ws, split, id, false)
    ensures Joined(n0, n2, sub, w, ws, split, id, floating)
  {
    assert n1[split] == n0[split];
  }

  /** Joining (core.ts:328-336): `w` becomes the last child of `split`, joins the
      workspace's floating list when floating, `split` is reflowed and laid out, `w` is
      focused and the workspace records its window id. */
  method PlaceWindow(ctx: Context, w: Ref, ws: Ref, split: Ref, id: int, floating: bool)
    requires ctx.Ready() && w in ctx.tree.nodes && ctx.tree.nodes[w].IsWindow() && ctx.tree.parent[w].None?
    requires id == ctx.tree.nodes[w].extra.windowId
    requires IsWorkspaceIn(ctx.tree.nodes, ws) && split in ctx.tree.nodes && ctx.tree.nodes[split].Kind() == Split
    requires ctx.tree.parent[split] == Some(ws)
    modifies ctx.tree`nodes, ctx.tree`children, ctx.tree`parent, ctx.tree`depth, ctx.tree`bound, ctx`log
    ensures ctx.Ready()
    ensures ctx.tree.children == old(ctx.tree.children)[split := old(ctx.tree.children[split]) + [w]]
    ensures ctx.tree.parent == old(ctx.tree.parent)[w := Some(split)]
    ensures Joined(old(ctx.tree.nodes), ctx.tree.nodes, Subtree(ctx.tree.parent, ctx.tree.depth, ctx.root), w, ws, split,
                   id, floating)
    ensures Settled(Floated(old(ctx.tree.nodes), ws, w, floating), ctx.View(), split, w, ws, id, ctx.config.gaps,
                    old(ctx.log), ctx.log)
    ensures old(ctx.log) <= ctx.log
  {
    var t := ctx.tree;
    ghost var n0 := t.nodes;
    JoinSplit(t, w, ws, split, floating);
    ghost var n1 := t.nodes;
    Settle(ctx, w, ws, split, id);
    JoinedAfterFloat(n0, n1, t.nodes, Subtree(t.parent, t.depth, ctx.root), w, ws, split, id, floating);
  }

  /** Finding the split and joining it put `w` where `Entered` says. */
  lemma EnteredIntro(n0: map<Ref, Node>, c0: map<Ref, seq<Ref>>, p0: map<Ref, Option<Ref>>, n1: map<Ref, Node>,
                     c1: map<Ref, seq<Ref>>, p1: map<Ref, Option<Ref>>, s1: Snapshot, w: Ref, ws: Ref, split: Ref,
                     id: int, floating: bool)
    requires w in n0 && n0[w].IsWindow() && IsWorkspaceIn(n0, ws) && ws in c0
    requires id == n0[w].extra.windowId && floating == n0[w].extra.floating
    requires DepthSteps(s1.pa, s1.de) && s1.pa.Keys == s1.de.Keys && s1.nodes.Keys == s1.ch.Keys
    requires SplitFound(n0, c0, p0, ws, n1, c1, p1, split)
    requires s1.ch == c1[split := c1[split] + [w]] && s1.pa == p1[w := Some(split)]
    requires Joined(n1, s1.nodes, Subtree(s1.pa, s1.de, s1.root), w, ws, split, id, floating)
    ensures Entered(n0, c0[ws], s1, w, ws)
  {
    assert n1[ws] == n0[ws];
  }

  /** Exactly what joining workspace `ws` leaves in `s1` (core.ts:328-336), from
      containers `n0`, child lists `c0` and parent links `p0`: `w` is appended to `split`,
      the first split among `ws`'s children, or else a fresh alternating split numbered
      `ws.id * 100 + |c0[ws]| + 1` with the workspace's rect, itself appended to `ws`;
      then `ws`'s floating list gains `w` when it floats and the split is settled. */
  ghost predicate Joins(n0: map<Ref, Node>, c0: map<Ref, seq<Ref>>, p0: map<Ref, Option<Ref>>, ws: Ref, w: Ref,
                        gaps: Option<Gaps>, s1: Snapshot, log0: seq<Call>, log1: seq<Call>)
    requires IsWorkspaceIn(n0, ws) && ws in c0 && w in n0 && n0[w].IsWindow()
  {
    var first := FirstOf(n0, c0[ws], IsSplitNode);
    && w in s1.pa && s1.pa[w].Some?
    && var split := s1.pa[w].value;
    && (first.Some? ==> split == first.value)
    && (first.None? ==> split !in n0)
    && var n1 := if first.Some? then n0
                 else n0[split := SplitNode(n0[ws].id * 100 + |c0[ws]| + 1, Alternating).(rect := n0[ws].rect)];
    && var c1 := if first.Some? then c0 else c0[split := []][ws := c0[ws] + [split]];
    && var p1 := if first.Some? then p0 else p0[split := Some(ws)];
    && split in c1
    && s1.ch == c1[split := c1[split] + [w]] && s1.pa == p1[w := Some(split)]
    && Settled(Floated(n1, ws, w, n0[w].extra.floating), s1, split, w, ws, n0[w].extra.windowId, gaps, log0, log1)
  }

  /** Finding the split and placing `w` in it is joining. */
  lemma JoinsIntro(n0: map<Ref, Node>, c0: map<Ref, seq<Ref>>, p0: map<Ref, Option<Ref>>, n1: map<Ref, Node>,
                   c1: map<Ref, seq<Ref>>, p1: map<Ref, Option<Ref>>, s1: Snapshot, w: Ref, ws: Ref, split: Ref,
                   gaps: Option<Gaps>, log0: seq<Call>, log1: seq<Call>)
    requires w in n0 && n0[w].IsWindow() && IsWorkspaceIn(n0, ws) && ws in c0
    requires SplitFound(n0, c0, p0, ws, n1, c1, p1, split)
    requires s1.ch == c1[split := c1[split] + [w]] && s1.pa == p1[w := Some(split)]
    requires Settled(Floated(n1, ws, w, n0[w].extra.floating), s1, split, w, ws, n0[w].extra.windowId, gaps, log0, log1)
    ensures Joins(n0, c0, p0, ws, w, gaps, s1, log0, log1)
  {
    assert split != w;
  }

  /** Finding the workspace's split and joining it (core.ts:328-336). */
  method Enter(ctx: Context, w: Ref, ws: Ref)
    requires ctx.Ready() && w in ctx.tree.nodes && ctx.tree.nodes[w].IsWindow() && ctx.tree.parent[w].None?
    requires IsWorkspaceIn(ctx.tree.nodes, ws)
    modifies ctx.tree`nodes, ctx.tree`children, ctx.tree`parent, ctx.tree`depth, ctx.tree`bound, ctx.tree`nextRef, ctx`log
    ensures ctx.Ready() && Sound(ctx.View())
    ensures Entered(old(ctx.tree.nodes), old(ctx.tree.children[ws]), ctx.View(), w, ws)
    ensures Joins(old(ctx.tree.nodes), old(ctx.tree.children), old(ctx.tree.parent), ws, w, ctx.config.gaps, ctx.View(),
                  old(ctx.log), ctx.log)
    ensures old(ctx.log) <= ctx.log
  {
    var t := ctx.tree;
    ghost var n0, c0, p0 := t.nodes, t.children, t.parent;
    var id, floating := t.nodes[w].extra.windowId, t.nodes[w].extra.floating;
    ghost var log0 := ctx.log;
    var split := FindSplitTarget(t, ws);
    ghost var n1, c1, p1 := t.nodes, t.children, t.parent;
    assert n1[w] == n0[w];
    PlaceWindow(ctx, w, ws, split, id, floating);
    ctx.ReadySound();
    EnteredIntro(n0, c0, p0, n1, c1, p1, ctx.View(), w, ws, split, id, floating);
    JoinsIntro(n0, c0, p0, n1, c1, p1, ctx.View(), w, ws, split, ctx.config.gaps, log0, ctx.log);
  }

  /** Entering depends on the containers before it only through kinds, ids and the
      window's own fields. */
  lemma EnteredTransfer(n0: map<Ref, Node>, n1: map<Ref, Node>, rest: seq<Ref>, s1: Snapshot, w: Ref, ws: Ref)
    requires w in n0 && n0[w].IsWindow() && ws in n0
    requires Retained(n0, n1) && n1[w].extra == n0[w].extra
    requires DepthSteps(s1.pa, s1.de) && s1.pa.Keys == s1.de.Keys
    requires Entered(n1, rest, s1, w, ws)
    ensures Entered(n0, rest, s1, w, ws)
  {
    FirstSplitKept(n0, n1, rest);
  }

  /** Exactly what moving `w` into workspace `ws` leaves in `s1` (core.ts:311-336): the
      detaching step on `s0`, `w` leaving the floating list of the workspace it was found
      in, then joining `ws` on the tree without `w`; `log1` is `log0` followed by the
      calls of the two relayouts. */
  ghost predicate Relocated(s0: Snapshot, s1: Snapshot, w: Ref, ws: Ref, gaps: Option<Gaps>, log0: seq<Call>,
                            log1: seq<Call>)
    requires Sound(s0) && MoveSource(s0, w, ws)
  {
    && Detachable(s0.nodes, s0.ch, s0.pa, s0.de, s0.bd, w)
    && var n1 := LeftNodes(s0.nodes, s0.ch, s0.pa, s0.de, s0.bd, w, gaps);
    && var cw := FoundWorkspace(s0, w);
    && OnlyRects(s0.nodes, n1) && (cw.Some? ==> IsWorkspaceIn(n1, cw.value))
    && var n2 := Dropped(n1, cw, w, s0.nodes[w].extra.floating);
    && IsWorkspaceIn(n2, ws) && ws in Tree.Detached(s0.ch, s0.pa, w) && w in n2 && n2[w].IsWindow()
    && Joins(n2, Tree.Detached(s0.ch, s0.pa, w), s0.pa[w := None], ws, w, gaps, s1,
             log0 + LeftCalls(s0.nodes, s0.ch, s0.pa, s0.de, s0.bd, w, gaps), log1)
  }

  /** Leaving, then joining on the tree leaving left, is relocating. */
  lemma RelocatedIntro(s0: Snapshot, s1: Snapshot, w: Ref, ws: Ref, gaps: Option<Gaps>, log0: seq<Call>,
                       logm: seq<Call>, log1: seq<Call>, n2: map<Ref, Node>, c1: map<Ref, seq<Ref>>,
                       p1: map<Ref, Option<Ref>>)
    requires Sound(s0) && MoveSource(s0, w, ws)
    requires LeftFrom(s0, w, gaps, n2, c1, p1, log0, logm)
    requires IsWorkspaceIn(n2, ws) && ws in c1 && w in n2 && n2[w].IsWindow()
    requires Joins(n2, c1, p1, ws, w, gaps, s1, logm, log1)
    ensures Relocated(s0, s1, w, ws, gaps, log0, log1)
  {
  }

  /** Detach, drop from the old workspace's floating list, find the split, and join it
      (core.ts:311-336). */
  method MoveInto(ctx: Context, w: Ref, ws: Ref)
    requires ctx.Ready() && w in ctx.tree.nodes && ctx.tree.nodes[w].IsWindow() && IsWorkspaceIn(ctx.tree.nodes, ws)
    modifies ctx.tree`nodes, ctx.tree`children, ctx.tree`parent, ctx.tree`depth, ctx.tree`bound, ctx.tree`nextRef, ctx`log
    ensures ctx.Ready()
    ensures MoveSource(old(ctx.View()), w, ws) && Sound(ctx.View()) && MovedInto(old(ctx.View()), ctx.View(), w, ws)
    ensures Sound(old(ctx.View()))
    ensures Relocated(old(ctx.View()), ctx.View(), w, ws, ctx.config.gaps, old(ctx.log), ctx.log)
    ensures old(ctx.log) <= ctx.log
  {
    ctx.ReadySound();
    ghost var s0 := ctx.View();
    var t := ctx.tree;
    ghost var log0 := ctx.log;
    Leave(ctx, w);
    ghost var n1, c1, p1, log1 := t.nodes, t.children, t.parent, ctx.log;
    Enter(ctx, w, ws);
    EnteredTransfer(s0.nodes, n1, Tree.Detached(s0.ch, s0.pa, w)[ws], ctx.View(), w, ws);
    RelocatedIntro(s0, ctx.View(), w, ws, ctx.config.gaps, log0, log1, ctx.log, n1, c1, p1);
  }

  /** The workspace branch of the move handler (core.ts:289-342). */
  method MoveToWorkspaceHandler(cmd: Command, ctx: Context) returns (r: Outcome)
    requires ctx.Ready() && ctx.focused.Some?
    modifies ctx.tree`nodes, ctx.tree`children, ctx.tree`parent, ctx.tree`depth, ctx.tree`bound, ctx.tree`nextRef, ctx`log
    ensures ctx.Ready()
    ensures Sound(old(ctx.View())) && Sound(ctx.View())
    ensures WorkspaceMoveOutcome(old(ctx.View()), cmd, r, ctx.View(), ctx.config.gaps, old(ctx.log), ctx.log)
  {
    ctx.ReadySound();
    var target := WorkspaceTarget(cmd);
    if target.Refused? {
      return Fail(target.message);
    }
    if !ctx.caps.moveToWorkspace {
      return Fail("Move to workspace is unavailable");
    }
    var t := ctx.tree;
    var w := WindowFor(t.nodes, t.children, t.parent, t.depth, t.bound, ctx.focused.value);
    if w.None? {
      return Fail("No focused window");
    }
    var ws := SearchWorkspaces(t.nodes, t.children, ctx.root, NumberIs(target.index));
    MoveAndAnnounce(ctx, w.value, ws, target.index);
    return Ok();
  }

  /** Move `w` into `ws` when there is one, then announce the move (core.ts:311-340). */
  method MoveAndAnnounce(ctx: Context, w: Ref, ws: Option<Ref>, index: int)
    requires ctx.Ready() && w in ctx.tree.nodes && ctx.tree.nodes[w].IsWindow()
    requires ws.Some? ==> IsWorkspaceIn(ctx.tree.nodes, ws.value)
    modifies ctx.tree`nodes, ctx.tree`children, ctx.tree`parent, ctx.tree`depth, ctx.tree`bound, ctx.tree`nextRef, ctx`log
    ensures ctx.Ready() && Sound(old(ctx.View())) && Sound(ctx.View())
    ensures MovedAndAnnounced(old(ctx.View()), ctx.View(), old(ctx.log), ctx.log, w, ws, index, ctx.config.gaps)
  {
    ctx.ReadySound();
    var handle := ctx.tree.nodes[w].extra.handle;
    ghost var s0, log0 := ctx.View(), ctx.log;
    if ws.Some? {
      MoveInto(ctx, w, ws.value);
    }
    ghost var s1, log1 := ctx.View(), ctx.log;
    ctx.log := ctx.log + Announced(handle, index);
    AnnouncedIntro(s0, s1, log0, log1, ctx.log, w, ws, index, ctx.config.gaps);
  }

  /** Moving (or not), then announcing, is `MovedAndAnnounced`. */
  lemma AnnouncedIntro(s0: Snapshot, s1: Snapshot, log0: seq<Call>, logm: seq<Call>, log1: seq<Call>, w: Ref,
                       ws: Option<Ref>, index: int, gaps: Option<Gaps>)
    requires Sound(s0) && Sound(s1) && w in s0.nodes && s0.nodes[w].IsWindow()
    requires log1 == logm + Announced(s0.nodes[w].extra.handle, index)
    requires ws.None? ==> Unchanged(s0, s1, log0, logm)
    requires ws.Some? ==> && MoveSource(s0, w, ws.value) && MovedInto(s0, s1, w, ws.value)
                          && Relocated(s0, s1, w, ws.value, gaps, log0, logm) && log0 <= logm
    ensures MovedAndAnnounced(s0, s1, log0, log1, w, ws, index, gaps)
  {
    AppendedTwo(log0, logm, Announced(s0.nodes[w].extra.handle, index), log1);
  }

  /** `log1`, two calls appended to `logm`, which extends `log0`. */
  lemma AppendedTwo(log0: seq<Call>, logm: seq<Call>, cs: seq<Call>, log1: seq<Call>)
    requires log1 == logm + cs && |cs| == 2
    ensures log1[..|log1| - 2] == logm && log1[|log1| - 2..] == cs
    ensures log0 <= logm ==> |log1| >= |log0| + 2 && log1[..|log0|] == log0
  {
    assert log1[..|logm|] == logm;
    if log0 <= logm {
      assert log1[..|log0|] == logm[..|log0|];
    }
  }

  // ---- move <direction>

  /** The reflow root after a swap (core.ts:388-394): the target parent's parent when it is
      not a workspace, else the source parent's reflow root. */
  function SwapReflowRoot(nodes: map<Ref, Node>, pa: map<Ref, Option<Ref>>, sp: Ref, tp: Ref): (x: Ref)
    requires sp in pa && tp in pa && (pa[sp].Some? ==> pa[sp].value in nodes) && (pa[tp].Some? ==> pa[tp].value in nodes)
    ensures x == sp || Some(x) == pa[sp] || Some(x) == pa[tp]
    ensures pa[tp].Some? && nodes[pa[tp].value].Kind() != Workspace ==> x == pa[tp].value
    ensures x != sp ==> nodes[x].Kind() != Workspace
  {
    if pa[tp].Some? && nodes[pa[tp].value].Kind() != Workspace then pa[tp].value else ReflowRootOf(nodes, pa, sp)
  }

  /** The outcome of `move <direction>` with a focused container: without a parent of the
      focused container, a direction word or a window at or below it, a failure that
      changes nothing; without a neighbour that way (the focus handler's target) or when
      either window has no parent, success with nothing changed; otherwise the two windows
      trade slots and parents, the swap's reflow root is reflowed and laid out again. */
  ghost predicate DirectionMoveOutcome(s0: Snapshot, direction: Option<string>, r: Outcome, s1: Snapshot,
                                       gaps: Option<Gaps>, log0: seq<Call>, log1: seq<Call>)
    requires Sound(s0) && Sound(s1) && s0.focused.Some?
  {
    var f := s0.focused.value;
    if s0.pa[f].None? then r == Fail("No focused container to move") && Unchanged(s0, s1, log0, log1)
    else if !Given(direction) then r == Fail("Move direction required") && Unchanged(s0, s1, log0, log1)
    else if Current(s0).None? then r == Fail("No focused window") && Unchanged(s0, s1, log0, log1)
    else
      var w := Current(s0).value;
      var t := FocusTarget(s0, w, direction);
      r == Ok() &&
      if t == w || s0.pa[w].None? || s0.pa[t].None? then Unchanged(s0, s1, log0, log1)
      else SwappedWith(s0, s1, w, t, gaps, log0, log1)
  }

  /** Windows `w` and `t` trade slots and parents, and the swap's reflow root is reflowed,
      laid out and emitted (core.ts:370-397). */
  ghost predicate SwappedWith(s0: Snapshot, s1: Snapshot, w: Ref, t: Ref, gaps: Option<Gaps>, log0: seq<Call>,
                              log1: seq<Call>)
    requires Sound(s0) && Sound(s1) && w in s0.pa && t in s0.pa && s0.pa[w].Some? && s0.pa[t].Some?
  {
    var sp, tp := s0.pa[w].value, s0.pa[t].value;
    var i, j := IndexOf(s0.ch[sp], w), IndexOf(s0.ch[tp], t);
    var x := SwapReflowRoot(s0.nodes, s0.pa, sp, tp);
    && 0 <= i && 0 <= j
    && s1.ch == Swapped(s0.ch, sp, i, tp, j)
    && s1.pa == s0.pa[w := Some(tp)][t := Some(sp)]
    && x in s1.ch
    && s1.nodes == Reflowed(s0.nodes, s1.ch, s1.pa, s1.de, s1.bd, x, SplitTiler(gaps))
    && log1 == log0 + Emitted(s1.nodes, Arena.Walk(s1.ch, s1.pa, s1.de, s1.bd, x))
  }

  /** The exchange and relayout of the directional branch (core.ts:370-397); `a` and `b`
      are distinct windows that both have parents. */
  method SwapAndRelayout(ctx: Context, a: Ref, b: Ref)
    requires ctx.Ready() && a in ctx.tree.nodes && b in ctx.tree.nodes && a != b
    requires ctx.tree.nodes[a].IsWindow() && ctx.tree.nodes[b].IsWindow()
    requires ctx.tree.parent[a].Some? && ctx.tree.parent[b].Some?
    modifies ctx.tree`nodes, ctx.tree`children, ctx.tree`parent, ctx.tree`depth, ctx`log
    ensures ctx.Ready()
    ensures var t := ctx.tree;
            var sp, tp := old(t.parent[a]).value, old(t.parent[b]).value;
            var i, j := IndexOf(old(t.children[sp]), a), IndexOf(old(t.children[tp]), b);
            var x := SwapReflowRoot(old(t.nodes), old(t.parent), sp, tp);
            && 0 <= i && 0 <= j
            && t.children == Swapped(old(t.children), sp, i, tp, j)
            && t.parent == old(t.parent)[a := Some(tp)][b := Some(sp)]
            && x in t.children
            && t.nodes == Reflowed(old(t.nodes), t.children, t.parent, t.depth, t.bound, x, SplitTiler(ctx.config.gaps))
            && ctx.log == old(ctx.log) + Emitted(t.nodes, Arena.Walk(t.children, t.parent, t.depth, t.bound, x))
  {
    var t := ctx.tree;
    var sp, tp := t.parent[a].value, t.parent[b].value;
    assert a in t.children[sp] && b in t.children[tp];
    var i, j := IndexOf(t.children[sp], a), IndexOf(t.children[tp], b);
    var x := SwapReflowRoot(t.nodes, t.parent, sp, tp);
    SwapWindows(t, sp, i, tp, j);
    Relayout(ctx, x);
  }

  /** The directional branch of the move handler (core.ts:344-399). The source's
      "Focused container not in parent" failure cannot happen: a container with a parent
      is always in its parent's list. */
  method MoveDirectionHandler(cmd: Command, ctx: Context) returns (r: Outcome)
    requires ctx.Ready() && ctx.focused.Some?
    modifies ctx.tree`nodes, ctx.tree`children, ctx.tree`parent, ctx.tree`depth, ctx`log
    ensures ctx.Ready()
    ensures Sound(old(ctx.View())) && Sound(ctx.View())
    ensures DirectionMoveOutcome(old(ctx.View()), Arg(cmd, 0), r, ctx.View(), ctx.config.gaps, old(ctx.log), ctx.log)
  {
    ctx.ReadySound();
    var t := ctx.tree;
    var f := ctx.focused.value;
    if t.parent[f].None? {
      return Fail("No focused container to move");
    }
    var direction := Arg(cmd, 0);
    if !Given(direction) {
      return Fail("Move direction required");
    }
    var target := FindFocusTarget(t.nodes, t.children, t.parent, t.depth, t.bound, ctx.root, ctx.focused, direction,
                                  ctx.View());
    if target.None? {
      return Fail("No focused window");
    }
    var w := WindowFor(t.nodes, t.children, t.parent, t.depth, t.bound, f);
    var other := target.value;
    if other == w.value || t.parent[w.value].None? || t.parent[other].None? {
      return Ok();
    }
    SwapAndRelayout(ctx, w.value, other);
    ctx.ReadySound();
    return Ok();
  }

  // ---- the handler

  /** The outcome of the move handler: no focused container fails first; then the
      workspace form or the directional form. */
  ghost predicate MoveOutcome(s0: Snapshot, cmd: Command, r: Outcome, s1: Snapshot, gaps: Option<Gaps>,
                              log0: seq<Call>, log1: seq<Call>)
    requires Sound(s0) && Sound(s1)
  {
    if s0.focused.None? then r == Fail("No focused container to move") && Unchanged(s0, s1, log0, log1)
    else if IsWorkspaceMove(cmd) then WorkspaceMoveOutcome(s0, cmd, r, s1, gaps, log0, log1)
    else DirectionMoveOutcome(s0, Arg(cmd, 0), r, s1, gaps, log0, log1)
  }

  /** moveHandler (core.ts:281-401). */
  method MoveHandler(cmd: Command, ctx: Context) returns (r: Outcome)
    requires ctx.Ready()
    modifies ctx.tree`nodes, ctx.tree`children, ctx.tree`parent, ctx.tree`depth, ctx.tree`bound, ctx.tree`nextRef, ctx`log
    ensures ctx.Ready()
    ensures Sound(old(ctx.View())) && Sound(ctx.View())
    ensures MoveOutcome(old(ctx.View()), cmd, r, ctx.View(), ctx.config.gaps, old(ctx.log), ctx.log)
  {
    ctx.ReadySound();
    if ctx.focused.None? {
      return Fail("No focused container to move");
    }
    if IsWorkspaceMove(cmd) {
      r := MoveToWorkspaceHandler(cmd, ctx);
    } else {
      r := MoveDirectionHandler(cmd, ctx);
    }
  }
}
