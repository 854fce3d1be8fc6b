/** The tree searches of the command handlers (src/commands/handlers/core.ts:18-222,
    src/commands/handlers/workspace.ts:12-50): the windows of a subtree, the nearest
    workspace above a container, the workspaces under the outputs, and the geometric
    neighbour search behind `focus <dir>` and `move <dir>`. */
module Navigation {
  import opened Wrappers
  import opened Seqs
  import opened Containers
  import opened Arena

  /** The links agree, every linked container has fields, and windows are leaves. */
  ghost predicate Walkable(nodes: map<Ref, Node>, ch: map<Ref, seq<Ref>>, pa: map<Ref, Option<Ref>>,
                           de: map<Ref, nat>, bd: nat) {
    LinkedMaps(ch, pa, de, bd) && ch.Keys <= nodes.Keys && WindowsAreLeaves(nodes, ch)
  }

  function IsWindowIn(nodes: map<Ref, Node>): Ref -> bool {
    (r: Ref) => r in nodes && nodes[r].IsWindow()
  }

  /** collectWindows (core.ts:76-92): the windows at or below `x`, in depth-first
      pre-order. */
  function CollectWindows(nodes: map<Ref, Node>, ch: map<Ref, seq<Ref>>, ghost pa: map<Ref, Option<Ref>>,
                          ghost de: map<Ref, nat>, ghost bd: nat, x: Ref): (ws: seq<Ref>)
    requires Walkable(nodes, ch, pa, de, bd) && x in ch
    ensures ws == Filter(PreOrder(ch, pa, de, bd, x), IsWindowIn(nodes))
    decreases bd - de[x], 1
  {
    FilterAppend([x], Walk(ch, pa, de, bd, x), IsWindowIn(nodes));
    if nodes[x].IsWindow() then
      assert Walk(ch, pa, de, bd, x) == [];
      [x]
    else
      CollectFrom(nodes, ch, pa, de, bd, x, 0)
  }

  function CollectFrom(nodes: map<Ref, Node>, ch: map<Ref, seq<Ref>>, ghost pa: map<Ref, Option<Ref>>,
                       ghost de: map<Ref, nat>, ghost bd: nat, x: Ref, i: nat): (ws: seq<Ref>)
    requires Walkable(nodes, ch, pa, de, bd) && x in ch && i <= |ch[x]|
    ensures ws == Filter(WalkFrom(ch, pa, de, bd, x, i), IsWindowIn(nodes))
    decreases bd - de[x], 0, |ch[x]| - i
  {
    if i == |ch[x]| then []
    else
      var c := ch[x][i];
      ChildStep(ch, pa, de, bd, x, i);
      FilterAppend(PreOrder(ch, pa, de, bd, c), WalkFrom(ch, pa, de, bd, x, i + 1), IsWindowIn(nodes));
      CollectWindows(nodes, ch, pa, de, bd, c) + CollectFrom(nodes, ch, pa, de, bd, x, i + 1)
  }

  /** findFirstWindow (core.ts:18-31): `x` itself when it is a window, else the first window
      found below it, children in order. */
  function FindFirstWindow(nodes: map<Ref, Node>, ch: map<Ref, seq<Ref>>, ghost pa: map<Ref, Option<Ref>>,
                           ghost de: map<Ref, nat>, ghost bd: nat, x: Ref): (r: Option<Ref>)
    requires Walkable(nodes, ch, pa, de, bd) && x in ch
    ensures var ws := CollectWindows(nodes, ch, pa, de, bd, x);
            r == if ws == [] then None else Some(ws[0])
    decreases bd - de[x], 1
  {
    if nodes[x].IsWindow() then Some(x) else FirstWindowFrom(nodes, ch, pa, de, bd, x, 0)
  }

  function FirstWindowFrom(nodes: map<Ref, Node>, ch: map<Ref, seq<Ref>>, ghost pa: map<Ref, Option<Ref>>,
                           ghost de: map<Ref, nat>, ghost bd: nat, x: Ref, i: nat): (r: Option<Ref>)
    requires Walkable(nodes, ch, pa, de, bd) && x in ch && i <= |ch[x]|
    ensures var ws := CollectFrom(nodes, ch, pa, de, bd, x, i);
            r == if ws == [] then None else Some(ws[0])
    decreases bd - de[x], 0, |ch[x]| - i
  {
    if i == |ch[x]| then None
    else
      var c := ch[x][i];
      ChildStep(ch, pa, de, bd, x, i);
      match FindFirstWindow(nodes, ch, pa, de, bd, c)
      case Some(w) => Some(w)
      case None => FirstWindowFrom(nodes, ch, pa, de, bd, x, i + 1)
  }

  /** The windows `CollectWindows` lists are windows of the subtree, each listed once. */
  lemma CollectedWindows(nodes: map<Ref, Node>, ch: map<Ref, seq<Ref>>, pa: map<Ref, Option<Ref>>,
                         de: map<Ref, nat>, bd: nat, x: Ref, w: Ref)
    requires Walkable(nodes, ch, pa, de, bd) && x in ch
    ensures w in CollectWindows(nodes, ch, pa, de, bd, x) <==>
              w in ch && Below(pa, de, w, x) && nodes[w].IsWindow()
  {
    var pre := PreOrder(ch, pa, de, bd, x);
    FilterKeeps(pre, IsWindowIn(nodes), w);
    WalkBelow(ch, pa, de, bd, x);
    if w in ch && Below(pa, de, w, x) && nodes[w].IsWindow() && w != x {
      WalkCovers(ch, pa, de, bd, x, w);
    }
  }

  /** Every container strictly below `x` occurs in `Walk(x)`. */
  lemma {:induction false} WalkCovers(ch: map<Ref, seq<Ref>>, pa: map<Ref, Option<Ref>>, de: map<Ref, nat>, bd: nat,
                                      x: Ref, y: Ref)
    requires LinkedMaps(ch, pa, de, bd) && x in ch && y in pa && Below(pa, de, y, x) && y != x
    ensures y in Walk(ch, pa, de, bd, x)
    decreases bd - de[x]
  {
    var c := BelowChild(pa, de, y, x);
    var j := IndexOf(ch[x], c);
    WalkFromCovers(ch, pa, de, bd, x, 0, j);
    ChildStep(ch, pa, de, bd, x, j);
    if y != c {
      WalkCovers(ch, pa, de, bd, c, y);
    }
  }

  /** The walk from child `i` contains the subtree of every later child `j`. */
  lemma {:induction false} WalkFromCovers(ch: map<Ref, seq<Ref>>, pa: map<Ref, Option<Ref>>, de: map<Ref, nat>,
                                          bd: nat, x: Ref, i: nat, j: nat)
    requires LinkedMaps(ch, pa, de, bd) && x in ch && i <= j < |ch[x]|
    ensures ch[x][j] in ch
    ensures forall y :: y in PreOrder(ch, pa, de, bd, ch[x][j]) ==> y in WalkFrom(ch, pa, de, bd, x, i)
    decreases j - i
  {
    ChildStep(ch, pa, de, bd, x, i);
    if i < j {
      WalkFromCovers(ch, pa, de, bd, x, i + 1, j);
    }
  }

  /** The first workspace at or above `x` (findWorkspaceForContainer, core.ts:33-42 and
      workspace.ts:38-50). */
  ghost function NearestWorkspace(nodes: map<Ref, Node>, pa: map<Ref, Option<Ref>>, de: map<Ref, nat>, x: Ref)
    : Option<Ref>
    requires DepthSteps(pa, de) && pa.Keys == de.Keys && pa.Keys <= nodes.Keys && x in pa
    decreases de[x]
  {
    if nodes[x].Kind() == Workspace then Some(x)
    else if pa[x].None? then None
    else NearestWorkspace(nodes, pa, de, pa[x].value)
  }

  /** The nearest workspace is a workspace at or above `x` that lies below every other
      workspace above `x`; there is none only when no container above `x` is a workspace. */
  lemma {:induction false} NearestWorkspaceIs(nodes: map<Ref, Node>, pa: map<Ref, Option<Ref>>, de: map<Ref, nat>,
                                              x: Ref)
    requires DepthSteps(pa, de) && pa.Keys == de.Keys && pa.Keys <= nodes.Keys && x in pa
    ensures var r := NearestWorkspace(nodes, pa, de, x);
            (r.Some? ==> r.value in pa && nodes[r.value].Kind() == Workspace && Below(pa, de, x, r.value))
            && (r.Some? ==> forall a :: a in pa && Below(pa, de, x, a) && nodes[a].Kind() == Workspace ==>
                                          Below(pa, de, r.value, a))
            && (r.None? ==> forall a :: a in pa && Below(pa, de, x, a) ==> nodes[a].Kind() != Workspace)
    decreases de[x]
  {
    if nodes[x].Kind() != Workspace && pa[x].Some? {
      NearestWorkspaceIs(nodes, pa, de, pa[x].value);
    }
  }

  /** The upward loop of findWorkspaceForContainer. */
  method FindWorkspaceForContainer(nodes: map<Ref, Node>, pa: map<Ref, Option<Ref>>, ghost de: map<Ref, nat>, x: Ref)
    returns (w: Option<Ref>)
    requires DepthSteps(pa, de) && pa.Keys == de.Keys && pa.Keys <= nodes.Keys && x in pa
    ensures w == NearestWorkspace(nodes, pa, de, x)
  {
    var current := Some(x);
    while current.Some?
      invariant current.Some? ==> current.value in pa
      invariant NearestWorkspace(nodes, pa, de, x) ==
                  if current.None? then None else NearestWorkspace(nodes, pa, de, current.value)
      decreases if current.Some? then de[current.value] + 1 else 0
    {
      var c := current.value;
      if nodes[c].Kind() == Workspace {
        return Some(c);
      }
      current := pa[c];
    }
    return None;
  }

  // ---- Workspaces under the outputs

  predicate IsWorkspaceIn(nodes: map<Ref, Node>, r: Ref) {
    r in nodes && nodes[r].Kind() == Workspace
  }

  /** The workspace children of the containers `outs`, in order; with `outputsOnly`, the
      members of `outs` that are not Outputs are skipped. */
  function WorkspacesUnder(nodes: map<Ref, Node>, ch: map<Ref, seq<Ref>>, outs: seq<Ref>, outputsOnly: bool)
    : (ws: seq<Ref>)
    ensures forall w :: w in ws ==> IsWorkspaceIn(nodes, w)
  {
    if outs == [] then []
    else
      var o := outs[0];
      var own := if o in ch && (!outputsOnly || (o in nodes && nodes[o].Kind() == Output))
                 then WorkspacesOf(nodes, ch[o]) else [];
      own + WorkspacesUnder(nodes, ch, outs[1..], outputsOnly)
  }

  /** The workspaces among `cs`, in order. */
  function WorkspacesOf(nodes: map<Ref, Node>, cs: seq<Ref>): (ws: seq<Ref>)
    ensures forall w :: w in ws ==> IsWorkspaceIn(nodes, w)
  {
    if cs == [] then [] else (if IsWorkspaceIn(nodes, cs[0]) then [cs[0]] else []) + WorkspacesOf(nodes, cs[1..])
  }

  /** The first member of `s` whose fields satisfy `q`. */
  function FirstOf(nodes: map<Ref, Node>, s: seq<Ref>, q: Node -> bool): (r: Option<Ref>)
    ensures r.Some? ==> r.value in s && r.value in nodes && q(nodes[r.value])
    ensures r.None? ==> forall y :: y in s && y in nodes ==> !q(nodes[y])
  {
    if s == [] then None
    else if s[0] in nodes && q(nodes[s[0]]) then Some(s[0])
    else FirstOf(nodes, s[1..], q)
  }

  lemma {:induction false} FirstOfAppend(nodes: map<Ref, Node>, a: seq<Ref>, b: seq<Ref>, q: Node -> bool)
    ensures FirstOf(nodes, a + b, q) == if FirstOf(nodes, a, q).Some? then FirstOf(nodes, a, q) else FirstOf(nodes, b, q)
  {
    if a == [] {
      assert a + b == b;
    } else {
      assert (a + b)[0] == a[0];
      assert (a + b)[1..] == a[1..] + b;
      FirstOfAppend(nodes, a[1..], b, q);
    }
  }

  lemma WorkspacesUnderNext(nodes: map<Ref, Node>, ch: map<Ref, seq<Ref>>, outs: seq<Ref>, i: nat, outputsOnly: bool)
    requires i < |outs|
    ensures WorkspacesUnder(nodes, ch, outs[i..], outputsOnly) ==
              WorkspacesUnder(nodes, ch, [outs[i]], outputsOnly) + WorkspacesUnder(nodes, ch, outs[i + 1..], outputsOnly)
  {
    assert outs[i..][1..] == outs[i + 1..];
    assert [outs[i]][1..] == [];
  }

  /** The workspaces under a single output. */
  lemma WorkspacesUnderOne(nodes: map<Ref, Node>, ch: map<Ref, seq<Ref>>, o: Ref, outputsOnly: bool)
    ensures WorkspacesUnder(nodes, ch, [o], outputsOnly) ==
              if o in ch && (!outputsOnly || (o in nodes && nodes[o].Kind() == Output))
              then WorkspacesOf(nodes, ch[o]) else []
  {
    assert [o][1..] == [];
  }

  /** The workspace children of one output from the `j`-th child on. */
  lemma WorkspacesOfFrom(nodes: map<Ref, Node>, cs: seq<Ref>, j: nat)
    requires j < |cs|
    ensures WorkspacesOf(nodes, cs[j..]) ==
              (if IsWorkspaceIn(nodes, cs[j]) then [cs[j]] else []) + WorkspacesOf(nodes, cs[j + 1..])
  {
    assert cs[j..][1..] == cs[j + 1..];
  }

  /** The nested search loops of findWorkspaceByNumber (core.ts:44-56) and
      findWorkspaceByName (workspace.ts:12-36): outputs in order, then their workspace
      children in order; the first workspace whose fields satisfy `q`. */
  method SearchWorkspaces(nodes: map<Ref, Node>, ch: map<Ref, seq<Ref>>, root: Ref, q: Node -> bool)
    returns (w: Option<Ref>)
    requires root in ch
    ensures w == FirstOf(nodes, WorkspacesUnder(nodes, ch, ch[root], true), q)
  {
    var outs := ch[root];
    var i := 0;
    while i < |outs|
      invariant 0 <= i <= |outs|
      invariant FirstOf(nodes, WorkspacesUnder(nodes, ch, outs, true), q) ==
                  FirstOf(nodes, WorkspacesUnder(nodes, ch, outs[i..], true), q)
    {
      var o := outs[i];
      WorkspacesUnderNext(nodes, ch, outs, i, true);
      FirstOfAppend(nodes, WorkspacesUnder(nodes, ch, [o], true), WorkspacesUnder(nodes, ch, outs[i + 1..], true), q);
      WorkspacesUnderOne(nodes, ch, o, true);
      if o in ch && o in nodes && nodes[o].Kind() == Output {
        w := SearchOutput(nodes, ch[o], q);
        if w.Some? {
          return;
        }
      }
      i := i + 1;
    }
    assert outs[i..] == [];
    return None;
  }

  /** One child further: a matching workspace ends the search, anything else passes it on. */
  lemma SearchOutputStep(nodes: map<Ref, Node>, cs: seq<Ref>, j: nat, q: Node -> bool)
    requires j < |cs|
    ensures FirstOf(nodes, WorkspacesOf(nodes, cs[j..]), q) ==
              if IsWorkspaceIn(nodes, cs[j]) && q(nodes[cs[j]]) then Some(cs[j])
              else FirstOf(nodes, WorkspacesOf(nodes, cs[j + 1..]), q)
  {
    WorkspacesOfFrom(nodes, cs, j);
    FirstOfAppend(nodes, if IsWorkspaceIn(nodes, cs[j]) then [cs[j]] else [], WorkspacesOf(nodes, cs[j + 1..]), q);
  }

  /** The inner loop of the search: the workspace children of one output, in order. */
  method SearchOutput(nodes: map<Ref, Node>, cs: seq<Ref>, q: Node -> bool) returns (w: Option<Ref>)
    ensures w == FirstOf(nodes, WorkspacesOf(nodes, cs), q)
  {
    var j := 0;
    while j < |cs|
      invariant 0 <= j <= |cs|
      invariant FirstOf(nodes, WorkspacesOf(nodes, cs), q) == FirstOf(nodes, WorkspacesOf(nodes, cs[j..]), q)
    {
      SearchOutputStep(nodes, cs, j, q);
      if IsWorkspaceIn(nodes, cs[j]) && q(nodes[cs[j]]) {
        return Some(cs[j]);
      }
      j := j + 1;
    }
    return None;
  }

  // ---- The geometric neighbour search

  datatype Direction = Left | Right | Up | Down {
    predicate Horizontal() { this == Left || this == Right }
  }

  /** The direction words the search understands; any other word finds nothing. */
  function DirectionOf(s: string): (d: Option<Direction>)
    ensures d.Some? <==> s in {"left", "right", "up", "down"}
  {
    if s == "left" then Some(Left)
    else if s == "right" then Some(Right)
    else if s == "up" then Some(Up)
    else if s == "down" then Some(Down)
    else None
  }

  /** Twice the centre of a rect (getCenter, core.ts:94-97): doubling keeps every comparison
      and every distance ranking of the source's halved centres, with no fractions. */
  function CentreX2(r: Rect): int { 2 * r.x + r.width }
  function CentreY2(r: Rect): int { 2 * r.y + r.height }

  function Abs(a: int): nat { if a < 0 then -a else a }
  function Max(a: int, b: int): int { if a < b then b else a }
  function Min(a: int, b: int): int { if a < b then a else b }

  /** overlapSize (core.ts:99-104). */
  function OverlapSize(startA: int, endA: int, startB: int, endB: int): (r: int)
    ensures r >= 0
    ensures r > 0 <==> startA < endB && startB < endA && startA < endA && startB < endB
  {
    Max(0, Min(endA, endB) - Max(startA, startB))
  }

  /** isCandidate (core.ts:114-128): the centre lies strictly on the requested side. */
  predicate OnSide(d: Direction, cur: Rect, w: Rect) {
    match d
    case Left => CentreX2(w) < CentreX2(cur)
    case Right => CentreX2(w) > CentreX2(cur)
    case Up => CentreY2(w) < CentreY2(cur)
    case Down => CentreY2(w) > CentreY2(cur)
  }

  /** overlapsAxis (core.ts:163-187): a positive overlap on the cross axis. */
  predicate OverlapsAxis(d: Direction, cur: Rect, w: Rect) {
    if d.Horizontal() then OverlapSize(w.y, w.y + w.height, cur.y, cur.y + cur.height) > 0
    else OverlapSize(w.x, w.x + w.width, cur.x, cur.x + cur.width) > 0
  }

  /** The ranking of the reduce (core.ts:195-221): primary distance, secondary distance,
      then y (left/right) or x (up/down), then the container id. */
  datatype Rank = Rank(primary: int, secondary: int, cross: int, id: int)

  function RankOf(d: Direction, cur: Rect, n: Node): Rank {
    var dx, dy := Abs(CentreX2(n.rect) - CentreX2(cur)), Abs(CentreY2(n.rect) - CentreY2(cur));
    if d.Horizontal() then Rank(dx, dy, n.rect.y, n.id) else Rank(dy, dx, n.rect.x, n.id)
  }

  /** `a` ranks strictly before `b`: the candidate replaces the best so far. */
  predicate Before(a: Rank, b: Rank) {
    if a.primary != b.primary then a.primary < b.primary
    else if a.secondary != b.secondary then a.secondary < b.secondary
    else if a.cross != b.cross then a.cross < b.cross
    else a.id < b.id
  }

  lemma BeforeOrder(a: Rank, b: Rank, c: Rank)
    ensures !Before(a, a)
    ensures Before(a, b) && Before(b, c) ==> Before(a, c)
    ensures Before(a, b) && !Before(c, b) ==> Before(a, c)
    ensures !Before(a, b) && !Before(b, a) ==> a == b
  {
  }

  /** Index of the best of `s[..i]`-so-far `b`, carried through the rest of `s`. */
  function BestFrom(nodes: map<Ref, Node>, d: Direction, cur: Rect, s: seq<Ref>, i: nat, b: nat): (k: nat)
    requires b < i <= |s| && forall y :: y in s ==> y in nodes
    ensures k < |s|
    decreases |s| - i
  {
    if i == |s| then b
    else BestFrom(nodes, d, cur, s, i + 1,
                  if Before(RankOf(d, cur, nodes[s[i]]), RankOf(d, cur, nodes[s[b]])) then i else b)
  }

  /** `b` is the best of `s[..i]`: nothing ranks before it, and everything before it ranks
      strictly after it. */
  ghost predicate BestSoFar(nodes: map<Ref, Node>, d: Direction, cur: Rect, s: seq<Ref>, i: nat, b: nat)
    requires b < i <= |s| && forall y :: y in s ==> y in nodes
  {
    (forall j :: 0 <= j < i ==> !Before(RankOf(d, cur, nodes[s[j]]), RankOf(d, cur, nodes[s[b]])))
    && (forall j :: 0 <= j < b ==> Before(RankOf(d, cur, nodes[s[b]]), RankOf(d, cur, nodes[s[j]])))
  }

  lemma {:induction false} BestFromIsBest(nodes: map<Ref, Node>, d: Direction, cur: Rect, s: seq<Ref>, i: nat, b: nat)
    requires b < i <= |s| && forall y :: y in s ==> y in nodes
    requires BestSoFar(nodes, d, cur, s, i, b)
    ensures BestSoFar(nodes, d, cur, s, |s|, BestFrom(nodes, d, cur, s, i, b))
    decreases |s| - i
  {
    if i < |s| {
      var ri, rb := RankOf(d, cur, nodes[s[i]]), RankOf(d, cur, nodes[s[b]]);
      if Before(ri, rb) {
        forall j | 0 <= j < i + 1 ensures !Before(RankOf(d, cur, nodes[s[j]]), ri) {
          BeforeOrder(RankOf(d, cur, nodes[s[j]]), ri, rb);
        }
        forall j | 0 <= j < i ensures Before(ri, RankOf(d, cur, nodes[s[j]])) {
          BeforeOrder(ri, rb, RankOf(d, cur, nodes[s[j]]));
        }
        BestFromIsBest(nodes, d, cur, s, i + 1, i);
      } else {
        BestFromIsBest(nodes, d, cur, s, i + 1, b);
      }
    }
  }

  /** The reduce over the preferred windows, which starts from the first one. */
  function Best(nodes: map<Ref, Node>, d: Direction, cur: Rect, s: seq<Ref>): (w: Ref)
    requires |s| > 0 && forall y :: y in s ==> y in nodes
  {
    s[BestFrom(nodes, d, cur, s, 1, 0)]
  }

  /** The reduce finds a window no other ranks before, and every window ahead of it in the
      list ranks strictly after it: ties go to the earliest. */
  lemma BestIsBest(nodes: map<Ref, Node>, d: Direction, cur: Rect, s: seq<Ref>)
    requires |s| > 0 && forall y :: y in s ==> y in nodes
    ensures var k := BestFrom(nodes, d, cur, s, 1, 0);
            Best(nodes, d, cur, s) == s[k]
            && (forall j :: 0 <= j < |s| ==> !Before(RankOf(d, cur, nodes[s[j]]), RankOf(d, cur, nodes[s[k]])))
            && (forall j :: 0 <= j < k ==> Before(RankOf(d, cur, nodes[s[k]]), RankOf(d, cur, nodes[s[j]])))
  {
    BeforeOrder(RankOf(d, cur, nodes[s[0]]), RankOf(d, cur, nodes[s[0]]), RankOf(d, cur, nodes[s[0]]));
    BestFromIsBest(nodes, d, cur, s, 1, 0);
  }

  /** The search over a list of candidate windows: those on the requested side, then those
      among them overlapping on the cross axis, then the best ranked. */
  function Neighbour(nodes: map<Ref, Node>, candidates: seq<Ref>, cur: Rect, direction: string): (r: Option<Ref>)
    requires forall y :: y in candidates ==> y in nodes
  {
    match DirectionOf(direction)
    case None => None
    case Some(d) =>
      var matches := Filter(candidates, (w: Ref) => w in nodes && OnSide(d, cur, nodes[w].rect));
      if matches == [] then None
      else
        var preferred := Filter(matches, (w: Ref) => w in nodes && OverlapsAxis(d, cur, nodes[w].rect));
        if preferred == [] then None
        else Some(Best(nodes, d, cur, preferred))
  }

  /** A window the search may return from `current`. */
  ghost predicate Qualifies(nodes: map<Ref, Node>, current: Ref, d: Direction, w: Ref)
    requires current in nodes && w in nodes
  {
    w != current && OnSide(d, nodes[current].rect, nodes[w].rect) && OverlapsAxis(d, nodes[current].rect, nodes[w].rect)
  }

  /** findDirectionalWindow (core.ts:106-222): the windows of `scope` other than `current`,
      searched from `current`'s rect. */
  function FindDirectionalWindow(nodes: map<Ref, Node>, ch: map<Ref, seq<Ref>>, ghost pa: map<Ref, Option<Ref>>,
                                 ghost de: map<Ref, nat>, ghost bd: nat, scope: Ref, current: Ref,
                                 direction: string): (r: Option<Ref>)
    requires Walkable(nodes, ch, pa, de, bd) && scope in ch && current in nodes
  {
    var windows := CollectWindows(nodes, ch, pa, de, bd, scope);
    var candidates := Filter(windows, (w: Ref) => w != current);
    Neighbour(nodes, candidates, nodes[current].rect, direction)
  }

  /** The search over candidate windows: an unknown direction finds nothing; a result is a
      candidate that qualifies and no qualifying candidate ranks before it; there is no
      result only when no candidate qualifies. */
  lemma NeighbourSpec(nodes: map<Ref, Node>, candidates: seq<Ref>, current: Ref, direction: string)
    requires current in nodes && forall y :: y in candidates ==> y in nodes
    ensures var r := Neighbour(nodes, candidates, nodes[current].rect, direction);
            && (DirectionOf(direction).None? ==> r.None?)
            && (r.Some? ==> var d := DirectionOf(direction).value;
                  r.value in candidates && Qualifies(nodes, current, d, r.value)
                  && forall w :: w in candidates && Qualifies(nodes, current, d, w) ==>
                                   !Before(RankOf(d, nodes[current].rect, nodes[w]),
                                           RankOf(d, nodes[current].rect, nodes[r.value])))
            && (r.None? && DirectionOf(direction).Some? ==>
                  forall w :: w in candidates && w != current ==> !Qualifies(nodes, current, DirectionOf(direction).value, w))
  {
    var cur := nodes[current].rect;
    if DirectionOf(direction).Some? {
      var d := DirectionOf(direction).value;
      var side := (w: Ref) => w in nodes && OnSide(d, cur, nodes[w].rect);
      var over := (w: Ref) => w in nodes && OverlapsAxis(d, cur, nodes[w].rect);
      var matches := Filter(candidates, side);
      var preferred := Filter(matches, over);
      forall w | w in nodes
        ensures w in preferred <==> w in candidates && OnSide(d, cur, nodes[w].rect) && OverlapsAxis(d, cur, nodes[w].rect)
      {
        FilterKeeps(candidates, side, w);
        FilterKeeps(matches, over, w);
      }
      if preferred != [] {
        BestIsBest(nodes, d, cur, preferred);
        var k := BestFrom(nodes, d, cur, preferred, 1, 0);
        forall w | w in candidates && Qualifies(nodes, current, d, w)
          ensures !Before(RankOf(d, cur, nodes[w]), RankOf(d, cur, nodes[preferred[k]]))
        {
          var j :| 0 <= j < |preferred| && preferred[j] == w;
        }
      } else {
        forall w | w in candidates && w != current
          ensures !Qualifies(nodes, current, d, w)
        {
          assert w !in preferred;
        }
      }
    }
  }

  /** What findDirectionalWindow promises: an unknown direction finds nothing; a result is a
      window of the scope other than `current`, strictly on the requested side, overlapping
      it on the cross axis, and no such window ranks before it; there is no result only
      when no window of the scope qualifies. */
  lemma DirectionalSpec(nodes: map<Ref, Node>, ch: map<Ref, seq<Ref>>, pa: map<Ref, Option<Ref>>,
                        de: map<Ref, nat>, bd: nat, scope: Ref, current: Ref, direction: string)
    requires Walkable(nodes, ch, pa, de, bd) && scope in ch && current in nodes
    ensures var r := FindDirectionalWindow(nodes, ch, pa, de, bd, scope, current, direction);
            && (DirectionOf(direction).None? ==> r.None?)
            && (r.Some? ==> var d := DirectionOf(direction).value;
                  r.value in ch && Below(pa, de, r.value, scope) && nodes[r.value].IsWindow()
                  && Qualifies(nodes, current, d, r.value)
                  && forall w :: w in ch && Below(pa, de, w, scope) && nodes[w].IsWindow() &&
                                 Qualifies(nodes, current, d, w) ==>
                                   !Before(RankOf(d, nodes[current].rect, nodes[w]),
                                           RankOf(d, nodes[current].rect, nodes[r.value])))
            && (r.None? && DirectionOf(direction).Some? ==>
                  forall w :: w in ch && Below(pa, de, w, scope) && nodes[w].IsWindow() ==>
                    !Qualifies(nodes, current, DirectionOf(direction).value, w))
  {
    var windows := CollectWindows(nodes, ch, pa, de, bd, scope);
    var notCur := (w: Ref) => w != current;
    var candidates := Filter(windows, notCur);
    forall w | w in windows ensures w in nodes {
      FilterKeeps(PreOrder(ch, pa, de, bd, scope), IsWindowIn(nodes), w);
    }
    forall w ensures w in candidates <==> w in ch && Below(pa, de, w, scope) && nodes[w].IsWindow() && w != current {
      CollectedWindows(nodes, ch, pa, de, bd, scope, w);
      FilterKeeps(windows, notCur, w);
    }
    NeighbourSpec(nodes, candidates, current, direction);
  }
}
