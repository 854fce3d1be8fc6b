/** reflow over the live tree, and applyLayout (src/tree/apply-layout.ts), which pushes the
    computed rects to the compositor; the adapter calls are recorded in order. */
module ApplyLayout {
  import opened Wrappers
  import opened Containers
  import opened Commands
  import opened Arena
  import opened Tree
  import opened Strategy
  import opened Reflow

  /** The call applyLayout issues for one container of the walk: a moveResize to the current
      rect for a tiled window, nothing for anything else. */
  function CallFor(n: Node): (cs: seq<Call>)
    ensures |cs| <= 1
    ensures cs != [] <==> n.IsWindow() && n.IsTiled()
  {
    if n.IsWindow() && n.IsTiled() then [MoveResize(n.extra.handle, n.rect)] else []
  }

  /** The calls for a sequence of containers, in order. */
  function Emitted(nodes: map<Ref, Node>, s: seq<Ref>): (cs: seq<Call>)
  {
    if s == [] then [] else (if s[0] in nodes then CallFor(nodes[s[0]]) else []) + Emitted(nodes, s[1..])
  }

  lemma {:induction false} EmittedAppend(nodes: map<Ref, Node>, a: seq<Ref>, b: seq<Ref>)
    ensures Emitted(nodes, a + b) == Emitted(nodes, a) + Emitted(nodes, b)
    decreases |a|
  {
    if a == [] {
      assert a + b == b;
    } else {
      assert (a + b)[0] == a[0];
      assert (a + b)[1..] == a[1..] + b;
      EmittedAppend(nodes, a[1..], b);
    }
  }

  /** Every call is a moveResize of a tiled window of `s`, to that window's rect, and each
      tiled window of `s` gets one. */
  lemma {:induction false} EmittedCalls(nodes: map<Ref, Node>, s: seq<Ref>)
    requires forall y :: y in s ==> y in nodes
    ensures forall c :: c in Emitted(nodes, s) ==>
              exists y :: y in s && nodes[y].IsWindow() && nodes[y].IsTiled()
                          && c == MoveResize(nodes[y].extra.handle, nodes[y].rect)
    ensures forall y :: y in s && nodes[y].IsWindow() && nodes[y].IsTiled() ==>
              MoveResize(nodes[y].extra.handle, nodes[y].rect) in Emitted(nodes, s)
  {
    if s != [] {
      EmittedCalls(nodes, s[1..]);
      assert forall y :: y in s ==> y == s[0] || y in s[1..];
    }
  }

  /** applyLayout (src/tree/apply-layout.ts:10-22): for each child in order, a tiled window
      is moved to its rect, a floating one is skipped, and any other container with children
      is visited recursively. The calls are exactly those of the pre-order walk below `x`. */
  method ApplyLayoutAt(nodes: map<Ref, Node>, ch: map<Ref, seq<Ref>>, ghost pa: map<Ref, Option<Ref>>,
                       ghost de: map<Ref, nat>, ghost bd: nat, x: Ref) returns (calls: seq<Call>)
    requires LinkedMaps(ch, pa, de, bd) && WindowsAreLeaves(nodes, ch) && x in ch
    ensures calls == Emitted(nodes, Walk(ch, pa, de, bd, x))
    decreases bd - de[x], 1
  {
    calls := [];
    var i := 0;
    while i < |ch[x]|
      invariant 0 <= i <= |ch[x]|
      invariant calls + Emitted(nodes, WalkFrom(ch, pa, de, bd, x, i)) == Emitted(nodes, Walk(ch, pa, de, bd, x))
    {
      calls := ApplyStep(nodes, ch, pa, de, bd, x, i, calls);
      i := i + 1;
    }
  }

  /** One turn of the loop of applyLayout: the calls for the `i`-th child are appended. */
  method ApplyStep(nodes: map<Ref, Node>, ch: map<Ref, seq<Ref>>, ghost pa: map<Ref, Option<Ref>>,
                   ghost de: map<Ref, nat>, ghost bd: nat, x: Ref, i: nat, calls: seq<Call>)
    returns (calls': seq<Call>)
    requires LinkedMaps(ch, pa, de, bd) && WindowsAreLeaves(nodes, ch) && x in ch && i < |ch[x]|
    requires calls + Emitted(nodes, WalkFrom(ch, pa, de, bd, x, i)) == Emitted(nodes, Walk(ch, pa, de, bd, x))
    ensures calls' + Emitted(nodes, WalkFrom(ch, pa, de, bd, x, i + 1)) == Emitted(nodes, Walk(ch, pa, de, bd, x))
    decreases bd - de[x], 0
  {
    ChildStep(ch, pa, de, bd, x, i);
    var cs := ApplyChild(nodes, ch, pa, de, bd, ch[x][i]);
    EmittedAppend(nodes, PreOrder(ch, pa, de, bd, ch[x][i]), WalkFrom(ch, pa, de, bd, x, i + 1));
    calls' := calls + cs;
  }

  /** The loop body of applyLayout for one child `c`: its calls are those of `c` followed by
      its subtree. */
  method ApplyChild(nodes: map<Ref, Node>, ch: map<Ref, seq<Ref>>, ghost pa: map<Ref, Option<Ref>>,
                    ghost de: map<Ref, nat>, ghost bd: nat, c: Ref) returns (cs: seq<Call>)
    requires LinkedMaps(ch, pa, de, bd) && WindowsAreLeaves(nodes, ch) && c in ch
    ensures cs == Emitted(nodes, PreOrder(ch, pa, de, bd, c))
    decreases bd - de[c], 2
  {
    EmittedAppend(nodes, [c], Walk(ch, pa, de, bd, c));
    if c in nodes && nodes[c].IsWindow() {
      assert Walk(ch, pa, de, bd, c) == [];
      if !nodes[c].extra.floating {
        cs := [MoveResize(nodes[c].extra.handle, nodes[c].rect)];
      } else {
        cs := [];
      }
    } else if |ch[c]| > 0 {
      cs := ApplyLayoutAt(nodes, ch, pa, de, bd, c);
    } else {
      assert Walk(ch, pa, de, bd, c) == [];
      cs := [];
    }
  }

  /** applyLayout on the live tree: it reads the tree and changes nothing; the container
      itself is never moved, only what lies strictly below it. */
  method ApplyLayout(t: Tree, x: Ref) returns (calls: seq<Call>)
    requires t.Valid() && x in t.nodes
    ensures calls == Emitted(t.nodes, t.Walk(x))
    ensures forall y :: y in t.Walk(x) ==> y in t.parent && y != x && t.InSubtree(y, x)
  {
    calls := ApplyLayoutAt(t.nodes, t.children, t.parent, t.depth, t.bound, x);
    WalkBelow(t.children, t.parent, t.depth, t.bound, x);
  }

  /** reflow (src/tree/reflow.ts:10-35) on the live tree: the node map becomes the reflowed
      one, which differs only in rects strictly below `x` and never in a floating window's;
      the links stay as they were. */
  method ReflowTree(t: Tree, x: Ref, gaps: Option<Gaps>)
    requires t.Valid() && x in t.nodes
    modifies t`nodes
    ensures t.Valid()
    ensures t.nodes == Reflowed(old(t.nodes), t.children, t.parent, t.depth, t.bound, x, SplitTiler(gaps))
    ensures Frame(old(t.nodes), t.nodes, t.parent, t.depth, x)
  {
    var out := ReflowAt(t.nodes, t.children, t.parent, t.depth, t.bound, x, gaps);
    ReflowedFrame(t.nodes, t.children, t.parent, t.depth, t.bound, x, SplitTiler(gaps), out);
    OnlyRectsShaped(t.nodes, out, t.children, t.parent, t.depth, t.bound, t.nextRef);
    t.nodes := out;
  }

  /** Changing rects keeps the arena invariant. */
  lemma OnlyRectsShaped(a: map<Ref, Node>, b: map<Ref, Node>, ch: map<Ref, seq<Ref>>, pa: map<Ref, Option<Ref>>,
                        de: map<Ref, nat>, bd: nat, next: Ref)
    requires Shaped(a, ch, pa, de, bd, next) && OnlyRects(a, b)
    ensures Shaped(b, ch, pa, de, bd, next)
  {
    forall r | r in b && b[r].IsWindow() ensures r in ch && ch[r] == [] {
      assert b[r] == a[r].(rect := b[r].rect);
    }
  }
}
