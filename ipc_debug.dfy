/** The debug payload the IPC server reports (src/ipc/debug.ts): facts about the tree read
    off a depth-first walk, next to the monitor, IPC, extension, window and version
    records, which are passed through. */
module IpcDebug {
  import opened Wrappers
  import opened Containers
  import opened Arena
  import opened Tree

  datatype DebugMonitors = DebugMonitors(layoutManagerCount: int, displayCount: int, workAreas: seq<Rect>)
  datatype DebugIpc = DebugIpc(socketPath: Option<string>, pid: int)
  datatype DebugVersion = DebugVersion(uuid: string, version: Option<string>)
  datatype DebugExtension = DebugExtension(rebuildCount: int, lastRebuildReason: string, lastRebuildMonitors: int,
                                           lastRebuildOutputs: int, pollAttempts: int, lastPollMonitors: int,
                                           lastPollOutputs: int, pollingActive: bool)
  datatype DebugWindowInfo = DebugWindowInfo(id: int, title: string, wmClass: Option<string>, windowType: int,
                                             maximized: bool, frameRect: Rect, minWidth: int, minHeight: int,
                                             canMove: bool, canResize: bool)

  datatype TreeInfo = TreeInfo(outputs: nat, hasWorkspace: bool, containerTypes: seq<Kind>)
  datatype FocusInfo = FocusInfo(focusedContainerId: Option<int>, focusedWindowId: Option<int>)

  datatype DebugPayload = DebugPayload(ipc: DebugIpc, monitors: DebugMonitors, extension: DebugExtension,
                                       tree: TreeInfo, focus: FocusInfo, trackedWindows: nat,
                                       windows: seq<DebugWindowInfo>, version: DebugVersion)

  /** What the visitors of src/ipc/debug.ts:92-131 have gathered so far: the kinds seen, the
      Output, Workspace and Window counts, and the last focused node's id and last focused
      window's windowId. */
  datatype Tally = Tally(types: seq<Kind>, outputs: nat, workspaces: nat, windows: nat,
                         focusedId: Option<int>, focusedWindowId: Option<int>)

  const EmptyTally := Tally([], 0, 0, 0, None, None)

  /** Every visitor applied to one node; a focused node overwrites what an earlier one set. */
  function Step(acc: Tally, n: Node): Tally {
    Tally(acc.types + [n.Kind()],
          acc.outputs + (if n.Kind() == Output then 1 else 0),
          acc.workspaces + (if n.Kind() == Workspace then 1 else 0),
          acc.windows + (if n.Kind() == Window then 1 else 0),
          if n.focused then Some(n.id) else acc.focusedId,
          if n.Kind() == Window && n.focused then Some(n.extra.windowId) else acc.focusedWindowId)
  }

  /** The tally after visiting `s` in order. */
  function Visit(acc: Tally, nodes: map<Ref, Node>, s: seq<Ref>): Tally
    requires forall y :: y in s ==> y in nodes
    decreases |s|
  {
    if s == [] then acc else Visit(Step(acc, nodes[s[0]]), nodes, s[1..])
  }

  lemma {:induction false} VisitAppend(acc: Tally, nodes: map<Ref, Node>, a: seq<Ref>, b: seq<Ref>)
    requires forall y :: y in a + b ==> y in nodes
    ensures Visit(acc, nodes, a + b) == Visit(Visit(acc, nodes, a), nodes, b)
    decreases |a|
  {
    if a == [] {
      assert a + b == b;
    } else {
      assert (a + b)[0] == a[0] && (a + b)[1..] == a[1..] + b;
      VisitAppend(Step(acc, nodes[a[0]]), nodes, a[1..], b);
    }
  }

  // ---- What the walk reports, stated without the walk

  function Kinds(nodes: map<Ref, Node>, s: seq<Ref>): (ks: seq<Kind>)
    requires forall y :: y in s ==> y in nodes
    ensures |ks| == |s| && forall k :: 0 <= k < |s| ==> ks[k] == nodes[s[k]].Kind()
  {
    seq(|s|, k requires 0 <= k < |s| => nodes[s[k]].Kind())
  }

  /** How many members of `s` have kind `kind`. */
  function CountKind(nodes: map<Ref, Node>, s: seq<Ref>, kind: Kind): nat
    requires forall y :: y in s ==> y in nodes
  {
    if s == [] then 0 else (if nodes[s[0]].Kind() == kind then 1 else 0) + CountKind(nodes, s[1..], kind)
  }

  /** The last member of `s` satisfying `q`. */
  function LastWhere(nodes: map<Ref, Node>, s: seq<Ref>, q: Node -> bool): (r: Option<Ref>)
    requires forall y :: y in s ==> y in nodes
    ensures r.Some? ==> r.value in s && q(nodes[r.value])
  {
    if s == [] then None
    else
      var rest := LastWhere(nodes, s[1..], q);
      if rest.Some? then rest else if q(nodes[s[0]]) then Some(s[0]) else None
  }

  function IsFocusedWindow(n: Node): bool {
    n.Kind() == Window && n.focused
  }

  /** The last member of `s` satisfying `q` is one that does, and no later member does;
      there is none only when no member does. */
  lemma {:induction false} LastWhereIs(nodes: map<Ref, Node>, s: seq<Ref>, q: Node -> bool)
    requires forall y :: y in s ==> y in nodes
    ensures LastWhere(nodes, s, q).None? <==> forall k :: 0 <= k < |s| ==> !q(nodes[s[k]])
    ensures LastWhere(nodes, s, q).Some? ==>
              exists k :: 0 <= k < |s| && s[k] == LastWhere(nodes, s, q).value && q(nodes[s[k]])
                          && forall j :: k < j < |s| ==> !q(nodes[s[j]])
  {
    if s != [] {
      var t := s[1..];
      LastWhereIs(nodes, t, q);
      assert forall k :: 0 < k < |s| ==> s[k] == t[k - 1];
      var r := LastWhere(nodes, s, q);
      if LastWhere(nodes, t, q).Some? {
        var k :| 0 <= k < |t| && t[k] == r.value && q(nodes[t[k]]) && forall j :: k < j < |t| ==> !q(nodes[t[j]]);
        assert s[k + 1] == r.value;
        assert forall j :: k + 1 < j < |s| ==> !q(nodes[s[j]]) by {
          forall j | k + 1 < j < |s| ensures !q(nodes[s[j]]) {
            assert s[j] == t[j - 1];
          }
        }
      } else if r.Some? {
        assert s[0] == r.value;
      }
    }
  }

  /** The tally after visiting `s` is the kinds of `s` in order, the three counts, and the
      id of the last focused node and windowId of the last focused window of `s`, or what it
      held before when `s` has none. */
  lemma {:induction false} VisitSpec(acc: Tally, nodes: map<Ref, Node>, s: seq<Ref>)
    requires forall y :: y in s ==> y in nodes
    ensures var r := Visit(acc, nodes, s);
            var f := LastWhere(nodes, s, (n: Node) => n.focused);
            var fw := LastWhere(nodes, s, IsFocusedWindow);
            && r.types == acc.types + Kinds(nodes, s)
            && r.outputs == acc.outputs + CountKind(nodes, s, Output)
            && r.workspaces == acc.workspaces + CountKind(nodes, s, Workspace)
            && r.windows == acc.windows + CountKind(nodes, s, Window)
            && r.focusedId == (if f.Some? then Some(nodes[f.value].id) else acc.focusedId)
            && r.focusedWindowId == (if fw.Some? then Some(nodes[fw.value].extra.windowId) else acc.focusedWindowId)
    decreases |s|
  {
    if s != [] {
      VisitSpec(Step(acc, nodes[s[0]]), nodes, s[1..]);
      assert Kinds(nodes, s) == [nodes[s[0]].Kind()] + Kinds(nodes, s[1..]);
    }
  }

  // ---- The walk

  /** walkContainers (src/ipc/debug.ts:82-90) with every visitor at once: each child is
      visited, then walked, in list order. */
  method WalkTally(nodes: map<Ref, Node>, ch: map<Ref, seq<Ref>>, ghost pa: map<Ref, Option<Ref>>,
                   ghost de: map<Ref, nat>, ghost bd: nat, x: Ref, acc0: Tally) returns (acc: Tally)
    requires LinkedMaps(ch, pa, de, bd) && nodes.Keys == ch.Keys && x in ch
    ensures (forall y :: y in Walk(ch, pa, de, bd, x) ==> y in nodes) && acc == Visit(acc0, nodes, Walk(ch, pa, de, bd, x))
    decreases bd - de[x]
  {
    WalkBelow(ch, pa, de, bd, x);
    acc := acc0;
    var i := 0;
    WalkFromBelow(ch, pa, de, bd, x, 0);
    while i < |ch[x]|
      invariant 0 <= i <= |ch[x]|
      invariant forall y :: y in WalkFrom(ch, pa, de, bd, x, i) ==> y in nodes
      invariant Visit(acc, nodes, WalkFrom(ch, pa, de, bd, x, i)) == Visit(acc0, nodes, Walk(ch, pa, de, bd, x))
    {
      var c := ch[x][i];
      ChildStep(ch, pa, de, bd, x, i);
      WalkFromBelow(ch, pa, de, bd, x, i + 1);
      VisitAppend(acc, nodes, PreOrder(ch, pa, de, bd, c), WalkFrom(ch, pa, de, bd, x, i + 1));
      assert ([c] + Walk(ch, pa, de, bd, c))[1..] == Walk(ch, pa, de, bd, c);
      acc := Step(acc, nodes[c]);
      acc := WalkTally(nodes, ch, pa, de, bd, c, acc);
      i := i + 1;
    }
  }

  /** buildDebugPayload (src/ipc/debug.ts:133-185): without a root the tree facts are zero,
      false, empty and null; with one they come from the walk below the root, which leaves
      the root itself out. The other records are passed through. */
  method BuildDebugPayload(t: Tree, root: Option<Ref>, monitors: DebugMonitors, ipc: DebugIpc,
                           extension: DebugExtension, windows: seq<DebugWindowInfo>, version: DebugVersion)
    returns (p: DebugPayload)
    requires t.Valid() && (root.Some? ==> root.value in t.nodes)
    ensures p.ipc == ipc && p.monitors == monitors && p.extension == extension && p.windows == windows
            && p.version == version
    ensures root.None? ==> p.tree == TreeInfo(0, false, []) && p.focus == FocusInfo(None, None) && p.trackedWindows == 0
    ensures root.Some? ==>
              var s := Walk(t.children, t.parent, t.depth, t.bound, root.value);
              && (forall y :: y in s ==> y in t.nodes)
              && p.tree == TreeInfo(CountKind(t.nodes, s, Output), CountKind(t.nodes, s, Workspace) > 0,
                                    Kinds(t.nodes, s))
              && p.trackedWindows == CountKind(t.nodes, s, Window)
              && p.focus == FocusInfo(var f := LastWhere(t.nodes, s, (n: Node) => n.focused);
                                      if f.Some? then Some(t.nodes[f.value].id) else None,
                                      var fw := LastWhere(t.nodes, s, IsFocusedWindow);
                                      if fw.Some? then Some(t.nodes[fw.value].extra.windowId) else None)
  {
    if root.None? {
      return DebugPayload(ipc, monitors, extension, TreeInfo(0, false, []), FocusInfo(None, None), 0, windows, version);
    }
    var tally := WalkTally(t.nodes, t.children, t.parent, t.depth, t.bound, root.value, EmptyTally);
    VisitSpec(EmptyTally, t.nodes, Walk(t.children, t.parent, t.depth, t.bound, root.value));
    p := DebugPayload(ipc, monitors, extension,
                      TreeInfo(tally.outputs, tally.workspaces > 0, tally.types),
                      FocusInfo(tally.focusedId, tally.focusedWindowId),
                      tally.windows, windows, version);
  }
}
