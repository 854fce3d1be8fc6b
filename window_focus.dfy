/** Following the compositor's focused window into the tree (src/window-tracker-focus.ts). */
module WindowFocus {
  import opened Wrappers
  import opened Containers
  import opened Arena
  import opened Tree
  import opened Focus
  import opened Navigation
  import opened WindowWorkspace

  /** The compositor window as far as focus tracking reads it: `get_id()` when it has one,
      its stable sequence number, and what `get_workspace()` returns. */
  datatype MetaWindow = MetaWindow(getId: Option<int>, stableSequence: int, workspace: Option<WorkspaceLike>)

  /** getWindowId (src/window-tracker-focus.ts:8-14): `get_id()` when available, else the
      stable sequence number. */
  function WindowIdOf(w: MetaWindow): (id: int)
    ensures id == w.getId.GetOr(w.stableSequence)
  {
    if w.getId.Some? then w.getId.value else w.stableSequence
  }

  /** `nodes` with workspace `w`'s lastFocusedWindowId set to `id`; unchanged without a
      workspace. */
  function Stamped(nodes: map<Ref, Node>, w: Option<Ref>, id: int): map<Ref, Node> {
    if w.Some? && w.value in nodes && nodes[w.value].extra.WorkspaceData?
    then nodes[w.value := nodes[w.value].(extra := nodes[w.value].extra.(lastFocusedWindowId := Some(id)))]
    else nodes
  }

  /** The workspace that records the focused container `c`: the one numbered `index + 1`
      when the compositor reports an index and such a workspace exists, else the nearest
      workspace at or above `c`. */
  ghost function TrackedWorkspace(nodes: map<Ref, Node>, ch: map<Ref, seq<Ref>>, pa: map<Ref, Option<Ref>>,
                                  de: map<Ref, nat>, root: Ref, index: Option<int>, c: Ref): Option<Ref>
    requires root in ch && DepthSteps(pa, de) && pa.Keys == de.Keys && pa.Keys <= nodes.Keys && c in pa
  {
    var byIndex := if index.Some? then FirstOf(nodes, WorkspacesUnder(nodes, ch, ch[root], true), NumberIs(index.value + 1))
                   else None;
    if byIndex.Some? then byIndex else NearestWorkspace(nodes, pa, de, c)
  }

  /** The container the window map gives for the focused window, if any. */
  function FocusedContainer(windowMap: map<int, Ref>, focusedWindow: Option<MetaWindow>): (c: Option<Ref>)
    ensures c.Some? <==> focusedWindow.Some? && WindowIdOf(focusedWindow.value) in windowMap
    ensures c.Some? ==> c.value == windowMap[WindowIdOf(focusedWindow.value)]
  {
    if focusedWindow.Some? && WindowIdOf(focusedWindow.value) in windowMap
    then Some(windowMap[WindowIdOf(focusedWindow.value)]) else None
  }

  /** updateFocusedWindow (src/window-tracker-focus.ts:16-48): focus under `root` moves to the
      window's container (cleared everywhere when there is no focused window or it is not
      tracked); for a tracked window its workspace records the window id. */
  method UpdateFocusedWindow(t: Tree, root: Ref, windowMap: map<int, Ref>, focusedWindow: Option<MetaWindow>)
    requires t.Valid() && root in t.nodes
    requires forall id :: id in windowMap ==> windowMap[id] in t.nodes
    modifies t`nodes
    ensures t.Valid()
    ensures var c := FocusedContainer(windowMap, focusedWindow);
            var focused := FocusResult(old(t.nodes), Subtree(t.parent, t.depth, root), c);
            t.nodes == if c.None? then focused
                       else Stamped(focused, TrackedWorkspace(focused, t.children, t.parent, t.depth, root,
                                                              WorkspaceIndexOf(focusedWindow.value.workspace), c.value),
                                    WindowIdOf(focusedWindow.value))
  {
    var container := FocusedContainer(windowMap, focusedWindow);
    SetFocusedContainer(t, root, container);
    if container.None? {
      return;
    }
    var workspace := LocateWorkspace(t.nodes, t.children, t.parent, t.depth, root,
                                     WorkspaceIndexOf(focusedWindow.value.workspace), container.value);
    StampWorkspace(t, workspace, WindowIdOf(focusedWindow.value));
  }

  /** The workspace lookup of updateFocusedWindow (src/window-tracker-focus.ts:30-43). */
  method LocateWorkspace(nodes: map<Ref, Node>, ch: map<Ref, seq<Ref>>, pa: map<Ref, Option<Ref>>,
                         ghost de: map<Ref, nat>, root: Ref, index: Option<int>, c: Ref)
    returns (workspace: Option<Ref>)
    requires root in ch && DepthSteps(pa, de) && pa.Keys == de.Keys && pa.Keys <= nodes.Keys && c in pa
    ensures workspace == TrackedWorkspace(nodes, ch, pa, de, root, index, c)
    ensures workspace.Some? ==> IsWorkspaceIn(nodes, workspace.value)
  {
    workspace := None;
    if index.Some? {
      workspace := FindWorkspaceByIndex(nodes, ch, root, index.value);
    }
    if workspace.None? {
      workspace := FindWorkspaceForContainer(nodes, pa, de, c);
      NearestWorkspaceIs(nodes, pa, de, c);
    }
  }

  /** Records `id` as the last focused window of workspace `w`. */
  method StampWorkspace(t: Tree, w: Option<Ref>, id: int)
    requires t.Valid() && (w.Some? ==> IsWorkspaceIn(t.nodes, w.value))
    modifies t`nodes
    ensures t.Valid()
    ensures t.nodes == Stamped(old(t.nodes), w, id)
  {
    if w.Some? {
      var n := t.nodes[w.value];
      t.SetNode(w.value, n.(extra := n.extra.(lastFocusedWindowId := Some(id))));
    }
  }

  /** After focusing container `c` and stamping workspace `w`: `c` is focused, nothing else
      of the cleared set is, `w` (when it is a workspace) records `id`, and every node
      outside the cleared set other than `c` and `w` is untouched. */
  lemma FocusedWindowEffect(nodes: map<Ref, Node>, s: set<Ref>, c: Ref, w: Option<Ref>, id: int)
    requires c in nodes
    ensures var after := Stamped(FocusResult(nodes, s, Some(c)), w, id);
            && after.Keys == nodes.Keys
            && after[c].focused
            && (forall y :: y in s && y in nodes && y != c ==> !after[y].focused)
            && (w.Some? && w.value in nodes && nodes[w.value].extra.WorkspaceData? ==>
                  after[w.value].extra.lastFocusedWindowId == Some(id))
            && (forall y :: y in nodes && y !in s && y != c && Some(y) != w ==> after[y] == nodes[y])
  {
    FocusExclusive(nodes, s, Some(c));
  }
}
