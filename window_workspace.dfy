/** Finding a window's workspace (src/window-workspace.ts): the index the compositor reports
    for it, and the workspace container with the matching number. */
module WindowWorkspace {
  import opened Wrappers
  import opened Containers
  import opened Navigation

  /** How the compositor's workspace object exposes its index: an `index()` method, a numeric
      `index` property, or neither. */
  datatype IndexMember = IndexMethod(value: int) | IndexNumber(value: int) | NoIndex

  /** The workspace object: its `index` member and its optional `get_index()`. */
  datatype WorkspaceLike = WorkspaceLike(index: IndexMember, getIndex: Option<int>)

  /** getWorkspaceIndexFromWindow (src/window-workspace.ts:14-35), given what
      `get_workspace()` returned: nothing without a workspace; else `index()`, then
      `get_index()`, then a numeric `index`, else nothing. */
  function WorkspaceIndexOf(workspace: Option<WorkspaceLike>): (r: Option<int>)
    ensures workspace.None? ==> r.None?
    ensures r.Some? <==> workspace.Some? && (!workspace.value.index.NoIndex? || workspace.value.getIndex.Some?)
    ensures workspace.Some? && workspace.value.index.IndexMethod? ==> r == Some(workspace.value.index.value)
    ensures workspace.Some? && !workspace.value.index.IndexMethod? && workspace.value.getIndex.Some? ==>
              r == workspace.value.getIndex
    ensures workspace.Some? && workspace.value.index.IndexNumber? && workspace.value.getIndex.None? ==>
              r == Some(workspace.value.index.value)
  {
    if workspace.None? then None
    else
      var ws := workspace.value;
      if ws.index.IndexMethod? then Some(ws.index.value)
      else if ws.getIndex.Some? then ws.getIndex
      else if ws.index.IndexNumber? then Some(ws.index.value)
      else None
  }

  /** A workspace container numbered `number`. */
  function NumberIs(number: int): Node -> bool {
    (n: Node) => n.extra.WorkspaceData? && n.extra.number == number
  }

  /** findWorkspaceByIndex (src/window-workspace.ts:37-54): the first workspace child, outputs
      in order and then their children in order, numbered `index + 1`; non-Output children of
      the root and non-Workspace children of an output are skipped. */
  method FindWorkspaceByIndex(nodes: map<Ref, Node>, ch: map<Ref, seq<Ref>>, root: Ref, index: int)
    returns (w: Option<Ref>)
    requires root in ch
    ensures w == FirstOf(nodes, WorkspacesUnder(nodes, ch, ch[root], true), NumberIs(index + 1))
  {
    w := SearchWorkspaces(nodes, ch, root, NumberIs(index + 1));
  }

  /** The workspace found for a number is a workspace of the list with that number, and it
      comes before every other such workspace; none is found only when no workspace of the
      list has the number. (WorkspacesUnder lists workspaces only.) */
  lemma FirstNumbered(nodes: map<Ref, Node>, ws: seq<Ref>, number: int)
    ensures var w := FirstOf(nodes, ws, NumberIs(number));
            && (w.Some? ==> w.value in ws && IsWorkspaceIn(nodes, w.value) && nodes[w.value].extra.number == number)
            && (w.Some? ==>
                  forall k :: 0 <= k < |ws| && ws[k] != w.value && IsWorkspaceIn(nodes, ws[k]) && nodes[ws[k]].extra.number == number
                    ==> exists j :: 0 <= j < k && ws[j] == w.value)
            && (w.None? ==> forall y :: y in ws && IsWorkspaceIn(nodes, y) ==> nodes[y].extra.number != number)
  {
    FirstOfIsFirst(nodes, ws, NumberIs(number));
  }

  /** The member FirstOf picks comes before every other member satisfying the test. */
  lemma {:induction false} FirstOfIsFirst(nodes: map<Ref, Node>, s: seq<Ref>, q: Node -> bool)
    ensures FirstOf(nodes, s, q).Some? ==>
              forall k :: 0 <= k < |s| && s[k] in nodes && q(nodes[s[k]]) && s[k] != FirstOf(nodes, s, q).value ==>
                exists j :: 0 <= j < k && s[j] == FirstOf(nodes, s, q).value
  {
    if s != [] && !(s[0] in nodes && q(nodes[s[0]])) {
      FirstOfIsFirst(nodes, s[1..], q);
      var r := FirstOf(nodes, s, q);
      if r.Some? {
        forall k | 0 <= k < |s| && s[k] in nodes && q(nodes[s[k]]) && s[k] != r.value
          ensures exists j :: 0 <= j < k && s[j] == r.value
        {
          assert s[1..][k - 1] == s[k];
          var j :| 0 <= j < k - 1 && s[1..][j] == r.value;
          assert s[j + 1] == r.value;
        }
      }
    }
  }
}
