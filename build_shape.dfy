/** The shape TreeBuilder.build leaves behind (src/tree/tree-builder.ts), as predicates
    over the arena maps, and the lemmas that carry it through one turn of the build loop. */
module BuildShape {
  import opened Containers
  import Text

  /** A monitor: its index and its work area (src/tree/tree-builder.ts:8-11). */
  datatype MonitorInfo = MonitorInfo(index: int, workArea: Rect)

  /** Every container carries its own id. */
  ghost predicate DistinctIds(nodes: map<Ref, Node>) {
    forall r1, r2 :: r1 in nodes && r2 in nodes && r1 != r2 ==> nodes[r1].id != nodes[r2].id
  }

  /** No container id exceeds `k`. */
  ghost predicate IdsAtMost(nodes: map<Ref, Node>, k: int) {
    forall r :: r in nodes ==> nodes[r].id <= k
  }

  /** `o` is the Output built for monitor `m`: it holds exactly one visible Workspace named
      and numbered index + 1 with the work area as its rect, which holds exactly one empty
      Alternating Split with the same rect. */
  ghost predicate BuiltOutput(nodes: map<Ref, Node>, ch: map<Ref, seq<Ref>>, o: Ref, m: MonitorInfo) {
    o in nodes && o in ch
    && nodes[o].Kind() == Output
    && nodes[o].extra.monitorIndex == m.index && nodes[o].extra.workArea == m.workArea
    && |ch[o]| == 1
    && var w := ch[o][0];
       w in nodes && w in ch
       && nodes[w].Kind() == Workspace
       && nodes[w].extra.name == Text.IntToString(m.index + 1)
       && nodes[w].extra.number == m.index + 1 && nodes[w].extra.visible
       && nodes[w].rect == m.workArea
       && |ch[w]| == 1
       && var s := ch[w][0];
          s in nodes && s in ch
          && nodes[s].Kind() == Split && nodes[s].layout == Alternating
          && nodes[s].rect == m.workArea && ch[s] == []
  }

  function OutputFor(id: int, m: MonitorInfo): Node {
    OutputNode(id, m.index, m.workArea)
  }

  function WorkspaceFor(id: int, m: MonitorInfo): Node {
    WorkspaceNode(id, Text.IntToString(m.index + 1), m.index + 1, true).(rect := m.workArea)
  }

  function SplitFor(id: int, m: MonitorInfo): Node {
    SplitNode(id, Alternating).(rect := m.workArea)
  }

  /** The node map after one turn of the build loop. */
  function WithMonitor(nodes: map<Ref, Node>, counter: int, m: MonitorInfo, o: Ref, w: Ref, s: Ref): map<Ref, Node> {
    nodes[o := OutputFor(counter + 1, m)][w := WorkspaceFor(counter + 2, m)][s := SplitFor(counter + 3, m)]
  }

  /** The child lists after a new, childless `c` is appended to `p`'s children. */
  function Appended(ch: map<Ref, seq<Ref>>, p: Ref, c: Ref): (r: map<Ref, seq<Ref>>)
    requires p in ch
    ensures r.Keys == ch.Keys + {c}
  {
    ch[c := []][p := ch[p] + [c]]
  }

  /** The child lists after one turn of the build loop. */
  function WithMonitorLinks(ch: map<Ref, seq<Ref>>, root: Ref, o: Ref, w: Ref, s: Ref): map<Ref, seq<Ref>>
    requires root in ch
  {
    Appended(Appended(Appended(ch, root, o), o, w), w, s)
  }

  /** The state the build loop keeps: the root, then one finished Output per monitor seen,
      all ids distinct and none above the counter. */
  ghost predicate Skeleton(nodes: map<Ref, Node>, ch: map<Ref, seq<Ref>>, root: Ref, ms: seq<MonitorInfo>, counter: int) {
    nodes.Keys == ch.Keys && root in nodes
    && nodes[root] == RootNode(1) && |ch[root]| == |ms|
    && (forall j :: 0 <= j < |ms| ==> BuiltOutput(nodes, ch, ch[root][j], ms[j]))
    && DistinctIds(nodes) && IdsAtMost(nodes, counter)
  }

  lemma LinksShape(ch: map<Ref, seq<Ref>>, root: Ref, o: Ref, w: Ref, s: Ref)
    requires root in ch && o !in ch && w !in ch && s !in ch && o != w && w != s && o != s
    ensures var ch' := WithMonitorLinks(ch, root, o, w, s);
      ch'.Keys == ch.Keys + {o, w, s}
      && ch'[root] == ch[root] + [o] && ch'[o] == [w] && ch'[w] == [s] && ch'[s] == []
      && forall r :: r in ch && r != root ==> ch'[r] == ch[r]
  {
  }

  /** Adding one node whose id is one above the counter keeps the ids distinct. */
  lemma IdsAdd(nodes: map<Ref, Node>, counter: int, r: Ref, n: Node)
    requires DistinctIds(nodes) && IdsAtMost(nodes, counter)
    requires r !in nodes && n.id == counter + 1
    ensures DistinctIds(nodes[r := n]) && IdsAtMost(nodes[r := n], counter + 1)
  {
  }

  lemma IdsStep(nodes: map<Ref, Node>, counter: int, m: MonitorInfo, o: Ref, w: Ref, s: Ref)
    requires DistinctIds(nodes) && IdsAtMost(nodes, counter)
    requires o !in nodes && w !in nodes && s !in nodes && o != w && w != s && o != s
    ensures DistinctIds(WithMonitor(nodes, counter, m, o, w, s)) && IdsAtMost(WithMonitor(nodes, counter, m, o, w, s), counter + 3)
  {
    var n1 := nodes[o := OutputFor(counter + 1, m)];
    IdsAdd(nodes, counter, o, OutputFor(counter + 1, m));
    var n2 := n1[w := WorkspaceFor(counter + 2, m)];
    IdsAdd(n1, counter + 1, w, WorkspaceFor(counter + 2, m));
    IdsAdd(n2, counter + 2, s, SplitFor(counter + 3, m));
  }

  /** The three containers of one turn form a finished Output. */
  lemma BuiltNew(nodes: map<Ref, Node>, ch: map<Ref, seq<Ref>>, counter: int, m: MonitorInfo, o: Ref, w: Ref, s: Ref)
    requires o in nodes && w in nodes && s in nodes && o in ch && w in ch && s in ch
    requires nodes[o] == OutputFor(counter + 1, m) && nodes[w] == WorkspaceFor(counter + 2, m)
    requires nodes[s] == SplitFor(counter + 3, m)
    requires ch[o] == [w] && ch[w] == [s] && ch[s] == []
    ensures BuiltOutput(nodes, ch, o, m)
  {
  }

  /** The Outputs built in earlier turns stay finished. */
  lemma BuiltKept(nodes: map<Ref, Node>, ch: map<Ref, seq<Ref>>, nodes': map<Ref, Node>,
                  ch': map<Ref, seq<Ref>>, os: seq<Ref>, ms: seq<MonitorInfo>)
    requires |os| == |ms| && forall j :: 0 <= j < |ms| ==> BuiltOutput(nodes, ch, os[j], ms[j])
    requires forall r :: r in nodes ==> r in nodes' && nodes'[r] == nodes[r]
    requires forall r :: r in ch && r in nodes && nodes[r].Kind() != Root ==> r in ch' && ch'[r] == ch[r]
    ensures forall j :: 0 <= j < |ms| ==> BuiltOutput(nodes', ch', os[j], ms[j])
  {
    forall j | 0 <= j < |ms| ensures BuiltOutput(nodes', ch', os[j], ms[j]) {
      BuiltOutputFrame(nodes, ch, nodes', ch', os[j], ms[j]);
    }
  }

  lemma SkeletonStep(nodes: map<Ref, Node>, ch: map<Ref, seq<Ref>>, root: Ref, ms: seq<MonitorInfo>, counter: int,
                     m: MonitorInfo, o: Ref, w: Ref, s: Ref)
    requires Skeleton(nodes, ch, root, ms, counter)
    requires o !in nodes && w !in nodes && s !in nodes && o != w && w != s && o != s
    ensures Skeleton(WithMonitor(nodes, counter, m, o, w, s), WithMonitorLinks(ch, root, o, w, s), root, ms + [m], counter + 3)
  {
    IdsStep(nodes, counter, m, o, w, s);
    StepFrame(nodes, ch, root, counter, m, o, w, s);
    SkeletonGrow(nodes, ch, WithMonitor(nodes, counter, m, o, w, s), WithMonitorLinks(ch, root, o, w, s), root, ms, counter, m, o);
  }

  /** One turn adds a finished Output under the root and leaves everything else as it was. */
  lemma StepFrame(nodes: map<Ref, Node>, ch: map<Ref, seq<Ref>>, root: Ref, counter: int,
                  m: MonitorInfo, o: Ref, w: Ref, s: Ref)
    requires nodes.Keys == ch.Keys && root in nodes && nodes[root] == RootNode(1)
    requires o !in nodes && w !in nodes && s !in nodes && o != w && w != s && o != s
    ensures var nodes', ch' := WithMonitor(nodes, counter, m, o, w, s), WithMonitorLinks(ch, root, o, w, s);
      nodes'.Keys == ch'.Keys && root in nodes' && nodes'[root] == RootNode(1) && ch'[root] == ch[root] + [o]
      && (forall r :: r in nodes ==> r in nodes' && nodes'[r] == nodes[r])
      && (forall r :: r in ch && r in nodes && nodes[r].Kind() != Root ==> r in ch' && ch'[r] == ch[r])
      && BuiltOutput(nodes', ch', o, m)
  {
    LinksShape(ch, root, o, w, s);
    BuiltNew(WithMonitor(nodes, counter, m, o, w, s), WithMonitorLinks(ch, root, o, w, s), counter, m, o, w, s);
  }

  /** The loop state grows by one finished Output. */
  lemma SkeletonGrow(nodes: map<Ref, Node>, ch: map<Ref, seq<Ref>>, nodes': map<Ref, Node>, ch': map<Ref, seq<Ref>>,
                     root: Ref, ms: seq<MonitorInfo>, counter: int, m: MonitorInfo, o: Ref)
    requires Skeleton(nodes, ch, root, ms, counter)
    requires nodes'.Keys == ch'.Keys && root in nodes' && nodes'[root] == RootNode(1) && ch'[root] == ch[root] + [o]
    requires forall r :: r in nodes ==> r in nodes' && nodes'[r] == nodes[r]
    requires forall r :: r in ch && r in nodes && nodes[r].Kind() != Root ==> r in ch' && ch'[r] == ch[r]
    requires BuiltOutput(nodes', ch', o, m)
    requires DistinctIds(nodes') && IdsAtMost(nodes', counter + 3)
    ensures Skeleton(nodes', ch', root, ms + [m], counter + 3)
  {
    BuiltKept(nodes, ch, nodes', ch', ch[root], ms);
    BuiltAppend(nodes', ch', ch[root], ms, o, m);
  }

  lemma BuiltAppend(nodes: map<Ref, Node>, ch: map<Ref, seq<Ref>>, os: seq<Ref>, ms: seq<MonitorInfo>, o: Ref, m: MonitorInfo)
    requires |os| == |ms| && forall j :: 0 <= j < |ms| ==> BuiltOutput(nodes, ch, os[j], ms[j])
    requires BuiltOutput(nodes, ch, o, m)
    ensures forall j :: 0 <= j < |ms| + 1 ==> BuiltOutput(nodes, ch, (os + [o])[j], (ms + [m])[j])
  {
    forall j | 0 <= j < |ms| + 1 ensures BuiltOutput(nodes, ch, (os + [o])[j], (ms + [m])[j]) {
      if j < |ms| {
        assert (os + [o])[j] == os[j] && (ms + [m])[j] == ms[j];
      }
    }
  }

  /** What BuiltOutput reads is the same in both states. */
  lemma BuiltOutputFrame(nodes: map<Ref, Node>, ch: map<Ref, seq<Ref>>, nodes': map<Ref, Node>,
                         ch': map<Ref, seq<Ref>>, o: Ref, m: MonitorInfo)
    requires BuiltOutput(nodes, ch, o, m)
    requires forall r :: r in nodes ==> r in nodes' && nodes'[r] == nodes[r]
    requires forall r :: r in ch && r in nodes && nodes[r].Kind() != Root ==> r in ch' && ch'[r] == ch[r]
    ensures BuiltOutput(nodes', ch', o, m)
  {
  }

  /** The three appends of one turn, taken together, are the step SkeletonStep describes. */
  lemma TurnStep(n0: map<Ref, Node>, c0: map<Ref, seq<Ref>>, n1: map<Ref, Node>, c1: map<Ref, seq<Ref>>,
                 n2: map<Ref, Node>, c2: map<Ref, seq<Ref>>, n3: map<Ref, Node>, c3: map<Ref, seq<Ref>>,
                 root: Ref, ms: seq<MonitorInfo>, counter: int, m: MonitorInfo, o: Ref, w: Ref, s: Ref)
    requires Skeleton(n0, c0, root, ms, counter)
    requires o !in n0 && n1 == n0[o := OutputFor(0, m).(id := counter + 1)] && c1 == c0[o := []][root := c0[root] + [o]]
    requires w !in n1 && o in c1 && n2 == n1[w := WorkspaceFor(0, m).(id := counter + 2)] && c2 == c1[w := []][o := c1[o] + [w]]
    requires s !in n2 && w in c2 && n3 == n2[s := SplitFor(0, m).(id := counter + 3)] && c3 == c2[s := []][w := c2[w] + [s]]
    ensures Skeleton(n3, c3, root, ms + [m], counter + 3)
  {
    assert OutputFor(0, m).(id := counter + 1) == OutputFor(counter + 1, m);
    assert WorkspaceFor(0, m).(id := counter + 2) == WorkspaceFor(counter + 2, m);
    assert SplitFor(0, m).(id := counter + 3) == SplitFor(counter + 3, m);
    assert c1 == Appended(c0, root, o) && c2 == Appended(c1, o, w) && c3 == Appended(c2, w, s);
    assert n3 == WithMonitor(n0, counter, m, o, w, s);
    assert c3 == WithMonitorLinks(c0, root, o, w, s);
    SkeletonStep(n0, c0, root, ms, counter, m, o, w, s);
  }
}
