/** Building the initial skeleton from the monitor list (src/tree/tree-builder.ts). */
module TreeBuilder {
  import opened Wrappers
  import opened Containers
  import opened Arena
  import opened Tree
  import opened Seqs
  import opened BuildShape

  /** `p.addChild(new X(root.nextId(), ...))`: a new container holding `n` under the next
      id, appended to `p`'s children. */
  method AddFresh(t: Tree, p: Ref, n: Node) returns (c: Ref)
    requires t.Valid() && p in t.nodes && !t.nodes[p].IsWindow()
    modifies t`nodes, t`children, t`parent, t`depth, t`bound, t`nextRef, t`idCounter
    ensures t.Valid() && c !in old(t.nodes) && t.idCounter == old(t.idCounter) + 1
    ensures t.nodes == old(t.nodes)[c := n.(id := t.idCounter)]
    ensures t.children == old(t.children)[c := []][p := old(t.children[p]) + [c]]
    ensures t.parent == old(t.parent)[c := Some(p)]
  {
    var id := t.NextId();
    c := t.NewContainer(n.(id := id));
    BelowChildless(t.children, t.parent, t.depth, t.bound, p, c);
    t.AddChild(p, c);
  }

  /** One turn of the build loop: the Output, Workspace and Split for monitor `m`, with
      ids drawn in that order. */
  method AddMonitor(t: Tree, root: Ref, m: MonitorInfo) returns (o: Ref, w: Ref, s: Ref)
    requires t.Valid() && root in t.nodes && !t.nodes[root].IsWindow()
    modifies t`nodes, t`children, t`parent, t`depth, t`bound, t`nextRef, t`idCounter
    ensures t.Valid() && t.idCounter == old(t.idCounter) + 3
    ensures o !in old(t.nodes) && w !in old(t.nodes) && s !in old(t.nodes) && o != w && w != s && o != s
    ensures t.nodes == WithMonitor(old(t.nodes), old(t.idCounter), m, o, w, s)
    ensures t.children == WithMonitorLinks(old(t.children), root, o, w, s)
    ensures t.parent == old(t.parent)[o := Some(root)][w := Some(o)][s := Some(w)]
  {
    o := AddFresh(t, root, OutputFor(0, m));
    w := AddFresh(t, o, WorkspaceFor(0, m));
    s := AddFresh(t, w, SplitFor(0, m));
  }

  /** `new RootContainer(1)` in a tree of its own, with the id counter at the root's id. */
  method NewRoot() returns (t: Tree, root: Ref)
    ensures fresh(t) && t.Valid() && root in t.parent && t.parent[root] == None
    ensures Skeleton(t.nodes, t.children, root, [], t.idCounter)
  {
    t := new Tree();
    root := t.NewContainer(RootNode(1));
    t.idCounter := 1;
  }

  /** TreeBuilder.build (src/tree/tree-builder.ts:23-46): a Root with id 1 and, per monitor
      in order, an Output, its Workspace and its Split, each with an id from the root's
      counter. */
  method Build(monitors: seq<MonitorInfo>) returns (t: Tree, root: Ref)
    ensures fresh(t) && t.Valid() && root in t.parent && t.parent[root] == None
    ensures Skeleton(t.nodes, t.children, root, monitors, t.idCounter)
  {
    t, root := NewRoot();
    for i := 0 to |monitors|
      invariant t.Valid() && root in t.parent && t.parent[root] == None
      invariant Skeleton(t.nodes, t.children, root, monitors[..i], t.idCounter)
    {
      BuildStep(t, root, monitors, i);
    }
    assert monitors[..|monitors|] == monitors;
  }

  /** The body of the build loop for monitor `i`, with the loop's invariant at `i` and `i + 1`. */
  method BuildStep(t: Tree, root: Ref, monitors: seq<MonitorInfo>, i: nat)
    requires i < |monitors| && t.Valid() && root in t.parent && t.parent[root] == None
    requires Skeleton(t.nodes, t.children, root, monitors[..i], t.idCounter)
    modifies t`nodes, t`children, t`parent, t`depth, t`bound, t`nextRef, t`idCounter
    ensures t.Valid() && root in t.parent && t.parent[root] == None
    ensures Skeleton(t.nodes, t.children, root, monitors[..i + 1], t.idCounter)
  {
    ghost var n0, c0, p0, k0 := t.nodes, t.children, t.parent, t.idCounter;
    var o, w, s := AddMonitor(t, root, monitors[i]);
    KeptPast(p0, root, o, Some(root), w, Some(o), s, Some(w));
    SkeletonStep(n0, c0, root, monitors[..i], k0, monitors[i], o, w, s);
    TakeNext(monitors, i);
  }

  /** Three updates at other keys leave the entry at `k` alone. */
  lemma KeptPast<V>(pa: map<Ref, V>, k: Ref, o: Ref, a: V, w: Ref, b: V, s: Ref, c: V)
    requires k in pa && k != o && k != w && k != s
    ensures k in pa[o := a][w := b][s := c] && pa[o := a][w := b][s := c][k] == pa[k]
  {
  }
}
