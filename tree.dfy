/** The container tree (the files under src/tree): Root, Output, Workspace, Split and Window containers
    held in an arena. A `Ref` is the identity of a container object; the numeric `id` the
    source prints and compares is a separate field of the node, because the source can
    give two containers the same id. */
module Tree {
  import opened Wrappers
  import opened Seqs
  import opened Containers
  import opened Arena

  class Tree {
    var nodes: map<Ref, Node>
    var children: map<Ref, seq<Ref>>
    var parent: map<Ref, Option<Ref>>
    /** Next free arena slot (object allocation). */
    var nextRef: Ref
    /** The counter behind `root.nextId()`. */
    var idCounter: int
    /** Distance from the top of the node's tree; a child is one deeper than its parent,
        which rules out cycles. */
    ghost var depth: map<Ref, nat>
    ghost var bound: nat

    /** Parent and child links agree, child lists have no duplicates, and depths grow by
        one along every link. */
    ghost predicate Linked()
      reads this`children, this`parent, this`depth, this`bound
    {
      LinkedMaps(children, parent, depth, bound)
    }

    /** The links are consistent and every linked container has its fields. */
    ghost predicate Keyed()
      reads this`nodes, this`children, this`parent, this`depth, this`bound
    {
      Linked() && nodes.Keys == children.Keys
    }

    /** The links are consistent, every container is below the allocation mark, and
        windows are leaves. */
    ghost predicate Valid()
      reads this`nodes, this`children, this`parent, this`depth, this`bound, this`nextRef
    {
      Shaped(nodes, children, parent, depth, bound, nextRef)
    }

    constructor ()
      ensures Valid() && nodes == map[] && idCounter == 0
    {
      nodes, children, parent, depth := map[], map[], map[], map[];
      nextRef, idCounter, bound := 0, 0, 0;
    }

    /** `y` is `a` or lies below it. */
    ghost predicate InSubtree(y: Ref, a: Ref)
      reads this`children, this`parent, this`depth, this`bound
      requires Linked() && y in parent
    {
      Below(parent, depth, y, a)
    }

    /** Depth-first pre-order of the proper descendants of `x`. */
    ghost function Walk(x: Ref): seq<Ref>
      reads this`children, this`parent, this`depth, this`bound
      requires Linked() && x in children
    {
      Arena.Walk(children, parent, depth, bound, x)
    }

    /** The walk over the subtrees of `x`'s children from the `i`-th on. */
    ghost function WalkFrom(x: Ref, i: nat): seq<Ref>
      reads this`children, this`parent, this`depth, this`bound
      requires Linked() && x in children && i <= |children[x]|
    {
      Arena.WalkFrom(children, parent, depth, bound, x, i)
    }

    /** `x` followed by its proper descendants in depth-first pre-order. */
    ghost function PreOrder(x: Ref): seq<Ref>
      reads this`children, this`parent, this`depth, this`bound
      requires Linked() && x in children
    {
      Arena.PreOrder(children, parent, depth, bound, x)
    }

    /** The `i`-th child of `x` is a linked container one level deeper, and the walk over
        `x`'s children from `i` starts with that child's subtree. */
    lemma ChildStep(x: Ref, i: nat)
      requires Linked() && x in children && i < |children[x]|
      ensures children[x][i] in children && depth[children[x][i]] == depth[x] + 1
      ensures WalkFrom(x, i) == PreOrder(children[x][i]) + WalkFrom(x, i + 1)
    {
      Arena.ChildStep(children, parent, depth, bound, x, i);
    }

    /** A fresh container object: no parent, no children (container.ts:18-28). */
    method NewContainer(n: Node) returns (r: Ref)
      requires Valid()
      modifies this`nodes, this`children, this`parent, this`depth, this`bound, this`nextRef
      ensures Valid()
      ensures r == old(nextRef) && r !in old(nodes) && nextRef == r + 1
      ensures nodes == old(nodes)[r := n]
      ensures children == old(children)[r := []]
      ensures parent == old(parent)[r := None]
    {
      r := nextRef;
      ghost var de, bd := FreshShaped(nodes, children, parent, depth, bound, nextRef, n);
      nodes, children, parent, depth, bound := nodes[r := n], children[r := []], parent[r := None], de, bd;
      nextRef := nextRef + 1;
    }

    /** `root.nextId()`: a container id never issued before by this tree. */
    method NextId() returns (id: int)
      modifies this`idCounter
      ensures id == old(idCounter) + 1 && idCounter == id
    {
      idCounter := idCounter + 1;
      id := idCounter;
    }

    /** Container.addChild (src/tree/container.ts:30-37): detach `c` from its old parent,
        then append it to `p`. The caller must not make a container its own ancestor. */
    method AddChild(p: Ref, c: Ref)
      requires Valid() && p in nodes && c in nodes
      requires !nodes[p].IsWindow()
      requires !InSubtree(p, c)
      modifies this`children, this`parent, this`depth, this`bound
      ensures Valid() && unchanged(this`nodes, this`nextRef, this`idCounter)
      ensures parent == old(parent)[c := Some(p)]
      ensures var d := Detached(old(children), old(parent), c);
              children == d[p := d[p] + [c]]
    {
      ghost var d := Detached(children, parent, c);
      if parent[c].Some? {
        var q := parent[c].value;
        assert c in children[q];
        BelowAfterCut(parent, depth, c, p);
        UpdateTwice(parent, c, None, Some(p));
        RemoveChild(q, c);
      }
      assert children == d;
      Attach(p, c);
    }

    /** The second half of addChild: `c` has no parent and joins the end of `p`'s list. */
    method Attach(p: Ref, c: Ref)
      requires Valid() && p in nodes && c in nodes && parent[c] == None
      requires !nodes[p].IsWindow()
      requires !InSubtree(p, c)
      modifies this`children, this`parent, this`depth, this`bound
      ensures Valid() && unchanged(this`nodes, this`nextRef, this`idCounter)
      ensures parent == old(parent)[c := Some(p)]
      ensures children == old(children)[p := old(children[p]) + [c]]
    {
      ghost var de := AttachShaped(nodes, children, parent, depth, bound, nextRef, p, c);
      children, parent, depth, bound := children[p := children[p] + [c]], parent[c := Some(p)], de, bound + depth[p] + 1;
    }

    /** Child lists after `c` leaves its current parent. */
    static function Detached(ch: map<Ref, seq<Ref>>, pa: map<Ref, Option<Ref>>, c: Ref): map<Ref, seq<Ref>>
      requires c in pa && (pa[c].Some? ==> pa[c].value in ch)
    {
      if pa[c].Some? then ch[pa[c].value := RemoveFirst(ch[pa[c].value], c)] else ch
    }

    /** Container.removeChild (src/tree/container.ts:39-47): a no-op unless `c` is a child
        of `p`; otherwise that one entry goes and `c` loses its parent. */
    method RemoveChild(p: Ref, c: Ref)
      requires Valid() && p in nodes
      modifies this`children, this`parent
      ensures Valid() && unchanged(this`nodes, this`nextRef, this`idCounter)
      ensures c !in old(children[p]) ==> children == old(children) && parent == old(parent)
      ensures c in old(children[p]) ==>
                children == old(children)[p := RemoveFirst(old(children[p]), c)]
                && parent == old(parent)[c := None]
    {
      var index := IndexOf(children[p], c);
      if index == -1 {
        return;
      }
      CutLinked(children, parent, depth, bound, p, c);
      children := children[p := RemoveFirst(children[p], c)];
      parent := parent[c := None];
    }

    /** Writes the fields of one container; the kind, and so the window-leaf rule, stays. */
    method SetNode(r: Ref, n: Node)
      requires Valid() && r in nodes && n.Kind() == nodes[r].Kind()
      modifies this`nodes
      ensures Valid()
      ensures nodes == old(nodes)[r := n]
    {
      nodes := nodes[r := n];
    }

    /** Container.setLayout (src/tree/container.ts:49-51). */
    method SetLayout(r: Ref, layout: Layout)
      requires Valid() && r in nodes
      modifies this`nodes
      ensures Valid()
      ensures nodes == old(nodes)[r := old(nodes[r]).(layout := layout)]
    {
      SetNode(r, nodes[r].(layout := layout));
    }

    /** SplitContainer.toggleLayout (src/tree/split-container.ts:9-11). */
    method ToggleLayout(r: Ref)
      requires Valid() && r in nodes && nodes[r].Kind() == Split
      modifies this`nodes
      ensures Valid()
      ensures nodes == old(nodes)[r := old(nodes[r]).(layout := Toggled(old(nodes[r].layout)))]
      ensures old(nodes[r].layout) == SplitH <==> nodes[r].layout == SplitV
    {
      SetNode(r, nodes[r].(layout := Toggled(nodes[r].layout)));
    }

    /** OutputContainer.updateWorkArea (src/tree/output-container.ts:19-21). */
    method UpdateWorkArea(r: Ref, workArea: Rect)
      requires Valid() && r in nodes && nodes[r].Kind() == Output
      modifies this`nodes
      ensures Valid()
      ensures nodes == old(nodes)[r := old(nodes[r]).(extra := old(nodes[r].extra).(workArea := workArea))]
    {
      SetNode(r, nodes[r].(extra := nodes[r].extra.(workArea := workArea)));
    }

    /** WorkspaceContainer.addFloatingWindow (src/tree/workspace-container.ts:29-31): appends,
        with no duplicate check. */
    method AddFloatingWindow(w: Ref, e: FloatEntry)
      requires Valid() && w in nodes && nodes[w].Kind() == Workspace
      modifies this`nodes
      ensures Valid()
      ensures nodes == old(nodes)[w := old(nodes[w]).(extra := old(nodes[w].extra).(
                floatingWindows := old(nodes[w].extra.floatingWindows) + [e]))]
    {
      var x := nodes[w].extra;
      SetNode(w, nodes[w].(extra := x.(floatingWindows := x.floatingWindows + [e])));
    }

    /** WorkspaceContainer.removeFloatingWindow (src/tree/workspace-container.ts:33-40): the
        first occurrence goes, nothing happens when there is none. */
    method RemoveFloatingWindow(w: Ref, e: FloatEntry)
      requires Valid() && w in nodes && nodes[w].Kind() == Workspace
      modifies this`nodes
      ensures Valid()
      ensures nodes == old(nodes)[w := old(nodes[w]).(extra := old(nodes[w].extra).(
                floatingWindows := RemoveFirst(old(nodes[w].extra.floatingWindows), e)))]
    {
      var x := nodes[w].extra;
      var index := IndexOf(x.floatingWindows, e);
      if index == -1 {
        assert RemoveFirst(x.floatingWindows, e) == x.floatingWindows;
        SetNode(w, nodes[w]);
        return;
      }
      SetNode(w, nodes[w].(extra := x.(floatingWindows := RemoveAt(x.floatingWindows, index))));
    }

    /** `y` exists and its fields satisfy `q`. */
    predicate Holds(y: Ref, q: Node -> bool)
      reads this`nodes
    {
      y in nodes && q(nodes[y])
    }

    /** Position of the first element of `s` that satisfies `q`, or |s|. */
    function FirstAt(s: seq<Ref>, q: Node -> bool): (i: nat)
      reads this`nodes
      ensures i <= |s|
      ensures i < |s| ==> Holds(s[i], q)
      ensures forall j :: 0 <= j < i ==> !Holds(s[j], q)
    {
      if s == [] then 0
      else if Holds(s[0], q) then 0
      else 1 + FirstAt(s[1..], q)
    }

    /** The first element of `s` that satisfies `q` (Array.prototype.find). */
    function FirstWhere(s: seq<Ref>, q: Node -> bool): Option<Ref>
      reads this`nodes
    {
      var i := FirstAt(s, q);
      if i < |s| then Some(s[i]) else None
    }

    /** FirstWhere finds an element that satisfies `q`, and no earlier one does; it finds
        nothing only when no element does. */
    lemma FirstWhereSpec(s: seq<Ref>, q: Node -> bool)
      ensures FirstWhere(s, q).Some? ==> FirstWhere(s, q).value in s && Holds(FirstWhere(s, q).value, q)
      ensures FirstWhere(s, q).Some? ==> forall k :: 0 <= k < |s| && Holds(s[k], q) ==> FirstWhere(s, q).value in s[..k + 1]
      ensures FirstWhere(s, q).None? ==> forall y :: y in s ==> !Holds(y, q)
    {
      var i := FirstAt(s, q);
      if i < |s| {
        forall k | 0 <= k < |s| && Holds(s[k], q) ensures s[i] in s[..k + 1] {
          assert i <= k;
          assert s[..k + 1][i] == s[i];
        }
      }
    }

    lemma {:induction false} FirstAtAppend(a: seq<Ref>, b: seq<Ref>, q: Node -> bool)
      ensures FirstAt(a + b, q) == if FirstAt(a, q) < |a| then FirstAt(a, q) else |a| + FirstAt(b, q)
    {
      if a != [] {
        assert (a + b)[0] == a[0];
        assert (a + b)[1..] == a[1..] + b;
        FirstAtAppend(a[1..], b, q);
      } else {
        assert a + b == b;
      }
    }

    lemma FirstWhereAppend(a: seq<Ref>, b: seq<Ref>, q: Node -> bool)
      ensures FirstWhere(a + b, q) == if FirstWhere(a, q).Some? then FirstWhere(a, q) else FirstWhere(b, q)
    {
      FirstAtAppend(a, b, q);
      var i := FirstAt(a, q);
      if i < |a| {
        assert (a + b)[i] == a[i];
      } else {
        var k := FirstAt(b, q);
        if k < |b| {
          assert (a + b)[|a| + k] == b[k];
        }
      }
    }

    /** The first node in `PreOrder(x)` whose fields satisfy `q`: the shape of findByMark
        (src/tree/container.ts:57-70) and findFocusedContainer (src/commands/index.ts:55-68). */
    function Find(x: Ref, q: Node -> bool): (r: Option<Ref>)
      reads this`nodes, this`children, this`parent, this`depth, this`bound
      requires Keyed() && x in children
      ensures r == FirstWhere(PreOrder(x), q)
      decreases bound - depth[x], 1
    {
      FirstWhereAppend([x], Walk(x), q);
      if q(nodes[x]) then Some(x) else FindFrom(x, 0, q)
    }

    function FindFrom(x: Ref, i: nat, q: Node -> bool): (r: Option<Ref>)
      reads this`nodes, this`children, this`parent, this`depth, this`bound
      requires Keyed() && x in children && i <= |children[x]|
      ensures r == FirstWhere(WalkFrom(x, i), q)
      decreases bound - depth[x], 0, |children[x]| - i
    {
      if i == |children[x]| then None
      else
        var c := children[x][i];
        ChildStep(x, i);
        FirstWhereAppend(PreOrder(c), WalkFrom(x, i + 1), q);
        match Find(c, q)
        case Some(y) => Some(y)
        case None => FindFrom(x, i + 1, q)
    }

    /** Container.findByMark (src/tree/container.ts:57-70). */
    function FindByMark(x: Ref, mark: string): (r: Option<Ref>)
      reads this`nodes, this`children, this`parent, this`depth, this`bound
      requires Keyed() && x in children
      ensures r.Some? ==> r.value in PreOrder(x) && Marked(r.value, mark)
      ensures r.Some? ==> forall k :: 0 <= k < |PreOrder(x)| && Marked(PreOrder(x)[k], mark) ==>
                r.value in PreOrder(x)[..k + 1]
      ensures r.None? ==> forall y :: y in PreOrder(x) ==> !Marked(y, mark)
    {
      var q := HasMark(mark);
      assert forall y :: Holds(y, q) == Marked(y, mark);
      FirstWhereSpec(PreOrder(x), q);
      Find(x, q)
    }

    /** `y` holds `mark`. */
    predicate Marked(y: Ref, mark: string)
      reads this`nodes
    {
      y in nodes && mark in nodes[y].marks
    }

    /** Container.focusedChild (src/tree/container.ts:53-55): the first focused child. */
    function FocusedChild(x: Ref): (r: Option<Ref>)
      reads this`nodes, this`children
      requires x in children && forall c :: c in children[x] ==> c in nodes
      ensures r.Some? ==> r.value in children[x] && nodes[r.value].focused
      ensures r.Some? ==> forall j :: 0 <= j < IndexOf(children[x], r.value) ==> !nodes[children[x][j]].focused
      ensures r.None? ==> forall c :: c in children[x] ==> !nodes[c].focused
    {
      var i := FirstAt(children[x], IsFocusedNode);
      if i < |children[x]| then
        assert forall j :: 0 <= j < i ==> children[x][j] != children[x][i] by {
          forall j | 0 <= j < i ensures children[x][j] != children[x][i] {
            assert !Holds(children[x][j], IsFocusedNode);
          }
        }
        Some(children[x][i])
      else None
    }

    /** RootContainer.getOutput (src/tree/root-container.ts:13-21): the first Output child
        with that monitor index; other kinds are skipped. */
    function GetOutput(root: Ref, monitorIndex: int): (r: Option<Ref>)
      reads this`nodes, this`children
      requires root in children && forall c :: c in children[root] ==> c in nodes
      ensures r.Some? ==> r.value in children[root] && IsOutputFor(nodes[r.value], monitorIndex)
      ensures r.Some? ==> forall j :: 0 <= j < IndexOf(children[root], r.value) ==>
                !IsOutputFor(nodes[children[root][j]], monitorIndex)
      ensures r.None? ==> forall c :: c in children[root] ==> !IsOutputFor(nodes[c], monitorIndex)
    {
      var q := (n: Node) => IsOutputFor(n, monitorIndex);
      var i := FirstAt(children[root], q);
      if i < |children[root]| then
        assert forall j :: 0 <= j < i ==> children[root][j] != children[root][i] by {
          forall j | 0 <= j < i ensures children[root][j] != children[root][i] {
            assert !Holds(children[root][j], q);
          }
        }
        Some(children[root][i])
      else None
    }

    /** WorkspaceContainer.tiledWindowCount (src/tree/workspace-container.ts:46-62): every
        Window reachable through the child lists, floating or not. */
    method TiledWindowCount(w: Ref) returns (count: nat)
      requires Valid() && w in nodes
      ensures count == WindowCount(nodes, PreOrder(w))
    {
      count := CountWindows(nodes, children, parent, depth, bound, w);
    }

    /** Container.toJSON and the subclass overrides: the subtree of `x` as a JSON value, with
        the children in list order. The workspace override calls `toJSON()` on every entry of
        its floating list; a raw compositor handle has no such method, so rendering fails
        (None) as soon as one is reached. */
    function ToJson(x: Ref): (j: Option<Json>)
      reads this`nodes, this`children, this`parent, this`depth, this`bound
      requires Keyed() && x in children
      ensures j.Some? ==> j.value.id == nodes[x].id && j.value.kind == nodes[x].Kind()
      ensures j.Some? ==> |j.value.children| == |children[x]|
      decreases bound - depth[x], 1
    {
      var n := nodes[x];
      var kids := ToJsonFrom(x, 0);
      var fl := if n.extra.WorkspaceData? then FloatingJson(n.extra.floatingWindows) else Some([]);
      if kids.None? || fl.None? then None
      else Some(Container(n.id, n.Kind(), n.layout, n.rect, n.focused, n.marks, n.proportion,
                          ExtraJson(n.extra, fl.value), kids.value))
    }

    function ToJsonFrom(x: Ref, i: nat): (js: Option<seq<Json>>)
      reads this`nodes, this`children, this`parent, this`depth, this`bound
      requires Keyed() && x in children && i <= |children[x]|
      ensures js.Some? ==> |js.value| == |children[x]| - i
      decreases bound - depth[x], 0, |children[x]| - i
    {
      if i == |children[x]| then Some([])
      else
        match ToJson(children[x][i])
        case None => None
        case Some(j) =>
          match ToJsonFrom(x, i + 1)
          case None => None
          case Some(rest) => Some([j] + rest)
    }

    /** A floating-list entry whose `toJSON()` exists: a Window container of the tree. */
    predicate Renderable(e: FloatEntry)
      reads this`nodes
    {
      e.ContainerEntry? && e.ref in nodes && nodes[e.ref].IsWindow()
    }

    /** `y` renders: it is not a workspace, or every entry of its floating list renders. */
    predicate RendersOwn(y: Ref)
      reads this`nodes
    {
      y in nodes && (nodes[y].extra.WorkspaceData? ==>
        forall e :: e in nodes[y].extra.floatingWindows ==> Renderable(e))
    }

    /** A window entry, rendered as the window's own JSON; windows have no children. */
    static function LeafJson(n: Node): Json {
      Container(n.id, n.Kind(), n.layout, n.rect, n.focused, n.marks, n.proportion,
                ExtraJson(n.extra, []), [])
    }

    /** The floating list of a workspace's JSON, in list order; None when an entry cannot be
        rendered. */
    function FloatingJson(fl: seq<FloatEntry>): (js: Option<seq<Json>>)
      reads this`nodes
      ensures js.Some? <==> forall e :: e in fl ==> Renderable(e)
      ensures js.Some? ==> |js.value| == |fl|
    {
      if fl == [] then Some([])
      else
        var rest := FloatingJson(fl[1..]);
        assert forall e :: e in fl <==> e == fl[0] || e in fl[1..];
        if !Renderable(fl[0]) || rest.None? then None
        else Some([LeafJson(nodes[fl[0].ref])] + rest.value)
    }

    /** toJSON succeeds exactly when no workspace of the subtree holds an entry that cannot
        be rendered, such as the raw handle the floating handler stores. */
    lemma {:induction false} ToJsonFails(x: Ref)
      requires Keyed() && x in children
      ensures ToJson(x).Some? <==> forall y :: y in PreOrder(x) ==> RendersOwn(y)
      decreases bound - depth[x], 1
    {
      ToJsonFromFails(x, 0);
      assert PreOrder(x) == [x] + WalkFrom(x, 0);
      assert forall y :: y in PreOrder(x) <==> y == x || y in WalkFrom(x, 0);
      var n := nodes[x];
      if n.extra.WorkspaceData? {
        assert FloatingJson(n.extra.floatingWindows).Some? <==> RendersOwn(x);
      }
    }

    lemma {:induction false} ToJsonFromFails(x: Ref, i: nat)
      requires Keyed() && x in children && i <= |children[x]|
      ensures ToJsonFrom(x, i).Some? <==> forall y :: y in WalkFrom(x, i) ==> RendersOwn(y)
      decreases bound - depth[x], 0, |children[x]| - i
    {
      if i < |children[x]| {
        var c := children[x][i];
        ChildStep(x, i);
        ToJsonFails(c);
        ToJsonFromFails(x, i + 1);
        assert forall y :: y in WalkFrom(x, i) <==> y in PreOrder(c) || y in WalkFrom(x, i + 1);
      }
    }

    /** The container ids of the nodes in `s`. */
    function Ids(s: seq<Ref>): (r: seq<int>)
      reads this`nodes
      ensures |r| == |s|
    {
      if s == [] then [] else [if s[0] in nodes then nodes[s[0]].id else 0] + Ids(s[1..])
    }

    lemma {:induction false} IdsAppend(a: seq<Ref>, b: seq<Ref>)
      ensures Ids(a + b) == Ids(a) + Ids(b)
    {
      if a != [] {
        assert (a + b)[0] == a[0];
        assert (a + b)[1..] == a[1..] + b;
        IdsAppend(a[1..], b);
      } else {
        assert a + b == b;
      }
    }

    /** The ids of a JSON tree in pre-order. */
    static function JsonIds(j: Json): seq<int> {
      [j.id] + JsonIdsList(j.children)
    }

    static function JsonIdsList(js: seq<Json>): seq<int> {
      if js == [] then [] else JsonIds(js[0]) + JsonIdsList(js[1..])
    }

    /** toJSON mirrors the tree: its ids, read in pre-order, are the ids of `PreOrder(x)`. */
    lemma {:induction false} ToJsonMirrors(x: Ref)
      requires Keyed() && x in children
      ensures ToJson(x).Some? ==> JsonIds(ToJson(x).value) == Ids(PreOrder(x))
      decreases bound - depth[x], 1
    {
      ToJsonFromMirrors(x, 0);
    }

    lemma {:induction false} ToJsonFromMirrors(x: Ref, i: nat)
      requires Keyed() && x in children && i <= |children[x]|
      ensures ToJsonFrom(x, i).Some? ==> JsonIdsList(ToJsonFrom(x, i).value) == Ids(WalkFrom(x, i))
      decreases bound - depth[x], 0, |children[x]| - i
    {
      if i < |children[x]| && ToJsonFrom(x, i).Some? {
        var c := children[x][i];
        assert parent[c] == Some(x);
        ToJsonMirrors(c);
        ToJsonFromMirrors(x, i + 1);
        var js := ToJsonFrom(x, i).value;
        assert js[0] == ToJson(c).value;
        assert js[1..] == ToJsonFrom(x, i + 1).value;
        IdsAppend(PreOrder(c), WalkFrom(x, i + 1));
      }
    }
  }

  /** How many elements of `s` are Window containers. */
  function WindowCount(nodes: map<Ref, Node>, s: seq<Ref>): nat {
    if s == [] then 0 else (if s[0] in nodes && nodes[s[0]].IsWindow() then 1 else 0) + WindowCount(nodes, s[1..])
  }

  lemma {:induction false} WindowCountAppend(nodes: map<Ref, Node>, a: seq<Ref>, b: seq<Ref>)
    ensures WindowCount(nodes, a + b) == WindowCount(nodes, a) + WindowCount(nodes, b)
  {
    if a != [] {
      assert (a + b)[0] == a[0];
      assert (a + b)[1..] == a[1..] + b;
      WindowCountAppend(nodes, a[1..], b);
    } else {
      assert a + b == b;
    }
  }

  /** The recursive walk of tiledWindowCount over the tree's maps: a Window counts one and
      ends the walk; any other container adds up its children's counts in list order. */
  method CountWindows(nodes: map<Ref, Node>, ch: map<Ref, seq<Ref>>, pa: map<Ref, Option<Ref>>,
                      ghost de: map<Ref, nat>, ghost bd: nat, w: Ref) returns (count: nat)
    requires LinkedMaps(ch, pa, de, bd) && WindowsAreLeaves(nodes, ch) && w in nodes && w in ch
    requires forall r :: r in ch ==> r in nodes
    ensures count == WindowCount(nodes, Arena.PreOrder(ch, pa, de, bd, w))
    decreases bd - de[w]
  {
    if nodes[w].IsWindow() {
      assert Arena.Walk(ch, pa, de, bd, w) == [];
      return 1;
    }
    count := 0;
    var i := 0;
    while i < |ch[w]|
      invariant 0 <= i <= |ch[w]|
      invariant count + WindowCount(nodes, Arena.WalkFrom(ch, pa, de, bd, w, i)) == WindowCount(nodes, Arena.Walk(ch, pa, de, bd, w))
    {
      var c := ch[w][i];
      ChildStep(ch, pa, de, bd, w, i);
      var sub := CountWindows(nodes, ch, pa, de, bd, c);
      WindowCountAppend(nodes, Arena.PreOrder(ch, pa, de, bd, c), Arena.WalkFrom(ch, pa, de, bd, w, i + 1));
      count := count + sub;
      i := i + 1;
    }
    WindowCountAppend(nodes, [w], Arena.Walk(ch, pa, de, bd, w));
  }
}
