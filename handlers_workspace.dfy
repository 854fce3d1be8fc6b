/** The handlers of src/commands/handlers/workspace.ts: workspace, mark, unmark, floating
    and fullscreen. */
module WorkspaceHandlers {
  import opened Wrappers
  import opened Seqs
  import opened Text
  import opened Containers
  import opened Commands
  import opened Arena
  import opened Tree
  import opened Navigation
  import opened HandlerContext

  // ---- workspace <name>

  /** The test of findWorkspaceByName (workspace.ts:16-17, 29): a workspace whose name is
      `name`, or whose number is what `Number.parseInt(name, 10)` reads from it. */
  function NameOrNumber(name: string): Node -> bool {
    var asNumber := ParseInt(name);
    (n: Node) => n.extra.WorkspaceData? && (n.extra.name == name || (asNumber.Some? && n.extra.number == asNumber.value))
  }

  /** findWorkspaceByName (workspace.ts:12-36): outputs in order, then their workspace
      children in order; the first that matches by name or by number. */
  method FindWorkspaceByName(nodes: map<Ref, Node>, ch: map<Ref, seq<Ref>>, root: Ref, name: string)
    returns (w: Option<Ref>)
    requires root in ch
    ensures w == FirstOf(nodes, WorkspacesUnder(nodes, ch, ch[root], true), NameOrNumber(name))
    ensures w.Some? ==> IsWorkspaceIn(nodes, w.value) && w.value in WorkspacesUnder(nodes, ch, ch[root], true)
  {
    w := SearchWorkspaces(nodes, ch, root, NameOrNumber(name));
  }

  /** A workspace looked up by its decimal number is found by number unless an earlier one
      has that text as its name. */
  lemma NamedByNumber(nodes: map<Ref, Node>, ch: map<Ref, seq<Ref>>, root: Ref, number: int)
    requires root in ch
    requires forall y :: y in WorkspacesUnder(nodes, ch, ch[root], true) ==> nodes[y].extra.name != IntToString(number)
    ensures FirstOf(nodes, WorkspacesUnder(nodes, ch, ch[root], true), NameOrNumber(IntToString(number))) ==
              FirstOf(nodes, WorkspacesUnder(nodes, ch, ch[root], true),
                      (n: Node) => n.extra.WorkspaceData? && n.extra.number == number)
  {
    ParseIntOfString(number);
    var ws := WorkspacesUnder(nodes, ch, ch[root], true);
    SameFirst(nodes, ws, NameOrNumber(IntToString(number)), (n: Node) => n.extra.WorkspaceData? && n.extra.number == number);
  }

  lemma {:induction false} SameFirst(nodes: map<Ref, Node>, s: seq<Ref>, p: Node -> bool, q: Node -> bool)
    requires forall y :: y in s && y in nodes ==> p(nodes[y]) == q(nodes[y])
    ensures FirstOf(nodes, s, p) == FirstOf(nodes, s, q)
  {
    if s != [] {
      SameFirst(nodes, s[1..], p, q);
    }
  }

  /** A workspace that is neither visible nor focused. */
  function Hide(n: Node): (h: Node)
    requires n.extra.WorkspaceData?
    ensures h.Kind() == Workspace && !h.focused && !h.extra.visible
  {
    n.(focused := false, extra := n.extra.(visible := false))
  }

  /** A workspace that is visible and focused. */
  function Show(n: Node): (h: Node)
    requires n.extra.WorkspaceData?
    ensures h.Kind() == Workspace && h.focused && h.extra.visible
  {
    n.(focused := true, extra := n.extra.(visible := true))
  }

  /** The workspaces among `s` hidden, everything else as it was. */
  function Hidden(nodes: map<Ref, Node>, s: set<Ref>): (r: map<Ref, Node>)
    ensures r.Keys == nodes.Keys
  {
    map y | y in nodes :: if y in s && nodes[y].extra.WorkspaceData? then Hide(nodes[y]) else nodes[y]
  }

  /** Hiding one more workspace. */
  lemma HiddenStep(nodes: map<Ref, Node>, s: set<Ref>, c: Ref)
    requires IsWorkspaceIn(nodes, c)
    ensures Hidden(nodes, s)[c := Hide(Hidden(nodes, s)[c])] == Hidden(nodes, s + {c})
  {
  }

  /** Hiding nothing changes nothing. */
  lemma HiddenNone(nodes: map<Ref, Node>)
    ensures Hidden(nodes, {}) == nodes
  {
  }

  /** Hiding a second set after a first is hiding both. */
  lemma HiddenTwice(nodes: map<Ref, Node>, a: set<Ref>, b: set<Ref>)
    ensures Hidden(Hidden(nodes, a), b) == Hidden(nodes, a + b)
  {
  }

  /** The same containers have the same kinds. */
  predicate SameKinds(a: map<Ref, Node>, b: map<Ref, Node>) {
    a.Keys == b.Keys && forall y :: y in a ==> a[y].Kind() == b[y].Kind()
  }

  /** Hiding keeps every kind. */
  lemma HiddenKinds(nodes: map<Ref, Node>, s: set<Ref>)
    ensures SameKinds(Hidden(nodes, s), nodes)
  {
  }

  /** Hiding keeps the arena invariant. */
  lemma HiddenShaped(nodes: map<Ref, Node>, s: set<Ref>, ch: map<Ref, seq<Ref>>, pa: map<Ref, Option<Ref>>,
                     de: map<Ref, nat>, bd: nat, next: Ref)
    requires Shaped(nodes, ch, pa, de, bd, next)
    ensures Shaped(Hidden(nodes, s), ch, pa, de, bd, next)
  {
    var m := Hidden(nodes, s);
    forall r | r in m && m[r].IsWindow() ensures r in ch && ch[r] == [] {
      assert nodes[r].IsWindow();
    }
  }

  lemma {:induction false} WorkspacesOfSameKinds(a: map<Ref, Node>, b: map<Ref, Node>, cs: seq<Ref>)
    requires SameKinds(a, b)
    ensures WorkspacesOf(a, cs) == WorkspacesOf(b, cs)
  {
    if cs != [] {
      WorkspacesOfSameKinds(a, b, cs[1..]);
    }
  }

  lemma {:induction false} WorkspacesUnderAppend(nodes: map<Ref, Node>, ch: map<Ref, seq<Ref>>, a: seq<Ref>, b: seq<Ref>)
    ensures WorkspacesUnder(nodes, ch, a + b, true) == WorkspacesUnder(nodes, ch, a, true) + WorkspacesUnder(nodes, ch, b, true)
  {
    if a == [] {
      assert a + b == b;
    } else {
      assert (a + b)[0] == a[0];
      assert (a + b)[1..] == a[1..] + b;
      WorkspacesUnderAppend(nodes, ch, a[1..], b);
    }
  }

  function Members(s: seq<Ref>): set<Ref> {
    set y | y in s
  }

  /** The workspaces among `cs[..j + 1]` are those among `cs[..j]` and `cs[j]` when it is
      one. */
  lemma MembersNext(nodes: map<Ref, Node>, cs: seq<Ref>, j: nat)
    requires j < |cs|
    ensures Members(WorkspacesOf(nodes, cs[..j + 1])) ==
              Members(WorkspacesOf(nodes, cs[..j])) + (if IsWorkspaceIn(nodes, cs[j]) then {cs[j]} else {})
  {
    assert cs[..j + 1] == cs[..j] + [cs[j]];
    WorkspacesOfAppend(nodes, cs[..j], [cs[j]]);
    assert [cs[j]][1..] == [];
  }

  /** One child of the inner loop: a workspace child is hidden, anything else is passed. */
  lemma HideChildStep(n0: map<Ref, Node>, cs: seq<Ref>, j: nat, cur: map<Ref, Node>)
    requires j < |cs| && cur == Hidden(n0, Members(WorkspacesOf(n0, cs[..j])))
    ensures IsWorkspaceIn(cur, cs[j]) <==> IsWorkspaceIn(n0, cs[j])
    ensures IsWorkspaceIn(cur, cs[j]) ==> cur[cs[j] := Hide(cur[cs[j]])] == Hidden(n0, Members(WorkspacesOf(n0, cs[..j + 1])))
    ensures !IsWorkspaceIn(cur, cs[j]) ==> cur == Hidden(n0, Members(WorkspacesOf(n0, cs[..j + 1])))
  {
    var done := Members(WorkspacesOf(n0, cs[..j]));
    MembersNext(n0, cs, j);
    HiddenKinds(n0, done);
    if IsWorkspaceIn(n0, cs[j]) {
      HiddenStep(n0, done, cs[j]);
    } else {
      assert done + {} == done;
    }
  }

  /** The inner loop of workspace.ts:70-75: the workspace children of one output are
      hidden and unfocused. */
  method HideChildren(t: Tree, cs: seq<Ref>)
    modifies t`nodes
    ensures t.nodes == Hidden(old(t.nodes), Members(WorkspacesOf(old(t.nodes), cs)))
  {
    ghost var n0 := t.nodes;
    var j := 0;
    assert cs[..0] == [];
    HiddenNone(n0);
    while j < |cs|
      invariant 0 <= j <= |cs|
      invariant t.nodes == Hidden(n0, Members(WorkspacesOf(n0, cs[..j])))
    {
      var c := cs[j];
      HideChildStep(n0, cs, j, t.nodes);
      if c in t.nodes && t.nodes[c].Kind() == Workspace {
        t.nodes := t.nodes[c := Hide(t.nodes[c])];
      }
      j := j + 1;
    }
    assert cs[..j] == cs;
  }

  lemma {:induction false} WorkspacesOfAppend(nodes: map<Ref, Node>, a: seq<Ref>, b: seq<Ref>)
    ensures WorkspacesOf(nodes, a + b) == WorkspacesOf(nodes, a) + WorkspacesOf(nodes, b)
  {
    if a == [] {
      assert a + b == b;
    } else {
      assert (a + b)[0] == a[0];
      assert (a + b)[1..] == a[1..] + b;
      WorkspacesOfAppend(nodes, a[1..], b);
    }
  }

  /** One output of the outer loop: the workspaces under it join the hidden ones. */
  lemma HideOutputStep(n0: map<Ref, Node>, ch: map<Ref, seq<Ref>>, outs: seq<Ref>, i: nat, cur: map<Ref, Node>)
    requires i < |outs| && cur == Hidden(n0, Members(WorkspacesUnder(n0, ch, outs[..i], true)))
    ensures var o := outs[i];
            var output := o in ch && o in cur && cur[o].Kind() == Output;
            && (output ==> WorkspacesOf(cur, ch[o]) == WorkspacesOf(n0, ch[o])
                           && Hidden(cur, Members(WorkspacesOf(n0, ch[o]))) ==
                                Hidden(n0, Members(WorkspacesUnder(n0, ch, outs[..i + 1], true))))
            && (!output ==> cur == Hidden(n0, Members(WorkspacesUnder(n0, ch, outs[..i + 1], true))))
  {
    var o := outs[i];
    assert outs[..i + 1] == outs[..i] + [o];
    WorkspacesUnderAppend(n0, ch, outs[..i], [o]);
    WorkspacesUnderOne(n0, ch, o, true);
    var done := Members(WorkspacesUnder(n0, ch, outs[..i], true));
    HiddenKinds(n0, done);
    if o in ch && o in cur && cur[o].Kind() == Output {
      WorkspacesOfSameKinds(cur, n0, ch[o]);
      HiddenTwice(n0, done, Members(WorkspacesOf(n0, ch[o])));
      assert Members(WorkspacesUnder(n0, ch, outs[..i + 1], true)) == done + Members(WorkspacesOf(n0, ch[o]));
    } else {
      assert WorkspacesUnder(n0, ch, outs[..i + 1], true) == WorkspacesUnder(n0, ch, outs[..i], true);
    }
  }

  /** The outer loop of workspace.ts:65-76: every workspace under an output of the root
      is hidden and unfocused. */
  method HideWorkspaces(t: Tree, root: Ref)
    requires root in t.children
    modifies t`nodes
    ensures t.nodes == Hidden(old(t.nodes), Members(WorkspacesUnder(old(t.nodes), t.children, t.children[root], true)))
  {
    ghost var n0 := t.nodes;
    var ch := t.children;
    var outs := ch[root];
    var i := 0;
    assert outs[..0] == [];
    HiddenNone(n0);
    while i < |outs|
      invariant 0 <= i <= |outs| && t.children == ch
      invariant t.nodes == Hidden(n0, Members(WorkspacesUnder(n0, ch, outs[..i], true)))
    {
      var o := outs[i];
      HideOutputStep(n0, ch, outs, i, t.nodes);
      if o in ch && o in t.nodes && t.nodes[o].Kind() == Output {
        HideChildren(t, ch[o]);
      }
      i := i + 1;
    }
    assert outs[..i] == outs;
  }

  /** The tree after `workspace <target>` found workspace `w`: every listed workspace
      hidden and unfocused, then `w` shown and focused. */
  function Switched(nodes: map<Ref, Node>, listed: seq<Ref>, w: Ref): (r: map<Ref, Node>)
    requires IsWorkspaceIn(nodes, w)
    ensures r.Keys == nodes.Keys
  {
    var hidden := Hidden(nodes, Members(listed));
    hidden[w := Show(hidden[w])]
  }

  /** After a switch, exactly the target among the listed workspaces is visible and
      exactly it is focused; the listed workspaces keep every other field, and nothing
      outside the list (other than the target) changes. */
  lemma SwitchedExclusive(nodes: map<Ref, Node>, listed: seq<Ref>, w: Ref)
    requires IsWorkspaceIn(nodes, w) && forall y :: y in listed ==> IsWorkspaceIn(nodes, y)
    ensures var r := Switched(nodes, listed, w);
            && (forall y :: y in listed ==>
                  && y in r && r[y].extra.WorkspaceData?
                  && (r[y].extra.visible <==> y == w) && (r[y].focused <==> y == w))
            && r[w].extra.visible && r[w].focused
            && (forall y :: y in nodes ==>
                  && r[y].Kind() == nodes[y].Kind() && r[y].id == nodes[y].id
                  && r[y].marks == nodes[y].marks && r[y].rect == nodes[y].rect)
            && (forall y :: y in nodes && y in listed && nodes[y].extra.WorkspaceData? ==>
                  && r[y].extra.WorkspaceData?
                  && r[y].extra.name == nodes[y].extra.name && r[y].extra.number == nodes[y].extra.number
                  && r[y].extra.floatingWindows == nodes[y].extra.floatingWindows)
            && (forall y :: y in nodes && y !in listed && y != w ==> r[y] == nodes[y])
  {
  }

  /** What the workspace handler leaves behind, from the state `s` it started in: the
      node map and the focused container. */
  ghost predicate WorkspaceOutcome(s: Snapshot, cmd: Command, r: Outcome, after: map<Ref, Node>, focused: Option<Ref>)
    requires Sound(s)
  {
    var target := Arg(cmd, 0);
    var listed := WorkspacesUnder(s.nodes, s.ch, s.ch[s.root], true);
    && (!Given(target) ==> r == Fail("Workspace name required") && after == s.nodes && focused == s.focused)
    && (Given(target) ==>
          var w := FirstOf(s.nodes, listed, NameOrNumber(target.value));
          && (w.None? ==> r == Fail("Workspace not found: " + target.value) && after == s.nodes && focused == s.focused)
          && (w.Some? ==> r == Ok() && IsWorkspaceIn(s.nodes, w.value) && w.value in listed
                          && after == Switched(s.nodes, listed, w.value) && focused == w))
  }

  /** The workspace handler (workspace.ts:52-84): a missing or empty first argument and an
      unknown workspace fail with nothing changed; otherwise every workspace under the
      outputs is hidden and unfocused, the target is shown and focused, and becomes the
      focused container. */
  method WorkspaceHandler(cmd: Command, ctx: Context) returns (r: Outcome)
    requires ctx.Ready()
    modifies ctx.tree`nodes, ctx`focused
    ensures ctx.Ready() && Sound(old(ctx.View()))
    ensures WorkspaceOutcome(old(ctx.View()), cmd, r, ctx.tree.nodes, ctx.focused)
  {
    ctx.ReadySound();
    var target := Arg(cmd, 0);
    if !Given(target) {
      return Fail("Workspace name required");
    }
    var t := ctx.tree;
    var w := FindWorkspaceByName(t.nodes, t.children, ctx.root, target.value);
    if w.None? {
      return Fail("Workspace not found: " + target.value);
    }
    SwitchTo(ctx, w.value);
    return Ok();
  }

  /** workspace.ts:65-80 for the found workspace `w`. */
  method SwitchTo(ctx: Context, w: Ref)
    requires ctx.Ready() && IsWorkspaceIn(ctx.tree.nodes, w)
    modifies ctx.tree`nodes, ctx`focused
    ensures ctx.Ready() && ctx.focused == Some(w)
    ensures ctx.tree.nodes ==
              Switched(old(ctx.tree.nodes), WorkspacesUnder(old(ctx.tree.nodes), ctx.tree.children,
                                                            ctx.tree.children[ctx.root], true), w)
  {
    var t := ctx.tree;
    HideWorkspaces(t, ctx.root);
    HiddenShaped(old(t.nodes), Members(WorkspacesUnder(old(t.nodes), t.children, t.children[ctx.root], true)),
                 t.children, t.parent, t.depth, t.bound, t.nextRef);
    t.SetNode(w, Show(t.nodes[w]));
    ctx.focused := Some(w);
  }

  // ---- mark and unmark

  /** `marks.add(mark)`: a JavaScript Set appends a name it does not hold yet. */
  function Marked(marks: seq<string>, mark: string): (r: seq<string>)
    ensures mark in r && forall m :: m in marks ==> m in r
    ensures forall m :: m in r ==> m in marks || m == mark
    ensures NoDup(marks) ==> NoDup(r)
  {
    if mark in marks then marks else marks + [mark]
  }

  /** `marks.delete(mark)`. */
  function Unmarked(marks: seq<string>, mark: string): (r: seq<string>)
    ensures mark !in r && forall m :: m in r <==> m in marks && m != mark
  {
    WithoutMembers(marks, mark);
    Without(marks, mark)
  }

  lemma {:induction false} WithoutAbsent(s: seq<string>, x: string)
    requires x !in s
    ensures Without(s, x) == s
  {
    if s != [] {
      WithoutAbsent(s[1..], x);
      assert s == [s[0]] + s[1..];
    }
  }

  lemma {:induction false} WithoutMembers(s: seq<string>, x: string)
    ensures forall m :: m in Without(s, x) <==> m in s && m != x
  {
    if s != [] {
      WithoutMembers(s[1..], x);
      assert s == [s[0]] + s[1..];
    }
  }

  /** Marking twice is marking once; unmarking twice is unmarking once. */
  lemma MarkIdempotent(marks: seq<string>, mark: string)
    ensures Marked(Marked(marks, mark), mark) == Marked(marks, mark)
    ensures Unmarked(Unmarked(marks, mark), mark) == Unmarked(marks, mark)
  {
    WithoutAbsent(Unmarked(marks, mark), mark);
  }

  /** Unmarking undoes marking with a new name, and marking undoes unmarking when the name
      was the last one added. */
  lemma MarkUnmark(marks: seq<string>, mark: string)
    ensures mark !in marks ==> Unmarked(Marked(marks, mark), mark) == marks
    ensures mark in marks ==> Unmarked(Marked(marks, mark), mark) == Unmarked(marks, mark)
    ensures marks != [] && marks[|marks| - 1] == mark && mark !in marks[..|marks| - 1] ==>
              Marked(Unmarked(marks, mark), mark) == marks
  {
    if mark !in marks {
      WithoutAppend(marks, [mark], mark);
      WithoutAbsent(marks, mark);
      assert Without([mark], mark) == [];
      assert marks + [] == marks;
    }
    if marks != [] && marks[|marks| - 1] == mark && mark !in marks[..|marks| - 1] {
      var front := marks[..|marks| - 1];
      assert marks == front + [mark];
      WithoutAppend(front, [mark], mark);
      WithoutAbsent(front, mark);
      assert Without([mark], mark) == [];
      assert front + [] == front;
    }
  }

  /** What the mark handler (`unmark` false) or the unmark handler (`unmark` true) leaves
      behind, from the state `s` it started in. */
  ghost predicate MarkOutcome(s: Snapshot, cmd: Command, unmark: bool, r: Outcome, after: map<Ref, Node>)
    requires Sound(s)
  {
    var unfocused := if unmark then "No focused container to unmark" else "No focused container to mark";
    && (s.focused.None? ==> r == Fail(unfocused) && after == s.nodes)
    && (s.focused.Some? && !Given(Arg(cmd, 0)) ==> r == Fail("Mark name required") && after == s.nodes)
    && (s.focused.Some? && Given(Arg(cmd, 0)) ==>
          var f := s.focused.value;
          var marks := s.nodes[f].marks;
          r == Ok() && after == s.nodes[f := s.nodes[f].(marks := if unmark then Unmarked(marks, cmd.args[0])
                                                                 else Marked(marks, cmd.args[0]))])
  }

  /** The mark handler (workspace.ts:86-102): without focus, or without a non-empty name,
      it fails; otherwise the name joins the focused container's marks. */
  method MarkHandler(cmd: Command, ctx: Context) returns (r: Outcome)
    requires ctx.Ready()
    modifies ctx.tree`nodes
    ensures ctx.Ready() && Sound(old(ctx.View()))
    ensures MarkOutcome(old(ctx.View()), cmd, false, r, ctx.tree.nodes)
  {
    ctx.ReadySound();
    var mark := Arg(cmd, 0);
    if ctx.focused.None? {
      return Fail("No focused container to mark");
    }
    if !Given(mark) {
      return Fail("Mark name required");
    }
    var f := ctx.focused.value;
    var n := ctx.tree.nodes[f];
    ctx.tree.SetNode(f, n.(marks := Marked(n.marks, mark.value)));
    return Ok();
  }

  /** The unmark handler (workspace.ts:104-120): the checks of mark, then the name leaves
      the focused container's marks. */
  method UnmarkHandler(cmd: Command, ctx: Context) returns (r: Outcome)
    requires ctx.Ready()
    modifies ctx.tree`nodes
    ensures ctx.Ready() && Sound(old(ctx.View()))
    ensures MarkOutcome(old(ctx.View()), cmd, true, r, ctx.tree.nodes)
  {
    ctx.ReadySound();
    var mark := Arg(cmd, 0);
    if ctx.focused.None? {
      return Fail("No focused container to unmark");
    }
    if !Given(mark) {
      return Fail("Mark name required");
    }
    var f := ctx.focused.value;
    var n := ctx.tree.nodes[f];
    ctx.tree.SetNode(f, n.(marks := Unmarked(n.marks, mark.value)));
    return Ok();
  }

  // ---- floating and fullscreen

  /** The flag a `toggle`/`enable`/`disable` word sets (workspace.ts:130-138, 163-171);
      any other word keeps the current value, and a missing word toggles. */
  function FlagFor(mode: Option<string>, current: bool): (f: bool)
    ensures mode.None? || mode == Some("toggle") ==> f == !current
    ensures mode == Some("enable") ==> f
    ensures mode == Some("disable") ==> !f
    ensures mode.Some? && mode.value !in {"toggle", "enable", "disable"} ==> f == current
  {
    var word := if mode.Some? then mode.value else "toggle";
    if word == "toggle" then !current
    else if word == "enable" then true
    else if word == "disable" then false
    else current
  }

  /** Toggling twice restores the flag; enable and disable do not depend on it, so
      repeating them changes nothing. */
  lemma FlagForRepeat(mode: Option<string>, current: bool)
    ensures mode.None? || mode == Some("toggle") ==> FlagFor(mode, FlagFor(mode, current)) == current
    ensures mode.Some? && mode.value != "toggle" ==> FlagFor(mode, FlagFor(mode, current)) == FlagFor(mode, current)
  {
  }

  /** The focused container when it is a window. */
  function FocusedWindow(nodes: map<Ref, Node>, focused: Option<Ref>): (w: Option<Ref>)
    ensures w.Some? <==> focused.Some? && focused.value in nodes && nodes[focused.value].IsWindow()
    ensures w.Some? ==> w == focused
  {
    if focused.Some? && focused.value in nodes && nodes[focused.value].IsWindow() then focused else None
  }

  /** A workspace's floating list after the floating handler (workspace.ts:144-149): the
      window's handle entry is taken out, and put back at the end when it floats. */
  function Refiled(entries: seq<FloatEntry>, h: Handle, floating: bool): (r: seq<FloatEntry>)
    ensures floating ==> |r| > 0 && r[|r| - 1] == HandleEntry(h)
    ensures !floating && NoDup(entries) ==> HandleEntry(h) !in r
    ensures forall e :: e != HandleEntry(h) ==> (e in r <==> e in entries)
  {
    RemoveFirstMembers(entries, HandleEntry(h), HandleEntry(h));
    forall e | e != HandleEntry(h) ensures e in RemoveFirst(entries, HandleEntry(h)) <==> e in entries {
      RemoveFirstMembers(entries, HandleEntry(h), e);
    }
    var rest := RemoveFirst(entries, HandleEntry(h));
    if floating then rest + [HandleEntry(h)] else rest
  }

  /** Window `w` with floating flag `f`. */
  function WithFloating(nodes: map<Ref, Node>, w: Ref, f: bool): (r: map<Ref, Node>)
    ensures r.Keys == nodes.Keys && SameKinds(r, nodes)
  {
    if w in nodes && nodes[w].IsWindow() then nodes[w := nodes[w].(extra := nodes[w].extra.(floating := f))]
    else nodes
  }

  /** Workspace `ws`, when it is one, with the handle of window `h` refiled. */
  function RefiledIn(nodes: map<Ref, Node>, ws: Option<Ref>, h: Handle, f: bool): (r: map<Ref, Node>)
    ensures r.Keys == nodes.Keys && SameKinds(r, nodes)
  {
    if ws.Some? && IsWorkspaceIn(nodes, ws.value) then
      var n := nodes[ws.value];
      nodes[ws.value := n.(extra := n.extra.(floatingWindows := Refiled(n.extra.floatingWindows, h, f)))]
    else nodes
  }

  /** The floating handler's effect on the tree: the window floats exactly when `f`
      says; the nearest workspace above it, when there is one, holds the window's handle
      as its last floating entry when `f` and not at all when not `f` (given no duplicate
      entries), its other entries unchanged; every other container is untouched. */
  lemma FloatingEffect(nodes: map<Ref, Node>, pa: map<Ref, Option<Ref>>, de: map<Ref, nat>, w: Ref, f: bool)
    requires DepthSteps(pa, de) && pa.Keys == de.Keys && pa.Keys <= nodes.Keys && w in pa && nodes[w].IsWindow()
    ensures var ws := NearestWorkspace(nodes, pa, de, w);
            var h := nodes[w].extra.handle;
            var r := RefiledIn(WithFloating(nodes, w, f), ws, h, f);
            && r[w].extra.WindowData? && r[w].extra.floating == f
            && (ws.Some? ==>
                  && IsWorkspaceIn(nodes, ws.value) && r[ws.value].extra.WorkspaceData?
                  && (f ==> HandleEntry(h) in r[ws.value].extra.floatingWindows
                            && Last(r[ws.value].extra.floatingWindows) == Some(HandleEntry(h)))
                  && (!f && NoDup(nodes[ws.value].extra.floatingWindows) ==>
                        HandleEntry(h) !in r[ws.value].extra.floatingWindows)
                  && (forall e :: e != HandleEntry(h) ==>
                        (e in r[ws.value].extra.floatingWindows <==> e in nodes[ws.value].extra.floatingWindows)))
            && (forall y :: y in nodes && y != w && Some(y) != ws ==> r[y] == nodes[y])
  {
    NearestWorkspaceIs(nodes, pa, de, w);
    NearestWorkspaceKinds(nodes, WithFloating(nodes, w, f), pa, de, w);
  }

  function Last(s: seq<FloatEntry>): Option<FloatEntry> {
    if s == [] then None else Some(s[|s| - 1])
  }

  /** `focused.floating = floating` (workspace.ts:140). */
  method SetFloatingFlag(t: Tree, w: Ref, f: bool)
    requires t.Valid() && w in t.nodes && t.nodes[w].IsWindow()
    modifies t`nodes
    ensures t.Valid()
    ensures t.nodes == WithFloating(old(t.nodes), w, f)
  {
    var n := t.nodes[w];
    t.SetNode(w, n.(extra := n.extra.(floating := f)));
  }

  /** workspace.ts:144-149: the handle entry leaves the workspace's floating list and,
      when the window floats, goes back on at the end. */
  method RefileHandle(t: Tree, ws: Option<Ref>, h: Handle, f: bool)
    requires t.Valid() && (ws.Some? ==> IsWorkspaceIn(t.nodes, ws.value))
    modifies t`nodes
    ensures t.Valid()
    ensures t.nodes == RefiledIn(old(t.nodes), ws, h, f)
  {
    if ws.Some? {
      t.RemoveFloatingWindow(ws.value, HandleEntry(h));
      if f {
        t.AddFloatingWindow(ws.value, HandleEntry(h));
      }
    }
  }

  /** What the floating handler leaves behind, from the state `s` it started in. */
  ghost predicate FloatingOutcome(s: Snapshot, cmd: Command, r: Outcome, after: map<Ref, Node>,
                                  log0: seq<Call>, log1: seq<Call>)
    requires Sound(s)
  {
    var w := FocusedWindow(s.nodes, s.focused);
    && (w.None? ==> r == Fail("Focused container is not a window") && after == s.nodes && log1 == log0)
    && (w.Some? ==>
          var x := s.nodes[w.value].extra;
          var f := FlagFor(Arg(cmd, 0), x.floating);
          && r == Ok()
          && log1 == log0 + [SetFloating(x.handle, f)]
          && after == RefiledIn(WithFloating(s.nodes, w.value, f), NearestWorkspace(s.nodes, s.pa, s.de, w.value),
                                x.handle, f))
  }

  /** The floating handler (workspace.ts:122-153): a focused window gets the new floating
      flag and the adapter is told; the nearest workspace above it, when there is one,
      refiles its handle; anything but a focused window fails with nothing changed. */
  method FloatingHandler(cmd: Command, ctx: Context) returns (r: Outcome)
    requires ctx.Ready()
    modifies ctx.tree`nodes, ctx`log
    ensures ctx.Ready() && Sound(old(ctx.View()))
    ensures FloatingOutcome(old(ctx.View()), cmd, r, ctx.tree.nodes, old(ctx.log), ctx.log)
  {
    ctx.ReadySound();
    var w := FocusedWindow(ctx.tree.nodes, ctx.focused);
    if w.None? {
      return Fail("Focused container is not a window");
    }
    var floating := FlagFor(Arg(cmd, 0), ctx.tree.nodes[w.value].extra.floating);
    Float(ctx, w.value, floating);
    return Ok();
  }

  /** workspace.ts:140-149 for window `w` and flag `f`. */
  method Float(ctx: Context, w: Ref, f: bool)
    requires ctx.Ready() && w in ctx.tree.nodes && ctx.tree.nodes[w].IsWindow()
    modifies ctx.tree`nodes, ctx`log
    ensures ctx.Ready()
    ensures var h := old(ctx.tree.nodes[w].extra.handle);
            && ctx.log == old(ctx.log) + [SetFloating(h, f)]
            && ctx.tree.nodes == RefiledIn(WithFloating(old(ctx.tree.nodes), w, f),
                                           NearestWorkspace(old(ctx.tree.nodes), ctx.tree.parent, ctx.tree.depth, w), h, f)
  {
    var t := ctx.tree;
    var h := t.nodes[w].extra.handle;
    SetFloatingFlag(t, w, f);
    ctx.log := ctx.log + [SetFloating(h, f)];
    var ws := FindWorkspaceForContainer(t.nodes, t.parent, t.depth, w);
    NearestWorkspaceKinds(old(t.nodes), t.nodes, t.parent, t.depth, w);
    NearestWorkspaceIs(t.nodes, t.parent, t.depth, w);
    RefileHandle(t, ws, h, f);
  }

  /** The nearest workspace depends on the kinds alone. */
  lemma {:induction false} NearestWorkspaceKinds(a: map<Ref, Node>, b: map<Ref, Node>, pa: map<Ref, Option<Ref>>,
                                                 de: map<Ref, nat>, x: Ref)
    requires SameKinds(a, b) && DepthSteps(pa, de) && pa.Keys == de.Keys && pa.Keys <= a.Keys && x in pa
    ensures NearestWorkspace(a, pa, de, x) == NearestWorkspace(b, pa, de, x)
    decreases de[x]
  {
    if a[x].Kind() != Workspace && pa[x].Some? {
      NearestWorkspaceKinds(a, b, pa, de, pa[x].value);
    }
  }

  /** What the fullscreen handler leaves behind, from the state `s` it started in. */
  ghost predicate FullscreenOutcome(s: Snapshot, cmd: Command, r: Outcome, after: map<Ref, Node>,
                                    log0: seq<Call>, log1: seq<Call>)
  {
    var w := FocusedWindow(s.nodes, s.focused);
    && (w.None? ==> r == Fail("Focused container is not a window") && after == s.nodes && log1 == log0)
    && (w.Some? ==>
          var x := s.nodes[w.value].extra;
          var f := FlagFor(Arg(cmd, 0), x.fullscreen);
          && r == Ok()
          && after == s.nodes[w.value := s.nodes[w.value].(extra := x.(fullscreen := f))]
          && log1 == log0 + [SetFullscreen(x.handle, f)])
  }

  /** The fullscreen handler (workspace.ts:155-177): a focused window gets the new
      fullscreen flag and the adapter is told; anything else fails with nothing changed. */
  method FullscreenHandler(cmd: Command, ctx: Context) returns (r: Outcome)
    requires ctx.Ready()
    modifies ctx.tree`nodes, ctx`log
    ensures ctx.Ready()
    ensures FullscreenOutcome(old(ctx.View()), cmd, r, ctx.tree.nodes, old(ctx.log), ctx.log)
  {
    var t := ctx.tree;
    var w := FocusedWindow(t.nodes, ctx.focused);
    if w.None? {
      return Fail("Focused container is not a window");
    }
    var n := t.nodes[w.value];
    var fullscreen := FlagFor(Arg(cmd, 0), n.extra.fullscreen);
    t.SetNode(w.value, n.(extra := n.extra.(fullscreen := fullscreen)));
    ctx.log := ctx.log + [SetFullscreen(n.extra.handle, fullscreen)];
    return Ok();
  }
}
