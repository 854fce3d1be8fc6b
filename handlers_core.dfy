/** The handlers of src/commands/handlers/core.ts other than move and resize: mode, focus,
    split, layout, alternating-mode and retile. */
module CoreHandlers {
  import opened Wrappers
  import opened Seqs
  import opened Text
  import opened Containers
  import opened Commands
  import opened Arena
  import opened Tree
  import opened Strategy
  import opened Reflow
  import opened ApplyLayout
  import opened Focus
  import opened Navigation
  import opened HandlerContext

  // ---- mode

  /** `target.replace(/^"|"$/g, "")` (core.ts:237): one leading and one trailing double quote
      are dropped. */
  function StripQuotes(s: string): (r: string)
    ensures |s| - 2 <= |r| <= |s|
  {
    var t := if |s| > 0 && s[0] == '"' then s[1..] else s;
    if |t| > 0 && t[|t| - 1] == '"' then t[..|t| - 1] else t
  }

  /** A quoted name comes back without its quotes. */
  lemma StripQuotesQuoted(n: string)
    ensures StripQuotes("\"" + n + "\"") == n
  {
    var q := "\"" + n + "\"";
    assert q[1..] == n + "\"";
    assert (n + "\"")[..|n|] == n;
  }

  /** A name that neither starts nor ends with a quote is left alone, and the result of
      stripping is always a slice of the input. */
  lemma StripQuotesPlain(n: string)
    ensures n == [] || (n[0] != '"' && n[|n| - 1] != '"') ==> StripQuotes(n) == n
    ensures var r := StripQuotes(n); var i := if |n| > 0 && n[0] == '"' then 1 else 0;
            i + |r| <= |n| && r == n[i..i + |r|]
  {
  }

  /** What the mode handler returns and calls, given the callbacks and the modes the
      switchMode callback knows. */
  ghost predicate ModeOutcome(cmd: Command, caps: Capabilities, modes: set<string>, r: Outcome,
                              log0: seq<Call>, log1: seq<Call>) {
    var target := Trim(Join(cmd.args, " "));
    var name := StripQuotes(target);
    && (target == [] ==> r == Fail("Mode name required") && log1 == log0)
    && (target != [] && !caps.switchMode ==> r == Fail("Mode switching is unavailable") && log1 == log0)
    && (target != [] && caps.switchMode ==>
          log1 == log0 + [SwitchMode(name)] && r == if name in modes then Ok() else Fail("Unknown mode: " + name))
  }

  /** The mode handler (core.ts:225-245): the joined arguments name the mode; an empty name,
      or a context without the switchMode callback, fails with nothing called; otherwise the
      callback is called with the unquoted name, and the result says whether it knew it. */
  method ModeHandler(cmd: Command, ctx: Context) returns (r: Outcome)
    modifies ctx`log
    ensures ModeOutcome(cmd, ctx.caps, ctx.modes, r, old(ctx.log), ctx.log)
  {
    var target := Trim(Join(cmd.args, " "));
    if target == [] {
      return Fail("Mode name required");
    }
    if !ctx.caps.switchMode {
      return Fail("Mode switching is unavailable");
    }
    var name := StripQuotes(target);
    ctx.log := ctx.log + [SwitchMode(name)];
    if name !in ctx.modes {
      return Fail("Unknown mode: " + name);
    }
    return Ok();
  }

  // ---- focus

  /** The window a handler acts on (core.ts:256-258, 302-304, 353-355): the focused container
      when it is a window, else the first window below it. */
  function WindowFor(nodes: map<Ref, Node>, ch: map<Ref, seq<Ref>>, ghost pa: map<Ref, Option<Ref>>,
                     ghost de: map<Ref, nat>, ghost bd: nat, f: Ref): (w: Option<Ref>)
    requires Walkable(nodes, ch, pa, de, bd) && f in ch
    ensures w.Some? ==> w.value in ch && nodes[w.value].IsWindow()
  {
    if nodes[f].IsWindow() then Some(f)
    else
      var r := FindFirstWindow(nodes, ch, pa, de, bd, f);
      if r.Some? then CollectedWindows(nodes, ch, pa, de, bd, f, r.value); r else r
  }

  /** The window found lies at or below the focused container; there is none only when no
      window lies there. */
  lemma WindowForSpec(nodes: map<Ref, Node>, ch: map<Ref, seq<Ref>>, pa: map<Ref, Option<Ref>>,
                      de: map<Ref, nat>, bd: nat, f: Ref)
    requires Walkable(nodes, ch, pa, de, bd) && f in ch
    ensures var w := WindowFor(nodes, ch, pa, de, bd, f);
            && (w.Some? ==> Below(pa, de, w.value, f))
            && (w.None? ==> forall y :: y in ch && Below(pa, de, y, f) ==> !nodes[y].IsWindow())
  {
    var w := WindowFor(nodes, ch, pa, de, bd, f);
    if !nodes[f].IsWindow() {
      if w.Some? {
        CollectedWindows(nodes, ch, pa, de, bd, f, w.value);
      } else {
        forall y | y in ch && Below(pa, de, y, f) ensures !nodes[y].IsWindow() {
          CollectedWindows(nodes, ch, pa, de, bd, f, y);
        }
      }
    }
  }

  /** The window of the focused container, if there is a focused container and a window. */
  ghost function Current(s: Snapshot): Option<Ref>
    requires Sound(s)
  {
    if s.focused.None? then None else WindowFor(s.nodes, s.ch, s.pa, s.de, s.bd, s.focused.value)
  }

  /** Where a directional search from `w` looks (core.ts:265-267, 360-361): the workspace
      above `w`, else the whole tree. */
  ghost function Scope(s: Snapshot, w: Ref): Ref
    requires Sound(s) && w in s.nodes
  {
    match NearestWorkspace(s.nodes, s.pa, s.de, w)
    case Some(ws) => ws
    case None => s.root
  }

  /** The window focus goes to (core.ts:263-268): with a direction word, the neighbour of
      `w` that way in its scope when there is one; `w` itself otherwise. */
  ghost function FocusTarget(s: Snapshot, w: Ref, direction: Option<string>): (t: Ref)
    requires Sound(s) && w in s.nodes && s.nodes[w].IsWindow()
    ensures t in s.nodes && s.nodes[t].IsWindow()
  {
    if !Given(direction) then w
    else
      NearestWorkspaceIs(s.nodes, s.pa, s.de, w);
      var n := FindDirectionalWindow(s.nodes, s.ch, s.pa, s.de, s.bd, Scope(s, w), w, direction.value);
      DirectionalSpec(s.nodes, s.ch, s.pa, s.de, s.bd, Scope(s, w), w, direction.value);
      if n.Some? then n.value else w
  }

  /** Focus stays put without a direction word or with an unknown one; with a known one it
      moves exactly when some window of the scope lies that way and overlaps on the cross
      axis, and then to one that no other such window ranks before. */
  lemma FocusTargetSpec(s: Snapshot, w: Ref, direction: Option<string>)
    requires Sound(s) && w in s.nodes && s.nodes[w].IsWindow()
    ensures !Given(direction) || DirectionOf(direction.value).None? ==> FocusTarget(s, w, direction) == w
    ensures Given(direction) && DirectionOf(direction.value).Some? ==>
              var d := DirectionOf(direction.value).value;
              var t := FocusTarget(s, w, direction);
              var inScope := (y: Ref) => y in s.ch && Below(s.pa, s.de, y, Scope(s, w)) && s.nodes[y].IsWindow();
              && (t == w <==> forall y :: inScope(y) ==> !Qualifies(s.nodes, w, d, y))
              && (t != w ==> inScope(t) && Qualifies(s.nodes, w, d, t)
                             && forall y :: inScope(y) && Qualifies(s.nodes, w, d, y) ==>
                                  !Before(RankOf(d, s.nodes[w].rect, s.nodes[y]), RankOf(d, s.nodes[w].rect, s.nodes[t])))
  {
    if Given(direction) {
      NearestWorkspaceIs(s.nodes, s.pa, s.de, w);
      DirectionalSpec(s.nodes, s.ch, s.pa, s.de, s.bd, Scope(s, w), w, direction.value);
    }
  }

  /** The outcome of the focus handler on `s`: without a focused container or without a
      window at or below it, a failure that changes nothing; otherwise the target window is
      the only focused one under the root and it is activated. */
  ghost predicate FocusOutcome(s: Snapshot, direction: Option<string>, r: Outcome, after: map<Ref, Node>,
                          log0: seq<Call>, log1: seq<Call>)
    requires Sound(s)
  {
    && (Current(s).None? ==>
          r == Fail(if s.focused.None? then "No focused container" else "No focused window")
          && after == s.nodes && log1 == log0)
    && (Current(s).Some? ==>
          var t := FocusTarget(s, Current(s).value, direction);
          && r == Ok()
          && after == FocusResult(s.nodes, Subtree(s.pa, s.de, s.root), Some(t))
          && log1 == log0 + [Activate(s.nodes[t].extra.handle)])
  }

  /** The focus handler (core.ts:247-279): fails without a focused container or without a
      window at or below it; otherwise focuses the target window under the root (clearing
      every other flag there), activates it, and leaves `context.focused` as it was. */
  method FocusHandler(cmd: Command, ctx: Context) returns (r: Outcome)
    requires ctx.Ready()
    modifies ctx.tree`nodes, ctx`log
    ensures ctx.Ready()
    ensures FocusOutcome(old(ctx.View()), Arg(cmd, 0), r, ctx.tree.nodes, old(ctx.log), ctx.log)
  {
    ctx.ReadySound();
    var t := ctx.tree;
    var target := FindFocusTarget(t.nodes, t.children, t.parent, t.depth, t.bound, ctx.root, ctx.focused, Arg(cmd, 0),
                                  ctx.View());
    if target.None? {
      r := Fail(if ctx.focused.None? then "No focused container" else "No focused window");
    } else {
      FocusWindow(ctx, target.value);
      r := Ok();
    }
  }

  /** `setFocusedContainer(root, window)` and `adapter.activate(window)` (core.ts:270-276). */
  method FocusWindow(ctx: Context, w: Ref)
    requires ctx.Ready() && w in ctx.tree.nodes && ctx.tree.nodes[w].IsWindow()
    modifies ctx.tree`nodes, ctx`log
    ensures ctx.Ready()
    ensures ctx.tree.nodes == FocusResult(old(ctx.tree.nodes), Subtree(ctx.tree.parent, ctx.tree.depth, ctx.root), Some(w))
    ensures ctx.log == old(ctx.log) + [Activate(old(ctx.tree.nodes)[w].extra.handle)]
  {
    var handle := ctx.tree.nodes[w].extra.handle;
    SetFocusedContainer(ctx.tree, ctx.root, Some(w));
    ctx.log := ctx.log + [Activate(handle)];
  }

  /** The target search of the focus handler on the tree `s` describes. */
  method FindFocusTarget(nodes: map<Ref, Node>, ch: map<Ref, seq<Ref>>, pa: map<Ref, Option<Ref>>,
                         ghost de: map<Ref, nat>, ghost bd: nat, root: Ref, focused: Option<Ref>,
                         direction: Option<string>, ghost s: Snapshot)
    returns (t: Option<Ref>)
    requires Sound(s) && s.nodes == nodes && s.ch == ch && s.pa == pa && s.de == de && s.bd == bd
    requires s.root == root && s.focused == focused
    ensures t.None? <==> Current(s).None?
    ensures t.Some? ==> t.value == FocusTarget(s, Current(s).value, direction)
  {
    if focused.None? {
      return None;
    }
    var w := WindowFor(nodes, ch, pa, de, bd, focused.value);
    if w.None? {
      return None;
    }
    t := w;
    if Given(direction) {
      var ws := FindWorkspaceForContainer(nodes, pa, de, w.value);
      NearestWorkspaceIs(nodes, pa, de, w.value);
      var scope := if ws.Some? then ws.value else root;
      var n := FindDirectionalWindow(nodes, ch, pa, de, bd, scope, w.value, direction.value);
      if n.Some? {
        t := n;
      }
    }
  }

  // ---- split, layout, alternating-mode

  /** The parent of the focused container, when both exist; it is never a window. */
  ghost function FocusedParent(s: Snapshot): (p: Option<Ref>)
    requires Sound(s)
    ensures p.Some? ==> p.value in s.nodes && !s.nodes[p.value].IsWindow()
  {
    if s.focused.None? then None
    else
      var f := s.focused.value;
      if s.pa[f].Some? then assert f in s.ch[s.pa[f].value]; s.pa[f] else None
  }

  /** The split handler's layout (core.ts:503): vertical for the `splitv` action or a first
      argument `v`, horizontal otherwise. */
  function SplitLayout(cmd: Command): (l: Layout)
    ensures l == SplitV <==> cmd.action == "splitv" || Arg(cmd, 0) == Some("v")
    ensures l != SplitV ==> l == SplitH
  {
    if cmd.action == "splitv" || Arg(cmd, 0) == Some("v") then SplitV else SplitH
  }

  /** What the split handler leaves behind, from the state `s` it started in. */
  ghost predicate SplitOutcome(s: Snapshot, cmd: Command, gaps: Option<Gaps>, r: Outcome, after: map<Ref, Node>,
                               log0: seq<Call>, log1: seq<Call>)
    requires Sound(s)
  {
    && (FocusedParent(s).None? ==> r == Fail("No focused container to split") && after == s.nodes && log1 == log0)
    && (FocusedParent(s).Some? ==> r == Ok() && LaidOut(s, FocusedParent(s).value, SplitLayout(cmd), gaps, after, log0, log1))
  }

  /** The split handler (core.ts:495-511): the focused container's parent gets the split
      layout and is laid out again. */
  method SplitHandler(cmd: Command, ctx: Context) returns (r: Outcome)
    requires ctx.Ready()
    modifies ctx.tree`nodes, ctx`log
    ensures ctx.Ready() && Sound(old(ctx.View()))
    ensures SplitOutcome(old(ctx.View()), cmd, ctx.config.gaps, r, ctx.tree.nodes, old(ctx.log), ctx.log)
  {
    ctx.ReadySound();
    if ctx.focused.None? || ctx.tree.parent[ctx.focused.value].None? {
      return Fail("No focused container to split");
    }
    var p := ctx.tree.parent[ctx.focused.value].value;
    SetLayoutAndRelayout(ctx, p, SplitLayout(cmd));
    return Ok();
  }

  /** The layout words of the layout handler (core.ts:522-528). */
  function LayoutNamed(word: Option<string>): (l: Option<Layout>)
  {
    if word == Some("splitv") then Some(SplitV)
    else if word == Some("splith") then Some(SplitH)
    else if word == Some("stacking") then Some(Stacking)
    else if word == Some("tabbed") then Some(Tabbed)
    else if word == Some("alternating") then Some(Alternating)
    else None
  }

  function LayoutWord(l: Layout): string {
    match l
    case SplitV => "splitv"
    case SplitH => "splith"
    case Stacking => "stacking"
    case Tabbed => "tabbed"
    case Alternating => "alternating"
  }

  /** Each layout has exactly one word: the word of a layout names it, and a word that names
      a layout is that layout's word. */
  lemma LayoutWords(word: Option<string>, l: Layout)
    ensures LayoutNamed(Some(LayoutWord(l))) == Some(l)
    ensures LayoutNamed(word) == Some(l) ==> word == Some(LayoutWord(l))
  {
  }

  /** What the layout handler leaves behind, from the state `s` it started in. */
  ghost predicate LayoutOutcome(s: Snapshot, cmd: Command, gaps: Option<Gaps>, r: Outcome, after: map<Ref, Node>,
                                log0: seq<Call>, log1: seq<Call>)
    requires Sound(s)
  {
    var l := LayoutNamed(Arg(cmd, 0));
    && (FocusedParent(s).None? ==> r == Fail("No focused container to layout") && after == s.nodes && log1 == log0)
    && (FocusedParent(s).Some? && l.None? ==> r == Fail("Unknown layout") && after == s.nodes && log1 == log0)
    && (FocusedParent(s).Some? && l.Some? ==> r == Ok() && LaidOut(s, FocusedParent(s).value, l.value, gaps, after, log0, log1))
  }

  /** The layout handler (core.ts:513-542): the first argument must name a layout; the
      focused container's parent gets it and is laid out again. */
  method LayoutHandler(cmd: Command, ctx: Context) returns (r: Outcome)
    requires ctx.Ready()
    modifies ctx.tree`nodes, ctx`log
    ensures ctx.Ready() && Sound(old(ctx.View()))
    ensures LayoutOutcome(old(ctx.View()), cmd, ctx.config.gaps, r, ctx.tree.nodes, old(ctx.log), ctx.log)
  {
    ctx.ReadySound();
    if ctx.focused.None? || ctx.tree.parent[ctx.focused.value].None? {
      return Fail("No focused container to layout");
    }
    var layout := LayoutNamed(Arg(cmd, 0));
    if layout.None? {
      return Fail("Unknown layout");
    }
    var p := ctx.tree.parent[ctx.focused.value].value;
    SetLayoutAndRelayout(ctx, p, layout.value);
    return Ok();
  }

  /** The alternating-mode words (core.ts:548). */
  function AlternatingModeNamed(word: Option<string>): (m: Option<AlternatingMode>)
    ensures m == Some(Focused) <==> word == Some("focused")
    ensures m == Some(Tail) <==> word == Some("tail")
  {
    if word == Some("focused") then Some(Focused)
    else if word == Some("tail") then Some(Tail)
    else None
  }

  /** What the alternating-mode handler returns and stores, from the stored mode `m0`. */
  ghost predicate AlternatingModeOutcome(cmd: Command, r: Outcome, m0: AlternatingMode, m1: AlternatingMode) {
    var m := AlternatingModeNamed(Arg(cmd, 0));
    && (m.None? ==> r == Fail("Unknown alternating mode") && m1 == m0)
    && (m.Some? ==> r == Ok() && m1 == m.value)
  }

  /** The alternating-mode handler (core.ts:544-554): stores a known mode in the settings. */
  method AlternatingModeHandler(cmd: Command, ctx: Context) returns (r: Outcome)
    modifies ctx.config`alternatingMode
    ensures AlternatingModeOutcome(cmd, r, old(ctx.config.alternatingMode), ctx.config.alternatingMode)
  {
    var m := AlternatingModeNamed(Arg(cmd, 0));
    if m.None? {
      return Fail("Unknown alternating mode");
    }
    ctx.config.alternatingMode := m.value;
    return Ok();
  }

  // ---- retile

  /** reflow then applyLayout on each of `ws` in turn (a member outside the tree is
      skipped): the final node map, and the calls. */
  ghost function Retiled(nodes: map<Ref, Node>, ch: map<Ref, seq<Ref>>, pa: map<Ref, Option<Ref>>,
                         de: map<Ref, nat>, bd: nat, ws: seq<Ref>, t: Tiler): (r: (map<Ref, Node>, seq<Call>))
    requires Fits(t) && LinkedMaps(ch, pa, de, bd) && ch.Keys <= nodes.Keys
    ensures r.0.Keys == nodes.Keys
    decreases |ws|
  {
    if ws == [] then (nodes, [])
    else if ws[0] !in ch then Retiled(nodes, ch, pa, de, bd, ws[1..], t)
    else
      var m := Reflowed(nodes, ch, pa, de, bd, ws[0], t);
      var rest := Retiled(m, ch, pa, de, bd, ws[1..], t);
      (rest.0, Emitted(m, Arena.Walk(ch, pa, de, bd, ws[0])) + rest.1)
  }

  lemma {:induction false} RetiledAppend(nodes: map<Ref, Node>, ch: map<Ref, seq<Ref>>, pa: map<Ref, Option<Ref>>,
                                         de: map<Ref, nat>, bd: nat, a: seq<Ref>, b: seq<Ref>, t: Tiler)
    requires Fits(t) && LinkedMaps(ch, pa, de, bd) && ch.Keys <= nodes.Keys
    ensures var first := Retiled(nodes, ch, pa, de, bd, a, t);
            var second := Retiled(first.0, ch, pa, de, bd, b, t);
            Retiled(nodes, ch, pa, de, bd, a + b, t) == (second.0, first.1 + second.1)
    decreases |a|
  {
    if a == [] {
      assert a + b == b;
      assert [] + Retiled(nodes, ch, pa, de, bd, b, t).1 == Retiled(nodes, ch, pa, de, bd, b, t).1;
    } else {
      assert (a + b)[0] == a[0];
      assert (a + b)[1..] == a[1..] + b;
      if a[0] !in ch {
        RetiledAppend(nodes, ch, pa, de, bd, a[1..], b, t);
        return;
      }
      var m := Reflowed(nodes, ch, pa, de, bd, a[0], t);
      var e := Emitted(m, Arena.Walk(ch, pa, de, bd, a[0]));
      RetiledAppend(m, ch, pa, de, bd, a[1..], b, t);
      var first' := Retiled(m, ch, pa, de, bd, a[1..], t);
      var second := Retiled(first'.0, ch, pa, de, bd, b, t);
      assert Retiled(nodes, ch, pa, de, bd, a + b, t) == (second.0, e + (first'.1 + second.1));
      assert Retiled(nodes, ch, pa, de, bd, a, t) == (first'.0, e + first'.1);
      assert e + (first'.1 + second.1) == (e + first'.1) + second.1;
    }
  }

  /** Retiling `c` first: reflow and lay out `c`, then the rest from the map that leaves. */
  lemma RetiledCons(nodes: map<Ref, Node>, ch: map<Ref, seq<Ref>>, pa: map<Ref, Option<Ref>>,
                    de: map<Ref, nat>, bd: nat, c: Ref, later: seq<Ref>, t: Tiler, m: map<Ref, Node>)
    requires Fits(t) && LinkedMaps(ch, pa, de, bd) && ch.Keys <= nodes.Keys
    requires c in ch
    requires m == Reflowed(nodes, ch, pa, de, bd, c, t)
    ensures var rest := Retiled(m, ch, pa, de, bd, later, t);
            Retiled(nodes, ch, pa, de, bd, [c] + later, t)
              == (rest.0, Emitted(m, Arena.Walk(ch, pa, de, bd, c)) + rest.1)
  {
    assert ([c] + later)[1..] == later;
  }

  /** Retiling changes only rects, never a floating window's, and every call it makes is a
      moveResize of a tiled window to the rect that window ends up with in the step that
      moves it. */
  lemma {:induction false} RetiledFrame(nodes: map<Ref, Node>, ch: map<Ref, seq<Ref>>, pa: map<Ref, Option<Ref>>,
                                        de: map<Ref, nat>, bd: nat, ws: seq<Ref>, t: Tiler)
    requires Fits(t) && LinkedMaps(ch, pa, de, bd) && ch.Keys == nodes.Keys
    ensures var r := Retiled(nodes, ch, pa, de, bd, ws, t);
            && OnlyRects(nodes, r.0)
            && (forall y :: y in nodes && !nodes[y].IsTiled() ==> r.0[y] == nodes[y])
            && (forall c :: c in r.1 ==> c.MoveResize?)
    decreases |ws|
  {
    var r := Retiled(nodes, ch, pa, de, bd, ws, t);
    if ws != [] && ws[0] !in ch {
      RetiledFrame(nodes, ch, pa, de, bd, ws[1..], t);
    } else if ws != [] {
      var m := Reflowed(nodes, ch, pa, de, bd, ws[0], t);
      ReflowedFrame(nodes, ch, pa, de, bd, ws[0], t, m);
      RetiledFrame(m, ch, pa, de, bd, ws[1..], t);
      OnlyRectsTrans(nodes, m, r.0);
      var walk := Arena.Walk(ch, pa, de, bd, ws[0]);
      WalkBelow(ch, pa, de, bd, ws[0]);
      EmittedCalls(m, walk);
      forall y | y in nodes && !nodes[y].IsTiled() ensures r.0[y] == nodes[y] {
        assert m[y] == nodes[y];
      }
    }
  }

  /** `all` is what retiling gives from the start, and `done` the calls made so far: what is
      left is to retile `plan` from `nodes`. */
  ghost predicate Ahead(all: (map<Ref, Node>, seq<Call>), nodes: map<Ref, Node>, ch: map<Ref, seq<Ref>>,
                        pa: map<Ref, Option<Ref>>, de: map<Ref, nat>, bd: nat, plan: seq<Ref>, t: Tiler,
                        done: seq<Call>)
    requires Fits(t) && LinkedMaps(ch, pa, de, bd) && ch.Keys <= nodes.Keys
  {
    var rest := Retiled(nodes, ch, pa, de, bd, plan, t);
    all.0 == rest.0 && all.1 == done + rest.1
  }

  /** What the retile handler leaves behind, from the state `s` it started in: it always
      succeeds. */
  ghost predicate RetileOutcome(s: Snapshot, gaps: Option<Gaps>, r: Outcome, after: map<Ref, Node>,
                                log0: seq<Call>, log1: seq<Call>)
    requires Sound(s)
  {
    var done := Retiled(s.nodes, s.ch, s.pa, s.de, s.bd, WorkspacesUnder(s.nodes, s.ch, s.ch[s.root], false), SplitTiler(gaps));
    r == Ok() && after == done.0 && log1 == log0 + done.1
  }

  /** The retile handler (core.ts:556-569): every workspace child of every child of the root
      (Output or not) is reflowed and laid out, in order. */
  method RetileHandler(ctx: Context) returns (r: Outcome)
    requires ctx.Ready()
    modifies ctx.tree`nodes, ctx`log
    ensures ctx.Ready() && Sound(old(ctx.View()))
    ensures RetileOutcome(old(ctx.View()), ctx.config.gaps, r, ctx.tree.nodes, old(ctx.log), ctx.log)
  {
    ctx.ReadySound();
    var t := ctx.tree;
    forall o | o in t.children[ctx.root] ensures o in t.children {
      assert t.parent[o] == Some(ctx.root);
    }
    var out, calls := RetileMaps(t.nodes, t.children, t.parent, t.depth, t.bound, t.children[ctx.root], ctx.config.gaps);
    RetiledFrame(t.nodes, t.children, t.parent, t.depth, t.bound,
                 WorkspacesUnder(t.nodes, t.children, t.children[ctx.root], false), SplitTiler(ctx.config.gaps));
    OnlyRectsShaped(t.nodes, out, t.children, t.parent, t.depth, t.bound, t.nextRef);
    t.nodes := out;
    ctx.log := ctx.log + calls;
    return Ok();
  }

  /** Windows stay leaves when only rects change. */
  lemma LeavesKept(a: map<Ref, Node>, b: map<Ref, Node>, ch: map<Ref, seq<Ref>>)
    requires WindowsAreLeaves(a, ch) && OnlyRects(a, b)
    ensures WindowsAreLeaves(b, ch)
  {
    forall r | r in b && b[r].IsWindow() ensures r in ch && ch[r] == [] {
      assert b[r] == a[r].(rect := b[r].rect);
    }
  }

  /** The two loops of retile over the node map: the workspace children of each of `outs`,
      in order, are reflowed and laid out. */
  method RetileMaps(nodes: map<Ref, Node>, ch: map<Ref, seq<Ref>>, ghost pa: map<Ref, Option<Ref>>,
                    ghost de: map<Ref, nat>, ghost bd: nat, outs: seq<Ref>, gaps: Option<Gaps>)
    returns (out: map<Ref, Node>, calls: seq<Call>)
    requires LinkedMaps(ch, pa, de, bd) && nodes.Keys == ch.Keys && WindowsAreLeaves(nodes, ch)
    requires forall o :: o in outs ==> o in ch
    ensures (out, calls) == Retiled(nodes, ch, pa, de, bd, WorkspacesUnder(nodes, ch, outs, false), SplitTiler(gaps))
  {
    ghost var tiler := SplitTiler(gaps);
    ghost var plan := WorkspacesUnder(nodes, ch, outs, false);
    ghost var all := Retiled(nodes, ch, pa, de, bd, plan, tiler);
    out, calls := nodes, [];
    assert outs[0..] == outs;
    assert [] + all.1 == all.1;
    var i := 0;
    while i < |outs|
      invariant 0 <= i <= |outs| && OnlyRects(nodes, out)
      invariant plan == WorkspacesUnder(nodes, ch, outs[i..], false)
      invariant Ahead(all, out, ch, pa, de, bd, plan, tiler, calls)
    {
      WorkspacesUnderNext(nodes, ch, outs, i, false);
      ghost var after := WorkspacesUnder(nodes, ch, outs[i + 1..], false);
      var cs := ch[outs[i]];
      assert WorkspacesUnder(nodes, ch, [outs[i]], false) == WorkspacesOf(nodes, cs) + [] by {
        assert cs[0..] == cs;
      }
      out, calls := RetileChildren(nodes, out, ch, pa, de, bd, cs, after, gaps, calls, all);
      plan := after;
      i := i + 1;
    }
    assert calls + [] == calls;
  }

  /** The inner loop of retile over the children `cs` of one child of the root; `after` is
      what the later children of the root hold. */
  method RetileChildren(nodes: map<Ref, Node>, cur: map<Ref, Node>, ch: map<Ref, seq<Ref>>,
                        ghost pa: map<Ref, Option<Ref>>, ghost de: map<Ref, nat>, ghost bd: nat, cs: seq<Ref>,
                        ghost after: seq<Ref>, gaps: Option<Gaps>, done: seq<Call>, ghost all: (map<Ref, Node>, seq<Call>))
    returns (out: map<Ref, Node>, calls: seq<Call>)
    requires LinkedMaps(ch, pa, de, bd) && nodes.Keys == ch.Keys && WindowsAreLeaves(nodes, ch) && OnlyRects(nodes, cur)
    requires Ahead(all, cur, ch, pa, de, bd, WorkspacesOf(nodes, cs) + after, SplitTiler(gaps), done)
    ensures OnlyRects(nodes, out)
    ensures Ahead(all, out, ch, pa, de, bd, after, SplitTiler(gaps), calls)
  {
    ghost var plan := WorkspacesOf(nodes, cs[0..]) + after;
    assert cs[0..] == cs;
    out, calls := cur, done;
    var j := 0;
    while j < |cs|
      invariant 0 <= j <= |cs| && OnlyRects(nodes, out)
      invariant plan == WorkspacesOf(nodes, cs[j..]) + after
      invariant Ahead(all, out, ch, pa, de, bd, plan, SplitTiler(gaps), calls)
    {
      var c := cs[j];
      WorkspacesOfFrom(nodes, cs, j);
      ghost var later := WorkspacesOf(nodes, cs[j + 1..]) + after;
      AppendAssoc(if IsWorkspaceIn(nodes, c) then [c] else [], WorkspacesOf(nodes, cs[j + 1..]), after);
      out, calls := RetileChild(nodes, out, ch, pa, de, bd, c, later, gaps, calls, all);
      plan := later;
      j := j + 1;
    }
    assert WorkspacesOf(nodes, cs[j..]) == [];
    assert plan == after;
  }

  /** One step of that loop: a child `c` that is a workspace is reflowed and laid out, any
      other child is passed over. */
  method RetileChild(nodes: map<Ref, Node>, cur: map<Ref, Node>, ch: map<Ref, seq<Ref>>,
                     ghost pa: map<Ref, Option<Ref>>, ghost de: map<Ref, nat>, ghost bd: nat, c: Ref,
                     ghost later: seq<Ref>, gaps: Option<Gaps>, done: seq<Call>, ghost all: (map<Ref, Node>, seq<Call>))
    returns (out: map<Ref, Node>, calls: seq<Call>)
    requires LinkedMaps(ch, pa, de, bd) && nodes.Keys == ch.Keys && WindowsAreLeaves(nodes, ch) && OnlyRects(nodes, cur)
    requires Ahead(all, cur, ch, pa, de, bd, (if IsWorkspaceIn(nodes, c) then [c] else []) + later, SplitTiler(gaps), done)
    ensures OnlyRects(nodes, out)
    ensures Ahead(all, out, ch, pa, de, bd, later, SplitTiler(gaps), calls)
  {
    if c in cur && cur[c].Kind() == Workspace {
      assert IsWorkspaceIn(nodes, c);
      var m := ReflowAt(cur, ch, pa, de, bd, c, gaps);
      ReflowedFrame(cur, ch, pa, de, bd, c, SplitTiler(gaps), m);
      OnlyRectsTrans(nodes, cur, m);
      LeavesKept(nodes, m, ch);
      var e := ApplyLayoutAt(m, ch, pa, de, bd, c);
      AheadStep(all, cur, m, ch, pa, de, bd, c, later, SplitTiler(gaps), done);
      out, calls := m, done + e;
    } else {
      assert !IsWorkspaceIn(nodes, c);
      AheadSkip(all, cur, ch, pa, de, bd, later, SplitTiler(gaps), done);
      out, calls := cur, done;
    }
  }

  lemma AheadStep(all: (map<Ref, Node>, seq<Call>), before: map<Ref, Node>, after: map<Ref, Node>,
                  ch: map<Ref, seq<Ref>>, pa: map<Ref, Option<Ref>>, de: map<Ref, nat>, bd: nat, c: Ref,
                  later: seq<Ref>, t: Tiler, done: seq<Call>)
    requires Fits(t) && LinkedMaps(ch, pa, de, bd) && ch.Keys <= before.Keys
    requires c in ch
    requires Ahead(all, before, ch, pa, de, bd, [c] + later, t, done)
    requires after == Reflowed(before, ch, pa, de, bd, c, t)
    ensures Ahead(all, after, ch, pa, de, bd, later, t, done + Emitted(after, Arena.Walk(ch, pa, de, bd, c)))
  {
    RetiledCons(before, ch, pa, de, bd, c, later, t, after);
    var rest := Retiled(after, ch, pa, de, bd, later, t);
    AppendAssoc(done, Emitted(after, Arena.Walk(ch, pa, de, bd, c)), rest.1);
  }

  lemma AheadSkip(all: (map<Ref, Node>, seq<Call>), nodes: map<Ref, Node>, ch: map<Ref, seq<Ref>>,
                  pa: map<Ref, Option<Ref>>, de: map<Ref, nat>, bd: nat, later: seq<Ref>, t: Tiler, done: seq<Call>)
    requires Fits(t) && LinkedMaps(ch, pa, de, bd) && ch.Keys <= nodes.Keys
    requires Ahead(all, nodes, ch, pa, de, bd, [] + later, t, done)
    ensures Ahead(all, nodes, ch, pa, de, bd, later, t, done)
  {
    assert [] + later == later;
  }
}
