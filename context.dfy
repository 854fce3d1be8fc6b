/** What a command handler works on (src/commands/context.ts, adapter.ts, service.ts:41-52):
    the tree under its root, the focused container, the settings object, the optional
    callbacks, and the window adapter, whose calls are recorded in order. */
module HandlerContext {
  import opened Wrappers
  import opened Containers
  import opened Commands
  import opened Arena
  import opened Tree
  import opened Config
  import opened Strategy
  import opened Reflow
  import opened ApplyLayout
  import Navigation

  /** The state a handler's result depends on. */
  datatype Snapshot = Snapshot(nodes: map<Ref, Node>, ch: map<Ref, seq<Ref>>, pa: map<Ref, Option<Ref>>,
                               de: map<Ref, nat>, bd: nat, root: Ref, focused: Option<Ref>,
                               caps: Capabilities, modes: set<string>)

  /** The tree is linked and the root and focused container are in it. */
  ghost predicate Sound(s: Snapshot) {
    Navigation.Walkable(s.nodes, s.ch, s.pa, s.de, s.bd) && s.nodes.Keys == s.ch.Keys
    && s.root in s.nodes && (s.focused.Some? ==> s.focused.value in s.nodes)
  }

  class Context {
    const tree: Tree
    const config: Config
    const root: Ref
    var focused: Option<Ref>
    /** The adapter and callback calls made so far. */
    var log: seq<Call>
    const caps: Capabilities
    /** The mode names the `switchMode` callback accepts. */
    const modes: set<string>
    /** The minimum sizes that windows report through `get_min_size`; a window without an
        entry does not report one. */
    const minSizes: map<Handle, (int, int)>

    constructor (tree: Tree, config: Config, root: Ref, focused: Option<Ref>, caps: Capabilities,
                 modes: set<string>, minSizes: map<Handle, (int, int)>)
      ensures this.tree == tree && this.config == config && this.root == root && this.focused == focused
      ensures this.caps == caps && this.modes == modes && this.minSizes == minSizes && log == []
    {
      this.tree, this.config, this.root, this.focused := tree, config, root, focused;
      this.caps, this.modes, this.minSizes, log := caps, modes, minSizes, [];
    }

    ghost predicate Ready()
      reads this`focused, tree
    {
      tree.Valid() && root in tree.nodes && (focused.Some? ==> focused.value in tree.nodes)
    }

    ghost function View(): (s: Snapshot)
      reads this`focused, tree
    {
      Snapshot(tree.nodes, tree.children, tree.parent, tree.depth, tree.bound, root, focused, caps, modes)
    }

    lemma ReadySound()
      requires Ready()
      ensures Sound(View())
    {
    }
  }

  /** `command.args[i]`, undefined past the end. */
  function Arg(cmd: Command, i: nat): (a: Option<string>)
    ensures a.Some? <==> i < |cmd.args|
  {
    if i < |cmd.args| then Some(cmd.args[i]) else None
  }

  /** A JavaScript string test `if (s)`: present and not empty. */
  predicate Given(a: Option<string>) {
    a.Some? && a.value != ""
  }

  /** The effect of `p.setLayout(layout)` followed by reflow and applyLayout from `p`: `p`
      has the new layout, the rects strictly below it are recomputed (nothing outside its
      subtree changes), and one moveResize per tiled window below it follows `log0`. */
  ghost predicate LaidOut(s: Snapshot, p: Ref, layout: Layout, gaps: Option<Gaps>,
                          after: map<Ref, Node>, log0: seq<Call>, log1: seq<Call>)
    requires Sound(s) && p in s.nodes
  {
    var changed := s.nodes[p := s.nodes[p].(layout := layout)];
    && after == Reflowed(changed, s.ch, s.pa, s.de, s.bd, p, SplitTiler(gaps))
    && after[p] == changed[p]
    && Frame(changed, after, s.pa, s.de, p)
    && log1 == log0 + Emitted(after, Arena.Walk(s.ch, s.pa, s.de, s.bd, p))
  }

  /** `reflow(x, context.config.gaps)` followed by `applyLayout(x, context.adapter)`: the
      rects below `x` are recomputed, then one moveResize per tiled window below `x` is
      logged, with the new rects. */
  method Relayout(ctx: Context, x: Ref)
    requires ctx.Ready() && x in ctx.tree.nodes
    modifies ctx.tree`nodes, ctx`log
    ensures ctx.Ready()
    ensures ctx.tree.nodes == Reflowed(old(ctx.tree.nodes), ctx.tree.children, ctx.tree.parent, ctx.tree.depth,
                                       ctx.tree.bound, x, SplitTiler(ctx.config.gaps))
    ensures Frame(old(ctx.tree.nodes), ctx.tree.nodes, ctx.tree.parent, ctx.tree.depth, x)
    ensures ctx.log == old(ctx.log) + Emitted(ctx.tree.nodes, Arena.Walk(ctx.tree.children, ctx.tree.parent,
                                                                         ctx.tree.depth, ctx.tree.bound, x))
  {
    ReflowTree(ctx.tree, x, ctx.config.gaps);
    var calls := ApplyLayout.ApplyLayout(ctx.tree, x);
    ctx.log := ctx.log + calls;
  }

  /** `p.setLayout(layout)`, then reflow and applyLayout from `p` (core.ts:504-507, 535-538). */
  method SetLayoutAndRelayout(ctx: Context, p: Ref, layout: Layout)
    requires ctx.Ready() && p in ctx.tree.nodes
    modifies ctx.tree`nodes, ctx`log
    ensures ctx.Ready()
    ensures LaidOut(old(ctx.View()), p, layout, ctx.config.gaps, ctx.tree.nodes, old(ctx.log), ctx.log)
  {
    ctx.tree.SetLayout(p, layout);
    ghost var changed := ctx.tree.nodes;
    Relayout(ctx, p);
    assert ctx.tree.nodes[p] == changed[p];
  }
}
