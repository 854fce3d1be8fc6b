/** The command service (src/commands/service.ts): a command string is parsed and run as
    one batch on a context built from the service's dependencies; `execute` finds the focused
    container itself, `executeForTarget` is told it. */
module Service {
  import opened Wrappers
  import opened Text
  import opened Containers
  import opened Commands
  import opened Tree
  import opened Config
  import opened Parser
  import opened HandlerContext
  import opened Handlers
  import opened Engine

  const RootNotReady := "Root container is not ready"

  /** The commands `command` parses to, run in order from world `w0` through the worlds of
      `trace` with results `rs`. */
  ghost predicate Served(handlers: map<string, Run>, dump: Outcome, c: Settings, command: string,
                         w0: World, trace: seq<World>, rs: seq<Outcome>)
  {
    Batch(handlers, ParseCommandString(WhitespaceSeparator, command), dump, c, trace, rs) && trace[0] == w0
  }

  /** A batch gives one result per segment of the command string; it gives none, and
      leaves the world as it was, exactly when the string is only white space and `;`. */
  lemma ServedShape(handlers: map<string, Run>, dump: Outcome, c: Settings, command: string,
                    w0: World, trace: seq<World>, rs: seq<Outcome>)
    requires Served(handlers, dump, c, command, w0, trace, rs)
    ensures |rs| == |Segments(command)| && |trace| == |rs| + 1
    ensures rs == [] <==> forall ch :: ch in command ==> IsSpace(ch) || ch == ';'
    ensures rs == [] ==> trace == [w0]
  {
    BlankParsesNothing(WhitespaceSeparator, command);
  }

  /** CommandServiceDeps (service.ts:10-23), with the adapter as the log of its calls. */
  class CommandService {
    const engine: CommandEngine
    /** The tree `getRoot()` belongs to. */
    const tree: Tree
    /** What `getConfig()` returns. */
    const config: Config
    /** The optional callbacks and adapter members that are present. */
    const caps: Capabilities
    /** The mode names `switchMode` accepts. */
    const modes: set<string>
    const minSizes: map<Handle, (int, int)>
    /** Whether `onAfterExecute` is given. */
    const hasAfterExecute: bool
    /** What the dump handler returns; the dump handler is not part of this model. */
    const dump: Outcome
    /** `getRoot()`: the root container, or null before there is one. */
    var root: Option<Ref>
    /** Every adapter and callback call the commands have made, in order. */
    var calls: seq<Call>
    /** How many times `onAfterExecute` has run. */
    var afterExecute: nat

    constructor (engine: CommandEngine, tree: Tree, config: Config, caps: Capabilities, modes: set<string>,
                 minSizes: map<Handle, (int, int)>, hasAfterExecute: bool, dump: Outcome, root: Option<Ref>)
      ensures this.engine == engine && this.tree == tree && this.config == config && this.caps == caps
      ensures this.modes == modes && this.minSizes == minSizes && this.hasAfterExecute == hasAfterExecute
      ensures this.dump == dump && this.root == root && calls == [] && afterExecute == 0
    {
      this.engine, this.tree, this.config, this.caps, this.modes := engine, tree, config, caps, modes;
      this.minSizes, this.hasAfterExecute, this.dump, this.root := minSizes, hasAfterExecute, dump, root;
      calls, afterExecute := [], 0;
    }

    ghost predicate Valid()
      reads this`root, tree
    {
      tree.Valid() && (root.Some? ==> root.value in tree.nodes)
    }

    /** The world a command sees when `focused` is the focused container and `log` the
        calls made so far in its batch. */
    ghost function WorldWith(focused: Option<Ref>, log: seq<Call>): World
      reads this`root, tree, config
      requires root.Some?
    {
      World(Snapshot(tree.nodes, tree.children, tree.parent, tree.depth, tree.bound, root.value, focused, caps, modes),
            log, config.alternatingMode)
    }

    /** The tree and the stored alternating mode are those of `w`. */
    ghost predicate Holds(w: World)
      reads this`root, tree, config
      requires root.Some?
    {
      w == WorldWith(w.s.focused, w.log)
    }

    /** The state after a batch: the commands `command` parses to ran from world `w0` through
        the worlds of `trace` with results `rs`, the tree and the stored alternating mode are
        those of the last world, and the adapter's calls are `calls0` followed by the
        batch's. */
    ghost predicate Finished(command: string, w0: World, trace: seq<World>, rs: seq<Outcome>, calls0: seq<Call>)
      reads this`root, this`calls, engine`handlers, tree, config
      requires root.Some?
    {
      && |trace| > 0 && Served(engine.handlers, dump, Settings(), command, w0, trace, rs)
      && Holds(trace[|trace| - 1]) && calls == calls0 + trace[|trace| - 1].log
    }

    function Settings(): Settings
      reads config
    {
      Handlers.Settings(config.minTileWidth, config.minTileHeight, config.gaps, minSizes)
    }

    /** executeBatch (service.ts:33-53) once a root exists: the parsed commands run in order
        on a context whose focused container is `focused`, and their calls are appended to
        the adapter's. Without a root the callers answer with RootNotReady themselves. */
    method RunBatch(command: string, focused: Option<Ref>) returns (rs: seq<Outcome>, ghost trace: seq<World>)
      requires Valid() && root.Some? && (focused.Some? ==> focused.value in tree.nodes)
      modifies tree`nodes, tree`children, tree`parent, tree`depth, tree`bound, tree`nextRef
      modifies config`alternatingMode, this`calls
      ensures Valid() && root == old(root)
      ensures Finished(command, old(WorldWith(focused, [])), trace, rs, old(calls))
    {
      var cmds := ParseCommandString(WhitespaceSeparator, command);
      var ctx := new Context(tree, config, root.value, focused, caps, modes, minSizes);
      ContextWorld(ctx);
      rs, trace := RunOn(cmds, ctx);
    }

    /** The engine's batch on a context built from this service, its calls appended to the
        adapter's. */
    method RunOn(cmds: seq<Command>, ctx: Context) returns (rs: seq<Outcome>, ghost trace: seq<World>)
      requires Valid() && root.Some? && ctx.Ready()
      requires ctx.tree == tree && ctx.config == config && ctx.root == root.value
      requires ctx.caps == caps && ctx.modes == modes && ctx.minSizes == minSizes
      modifies tree`nodes, tree`children, tree`parent, tree`depth, tree`bound, tree`nextRef
      modifies config`alternatingMode, this`calls, ctx`log, ctx`focused
      ensures Valid() && |trace| == |cmds| + 1 && trace[0] == old(WorldOf(ctx))
      ensures Batch(engine.handlers, cmds, dump, Settings(), trace, rs)
      ensures Holds(trace[|cmds|]) && calls == old(calls) + trace[|cmds|].log
    {
      rs, trace := engine.ExecuteBatch(cmds, ctx, dump);
      calls := calls + ctx.log;
      ContextWorld(ctx);
    }

    /** A context built from this service's dependencies sees this service's world and
        settings. */
    lemma ContextWorld(ctx: Context)
      requires root.Some? && ctx.tree == tree && ctx.config == config && ctx.root == root.value
      requires ctx.caps == caps && ctx.modes == modes && ctx.minSizes == minSizes
      ensures WorldOf(ctx) == WorldWith(ctx.focused, ctx.log) && Holds(WorldOf(ctx))
      ensures SettingsOf(ctx) == Settings()
    {
    }

    /** `onAfterExecute?.()`: one more run of the callback, when there is one. */
    method AfterExecute()
      modifies this`afterExecute
      ensures afterExecute == old(afterExecute) + (if hasAfterExecute then 1 else 0)
    {
      if hasAfterExecute {
        afterExecute := afterExecute + 1;
      }
    }

    /** The batch, then `onAfterExecute`: what both entry points do once a root exists. */
    method RunBatchThenNotify(command: string, focused: Option<Ref>) returns (rs: seq<Outcome>, ghost trace: seq<World>)
      requires Valid() && root.Some? && (focused.Some? ==> focused.value in tree.nodes)
      modifies tree`nodes, tree`children, tree`parent, tree`depth, tree`bound, tree`nextRef
      modifies config`alternatingMode, this`calls, this`afterExecute
      ensures Valid() && root == old(root)
      ensures Finished(command, old(WorldWith(focused, [])), trace, rs, old(calls))
      ensures afterExecute == old(afterExecute) + (if hasAfterExecute then 1 else 0)
    {
      rs, trace := RunBatch(command, focused);
      AfterExecute();
    }

    /** The container `execute` treats as focused: findFocusedContainer from the root. */
    function FocusedOf(): (f: Option<Ref>)
      reads this`root, tree
      requires Valid() && root.Some?
      ensures f.Some? ==> f.value in tree.nodes
    {
      FindFocusedContainer(tree.nodes, tree.children, tree.parent, tree.depth, tree.bound, root.value)
    }

    /** execute (service.ts:56-65): without a root, the one failure, with nothing run and
        no `onAfterExecute`; otherwise the batch runs from findFocusedContainer(root), then
        `onAfterExecute` runs once. */
    method Execute(command: string) returns (rs: seq<Outcome>, ghost trace: seq<World>)
      requires Valid()
      modifies tree`nodes, tree`children, tree`parent, tree`depth, tree`bound, tree`nextRef
      modifies config`alternatingMode, this`calls, this`afterExecute
      ensures Valid() && root == old(root)
      ensures root.None? ==> && rs == [Fail(RootNotReady)] && calls == old(calls) && afterExecute == old(afterExecute)
                             && unchanged(tree) && unchanged(config)
      ensures root.Some? ==>
                && Finished(command, old(WorldWith(FocusedOf(), [])), trace, rs, old(calls))
                && afterExecute == old(afterExecute) + (if hasAfterExecute then 1 else 0)
    {
      if root.None? {
        return [Fail(RootNotReady)], [];
      }
      rs, trace := RunBatchThenNotify(command, FocusedOf());
    }

    /** executeForTarget (service.ts:66-70): the batch runs with `target` as the focused
        container (without a root, the one failure), and `onAfterExecute` runs once either
        way. */
    method ExecuteForTarget(command: string, target: Ref) returns (rs: seq<Outcome>, ghost trace: seq<World>)
      requires Valid() && target in tree.nodes
      modifies tree`nodes, tree`children, tree`parent, tree`depth, tree`bound, tree`nextRef
      modifies config`alternatingMode, this`calls, this`afterExecute
      ensures Valid() && root == old(root)
      ensures afterExecute == old(afterExecute) + (if hasAfterExecute then 1 else 0)
      ensures root.None? ==> rs == [Fail(RootNotReady)] && calls == old(calls) && unchanged(tree) && unchanged(config)
      ensures root.Some? ==> Finished(command, old(WorldWith(Some(target), [])), trace, rs, old(calls))
    {
      if root.None? {
        rs, trace := [Fail(RootNotReady)], [];
        AfterExecute();
      } else {
        rs, trace := RunBatchThenNotify(command, Some(target));
      }
    }
  }
}
