/** The command engine and its default table (src/commands/engine.ts, src/commands/index.ts):
    a map from action words to handlers, the dispatch of one command and of a batch, the
    21 registrations of the default handlers, and the search for the focused container. */
module Engine {
  import opened Wrappers
  import opened Containers
  import opened Commands
  import opened Arena
  import opened Tree
  import opened Config
  import opened Strategy
  import opened Navigation
  import opened HandlerContext
  import opened Handlers

  /** CommandHandler: the action word it is registered under and its execute function. */
  datatype Handler = Handler(action: string, run: Run)

  /** aliasHandler (index.ts:24-27): the same execute function under another action word. */
  function Alias(action: string, h: Handler): (a: Handler)
    ensures a.action == action && a.run == h.run
  {
    Handler(action, h.run)
  }

  /** What `execute` does with table `handlers` (engine.ts:11-21): an action without a
      handler fails with nothing changed; otherwise the handler runs. */
  ghost predicate Executed(handlers: map<string, Run>, cmd: Command, dump: Outcome, c: Settings,
                           w0: World, w1: World, r: Outcome)
    requires Sound(w0.s)
  {
    if cmd.action !in handlers then r == Fail("Unknown command: " + cmd.action) && w1 == w0
    else Ran(handlers[cmd.action], cmd, dump, c, w0, w1, r)
  }

  /** An action without a handler fails and changes nothing. */
  lemma UnknownExecuted(handlers: map<string, Run>, cmd: Command, dump: Outcome, c: Settings, w: World)
    requires Sound(w.s) && cmd.action !in handlers
    ensures Executed(handlers, cmd, dump, c, w, w, Fail("Unknown command: " + cmd.action))
  {
  }

  /** `commands.map(execute)` (engine.ts:23-25) through the worlds of `trace`: one result
      per command, the i-th command run on the world the (i-1)-th left. */
  ghost predicate Batch(handlers: map<string, Run>, cmds: seq<Command>, dump: Outcome, c: Settings,
                        trace: seq<World>, rs: seq<Outcome>)
  {
    && |trace| == |cmds| + 1 && |rs| == |cmds|
    && (forall i :: 0 <= i < |trace| ==> Sound(trace[i].s))
    && (forall i :: 0 <= i < |cmds| ==> Executed(handlers, cmds[i], dump, c, trace[i], trace[i + 1], rs[i]))
  }

  /** The handlers that recompute the tiles of a container. */
  predicate Tiles(run: Run) {
    run in {RunResize, RunLayout, RunSplit, RunRetile}
  }

  /** The handlers that act on the focused window. */
  predicate Windows(run: Run) {
    run in {RunFocus, RunMove, RunFloating, RunFullscreen}
  }

  /** The handlers that call nothing on the window manager. */
  predicate Quiet(run: Run) {
    run in {RunWorkspace, RunMark, RunUnmark, RunAlternatingMode}
  }

  /** The handlers of process.ts that run or close a program. */
  predicate Processes(run: Run) {
    run in {RunExec, RunExecCapture, RunKill}
  }

  /** `handler.execute(command, context)` for the handler whose execute function is `run`,
      by way of the group it belongs to. */
  method Dispatch(run: Run, cmd: Command, ctx: Context, dump: Outcome) returns (r: Outcome)
    requires ctx.Ready()
    modifies ctx.tree`nodes, ctx.tree`children, ctx.tree`parent, ctx.tree`depth, ctx.tree`bound, ctx.tree`nextRef
    modifies ctx`log, ctx`focused, ctx.config`alternatingMode
    ensures ctx.Ready() && Sound(old(ctx.View()))
    ensures Ran(run, cmd, dump, SettingsOf(ctx), old(WorldOf(ctx)), WorldOf(ctx), r)
  {
    ctx.ReadySound();
    if Tiles(run) {
      r := DispatchTiles(run, cmd, ctx, dump);
    } else if Windows(run) {
      r := DispatchWindows(run, cmd, ctx, dump);
    } else if Quiet(run) {
      r := DispatchQuiet(run, cmd, ctx, dump);
    } else if Processes(run) {
      r := DispatchProcesses(run, cmd, ctx, dump);
    } else {
      r := DispatchCallbacks(run, cmd, ctx, dump);
    }
  }

  method DispatchTiles(run: Run, cmd: Command, ctx: Context, dump: Outcome) returns (r: Outcome)
    requires Tiles(run)
    requires ctx.Ready()
    modifies ctx.tree`nodes, ctx.tree`children, ctx.tree`parent, ctx.tree`depth, ctx.tree`bound, ctx.tree`nextRef
    modifies ctx`log, ctx`focused, ctx.config`alternatingMode
    ensures ctx.Ready() && Sound(old(ctx.View()))
    ensures Ran(run, cmd, dump, SettingsOf(ctx), old(WorldOf(ctx)), WorldOf(ctx), r)
  {
    ctx.ReadySound();
    match run
    case RunResize => r := InvokeResize(cmd, ctx);
    case RunLayout => r := InvokeLayout(cmd, ctx);
    case RunSplit => r := InvokeSplit(cmd, ctx);
    case RunRetile => r := InvokeRetile(ctx);
  }

  method DispatchWindows(run: Run, cmd: Command, ctx: Context, dump: Outcome) returns (r: Outcome)
    requires Windows(run)
    requires ctx.Ready()
    modifies ctx.tree`nodes, ctx.tree`children, ctx.tree`parent, ctx.tree`depth, ctx.tree`bound, ctx.tree`nextRef
    modifies ctx`log, ctx`focused, ctx.config`alternatingMode
    ensures ctx.Ready() && Sound(old(ctx.View()))
    ensures Ran(run, cmd, dump, SettingsOf(ctx), old(WorldOf(ctx)), WorldOf(ctx), r)
  {
    ctx.ReadySound();
    match run
    case RunFocus => r := InvokeFocus(cmd, ctx);
    case RunMove => r := InvokeMove(cmd, ctx);
    case RunFloating => r := InvokeFloating(cmd, ctx);
    case RunFullscreen => r := InvokeFullscreen(cmd, ctx);
  }

  method DispatchQuiet(run: Run, cmd: Command, ctx: Context, dump: Outcome) returns (r: Outcome)
    requires Quiet(run)
    requires ctx.Ready()
    modifies ctx.tree`nodes, ctx.tree`children, ctx.tree`parent, ctx.tree`depth, ctx.tree`bound, ctx.tree`nextRef
    modifies ctx`log, ctx`focused, ctx.config`alternatingMode
    ensures ctx.Ready() && Sound(old(ctx.View()))
    ensures Ran(run, cmd, dump, SettingsOf(ctx), old(WorldOf(ctx)), WorldOf(ctx), r)
  {
    ctx.ReadySound();
    match run
    case RunWorkspace => r := InvokeWorkspace(cmd, ctx);
    case RunMark => r := InvokeMark(cmd, ctx);
    case RunUnmark => r := InvokeUnmark(cmd, ctx);
    case RunAlternatingMode => r := InvokeAlternatingMode(cmd, ctx);
  }

  method DispatchProcesses(run: Run, cmd: Command, ctx: Context, dump: Outcome) returns (r: Outcome)
    requires Processes(run)
    requires ctx.Ready()
    modifies ctx.tree`nodes, ctx.tree`children, ctx.tree`parent, ctx.tree`depth, ctx.tree`bound, ctx.tree`nextRef
    modifies ctx`log, ctx`focused, ctx.config`alternatingMode
    ensures ctx.Ready() && Sound(old(ctx.View()))
    ensures Ran(run, cmd, dump, SettingsOf(ctx), old(WorldOf(ctx)), WorldOf(ctx), r)
  {
    ctx.ReadySound();
    match run
    case RunExec => r := InvokeExec(cmd, ctx);
    case RunExecCapture => r := InvokeExecCapture(cmd, ctx);
    case RunKill => r := InvokeKill(ctx);
  }

  method DispatchCallbacks(run: Run, cmd: Command, ctx: Context, dump: Outcome) returns (r: Outcome)
    requires !Tiles(run) && !Windows(run) && !Quiet(run) && !Processes(run)
    requires ctx.Ready()
    modifies ctx.tree`nodes, ctx.tree`children, ctx.tree`parent, ctx.tree`depth, ctx.tree`bound, ctx.tree`nextRef
    modifies ctx`log, ctx`focused, ctx.config`alternatingMode
    ensures ctx.Ready() && Sound(old(ctx.View()))
    ensures Ran(run, cmd, dump, SettingsOf(ctx), old(WorldOf(ctx)), WorldOf(ctx), r)
  {
    ctx.ReadySound();
    match run
    case RunMode => r := InvokeMode(cmd, ctx);
    case RunReload => r := InvokeReload(ctx);
    case RunDump => r := dump;
    case RunInspect => r := InvokeInspect(ctx);
  }

  class CommandEngine {
    /** The handler registered for each action word. */
    var handlers: map<string, Run>

    /** buildCommandEngine (index.ts:29): an engine with no handlers. */
    constructor ()
      ensures handlers == map[]
    {
      handlers := map[];
    }

    /** register (engine.ts:7-9): the handler's action now maps to it, replacing any
        earlier one; every other action keeps its handler. */
    method Register(h: Handler)
      modifies this`handlers
      ensures handlers == old(handlers)[h.action := h.run]
    {
      handlers := handlers[h.action := h.run];
    }

    /** execute (engine.ts:11-21). */
    method Execute(cmd: Command, ctx: Context, dump: Outcome) returns (r: Outcome)
      requires ctx.Ready()
      modifies ctx.tree`nodes, ctx.tree`children, ctx.tree`parent, ctx.tree`depth, ctx.tree`bound, ctx.tree`nextRef
      modifies ctx`log, ctx`focused, ctx.config`alternatingMode
      ensures ctx.Ready() && Sound(old(ctx.View()))
      ensures Executed(handlers, cmd, dump, SettingsOf(ctx), old(WorldOf(ctx)), WorldOf(ctx), r)
    {
      ctx.ReadySound();
      if cmd.action !in handlers {
        r := Fail("Unknown command: " + cmd.action);
        UnknownExecuted(handlers, cmd, dump, SettingsOf(ctx), WorldOf(ctx));
      } else {
        r := Dispatch(handlers[cmd.action], cmd, ctx, dump);
      }
    }

    /** executeBatch (engine.ts:23-25): every command runs, in order, on the one context,
        whatever the earlier ones returned. */
    method ExecuteBatch(cmds: seq<Command>, ctx: Context, dump: Outcome) returns (rs: seq<Outcome>, ghost trace: seq<World>)
      requires ctx.Ready()
      modifies ctx.tree`nodes, ctx.tree`children, ctx.tree`parent, ctx.tree`depth, ctx.tree`bound, ctx.tree`nextRef
      modifies ctx`log, ctx`focused, ctx.config`alternatingMode
      ensures ctx.Ready() && |trace| == |cmds| + 1
      ensures Batch(handlers, cmds, dump, SettingsOf(ctx), trace, rs)
      ensures trace[0] == old(WorldOf(ctx)) && trace[|cmds|] == WorldOf(ctx)
    {
      ctx.ReadySound();
      rs, trace := [], [WorldOf(ctx)];
      var i := 0;
      while i < |cmds|
        invariant 0 <= i <= |cmds| && ctx.Ready()
        invariant SettingsOf(ctx) == old(SettingsOf(ctx))
        invariant Batch(handlers, cmds[..i], dump, SettingsOf(ctx), trace, rs)
        invariant trace[0] == old(WorldOf(ctx)) && trace[i] == WorldOf(ctx)
      {
        rs, trace := ExecuteNext(cmds, i, ctx, dump, rs, trace);
        i := i + 1;
      }
      assert cmds[..i] == cmds;
    }

    /** One turn of executeBatch's map: the i-th command runs on the world the earlier ones left. */
    method ExecuteNext(cmds: seq<Command>, i: nat, ctx: Context, dump: Outcome, rs0: seq<Outcome>, ghost trace0: seq<World>)
      returns (rs: seq<Outcome>, ghost trace: seq<World>)
      requires i < |cmds| && ctx.Ready()
      requires Batch(handlers, cmds[..i], dump, SettingsOf(ctx), trace0, rs0) && trace0[i] == WorldOf(ctx)
      modifies ctx.tree`nodes, ctx.tree`children, ctx.tree`parent, ctx.tree`depth, ctx.tree`bound, ctx.tree`nextRef
      modifies ctx`log, ctx`focused, ctx.config`alternatingMode
      ensures ctx.Ready() && SettingsOf(ctx) == old(SettingsOf(ctx))
      ensures Batch(handlers, cmds[..i + 1], dump, SettingsOf(ctx), trace, rs)
      ensures trace == trace0 + [WorldOf(ctx)] && |rs| == |rs0| + 1 && rs[..|rs0|] == rs0
    {
      var r := Execute(cmds[i], ctx, dump);
      BatchNext(handlers, cmds, i, dump, SettingsOf(ctx), trace0, rs0, WorldOf(ctx), r);
      rs, trace := rs0 + [r], trace0 + [WorldOf(ctx)];
    }
  }

  /** One more command extends a batch. */
  lemma BatchNext(handlers: map<string, Run>, cmds: seq<Command>, i: nat, dump: Outcome, c: Settings,
                  trace: seq<World>, rs: seq<Outcome>, w: World, r: Outcome)
    requires i < |cmds| && Batch(handlers, cmds[..i], dump, c, trace, rs) && Sound(w.s)
    requires Executed(handlers, cmds[i], dump, c, trace[i], w, r)
    ensures Batch(handlers, cmds[..i + 1], dump, c, trace + [w], rs + [r])
  {
    var cs, ts, ps := cmds[..i + 1], trace + [w], rs + [r];
    forall j | 0 <= j < i + 1 ensures Executed(handlers, cs[j], dump, c, ts[j], ts[j + 1], ps[j]) {
      if j < i {
        assert cs[j] == cmds[..i][j] && ts[j] == trace[j] && ts[j + 1] == trace[j + 1] && ps[j] == rs[j];
      }
    }
  }

  /** The handlers registerDefaultHandlers registers (index.ts:31-53), in order. */
  const DefaultHandlers: seq<Handler> := [
    Handler("focus", RunFocus), Handler("move", RunMove), Handler("resize", RunResize),
    Handler("layout", RunLayout), Handler("mode", RunMode), Handler("split", RunSplit),
    Handler("alternating-mode", RunAlternatingMode), Handler("retile", RunRetile),
    Alias("splitv", Handler("split", RunSplit)), Alias("splith", Handler("split", RunSplit)),
    Handler("workspace", RunWorkspace), Handler("mark", RunMark), Handler("unmark", RunUnmark),
    Handler("floating", RunFloating), Handler("fullscreen", RunFullscreen), Handler("exec", RunExec),
    Handler("exec-capture", RunExecCapture), Handler("kill", RunKill), Handler("reload", RunReload),
    Handler("dump", RunDump), Handler("inspect", RunInspect)]

  /** The table after registering `hs` in order on top of `m`. */
  function Registered(m: map<string, Run>, hs: seq<Handler>): map<string, Run> {
    if hs == [] then m else Registered(m, hs[..|hs| - 1])[hs[|hs| - 1].action := hs[|hs| - 1].run]
  }

  /** Registering a list adds exactly its actions to the table. */
  lemma {:induction false} RegisteredKeys(m: map<string, Run>, hs: seq<Handler>)
    ensures Registered(m, hs).Keys == m.Keys + set h | h in hs :: h.action
  {
    if hs != [] {
      var init := hs[..|hs| - 1];
      RegisteredKeys(m, init);
      assert forall h :: h in hs <==> h in init || h == hs[|hs| - 1];
    }
  }

  /** When no two entries of `hs` share an action word, registering them maps each action
      to its own entry's handler: none replaces another. */
  lemma {:induction false} RegisteredLookup(m: map<string, Run>, hs: seq<Handler>)
    requires forall i, j :: 0 <= i < j < |hs| ==> hs[i].action != hs[j].action
    ensures forall i :: 0 <= i < |hs| ==> hs[i].action in Registered(m, hs) && Registered(m, hs)[hs[i].action] == hs[i].run
  {
    if hs != [] {
      var init := hs[..|hs| - 1];
      RegisteredLookup(m, init);
      forall i | 0 <= i < |hs| - 1
        ensures hs[i].action in Registered(m, hs) && Registered(m, hs)[hs[i].action] == hs[i].run
      {
        assert hs[i] == init[i];
      }
    }
  }

  /** No two default handlers share an action word. */
  lemma DefaultActionsDistinct()
    ensures |DefaultHandlers| == 21
    ensures forall i, j :: 0 <= i < j < |DefaultHandlers| ==> DefaultHandlers[i].action != DefaultHandlers[j].action
  {
  }

  /** The split handler is registered under "split", and its aliases under "splitv" and
      "splith". */
  lemma DefaultAliases()
    ensures |DefaultHandlers| == 21
    ensures DefaultHandlers[5] == Handler("split", RunSplit)
    ensures DefaultHandlers[8] == Handler("splitv", RunSplit) && DefaultHandlers[9] == Handler("splith", RunSplit)
  {
  }

  /** Registering the defaults on an empty table `m` (what buildCommandEngine gives) yields
      21 actions; each maps to its own handler, and the two aliases run the split handler. */
  lemma DefaultTable(m: map<string, Run>)
    requires m == map[]
    ensures var t := Registered(m, DefaultHandlers);
            && |t.Keys| == 21
            && (forall i :: 0 <= i < |DefaultHandlers| ==>
                  DefaultHandlers[i].action in t && t[DefaultHandlers[i].action] == DefaultHandlers[i].run)
            && "split" in t && "splitv" in t && "splith" in t
            && t["split"] == t["splitv"] == t["splith"] == RunSplit
  {
    var hs := DefaultHandlers;
    DefaultActionsDistinct();
    DefaultAliases();
    RegisteredKeys(m, hs);
    RegisteredLookup(m, hs);
    DistinctCount(hs);
    var t := Registered(m, hs);
    assert hs[5].action in t && hs[8].action in t && hs[9].action in t;
  }

  /** A list whose actions are distinct has as many actions as entries. */
  lemma {:induction false} DistinctCount(hs: seq<Handler>)
    requires forall i, j :: 0 <= i < j < |hs| ==> hs[i].action != hs[j].action
    ensures |set h | h in hs :: h.action| == |hs|
  {
    if hs != [] {
      var init := hs[..|hs| - 1];
      var last := hs[|hs| - 1];
      DistinctCount(init);
      var a, b := set h | h in hs :: h.action, set h | h in init :: h.action;
      assert a == b + {last.action} by {
        assert forall h :: h in hs <==> h in init || h == last;
      }
      assert last.action !in b by {
        forall h | h in init ensures h.action != last.action {
          var i :| 0 <= i < |init| && init[i] == h;
          assert hs[i] == h;
        }
      }
    }
  }

  /** registerDefaultHandlers (index.ts:31-53): the 21 `register` calls, in their order. */
  method RegisterDefaultHandlers(engine: CommandEngine)
    modifies engine`handlers
    ensures engine.handlers == Registered(old(engine.handlers), DefaultHandlers)
  {
    var i := 0;
    while i < |DefaultHandlers|
      invariant 0 <= i <= |DefaultHandlers|
      invariant engine.handlers == Registered(old(engine.handlers), DefaultHandlers[..i])
    {
      assert DefaultHandlers[..i + 1][..i] == DefaultHandlers[..i];
      engine.Register(DefaultHandlers[i]);
      i := i + 1;
    }
    assert DefaultHandlers[..i] == DefaultHandlers;
  }

  /** findFocusedContainer (index.ts:55-68): `x` when it is focused, else the first focused
      container found below it, children in order. */
  function FindFocusedContainer(nodes: map<Ref, Node>, ch: map<Ref, seq<Ref>>, ghost pa: map<Ref, Option<Ref>>,
                                ghost de: map<Ref, nat>, ghost bd: nat, x: Ref): (r: Option<Ref>)
    requires LinkedMaps(ch, pa, de, bd) && ch.Keys <= nodes.Keys && x in ch
    ensures r == FirstOf(nodes, PreOrder(ch, pa, de, bd, x), IsFocusedNode)
    decreases bd - de[x], 1
  {
    assert ([x] + Walk(ch, pa, de, bd, x))[1..] == Walk(ch, pa, de, bd, x);
    if nodes[x].focused then Some(x) else FocusedFrom(nodes, ch, pa, de, bd, x, 0)
  }

  function FocusedFrom(nodes: map<Ref, Node>, ch: map<Ref, seq<Ref>>, ghost pa: map<Ref, Option<Ref>>,
                       ghost de: map<Ref, nat>, ghost bd: nat, x: Ref, i: nat): (r: Option<Ref>)
    requires LinkedMaps(ch, pa, de, bd) && ch.Keys <= nodes.Keys && x in ch && i <= |ch[x]|
    ensures r == FirstOf(nodes, WalkFrom(ch, pa, de, bd, x, i), IsFocusedNode)
    decreases bd - de[x], 0, |ch[x]| - i
  {
    if i == |ch[x]| then None
    else
      var c := ch[x][i];
      ChildStep(ch, pa, de, bd, x, i);
      FirstOfAppend(nodes, PreOrder(ch, pa, de, bd, c), WalkFrom(ch, pa, de, bd, x, i + 1), IsFocusedNode);
      match FindFocusedContainer(nodes, ch, pa, de, bd, c)
      case Some(f) => Some(f)
      case None => FocusedFrom(nodes, ch, pa, de, bd, x, i + 1)
  }
}
