/** The handlers as the command engine sees them (src/commands/handlers/): one execute
    function per handler, the part of the state a command can change (a world), and the
    contract each handler keeps, restated over worlds. */
module Handlers {
  import opened Wrappers
  import opened Containers
  import opened Commands
  import opened Strategy
  import opened HandlerContext
  import CoreHandlers
  import MoveHandlers
  import ResizeHandler
  import WorkspaceHandlers
  import ProcessHandlers

  /** The `execute` function a handler carries: one per handler module export. */
  datatype Run =
    | RunFocus | RunMove | RunResize | RunLayout | RunMode | RunSplit | RunAlternatingMode | RunRetile
    | RunWorkspace | RunMark | RunUnmark | RunFloating | RunFullscreen
    | RunExec | RunExecCapture | RunKill | RunReload | RunDump | RunInspect

  /** The settings a handler reads but never writes. */
  datatype Settings = Settings(minTileWidth: int, minTileHeight: int, gaps: Option<Gaps>,
                               minSizes: map<Handle, (int, int)>)

  /** Everything a command can change: the tree and focus, the adapter log, and the stored
      alternating mode. */
  datatype World = World(s: Snapshot, log: seq<Call>, alternating: AlternatingMode)

  ghost function WorldOf(ctx: Context): World
    reads ctx, ctx.tree, ctx.config
  {
    World(ctx.View(), ctx.log, ctx.config.alternatingMode)
  }

  function SettingsOf(ctx: Context): Settings
    reads ctx.config
  {
    Settings(ctx.config.minTileWidth, ctx.config.minTileHeight, ctx.config.gaps, ctx.minSizes)
  }

  /** What running `run` on `cmd` does to world `w0`: the contract of the handler whose
      execute function it is. The dump handler is not part of this model: it yields `dump`
      and changes nothing. */
  ghost predicate Ran(run: Run, cmd: Command, dump: Outcome, c: Settings, w0: World, w1: World, r: Outcome)
    requires Sound(w0.s)
  {
    match run
    case RunFocus => FocusStep(cmd, w0, w1, r)
    case RunMove => MoveStep(cmd, c, w0, w1, r)
    case RunResize => ResizeStep(cmd, c, w0, w1, r)
    case RunLayout => LayoutStep(cmd, c, w0, w1, r)
    case RunMode => ModeStep(cmd, w0, w1, r)
    case RunSplit => SplitStep(cmd, c, w0, w1, r)
    case RunAlternatingMode => AlternatingModeStep(cmd, w0, w1, r)
    case RunRetile => RetileStep(c, w0, w1, r)
    case RunWorkspace => WorkspaceStep(cmd, w0, w1, r)
    case RunMark => MarkStep(cmd, w0, w1, r)
    case RunUnmark => UnmarkStep(cmd, w0, w1, r)
    case RunFloating => FloatingStep(cmd, w0, w1, r)
    case RunFullscreen => FullscreenStep(cmd, w0, w1, r)
    case RunExec => ExecStep(cmd, w0, w1, r)
    case RunExecCapture => ExecCaptureStep(cmd, w0, w1, r)
    case RunKill => KillStep(w0, w1, r)
    case RunReload => ReloadStep(w0, w1, r)
    case RunDump => w1 == w0 && r == dump
    case RunInspect => InspectStep(w0, w1, r)
  }

  /** The focus handler, with everything outside its reach unchanged. */
  ghost predicate FocusStep(cmd: Command, w0: World, w1: World, r: Outcome)
    requires Sound(w0.s)
  {
    w1.alternating == w0.alternating && w1.s == w0.s.(nodes := w1.s.nodes) && CoreHandlers.FocusOutcome(w0.s, Arg(cmd, 0), r, w1.s.nodes, w0.log, w1.log)
  }

  /** `execute` of the focus handler, as the engine calls it. */
  method InvokeFocus(cmd: Command, ctx: Context) returns (r: Outcome)
    requires ctx.Ready()
    modifies ctx.tree`nodes, ctx`log
    ensures ctx.Ready() && Sound(old(ctx.View()))
    ensures FocusStep(cmd, old(WorldOf(ctx)), WorldOf(ctx), r)
  {
    ctx.ReadySound();
    r := CoreHandlers.FocusHandler(cmd, ctx);
  }

  /** The move handler, with everything outside its reach unchanged. */
  ghost predicate MoveStep(cmd: Command, c: Settings, w0: World, w1: World, r: Outcome)
    requires Sound(w0.s)
  {
    w1.alternating == w0.alternating && Sound(w1.s) && w1.s.focused == w0.s.focused
      && MoveHandlers.MoveOutcome(w0.s, cmd, r, w1.s, c.gaps, w0.log, w1.log)
  }

  /** `execute` of the move handler, as the engine calls it. */
  method InvokeMove(cmd: Command, ctx: Context) returns (r: Outcome)
    requires ctx.Ready()
    modifies ctx.tree`nodes, ctx.tree`children, ctx.tree`parent, ctx.tree`depth, ctx.tree`bound, ctx.tree`nextRef,
             ctx`log
    ensures ctx.Ready() && Sound(old(ctx.View()))
    ensures MoveStep(cmd, SettingsOf(ctx), old(WorldOf(ctx)), WorldOf(ctx), r)
  {
    ctx.ReadySound();
    r := MoveHandlers.MoveHandler(cmd, ctx);
  }

  /** The resize handler, with everything outside its reach unchanged. */
  ghost predicate ResizeStep(cmd: Command, c: Settings, w0: World, w1: World, r: Outcome)
    requires Sound(w0.s)
  {
    w1.alternating == w0.alternating && w1.s == w0.s.(nodes := w1.s.nodes)
      && ResizeHandler.ResizeOutcome(w0.s, cmd, c.minTileWidth, c.minTileHeight, c.minSizes, c.gaps, r, w1.s.nodes,
                                     w0.log, w1.log)
  }

  /** `execute` of the resize handler, as the engine calls it. */
  method InvokeResize(cmd: Command, ctx: Context) returns (r: Outcome)
    requires ctx.Ready()
    modifies ctx.tree`nodes, ctx`log
    ensures ctx.Ready() && Sound(old(ctx.View()))
    ensures ResizeStep(cmd, SettingsOf(ctx), old(WorldOf(ctx)), WorldOf(ctx), r)
  {
    ctx.ReadySound();
    r := ResizeHandler.ResizeHandler(cmd, ctx);
  }

  /** The layout handler, with everything outside its reach unchanged. */
  ghost predicate LayoutStep(cmd: Command, c: Settings, w0: World, w1: World, r: Outcome)
    requires Sound(w0.s)
  {
    w1.alternating == w0.alternating && w1.s == w0.s.(nodes := w1.s.nodes) && CoreHandlers.LayoutOutcome(w0.s, cmd, c.gaps, r, w1.s.nodes, w0.log, w1.log)
  }

  /** `execute` of the layout handler, as the engine calls it. */
  method InvokeLayout(cmd: Command, ctx: Context) returns (r: Outcome)
    requires ctx.Ready()
    modifies ctx.tree`nodes, ctx`log
    ensures ctx.Ready() && Sound(old(ctx.View()))
    ensures LayoutStep(cmd, SettingsOf(ctx), old(WorldOf(ctx)), WorldOf(ctx), r)
  {
    ctx.ReadySound();
    r := CoreHandlers.LayoutHandler(cmd, ctx);
  }

  /** The mode handler, with everything outside its reach unchanged. */
  ghost predicate ModeStep(cmd: Command, w0: World, w1: World, r: Outcome)
  {
    w1.alternating == w0.alternating && w1.s == w0.s && CoreHandlers.ModeOutcome(cmd, w0.s.caps, w0.s.modes, r, w0.log, w1.log)
  }

  /** `execute` of the mode handler, as the engine calls it. */
  method InvokeMode(cmd: Command, ctx: Context) returns (r: Outcome)
    requires ctx.Ready()
    modifies ctx`log
    ensures ctx.Ready() && Sound(old(ctx.View()))
    ensures ModeStep(cmd, old(WorldOf(ctx)), WorldOf(ctx), r)
  {
    ctx.ReadySound();
    r := CoreHandlers.ModeHandler(cmd, ctx);
  }

  /** The split handler, with everything outside its reach unchanged. */
  ghost predicate SplitStep(cmd: Command, c: Settings, w0: World, w1: World, r: Outcome)
    requires Sound(w0.s)
  {
    w1.alternating == w0.alternating && w1.s == w0.s.(nodes := w1.s.nodes) && CoreHandlers.SplitOutcome(w0.s, cmd, c.gaps, r, w1.s.nodes, w0.log, w1.log)
  }

  /** `execute` of the split handler, as the engine calls it. */
  method InvokeSplit(cmd: Command, ctx: Context) returns (r: Outcome)
    requires ctx.Ready()
    modifies ctx.tree`nodes, ctx`log
    ensures ctx.Ready() && Sound(old(ctx.View()))
    ensures SplitStep(cmd, SettingsOf(ctx), old(WorldOf(ctx)), WorldOf(ctx), r)
  {
    ctx.ReadySound();
    r := CoreHandlers.SplitHandler(cmd, ctx);
  }

  /** The alternating-mode handler: the stored mode changes as the handler's contract says;
      nothing else does. */
  ghost predicate AlternatingModeStep(cmd: Command, w0: World, w1: World, r: Outcome) {
    w1.s == w0.s && w1.log == w0.log && CoreHandlers.AlternatingModeOutcome(cmd, r, w0.alternating, w1.alternating)
  }

  /** `execute` of the alternating-mode handler, as the engine calls it. */
  method InvokeAlternatingMode(cmd: Command, ctx: Context) returns (r: Outcome)
    requires ctx.Ready()
    modifies ctx.config`alternatingMode
    ensures ctx.Ready() && Sound(old(ctx.View()))
    ensures AlternatingModeStep(cmd, old(WorldOf(ctx)), WorldOf(ctx), r)
  {
    ctx.ReadySound();
    r := CoreHandlers.AlternatingModeHandler(cmd, ctx);
  }

  /** The retile handler, with everything outside its reach unchanged. */
  ghost predicate RetileStep(c: Settings, w0: World, w1: World, r: Outcome)
    requires Sound(w0.s)
  {
    w1.alternating == w0.alternating && w1.s == w0.s.(nodes := w1.s.nodes) && CoreHandlers.RetileOutcome(w0.s, c.gaps, r, w1.s.nodes, w0.log, w1.log)
  }

  /** `execute` of the retile handler, as the engine calls it. */
  method InvokeRetile(ctx: Context) returns (r: Outcome)
    requires ctx.Ready()
    modifies ctx.tree`nodes, ctx`log
    ensures ctx.Ready() && Sound(old(ctx.View()))
    ensures RetileStep(SettingsOf(ctx), old(WorldOf(ctx)), WorldOf(ctx), r)
  {
    ctx.ReadySound();
    r := CoreHandlers.RetileHandler(ctx);
  }

  /** The workspace handler, with everything outside its reach unchanged. */
  ghost predicate WorkspaceStep(cmd: Command, w0: World, w1: World, r: Outcome)
    requires Sound(w0.s)
  {
    w1.alternating == w0.alternating && w1.s == w0.s.(nodes := w1.s.nodes, focused := w1.s.focused) && w1.log == w0.log
      && WorkspaceHandlers.WorkspaceOutcome(w0.s, cmd, r, w1.s.nodes, w1.s.focused)
  }

  /** `execute` of the workspace handler, as the engine calls it. */
  method InvokeWorkspace(cmd: Command, ctx: Context) returns (r: Outcome)
    requires ctx.Ready()
    modifies ctx.tree`nodes, ctx`focused
    ensures ctx.Ready() && Sound(old(ctx.View()))
    ensures WorkspaceStep(cmd, old(WorldOf(ctx)), WorldOf(ctx), r)
  {
    ctx.ReadySound();
    r := WorkspaceHandlers.WorkspaceHandler(cmd, ctx);
  }

  /** The mark handler, with everything outside its reach unchanged. */
  ghost predicate MarkStep(cmd: Command, w0: World, w1: World, r: Outcome)
    requires Sound(w0.s)
  {
    w1.alternating == w0.alternating && w1.s == w0.s.(nodes := w1.s.nodes) && w1.log == w0.log && WorkspaceHandlers.MarkOutcome(w0.s, cmd, false, r, w1.s.nodes)
  }

  /** `execute` of the mark handler, as the engine calls it. */
  method InvokeMark(cmd: Command, ctx: Context) returns (r: Outcome)
    requires ctx.Ready()
    modifies ctx.tree`nodes
    ensures ctx.Ready() && Sound(old(ctx.View()))
    ensures MarkStep(cmd, old(WorldOf(ctx)), WorldOf(ctx), r)
  {
    ctx.ReadySound();
    r := WorkspaceHandlers.MarkHandler(cmd, ctx);
  }

  /** The unmark handler, with everything outside its reach unchanged. */
  ghost predicate UnmarkStep(cmd: Command, w0: World, w1: World, r: Outcome)
    requires Sound(w0.s)
  {
    w1.alternating == w0.alternating && w1.s == w0.s.(nodes := w1.s.nodes) && w1.log == w0.log && WorkspaceHandlers.MarkOutcome(w0.s, cmd, true, r, w1.s.nodes)
  }

  /** `execute` of the unmark handler, as the engine calls it. */
  method InvokeUnmark(cmd: Command, ctx: Context) returns (r: Outcome)
    requires ctx.Ready()
    modifies ctx.tree`nodes
    ensures ctx.Ready() && Sound(old(ctx.View()))
    ensures UnmarkStep(cmd, old(WorldOf(ctx)), WorldOf(ctx), r)
  {
    ctx.ReadySound();
    r := WorkspaceHandlers.UnmarkHandler(cmd, ctx);
  }

  /** The floating handler, with everything outside its reach unchanged. */
  ghost predicate FloatingStep(cmd: Command, w0: World, w1: World, r: Outcome)
    requires Sound(w0.s)
  {
    w1.alternating == w0.alternating && w1.s == w0.s.(nodes := w1.s.nodes) && WorkspaceHandlers.FloatingOutcome(w0.s, cmd, r, w1.s.nodes, w0.log, w1.log)
  }

  /** `execute` of the floating handler, as the engine calls it. */
  method InvokeFloating(cmd: Command, ctx: Context) returns (r: Outcome)
    requires ctx.Ready()
    modifies ctx.tree`nodes, ctx`log
    ensures ctx.Ready() && Sound(old(ctx.View()))
    ensures FloatingStep(cmd, old(WorldOf(ctx)), WorldOf(ctx), r)
  {
    ctx.ReadySound();
    r := WorkspaceHandlers.FloatingHandler(cmd, ctx);
  }

  /** The fullscreen handler, with everything outside its reach unchanged. */
  ghost predicate FullscreenStep(cmd: Command, w0: World, w1: World, r: Outcome)
    requires Sound(w0.s)
  {
    w1.alternating == w0.alternating && w1.s == w0.s.(nodes := w1.s.nodes) && WorkspaceHandlers.FullscreenOutcome(w0.s, cmd, r, w1.s.nodes, w0.log, w1.log)
  }

  /** `execute` of the fullscreen handler, as the engine calls it. */
  method InvokeFullscreen(cmd: Command, ctx: Context) returns (r: Outcome)
    requires ctx.Ready()
    modifies ctx.tree`nodes, ctx`log
    ensures ctx.Ready() && Sound(old(ctx.View()))
    ensures FullscreenStep(cmd, old(WorldOf(ctx)), WorldOf(ctx), r)
  {
    ctx.ReadySound();
    r := WorkspaceHandlers.FullscreenHandler(cmd, ctx);
  }

  /** The exec handler, with everything outside its reach unchanged. */
  ghost predicate ExecStep(cmd: Command, w0: World, w1: World, r: Outcome)
  {
    w1.alternating == w0.alternating && w1.s == w0.s && ProcessHandlers.ExecOutcome(cmd, r, w0.log, w1.log)
  }

  /** `execute` of the exec handler, as the engine calls it. */
  method InvokeExec(cmd: Command, ctx: Context) returns (r: Outcome)
    requires ctx.Ready()
    modifies ctx`log
    ensures ctx.Ready() && Sound(old(ctx.View()))
    ensures ExecStep(cmd, old(WorldOf(ctx)), WorldOf(ctx), r)
  {
    ctx.ReadySound();
    r := ProcessHandlers.ExecHandler(cmd, ctx);
  }

  /** The exec-capture handler, with everything outside its reach unchanged. */
  ghost predicate ExecCaptureStep(cmd: Command, w0: World, w1: World, r: Outcome)
  {
    w1.alternating == w0.alternating && w1.s == w0.s && ProcessHandlers.ExecCaptureOutcome(cmd, w0.s.caps, r, w0.log, w1.log)
  }

  /** `execute` of the exec-capture handler, as the engine calls it. */
  method InvokeExecCapture(cmd: Command, ctx: Context) returns (r: Outcome)
    requires ctx.Ready()
    modifies ctx`log
    ensures ctx.Ready() && Sound(old(ctx.View()))
    ensures ExecCaptureStep(cmd, old(WorldOf(ctx)), WorldOf(ctx), r)
  {
    ctx.ReadySound();
    r := ProcessHandlers.ExecCaptureHandler(cmd, ctx);
  }

  /** The kill handler, with everything outside its reach unchanged. */
  ghost predicate KillStep(w0: World, w1: World, r: Outcome)
    requires Sound(w0.s)
  {
    w1.alternating == w0.alternating && w1.s == w0.s && ProcessHandlers.KillOutcome(w0.s, r, w0.log, w1.log)
  }

  /** `execute` of the kill handler, as the engine calls it. */
  method InvokeKill(ctx: Context) returns (r: Outcome)
    requires ctx.Ready()
    modifies ctx`log
    ensures ctx.Ready() && Sound(old(ctx.View()))
    ensures KillStep(old(WorldOf(ctx)), WorldOf(ctx), r)
  {
    ctx.ReadySound();
    r := ProcessHandlers.KillHandler(ctx);
  }

  /** The reload handler, with everything outside its reach unchanged. */
  ghost predicate ReloadStep(w0: World, w1: World, r: Outcome)
  {
    w1.alternating == w0.alternating && w1.s == w0.s && ProcessHandlers.ReloadOutcome(w0.s.caps, r, w0.log, w1.log)
  }

  /** `execute` of the reload handler, as the engine calls it. */
  method InvokeReload(ctx: Context) returns (r: Outcome)
    requires ctx.Ready()
    modifies ctx`log
    ensures ctx.Ready() && Sound(old(ctx.View()))
    ensures ReloadStep(old(WorldOf(ctx)), WorldOf(ctx), r)
  {
    ctx.ReadySound();
    r := ProcessHandlers.ReloadHandler(ctx);
  }

  /** The inspect handler, with everything outside its reach unchanged. */
  ghost predicate InspectStep(w0: World, w1: World, r: Outcome)
  {
    w1.alternating == w0.alternating && w1.s == w0.s && ProcessHandlers.InspectOutcome(w0.s.caps, r, w0.log, w1.log)
  }

  /** `execute` of the inspect handler, as the engine calls it. */
  method InvokeInspect(ctx: Context) returns (r: Outcome)
    requires ctx.Ready()
    modifies ctx`log
    ensures ctx.Ready() && Sound(old(ctx.View()))
    ensures InspectStep(old(WorldOf(ctx)), WorldOf(ctx), r)
  {
    ctx.ReadySound();
    r := ProcessHandlers.InspectHandler(ctx);
  }
}
