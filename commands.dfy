/** The data of the command language (src/commands/types.ts, context.ts, adapter.ts): parsed
    commands, their criteria, results, and the calls a handler makes on the window adapter,
    which the model records in order as a log. */
module Commands {
  import opened Wrappers
  import opened Containers

  datatype Operator = Eq | NotEq | Exists

  /** CommandCriteria: a key, an operator and an optional expected value. */
  datatype Criterion = Criterion(key: string, op: Operator, value: Option<string>)

  /** Command: the trimmed source text, the action word, the remaining words and the
      criteria of its `[...]` blocks. */
  datatype Command = Command(raw: string, action: string, args: seq<string>, criteria: seq<Criterion>)

  /** The `data` a result can carry: the captured output of exec-capture (kept opaque) or
      nothing. */
  datatype Data = CaptureData(command: string)

  /** CommandResult. */
  datatype Outcome = Outcome(success: bool, message: Option<string>, data: Option<Data>)

  function Ok(): (r: Outcome)
    ensures r.success && r.message.None? && r.data.None?
  {
    Outcome(true, None, None)
  }

  function Fail(message: string): (r: Outcome)
    ensures !r.success && r.message == Some(message) && r.data.None?
  {
    Outcome(false, Some(message), None)
  }

  /** One call on the WindowAdapter, in the order the handlers issue them, together with
      the calls of the context's callbacks (reloadConfig, switchMode, toggleInspect). The
      optional adapter members `moveToWorkspace` and `execCapture` are listed too. */
  datatype Call =
    | Activate(window: Handle)
    | MoveResize(window: Handle, rect: Rect)
    | SetFullscreen(window: Handle, fullscreen: bool)
    | SetFloating(window: Handle, floating: bool)
    | Close(window: Handle)
    | Exec(command: string)
    | ExecCapture(command: string)
    | MoveToWorkspace(window: Handle, index: int, focus: bool)
    | ReloadConfig
    | SwitchMode(name: string)
    | ToggleInspect

  /** Where the alternating strategy puts a new window (`config.alternatingMode`). */
  datatype AlternatingMode = Focused | Tail

  /** The optional members of the context and of the adapter a handler tests for before
      using them. */
  datatype Capabilities = Capabilities(moveToWorkspace: bool, execCapture: bool, reloadConfig: bool,
                                       switchMode: bool, toggleInspect: bool)
}
