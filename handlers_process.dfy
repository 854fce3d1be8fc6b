/** The handlers of src/commands/handlers/process.ts and inspect.ts: exec, exec-capture,
    kill, reload and inspect. */
module ProcessHandlers {
  import opened Wrappers
  import opened Text
  import opened Containers
  import opened Commands
  import opened HandlerContext

  /** Every character of `s` is white space. */
  predicate Blank(s: string) {
    forall c :: c in s ==> IsSpace(c)
  }

  /** `command.args.join(" ").trim()` (process.ts:12, 25). */
  function CommandString(args: seq<string>): string {
    Trim(Join(args, " "))
  }

  lemma BlankConcat(a: string, b: string)
    ensures Blank(a + b) <==> Blank(a) && Blank(b)
  {
    assert forall c :: c in a + b <==> c in a || c in b;
  }

  /** The joined words are blank exactly when every word is. */
  lemma {:induction false} JoinBlank(args: seq<string>)
    ensures Blank(Join(args, " ")) <==> forall i :: 0 <= i < |args| ==> Blank(args[i])
  {
    if |args| > 1 {
      JoinBlank(args[1..]);
      BlankConcat(args[0], " ");
      BlankConcat(args[0] + " ", Join(args[1..], " "));
      assert forall i :: 1 <= i < |args| ==> args[i] == args[1..][i - 1];
    }
  }

  /** exec and exec-capture refuse a command exactly when every argument is white space
      (or there are none). */
  lemma CommandStringEmpty(args: seq<string>)
    ensures CommandString(args) == [] <==> forall i :: 0 <= i < |args| ==> Blank(args[i])
  {
    TrimEmpty(Join(args, " "));
    JoinBlank(args);
  }

  /** What the exec handler returns and calls. */
  ghost predicate ExecOutcome(cmd: Command, r: Outcome, log0: seq<Call>, log1: seq<Call>) {
    var s := CommandString(cmd.args);
    && (s == [] ==> r == Fail("Command required") && log1 == log0)
    && (s != [] ==> r == Ok() && log1 == log0 + [Exec(s)])
  }

  /** The exec handler (process.ts:9-20): the joined, trimmed arguments are handed to the
      adapter's exec; an empty command fails with nothing called. */
  method ExecHandler(cmd: Command, ctx: Context) returns (r: Outcome)
    modifies ctx`log
    ensures ExecOutcome(cmd, r, old(ctx.log), ctx.log)
  {
    var s := Trim(Join(cmd.args, " "));
    if s == [] {
      return Fail("Command required");
    }
    ctx.log := ctx.log + [Exec(s)];
    return Ok();
  }

  /** What the exec-capture handler returns and calls. */
  ghost predicate ExecCaptureOutcome(cmd: Command, caps: Capabilities, r: Outcome, log0: seq<Call>, log1: seq<Call>) {
    var s := CommandString(cmd.args);
    && (s == [] ==> r == Fail("Command required") && log1 == log0)
    && (s != [] && !caps.execCapture ==> r == Fail("Exec capture is unavailable") && log1 == log0)
    && (s != [] && caps.execCapture ==>
          r == Outcome(true, None, Some(CaptureData(s))) && log1 == log0 + [ExecCapture(s)])
  }

  /** The exec-capture handler (process.ts:22-40): as exec, but through the adapter's
      optional execCapture, whose pending output becomes the result's data. */
  method ExecCaptureHandler(cmd: Command, ctx: Context) returns (r: Outcome)
    modifies ctx`log
    ensures ExecCaptureOutcome(cmd, ctx.caps, r, old(ctx.log), ctx.log)
  {
    var s := Trim(Join(cmd.args, " "));
    if s == [] {
      return Fail("Command required");
    }
    if !ctx.caps.execCapture {
      return Fail("Exec capture is unavailable");
    }
    ctx.log := ctx.log + [ExecCapture(s)];
    return Outcome(true, None, Some(CaptureData(s)));
  }

  /** What the kill handler returns and calls in state `s`. */
  ghost predicate KillOutcome(s: Snapshot, r: Outcome, log0: seq<Call>, log1: seq<Call>)
    requires Sound(s)
  {
    var f := s.focused;
    && (f.Some? && s.nodes[f.value].IsWindow() ==>
          r == Ok() && log1 == log0 + [Close(s.nodes[f.value].extra.handle)])
    && (!(f.Some? && s.nodes[f.value].IsWindow()) ==>
          r == Fail("Focused container is not a window") && log1 == log0)
  }

  /** The kill handler (process.ts:42-53): a focused window is closed; anything else (no
      focus, or a focused container that is not a window) fails. */
  method KillHandler(ctx: Context) returns (r: Outcome)
    requires ctx.Ready()
    modifies ctx`log
    ensures Sound(ctx.View()) && KillOutcome(ctx.View(), r, old(ctx.log), ctx.log)
  {
    ctx.ReadySound();
    if ctx.focused.None? || !ctx.tree.nodes[ctx.focused.value].IsWindow() {
      return Fail("Focused container is not a window");
    }
    ctx.log := ctx.log + [Close(ctx.tree.nodes[ctx.focused.value].extra.handle)];
    return Ok();
  }

  /** What the reload handler returns and calls. */
  ghost predicate ReloadOutcome(caps: Capabilities, r: Outcome, log0: seq<Call>, log1: seq<Call>) {
    && (caps.reloadConfig ==> r == Ok() && log1 == log0 + [ReloadConfig])
    && (!caps.reloadConfig ==> r == Fail("Reload is unavailable") && log1 == log0)
  }

  /** The reload handler (process.ts:55-65): calls the context's reloadConfig callback, or
      fails when there is none. */
  method ReloadHandler(ctx: Context) returns (r: Outcome)
    modifies ctx`log
    ensures ReloadOutcome(ctx.caps, r, old(ctx.log), ctx.log)
  {
    if !ctx.caps.reloadConfig {
      return Fail("Reload is unavailable");
    }
    ctx.log := ctx.log + [ReloadConfig];
    return Ok();
  }

  /** What the inspect handler returns and calls. */
  ghost predicate InspectOutcome(caps: Capabilities, r: Outcome, log0: seq<Call>, log1: seq<Call>) {
    && r == Outcome(true, None, None)
    && log1 == log0 + (if caps.toggleInspect then [ToggleInspect] else [])
  }

  /** The inspect handler (inspect.ts:3-9): toggles the inspector when the callback is
      there, and succeeds either way. */
  method InspectHandler(ctx: Context) returns (r: Outcome)
    modifies ctx`log
    ensures InspectOutcome(ctx.caps, r, old(ctx.log), ctx.log)
  {
    if ctx.caps.toggleInspect {
      ctx.log := ctx.log + [ToggleInspect];
    }
    return Outcome(true, None, None);
  }
}
