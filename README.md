# tessera, modelled in Dafny

tessera is a tiling window manager extension for GNOME Shell. It keeps every monitor,
workspace, split and window in a container tree. That tree is laid out by layout strategies and
driven by a small command language of the form `[app_id=firefox] focus left; split v`, which
arrives from key bindings and over IPC.

This project models that core as Dafny code and proves properties about it:

- **The container tree** (`Tree.Tree`).
  - It is an arena of container nodes, keyed by object identity.
  - It carries the parent and child lists, a ghost depth map that rules out cycles, and an id
    counter.
  - It models every mutator of the container classes: `addChild`, `removeChild`, `setLayout`,
    `toggleLayout`, the floating list and the work area.
  - It models every query: `findByMark`, `focusedChild`, `getOutput`, `tiledWindowCount` and
    `toJSON`.
- **Building and focus.**
  - `TreeBuilder.build` makes one Output, Workspace and Split per monitor.
  - `setFocusedContainer` clears the focus flags and sets one.
- **Layout.**
  - The layout strategies: `computeSplitRects`, the float-on-add and float-on-retry decisions,
    and `onWindowAdded`.
  - The reflow of a workspace and `applyLayout`, which hands every window rect to the
    compositor.
- **Window insertion.** `insertWindowWithStrategy` either appends a new window to a split or
  wraps the focused window in a fresh split.
- **The command language.** The tokenizer, criteria blocks, segments and criteria matching.
- **The command handlers.** Focus, move, move-to-workspace, resize, split, layout,
  alternating-mode, mode, retile, workspace, mark, unmark, floating, fullscreen, exec,
  exec-capture, kill, reload and inspect.
  - The compositor adapter and the optional callbacks are modelled as a log of the calls
    (`Call`) made through them.
  - Each handler's effect is a ghost relation over a world: the tree, the focused container,
    the call log and the stored alternating mode.
- **The command engine, its default registrations and the command service.**
  - A command string is parsed and run as one batch.
  - The service's `execute` and `executeForTarget` are proved to run exactly the batch the
    string parses to.
- **The IPC facade** (`tree`, `ping`, `config`).
- **The helpers around the core:**
  - the settings object and `applyConfig`;
  - the IPC codec and the socket-path resolver;
  - the debug dump;
  - the monitor work-area handling;
  - window rules;
  - the focus and overflow helpers of the window tracker;
  - the window-to-workspace helpers;
  - the rebuild step;
  - the key binding defaults, the binding manager and its reload.

The model and its proofs live in the files below. Each row of the table names a member whose
contract states the listed property.

## Model

| member | source | states |
|---|---|---|
| Containers.RootNode | src/tree/root-container.ts:5-7 | a Root container with the given id and the base defaults (SplitH, zero rect, unfocused, proportion 1, no marks) |
| Containers.OutputNode | src/tree/output-container.ts:13-17 | an Output keeps its monitor index and work area; its own rect keeps the zero default |
| Containers.WorkspaceNode | src/tree/workspace-container.ts:20-27 | a Workspace keeps name, number and visibility, starts not urgent, with an empty floating list |
| Containers.SplitNode | src/tree/split-container.ts:4-7 | a Split with the given layout and otherwise the base defaults |
| Containers.WindowNode | src/tree/window-container.ts:20-34 | a Window keeps its handle, window id, app id and title, and is neither floating nor fullscreen |
| Containers.Toggled | src/tree/split-container.ts:9-11 | toggling yields SplitV exactly from SplitH, and SplitH from everything else |
| Containers.ToggleTwice | src/tree/split-container.ts:9-11 | toggling twice restores SplitH and SplitV |
| Tree.Tree.NewContainer | src/tree/container.ts:18-28 | a fresh container object joins the tree with no parent and no children; every other container is untouched |
| Tree.Tree.NextId | src/tree/tree-builder.ts:28 | `root.nextId()` returns a number one above every id issued so far and records it |
| Tree.Tree.AddChild | src/tree/container.ts:30-37 | `c` is removed from its old parent's list (if any) and appended to `p`'s list; its parent becomes `p`; the tree stays acyclic |
| Tree.Tree.RemoveChild | src/tree/container.ts:39-47 | a no-op unless `c` is listed by `p`; otherwise the first entry of `c` goes and `c` loses its parent |
| Tree.Tree.SetLayout | src/tree/container.ts:49-51 | only the layout of that one container changes |
| Tree.Tree.ToggleLayout | src/tree/split-container.ts:9-11 | the layout becomes the toggled one: SplitV exactly when it was SplitH |
| Tree.Tree.UpdateWorkArea | src/tree/output-container.ts:19-21 | only the work area of that one Output changes |
| Tree.Tree.AddFloatingWindow | src/tree/workspace-container.ts:29-31 | the entry is appended to the floating list, with no duplicate check |
| Tree.Tree.RemoveFloatingWindow | src/tree/workspace-container.ts:33-40 | the first occurrence of the entry leaves the floating list; nothing happens when there is none |
| Tree.Tree.FindByMark | src/tree/container.ts:57-70 | the first container in pre-order (self, then children in order) holding the mark; none only when no container of the subtree holds it |
| Tree.Tree.FocusedChild | src/tree/container.ts:53-55 | the first focused child in list order, or none when no child is focused |
| Tree.Tree.GetOutput | src/tree/root-container.ts:13-21 | the first Output child with that monitor index; other kinds are skipped; none when there is no such child |
| Tree.Tree.TiledWindowCount | src/tree/workspace-container.ts:46-62 | the number of Window containers reachable through the child lists, floating ones included |
| Tree.CountWindows | src/tree/workspace-container.ts:49-58 | the recursive walk counts exactly the Windows of the pre-order of the subtree |
| Tree.Tree.ToJson | src/tree/container.ts:72-83 | the JSON carries the container's own id and kind and one child entry per child, in order |
| Tree.Tree.FloatingJson | src/tree/workspace-container.ts:71 | the floating list renders exactly when every entry can render itself, one JSON entry per list entry |
| Tree.Tree.ToJsonFails | src/tree/workspace-container.ts:64-73 | toJSON of a subtree succeeds exactly when no workspace in it holds a floating entry that cannot render itself |
| Tree.Tree.ToJsonMirrors | src/tree/container.ts:81 | the ids of the JSON, read in pre-order, are the ids of the subtree's pre-order |
| Focus.ClearFocus | src/tree/focus.ts:3-8 | the focus flag is cleared on `x` and every container below it; nothing else changes |
| Focus.SetFocusedContainer | src/tree/focus.ts:10-19 | every flag under `root` is cleared, then `target` is focused, which need not lie under `root` |
| Focus.FocusExclusive | src/tree/focus.ts:10-19 | afterwards the target is focused, no other cleared container is, containers outside the cleared set are unchanged and no field but `focused` changes |
| Focus.FocusIdempotent | src/tree/focus.ts:10-19 | a second identical call changes nothing |
| TreeBuilder.AddFresh | src/tree/tree-builder.ts:28-29 | `p.addChild(new X(root.nextId(), ...))`: a fresh container under the next id, appended to `p`'s children |
| TreeBuilder.AddMonitor | src/tree/tree-builder.ts:26-43 | one loop turn adds an Output under the root, a Workspace under it and a Split under that, drawing three ids in that order |
| TreeBuilder.Build | src/tree/tree-builder.ts:23-46 | a parentless Root with id 1 and, per monitor in order, a finished Output/Workspace/Split chain with the monitor's index, name, number and work area |
| BuildShape.IdsAdd | src/tree/tree-builder.ts:28 | a container whose id is one above the counter keeps all ids distinct and at most the counter |
| BuildShape.StepFrame | src/tree/tree-builder.ts:26-43 | one turn adds a finished Output under the root and leaves every earlier container as it was |
| Splice.ReplaceChildAt | src/window-insertion.ts:58-59 | the new split takes slot `i` of `p`, and only that slot; the old occupant loses its parent; the tree stays acyclic |
| Splice.SwapWindows | src/commands/handlers/core.ts:378-381 | two windows trade slots and parents, whether or not they share a parent; every other list is unchanged |
| Splice.SwapShaped | src/commands/handlers/core.ts:378-381 | the exchange keeps the tree invariant: links agree, no duplicates, windows stay leaves |
| Insertion.WrapPlan | src/window-insertion.ts:18-55 | the wrap chosen by the strategy of the split's layout: none (append) when there is no hook, no plan, no target, a target outside a split or unlisted; else the target's slot in its parent split |
| Insertion.WrapPlanIff | src/window-insertion.ts:18-55 | in a consistent tree the later fallbacks never fire: a wrap exactly when the split is Alternating, the mode is focused or tail and the focused window sits in a split (non-empty in tail mode); the target is the focused window or the last child, the layout the perpendicular one |
| Insertion.Append | src/window-insertion.ts:31 | the fallback `split.addChild(container)` appends the window to the split and changes no other list |
| Insertion.WrapWith | src/window-insertion.ts:57-61 | a fresh split with the next id and the planned layout takes the target's slot and holds the target then the window |
| Insertion.WrapShape | src/window-insertion.ts:57-61 | the target's parent keeps its child count and the order of its other children; the new split holds exactly target then window; no other list changes |
| Insertion.InsertWindow | src/window-insertion.ts:9-66 | the tree after insertion is the append or the wrap exactly as WrapPlan decides; the tree stays valid |
| Insertion.InsertWindowAsWritten | src/window-insertion.ts:18 | with the split object passed as the layout key, the window is always appended |
| Insertion.StrategyAsWritten | src/window-insertion.ts:18 | the strategy found for a split object has no onWindowAdded hook |
| Insertion.AsWrittenMissesWrap | src/window-insertion.ts:18-27 | for an Alternating split in focused mode with the focused window inside a split, the intended lookup plans a wrap around the focused window while the written lookup has no hook and appends |
| Strategy.Round | src/layout/strategy.ts:96 | `Math.round`: the integer within half a unit, halves rounding up |
| Strategy.LayoutChildren | src/layout/strategy.ts:51-58 | the children that take part in tiling, in list order: all but floating windows |
| Strategy.LayoutChildrenAppend | src/layout/strategy.ts:51-58 | the filter keeps the relative order of the child list |
| Strategy.SafeTotal | src/layout/strategy.ts:76-80 | the proportion total, or 1 when it is not positive, so always positive |
| Strategy.Available | src/layout/strategy.ts:82-84 | the main-axis length left after the inner gaps, never negative |
| Strategy.Sizes | src/layout/strategy.ts:86-98 | every tile but the last gets its rounded share of the available length; the sizes add up to the available length |
| Strategy.SplitRectsAdjacent | src/layout/strategy.ts:87-117 | tiles lie side by side: the first at the outer gap, each next one an inner gap after the previous ends |
| Strategy.SplitRectsCross | src/layout/strategy.ts:69-74 | across the main axis every tile spans the whole base rect, shrunk by the outer gap and never negative |
| Strategy.SplitRectsShares | src/layout/strategy.ts:96 | each tile but the last is within half a pixel of its exact share |
| Strategy.SplitRectsFill | src/layout/strategy.ts:83-117 | when the gaps fit, the tiles exactly fill the base rect along the main axis |
| Strategy.PlacedOnlyRects | src/layout/strategy.ts:100-116 | placing changes only rects, and only those of the layout children |
| Strategy.PlacedAt | src/layout/strategy.ts:100-116 | each layout child ends up with its own tile |
| Strategy.PlaceTile | src/layout/strategy.ts:89-117 | one turn of the forEach: the child's size, its rect, and the running total and offset after it |
| Strategy.PlaceTiles | src/layout/strategy.ts:86-117 | the loop places each layout child at its tile, in order |
| Strategy.ComputeSplitRects | src/layout/strategy.ts:60-118 | each tiled child gets its tile of SplitRects; nothing else changes; nothing happens without layout children |
| Strategy.GetLayoutStrategy | src/layout/strategy.ts:240-248 | the table entry for SplitH, SplitV and Alternating, the fallback (SplitV axis, no hook) otherwise; the axis is horizontal exactly for SplitH and Alternating; only Alternating has onWindowAdded |
| Strategy.LessThanShareIff | src/layout/strategy.ts:126 | with at least one tile, `length / count < min` exactly when `length < min * count` |
| Strategy.ShouldFloatOnAdd | src/layout/strategy.ts:125-127 | floats exactly when the work area's length along the strategy's axis is below count minimum tiles |
| Strategy.ShouldFloatOnRetry | src/layout/strategy.ts:128-137 | as on add, with the minimum raised to the length the window took |
| Strategy.AddImpliesRetry | src/layout/strategy.ts:125-137 | a window that floats on add also floats on retry, whatever rect it took |
| Strategy.FloatOnAddMonotone | src/layout/strategy.ts:125-127 | once `n` windows are too many, more are too |
| Strategy.OnWindowAdded | src/layout/strategy.ts:183-212 | a plan exactly in focused or tail mode with the focused window in a split (non-empty for tail); the target is the focused window or the last child; the wrap layout is SplitV under SplitH and SplitH otherwise |
| Reflow.SplitTiler | src/layout/strategy.ts:122-124 | the split strategies' computeRects give each layout child one tile |
| Reflow.ReflowedPlaces | src/tree/reflow.ts:27-29 | after reflow the layout children hold the strategy's tiles in order; a container without layout children is left as it was |
| Reflow.ReflowedFrame | src/tree/reflow.ts:10-35 | reflow writes only rects, only strictly below `x`, and never a floating window's |
| Reflow.ReflowedSettles | src/tree/reflow.ts:32-34 | afterwards every container of the subtree holds its tiles |
| Reflow.SettledFixed | src/tree/reflow.ts:10-35 | reflow leaves a settled subtree as it is |
| Reflow.ReflowIdempotent | src/tree/reflow.ts:10-35 | reflowing twice with nothing changed in between is reflowing once |
| Reflow.ReflowAt | src/tree/reflow.ts:10-35 | the recursive reflow over the node maps computes Reflowed with the split strategies and the given gaps |
| Reflow.ReflowChildren | src/tree/reflow.ts:32-34 | the forEach reflows each layout child in turn |
| ApplyLayout.CallFor | src/tree/apply-layout.ts:11-17 | one call, a moveResize, exactly for a tiled window |
| ApplyLayout.EmittedCalls | src/tree/apply-layout.ts:10-22 | every call moves a tiled window to its own rect, and every tiled window below gets one |
| ApplyLayout.ApplyLayoutAt | src/tree/apply-layout.ts:10-22 | the calls are exactly those of the pre-order walk below `x`, in order |
| ApplyLayout.ApplyLayout | src/tree/apply-layout.ts:10-22 | on the live tree: those calls, none for `x` itself, and the tree is unchanged |
| ApplyLayout.ReflowTree | src/tree/reflow.ts:10-35 | on the live tree: the node map becomes the reflowed one, differing only in rects strictly below `x`; links unchanged |
| FloatingLayers.AfterRemove | src/tree/floating-layer.ts:21-27 | the focused index after a splice: unchanged when nothing was removed or nothing is focused, cleared when the focused slot went, one lower when a slot below it went |
| FloatingLayers.NextIndex | src/tree/floating-layer.ts:74-86 | the next slot on a non-empty stack: 0 from unset or from the top, else one up; always a valid slot |
| FloatingLayers.FocusNextVisits | src/tree/floating-layer.ts:74-86 | the first `n` focusNext calls from unset visit the slots bottom to top |
| FloatingLayers.FocusNextWraps | src/tree/floating-layer.ts:74-86 | the focus sequence repeats with period `n` |
| FloatingLayers.FloatingLayer.constructor | src/tree/floating-layer.ts:5-8 | an empty stack with nothing focused |
| FloatingLayers.FloatingLayer.Add | src/tree/floating-layer.ts:10-12 | the window is pushed on top, duplicates included; the focus index stays |
| FloatingLayers.FloatingLayer.Remove | src/tree/floating-layer.ts:14-28 | the first occurrence goes; the focus keeps naming the same window unless that window was removed |
| FloatingLayers.FloatingLayer.TopWindow | src/tree/floating-layer.ts:30-32 | the last window, none exactly on an empty stack |
| FloatingLayers.FloatingLayer.Raise | src/tree/floating-layer.ts:34-42 | the first occurrence moves to the top; the same windows, the others in their order; the focus index stays |
| FloatingLayers.FloatingLayer.Lower | src/tree/floating-layer.ts:44-55 | the first occurrence moves to the bottom; a set focus index is bumped by one, possibly past the last slot |
| FloatingLayers.FloatingLayer.Focus | src/tree/floating-layer.ts:57-64 | the focus index names the first occurrence; an absent window changes nothing |
| FloatingLayers.FloatingLayer.FocusedWindow | src/tree/floating-layer.ts:66-72 | the window at the focus index, none when it is unset or past the end |
| FloatingLayers.FloatingLayer.FocusNext | src/tree/floating-layer.ts:74-86 | nothing on an empty stack; otherwise the focus moves to the next slot, wrapping, and that window is returned |
| FloatingLayers.FloatingLayer.ToJson | src/tree/floating-layer.ts:88-90 | the windows, bottom to top |
| Overflow.ShouldFloatOnAdd | src/window-tracker-overflow.ts:4-20 | SplitH floats exactly when the width per tile is under the minimum width, SplitV likewise for heights, other layouts never |
| Overflow.ShouldFloatOnRetry | src/window-tracker-overflow.ts:22-41 | as on add, with the minimum raised to the window's actual length |
| Overflow.AddImpliesRetry | src/window-tracker-overflow.ts:4-41 | a window that floats on add floats on retry at the same count |
| Overflow.AgreesWithStrategy | src/window-tracker-overflow.ts:4-41 | these helpers agree with the SplitH and SplitV strategy records; for Alternating they differ (the helper never floats, the record compares widths) |
| Overflow.Examples | src/window-tracker-overflow.ts:13-18 | an illustration on single inputs, covered by the general lemmas: concrete decisions for 600, 720 and 500 pixel work areas |
| WindowFocus.WindowIdOf | src/window-tracker-focus.ts:8-14 | `get_id()` when the window has it, else its stable sequence number |
| WindowFocus.FocusedContainer | src/window-tracker-focus.ts:16-29 | the tracked container of the focused window, none exactly when there is no focused window or it is untracked |
| WindowFocus.UpdateFocusedWindow | src/window-tracker-focus.ts:16-48 | focus under the root moves to the window's container (cleared everywhere when there is none); its workspace records the window id |
| WindowFocus.LocateWorkspace | src/window-tracker-focus.ts:30-43 | the workspace found for the focused container is a workspace of the tree |
| WindowFocus.FocusedWindowEffect | src/window-tracker-focus.ts:16-48 | the container is focused, nothing else cleared is, the workspace records the id, and every other container is untouched |
| WindowWorkspace.WorkspaceIndexOf | src/window-workspace.ts:14-35 | none without a workspace; else `index()`, then `get_index()`, then a numeric `index` field, else none |
| WindowWorkspace.FindWorkspaceByIndex | src/window-workspace.ts:37-54 | the first workspace numbered `index + 1`, outputs in order and their children in order, skipping other kinds |
| WindowWorkspace.FirstNumbered | src/window-workspace.ts:37-54 | the found workspace has the number and comes before every other with it; none only when no workspace has it |
| Monitors.RawInfos | src/monitors.ts:33-50 | the layout manager's monitors when it lists any, else the display's count with the display's getter, falling back to the layout manager's |
| Monitors.Corrected | src/monitors.ts:59-69 | only the primary monitor's area starting at y = 0 moves down by the panel height and shrinks by as much |
| Monitors.BuildMonitorInfos | src/monitors.ts:28-71 | one entry per raw monitor |
| Monitors.BuildMonitorInfosSpec | src/monitors.ts:28-71 | the entries are monitors `0..n-1` in order; without a panel of positive rounded height nothing moves; otherwise only the primary at y = 0 moves, x and width kept |
| Monitors.PanelExample | src/monitors.ts:59-69 | an illustration on single inputs, covered by the general lemmas: a 32.4-pixel panel moves a 1920 x 1080 primary area to y = 32, height 1048; the other monitor keeps its area |
| Rebuild.MaybeRebuildTree | src/extension-rebuild.ts:1-15 | rebuilds, calling the callback once, exactly when there are monitors and no outputs |
| Rebuild.PollingStops | src/extension-rebuild.ts:17-27 | polling never continues once an output exists, and otherwise stops after exactly `maxAttempts - attempts` ticks |
| Parser.RunFacts | src/commands/parser.ts:10-27 | after any input the finished tokens are non-empty and quote-free, the lexer is inside quotes exactly after an odd number of quotes, and tokens plus the current token are the kept characters in order |
| Parser.TokensFacts | src/commands/parser.ts:5-34 | every token is non-empty and quote-free, and the tokens concatenate to the kept characters of the input |
| Parser.Tokenize | src/commands/parser.ts:5-34 | the character loop yields exactly the tokens of the lexer specification, for any separator test |
| Parser.OneWord | src/commands/parser.ts:26-31 | a non-empty word without quotes and separators is one token |
| Parser.QuotedWord | src/commands/parser.ts:13-16 | quoted text, separators included, is one token without its quotes, whatever the separator test |
| Parser.SourceKeepsQuotedOnly | src/commands/parser.ts:18 | with the separator test as written, every character outside quotes is dropped |
| Parser.SourceTokenizerLosesWords | src/commands/parser.ts:18 | as written, "focus left" tokenizes to nothing |
| Parser.ParseCriteriaToken | src/commands/parser.ts:36-52 | without `=` or `!=` the token is an existence test on itself; otherwise an operator test with a value |
| Parser.ParseCriterionText | src/commands/parser.ts:36-52 | reading back a written criterion with a plain key and value gives it back |
| Parser.ParseValuedText | src/commands/parser.ts:46-51 | the same for a criterion with an operator: key, operator, then value |
| Parser.CloseAtIsFirst | src/commands/parser.ts:70 | the lazy `[(.*?)]` match is the shortest: a block's content holds no `]` and no line terminator |
| Parser.NextBlockLeftmost | src/commands/parser.ts:72 | the search finds the leftmost match |
| Parser.BlocksShortest | src/commands/parser.ts:70-73 | no matched block's content holds a `]` or a line terminator |
| Parser.NoBlocks | src/commands/parser.ts:70-76 | a segment without `[` has no criteria and keeps its text |
| Parser.PushCriteria | src/commands/parser.ts:73 | pushing one match's criteria extends the collected list by exactly those |
| Parser.CollectAll | src/commands/parser.ts:70-73 | the exec loop pushes every match's criteria, left to right |
| Parser.ExtractCriteriaBlocks | src/commands/parser.ts:63-78 | the criteria of every block, and the segment with the blocks replaced by spaces, trimmed |
| Parser.Segments | src/commands/parser.ts:81-84 | cut at `;`, trimmed, the empty ones dropped: every segment is non-empty, trimmed and free of `;` |
| Parser.ParseCommandString | src/commands/parser.ts:80-98 | one command per segment, in order, whose raw text is the segment and whose criteria are its blocks' criteria; every input parses |
| Parser.SegmentWithoutBlocks | src/commands/parser.ts:86-89 | with the intended separator, a segment without brackets has no criteria; its first word is the action and the rest the arguments |
| Parser.OneSegment | src/commands/parser.ts:80-98 | a clean segment on its own parses to exactly one command |
| Parser.NonEmptyTrimmedNone | src/commands/parser.ts:83-84 | no segment survives exactly when every piece trims to nothing |
| Parser.BlankParsesNothing | src/commands/parser.ts:80-98 | a command string yields no command exactly when it is made of white space and `;` |
| Parser.IntendedParsesFocusLeft | src/commands/parser.ts:18 | with the intended `\s` test, "focus left" is the action focus with the argument left |
| Parser.SourceSegmentIsEmpty | src/commands/parser.ts:18 | as written, a segment without double quotes parses to an empty action, no arguments and no criteria |
| Parser.SourceParsesNothing | src/commands/parser.ts:18 | as written, "focus left" and "[app_id=firefox] kill" each parse to a command with empty action, no arguments and no criteria |
| Criteria.MatchesCriteria | src/commands/criteria.ts:102-111 | every criterion must match; the empty list matches every container |
| Criteria.MatchesConcat | src/commands/criteria.ts:102-111 | matching a concatenation of criteria lists is matching both |
| Criteria.StringExists | src/commands/criteria.ts:11-13 | a string existence test holds exactly for a present, non-empty value |
| Criteria.StringOperatorsComplement | src/commands/criteria.ts:15-23 | with an expected value `!=` negates `=`; without one neither holds |
| Criteria.BooleanOperators | src/commands/criteria.ts:26-47 | `!=` negates `=`; `=` with a truthy word holds exactly for true, with any other word exactly for false; neither holds without a value |
| Criteria.TruthyWords | src/commands/criteria.ts:39-40 | an illustration on single inputs, covered by the general lemmas: "TRUE", "Yes" and "1" are truthy; "on", "0" and "false" are not |
| Criteria.KindRestrictions | src/commands/criteria.ts:49-99 | window keys match only windows, workspace keys only workspaces, and unknown keys (window_type among them) nothing |
| Criteria.TilingIsNotFloating | src/commands/criteria.ts:82-91 | a tiling test with `=` matches exactly when the floating test with `!=` does; tiling exists exactly when floating does not |
| Criteria.MarkCriteria | src/commands/criteria.ts:66-79 | con_mark: exists iff some mark is set, `=` is membership, `!=` its negation |
| Criteria.ConIdCriterion | src/commands/criteria.ts:80-81 | `con_id=<id>` matches the container; a matching value reads back as its id |
| Criteria.AppIdFromText | src/commands/criteria.ts:51-55 | a criterion written `app_id=a` selects exactly the windows whose app id is `a` |
| Config.Field | src/config.ts:43 | a field of an object update; anything that is not an object has no fields |
| Config.NormalizeMinTile | src/config.ts:11-33 | a finite positive number, rounded down; nothing for anything else |
| Config.Updated | src/config.ts:44-52 | the normalised update when there is one, else the old value |
| Config.NormalizeExamples | src/config.ts:11-33 | an illustration on single inputs, covered by the general lemmas: 251.9 becomes 251, values in (0, 1) become 0, and 0, -3, a non-finite number and the string "300" are refused |
| Config.UpdatedIdempotent | src/config.ts:35-55 | applying the same update twice is applying it once |
| Config.NonObjectKeeps | src/config.ts:39-41 | an update that is not an object changes neither size |
| Config.Config.Defaults | src/config.ts:6-9 | the settings start at 300 by 240 |
| Config.Config.ApplyConfig | src/config.ts:35-55 | each size is replaced by its normalised update when it has one, independently of the other; the target itself is returned |
| Codec.MethodNamed | src/ipc/codec.ts:9-16 | exactly the six method names are recognised, each as the method of that name |
| Codec.MethodNames | src/ipc/codec.ts:9-16 | every method is recognised by its own name |
| Codec.DecodeRequest | src/ipc/codec.ts:25-43 | a non-object is "Invalid request"; then a missing or empty string id is "Invalid request id"; a request decodes exactly when the id is a non-empty string and the method one of the six; the fields come back unchanged |
| Codec.DecodeRoundTrip | src/ipc/codec.ts:18-44 | the object a client sends for a request decodes back to that request |
| Resolve.ExtractPidSpec | src/ipc/resolve.ts:3-11 | no pid without the prefix; otherwise the number after the last occurrence of the prefix |
| Resolve.ScanWinner | src/ipc/resolve.ts:17-27 | the search finds nothing exactly when no pid is above -1, and otherwise the greatest pid, the earliest on ties |
| Resolve.ResolveSocketPath | src/ipc/resolve.ts:13-30 | the path with the greatest pid, the earliest on ties; none when no path has a pid above -1 |
| Resolve.WinnerUnique | src/ipc/resolve.ts:23-26 | at most one path wins, so the answer is determined by the list |
| IpcDebug.LastWhereIs | src/ipc/debug.ts:82-131 | the last member satisfying the test satisfies it and no later member does; there is none only when no member does |
| IpcDebug.VisitSpec | src/ipc/debug.ts:92-131 | the tally after visiting a list: the kinds in order, the three counts, and the last focused container and focused window, or what it held before |
| IpcDebug.WalkTally | src/ipc/debug.ts:82-90 | each child is visited, then walked, in list order: the tally is that of the walk below the root |
| IpcDebug.BuildDebugPayload | src/ipc/debug.ts:133-185 | without a root the tree facts are zero, false, empty and null; with one they come from the walk below the root, which leaves the root out; the other records pass through |
| Rules.RuleToCriteria | src/rules.ts:6-22 | app_id and title only when given, window_type whenever present (even empty), each with `=`, in that order |
| Rules.RuleMatchesIff | src/rules.ts:6-22 | a window matches a rule exactly when every given field equals the window's and no window type is named, since window_type is an unknown criteria key |
| Rules.EmptyMatchMatchesAll | src/rules.ts:6-22 | a rule naming nothing has no criteria and matches every container |
| Rules.RulesCommandsAppend | src/rules.ts:24-38 | the commands of `a + b` are those of `a` followed by those of `b` |
| Rules.RulesCommandsOne | src/rules.ts:30-35 | a single rule contributes its commands exactly when the window matches it |
| Rules.EvaluateRules | src/rules.ts:24-38 | the loop pushes the commands of every matching rule, in rule order |
| Bindings.WorkspaceBindings | src/bindings/defaults.ts:3-19 | the loop builds exactly the workspace binding list |
| Bindings.WorkspaceBindingsShape | src/bindings/defaults.ts:3-19 | 20 bindings: for workspaces 1 to 9, Super+i to switch and Super+Shift+i to move, then the same two for workspace 10 on the 0 key; one key each |
| Bindings.DefaultModesShape | src/bindings/defaults.ts:21-56 | two modes, "default" then "resize"; default is its 18 fixed bindings then the 20 workspace bindings; one key per binding; Escape in resize mode returns to default |
| BindingManagers.RegisteredEntries | src/bindings/manager.ts:131-163 | a key has an entry exactly when its grab succeeded, and the entry of an action id is the slot that took it |
| BindingManagers.FailuresSpec | src/bindings/manager.ts:131-163 | the failures are exactly the keys whose grab returned 0 |
| BindingManagers.SummaryShape | src/bindings/manager.ts:156-160 | the notice names all failures when there are at most six, else the first six and "(+n more)" |
| BindingManagers.BindingManager.constructor | src/bindings/manager.ts:41-53 | no modes, no active mode, disabled, nothing grabbed, no signal, no calls |
| BindingManagers.BindingManager.AddMode | src/bindings/manager.ts:55-60 | the mode is stored under its name, replacing any earlier one, and becomes active when no mode is |
| BindingManagers.BindingManager.ClearModes | src/bindings/reload.ts:12 | the mode table is emptied and no mode is active |
| BindingManagers.BindingManager.Enable | src/bindings/manager.ts:66-76 | a no-op when enabled; otherwise the signal is connected and the active mode's keys grabbed, in order |
| BindingManagers.BindingManager.RegisterActive | src/bindings/manager.ts:73-75 | the grabs of the active mode's keys, when a mode is active |
| BindingManagers.BindingManager.Disable | src/bindings/manager.ts:78-89 | a no-op when disabled; otherwise every grabbed key is released and the signal disconnected |
| BindingManagers.BindingManager.SwitchMode | src/bindings/manager.ts:91-105 | false and no change for an unknown name; a known one becomes active and, while enabled, the old keys are released before the new mode's are grabbed |
| BindingManagers.BindingManager.ConnectSignals | src/bindings/manager.ts:107-129 | connects the activation signal once; a second call changes nothing |
| BindingManagers.BindingManager.OnAccelerator | src/bindings/manager.ts:114-127 | a command exactly for an action id with an entry, namely that binding's command |
| BindingManagers.BindingManager.RegisterMode | src/bindings/manager.ts:131-163 | every key of every binding is grabbed in order and each success recorded; an unknown name does nothing |
| BindingManagers.BindingManager.GrabKeys | src/bindings/manager.ts:138-152 | the inner loop grabs one binding's keys in order, recording successes and collecting failures |
| BindingManagers.BindingManager.UnregisterAll | src/bindings/manager.ts:165-171 | every grabbed key is released and the table emptied |
| BindingManagers.ModeTable | src/bindings/reload.ts:15-17 | after adding the modes in order, each name maps to the last mode of that name |
| BindingManagers.AddModes | src/bindings/reload.ts:15-17 | the addMode calls on a cleared, disabled manager give that table, with the first mode active |
| BindingManagers.ReloadBindings | src/bindings/reload.ts:6-23 | disable, clearModes, addMode for each configured (or default) mode, switchMode("default"), then enable exactly when a mode was active before, with the grabs and calls that implies |
| BindingManagers.Reinstall | src/bindings/reload.ts:10-19 | the reload up to the final enable: disabled, nothing grabbed, the new table and active mode |
| CoreHandlers.StripQuotes | src/commands/handlers/core.ts:237 | one leading and one trailing double quote are dropped, and the result is a slice of the input |
| CoreHandlers.StripQuotesQuoted | src/commands/handlers/core.ts:237 | a quoted name comes back without its quotes |
| CoreHandlers.StripQuotesPlain | src/commands/handlers/core.ts:237 | a name with no quote at either end is left alone |
| CoreHandlers.ModeHandler | src/commands/handlers/core.ts:225-245 | an empty joined name or a missing switchMode callback fails with nothing called; otherwise switchMode is called once with the unquoted name and the result reports whether the mode was known |
| CoreHandlers.WindowFor | src/commands/handlers/core.ts:256-258 | the focused container when it is a window, else the first window below it |
| CoreHandlers.WindowForSpec | src/commands/handlers/core.ts:256-260 | the window found lies at or below the focused container, and there is none only when no window lies there |
| CoreHandlers.FocusTarget | src/commands/handlers/core.ts:263-268 | the neighbour in the given direction when there is one, else the current window |
| CoreHandlers.FocusTargetSpec | src/commands/handlers/core.ts:263-268 | no direction word or an unknown one keeps the focus; a known one moves it exactly when some window lies that way overlapping on the cross axis, and then to one no other ranks before |
| CoreHandlers.FocusHandler | src/commands/handlers/core.ts:247-279 | no focused container or no window at or below it fails with nothing changed; otherwise only the target is focused under the root, it is activated, and the context's focused container is kept |
| CoreHandlers.FocusWindow | src/commands/handlers/core.ts:270-276 | the focus flags become exclusive to the window and one activate call is logged |
| CoreHandlers.SplitLayout | src/commands/handlers/core.ts:503 | vertical exactly for the `splitv` action or a first argument `v` |
| CoreHandlers.SplitHandler | src/commands/handlers/core.ts:495-511 | without a focused container with a parent it fails with nothing changed; otherwise the parent gets the split layout and is reflowed and laid out |
| CoreHandlers.LayoutWords | src/commands/handlers/core.ts:522-528 | the five layout words and the five layouts correspond one to one |
| CoreHandlers.LayoutHandler | src/commands/handlers/core.ts:513-542 | no parent or an unknown word fails with nothing changed; otherwise the parent gets the named layout and is reflowed and laid out |
| CoreHandlers.AlternatingModeNamed | src/commands/handlers/core.ts:548 | only `focused` and `tail` name a mode |
| CoreHandlers.AlternatingModeHandler | src/commands/handlers/core.ts:544-554 | a known word is stored as the alternating mode; anything else fails and stores nothing |
| CoreHandlers.Retiled | src/commands/handlers/core.ts:559-566 | retiling a list keeps the set of containers |
| CoreHandlers.RetiledAppend | src/commands/handlers/core.ts:559-566 | retiling a concatenation is retiling the first part, then the second |
| CoreHandlers.RetiledCons | src/commands/handlers/core.ts:561-564 | retiling starts with reflow and layout of the first workspace |
| CoreHandlers.RetiledFrame | src/commands/handlers/core.ts:559-566 | only rects change, floating windows keep theirs, and every call is a moveResize of a tiled window to its new rect |
| CoreHandlers.RetileHandler | src/commands/handlers/core.ts:556-569 | every workspace child of every child of the root is reflowed and laid out, in order, and the handler succeeds |
| CoreHandlers.RetileMaps | src/commands/handlers/core.ts:559-566 | the two loops give what retiling the workspace children of each child of the root, in order, gives |
| CoreHandlers.RetileChildren | src/commands/handlers/core.ts:560-565 | the inner loop over one child's children gives the retiled map and calls |
| CoreHandlers.RetileChild | src/commands/handlers/core.ts:561-564 | a workspace child is retiled and anything else is passed over |
| ResizeHandler.AxisOf | src/commands/handlers/core.ts:416-422 | an axis word is used as given; without one the axis is height under a vertical split and width otherwise |
| ResizeHandler.DefaultAxisMatches | src/commands/handlers/core.ts:416-422 | without an axis word the axis always follows the parent's layout |
| ResizeHandler.TotalOf | src/commands/handlers/core.ts:444 | the sum of the siblings' proportions, with a zero sum counted as 1 |
| ResizeHandler.MinSizeOf | src/commands/handlers/core.ts:454-473 | the configured minimum for the axis, at least 1, raised to a window's own reported minimum |
| ResizeHandler.SiblingMinTotal | src/commands/handlers/core.ts:476-478 | the minimum sizes of the other siblings added up |
| ResizeHandler.SizedBounds | src/commands/handlers/core.ts:474-483 | the clamped target lies between the minimum and the room the siblings leave, a target already in range is kept, and the share is positive (below 1 when a sibling needs room) |
| ResizeHandler.NewProportionAsWritten | src/commands/handlers/core.ts:484-486 | the source's division, which is undefined (Infinity) exactly at a share of 1 |
| ResizeHandler.NewProportion | src/commands/handlers/core.ts:484-486 | the proportion that gives the requested share, at least 0.1; a share above 1 with non-negative siblings gives exactly the floor 0.1, as the source's negative quotient does; a share of exactly 1 keeps the current proportion |
| ResizeHandler.NewProportionMeetsShare | src/commands/handlers/core.ts:484-486 | below a share of 1 and above the floor, the container's part of the new total is exactly the share |
| ResizeHandler.NewProportionAgrees | src/commands/handlers/core.ts:484-486 | the source's division is defined exactly when the share is not 1, and there the corrected proportion equals the source's, for shares below and above 1 alike |
| ResizeHandler.ResizeBeyondParent | src/commands/handlers/core.ts:482-486 | a size clamped above the parent's (share 4/3) stores the floor 0.1 in the source and in the model |
| ResizeHandler.ResizeToFullShare | src/commands/handlers/core.ts:474-486 | a concrete two-sibling resize whose share is exactly 1, where the source divides by zero |
| ResizeHandler.Decide | src/commands/handlers/core.ts:414-486 | an unreadable amount, an axis across the split and a parent without size are refused in that order; otherwise the new proportion |
| ResizeHandler.ResizeHandler | src/commands/handlers/core.ts:403-493 | without a focused container with a parent it fails with nothing changed; a refusal changes nothing; otherwise the new proportion is set and the parent reflowed and laid out |
| ResizeHandler.ResizeUnder | src/commands/handlers/core.ts:414-489 | the same once the focused container has a parent |
| ResizeHandler.SetProportion | src/commands/handlers/core.ts:486-489 | the proportion is stored and the parent is reflowed and laid out |
| MoveHandlers.WorkspaceTarget | src/commands/handlers/core.ts:291-298 | a missing fourth argument is refused; otherwise the target is a workspace number exactly when parseInt gives a positive number, and that number is the index |
| MoveHandlers.WorkspaceTargetWritten | src/commands/handlers/core.ts:291-298 | a number written in decimal reads back as that number |
| MoveHandlers.Announced | src/commands/handlers/core.ts:339-340 | exactly two calls: moveToWorkspace with the zero-based index, then activate of the window |
| MoveHandlers.ReflowRootOf | src/commands/handlers/core.ts:316-319 | the parent's parent when it is not a workspace, else the parent |
| MoveHandlers.RelayoutKeeping | src/commands/handlers/core.ts:316-321 | the new containers are exactly the reflow below the root on the unchanged lists, the calls appended are one moveResize per tiled window below it with its new rect, only rects change, and the root and its parent keep theirs |
| MoveHandlers.DetachWindow | src/commands/handlers/core.ts:312-322 | the window leaves its parent's list and link; with a parent, the containers are the reflow below the parent's reflow root on the lists without the window and the calls are its moveResize calls; without one nothing else changes |
| MoveHandlers.Leave | src/commands/handlers/core.ts:312-326 | the lists, links, containers and calls are exactly those of the detaching step, less the window's entry in the floating list of the workspace it was found in when it floats; kinds, ids and the window's fields are kept |
| MoveHandlers.DetachableOf | src/commands/handlers/core.ts:312-315 | any window of a sound tree can leave its parent and the tree stays linked, with the reflow root still in it |
| MoveHandlers.FindCurrent | src/commands/handlers/core.ts:312 | the workspace found is the nearest one at or above the window |
| MoveHandlers.DetachFound | src/commands/handlers/core.ts:312-322 | finds the window's workspace, then its lists, links, containers and calls are exactly the detaching step's |
| MoveHandlers.DropFloating | src/commands/handlers/core.ts:323-325 | a floating window's entry leaves the found workspace's floating list; otherwise nothing changes |
| MoveHandlers.DropFound | src/commands/handlers/core.ts:323-325 | after the detaching step, only the floating list changes, as leaving states |
| MoveHandlers.DroppedRetains | src/commands/handlers/core.ts:316-325 | relayout and the floating list keep every kind, id and the window's own fields |
| MoveHandlers.RectsMoved | src/commands/handlers/core.ts:316-319 | when only rects change a workspace stays a workspace and the window keeps its other fields |
| MoveHandlers.LeftFromIntro | src/commands/handlers/core.ts:312-326 | the detaching step followed by the floating list is leaving |
| MoveHandlers.FindSplitTarget | src/commands/handlers/core.ts:58-74 | the workspace's first split child, the tree unchanged; without one, a new alternating split with id `workspace.id * 100 + children + 1` and the workspace's rect becomes its last child |
| MoveHandlers.Floated | src/commands/handlers/core.ts:330-332 | the floating list gains the window at its end exactly when it floats |
| MoveHandlers.JoinSplit | src/commands/handlers/core.ts:328-332 | the window becomes the split's last child and, when floating, the workspace's last floating entry |
| MoveHandlers.FocusAndStamp | src/commands/handlers/core.ts:335-336 | the window is the only focused container under the root and the workspace records its id |
| MoveHandlers.Settle | src/commands/handlers/core.ts:333-336 | the containers are the reflow below the split, with the window the only focused container under the root and the workspace recording its id; the calls appended are the split's moveResize calls |
| MoveHandlers.PlaceWindow | src/commands/handlers/core.ts:328-336 | joining as a whole: the window is the split's last child and, when floating, the workspace's last floating entry; then the containers and calls are exactly as after settling |
| MoveHandlers.Enter | src/commands/handlers/core.ts:328-336 | the split is the workspace's first split child, or else a fresh numbered alternating split appended to it; every list and link is given (the window appended to the split) and the containers and calls are those of placing the window there |
| MoveHandlers.JoinsIntro | src/commands/handlers/core.ts:328-336 | finding the split, appending the window and settling is joining |
| MoveHandlers.MoveInto | src/commands/handlers/core.ts:311-336 | the new lists, links, containers and calls are exactly those of leaving the old place and then entering the workspace on the tree leaving left |
| MoveHandlers.RelocatedIntro | src/commands/handlers/core.ts:311-336 | leaving and then joining on the tree leaving left is the whole move |
| MoveHandlers.MoveToWorkspaceHandler | src/commands/handlers/core.ts:289-342 | a missing or non-positive number, a missing moveToWorkspace or no window fails with nothing changed; otherwise it succeeds: without a workspace of that number nothing moves, with one the new state and the calls before the announcement are exactly those of the move into it, and either way the log ends with the announcement |
| MoveHandlers.MoveAndAnnounce | src/commands/handlers/core.ts:311-340 | the log is the calls of the move into the found workspace (none without one), then exactly the announcement, and the state is the move's |
| MoveHandlers.AnnouncedIntro | src/commands/handlers/core.ts:311-340 | the move or its absence followed by the two announcement calls meets the announced outcome |
| MoveHandlers.AppendedTwo | src/commands/handlers/core.ts:339-340 | a log extended by two calls splits back into its prefix and those two calls |
| MoveHandlers.SwapReflowRoot | src/commands/handlers/core.ts:388-394 | the target parent's parent when it is not a workspace, else the source parent's reflow root |
| MoveHandlers.SwapAndRelayout | src/commands/handlers/core.ts:370-397 | the two windows exchange places and the reflow root is reflowed and laid out |
| MoveHandlers.MoveDirectionHandler | src/commands/handlers/core.ts:344-399 | no parent, no direction word or no window fails with nothing changed; no neighbour, or a neighbour without a parent, succeeds with nothing changed; otherwise the two windows swap places and the reflow root is laid out again |
| MoveHandlers.MoveHandler | src/commands/handlers/core.ts:281-401 | no focused container fails with nothing changed; `container to workspace` has exactly the workspace branch's outcome, state and calls, anything else the directional one's |
| Navigation.CollectWindows | src/commands/handlers/core.ts:76-92 | the windows at or below a container in depth-first pre-order |
| Navigation.FindFirstWindow | src/commands/handlers/core.ts:18-31 | the container itself when a window, else the first window of the pre-order below it; none only when there is no window |
| Navigation.CollectedWindows | src/commands/handlers/core.ts:76-92 | the listed windows are windows of the subtree, each listed once |
| Navigation.NearestWorkspaceIs | src/commands/handlers/core.ts:33-42 | the nearest workspace lies at or above the container and below every other workspace above it; none only when no ancestor is a workspace |
| Navigation.FindWorkspaceForContainer | src/commands/handlers/core.ts:33-42 | the upward loop returns the nearest workspace |
| Navigation.SearchWorkspaces | src/commands/handlers/core.ts:44-56 | the nested loops return the first workspace, outputs in order then children in order, that satisfies the test |
| Navigation.SearchOutput | src/commands/handlers/core.ts:48-53 | the inner loop returns the first matching workspace child of one output |
| Navigation.DirectionOf | src/commands/handlers/core.ts:106-222 | only `left`, `right`, `up` and `down` name a direction |
| Navigation.OverlapSize | src/commands/handlers/core.ts:99-104 | the length two intervals share: never negative, and positive exactly when both are non-empty and they overlap |
| Navigation.BestIsBest | src/commands/handlers/core.ts:106-222 | the reduce keeps a candidate no other ranks before, ties going to the earliest |
| Navigation.NeighbourSpec | src/commands/handlers/core.ts:106-222 | a result qualifies and no qualifying candidate ranks before it; none only when no candidate qualifies |
| Navigation.DirectionalSpec | src/commands/handlers/core.ts:106-222 | findDirectionalWindow returns a window of the scope other than the current one, strictly on the requested side and overlapping on the cross axis, ranked first; none only when no window qualifies |
| WorkspaceHandlers.FindWorkspaceByName | src/commands/handlers/workspace.ts:12-36 | the first workspace under the outputs, in order, that matches by name or by number |
| WorkspaceHandlers.NamedByNumber | src/commands/handlers/workspace.ts:12-36 | a decimal name finds the workspace of that number unless an earlier one bears it as a name |
| WorkspaceHandlers.Hide | src/commands/handlers/workspace.ts:72-73 | a workspace neither visible nor focused |
| WorkspaceHandlers.Show | src/commands/handlers/workspace.ts:78-79 | a workspace both visible and focused |
| WorkspaceHandlers.HiddenTwice | src/commands/handlers/workspace.ts:65-76 | hiding one set after another is hiding both |
| WorkspaceHandlers.HiddenShaped | src/commands/handlers/workspace.ts:65-76 | hiding keeps the tree's invariant |
| WorkspaceHandlers.HideChildren | src/commands/handlers/workspace.ts:70-75 | the inner loop hides exactly the workspace children of one output |
| WorkspaceHandlers.HideWorkspaces | src/commands/handlers/workspace.ts:65-76 | the outer loop hides exactly the workspaces under the root's outputs |
| WorkspaceHandlers.SwitchedExclusive | src/commands/handlers/workspace.ts:65-80 | after a switch exactly the target is visible and focused among the listed workspaces, and nothing else changes |
| WorkspaceHandlers.WorkspaceHandler | src/commands/handlers/workspace.ts:52-84 | a missing name or an unknown workspace fails with nothing changed; otherwise the switch, and the target becomes the focused container |
| WorkspaceHandlers.SwitchTo | src/commands/handlers/workspace.ts:65-80 | the switch on the tree and the context's focus for a found workspace |
| WorkspaceHandlers.Marked | src/commands/handlers/workspace.ts:99 | the mark set gains the name and nothing else, without duplicates |
| WorkspaceHandlers.Unmarked | src/commands/handlers/workspace.ts:117 | the mark set loses exactly the name |
| WorkspaceHandlers.MarkIdempotent | src/commands/handlers/workspace.ts:99 | marking or unmarking twice is doing it once |
| WorkspaceHandlers.MarkUnmark | src/commands/handlers/workspace.ts:99-117 | unmarking undoes marking a new name, and marking undoes unmarking the last name added |
| WorkspaceHandlers.MarkHandler | src/commands/handlers/workspace.ts:86-102 | no focus or no name fails with nothing changed; otherwise the focused container's marks gain the name |
| WorkspaceHandlers.UnmarkHandler | src/commands/handlers/workspace.ts:104-120 | the same checks, then the focused container's marks lose the name |
| WorkspaceHandlers.FlagFor | src/commands/handlers/workspace.ts:130-138 | a missing word or `toggle` flips the flag, `enable` sets it, `disable` clears it, any other word keeps it |
| WorkspaceHandlers.FlagForRepeat | src/commands/handlers/workspace.ts:130-138 | toggling twice restores the flag; repeating any other word changes nothing more |
| WorkspaceHandlers.FocusedWindow | src/commands/handlers/workspace.ts:125-128 | the focused container exactly when it is a window |
| WorkspaceHandlers.Refiled | src/commands/handlers/workspace.ts:145-148 | the handle entry leaves the floating list and comes back at its end exactly when the window floats; other entries stay |
| WorkspaceHandlers.FloatingEffect | src/commands/handlers/workspace.ts:140-149 | the window floats exactly as asked, the nearest workspace refiles its handle, and nothing else changes |
| WorkspaceHandlers.SetFloatingFlag | src/commands/handlers/workspace.ts:140 | the window's floating flag is set |
| WorkspaceHandlers.RefileHandle | src/commands/handlers/workspace.ts:144-149 | the workspace's floating list is refiled |
| WorkspaceHandlers.FloatingHandler | src/commands/handlers/workspace.ts:122-153 | anything but a focused window fails with nothing changed; otherwise the new flag is set, setFloating is called and the handle refiled |
| WorkspaceHandlers.Float | src/commands/handlers/workspace.ts:140-149 | the flag, the adapter call and the refiling for one window |
| WorkspaceHandlers.FullscreenHandler | src/commands/handlers/workspace.ts:155-177 | anything but a focused window fails with nothing changed; otherwise the new fullscreen flag is set and setFullscreen called |
| ProcessHandlers.JoinBlank | src/commands/handlers/process.ts:12 | the joined words are blank exactly when every word is |
| ProcessHandlers.CommandStringEmpty | src/commands/handlers/process.ts:12-15 | a command is refused exactly when every argument is white space or there are none |
| ProcessHandlers.ExecHandler | src/commands/handlers/process.ts:9-20 | an empty command fails with nothing called; otherwise exec is called once with the joined, trimmed arguments |
| ProcessHandlers.ExecCaptureHandler | src/commands/handlers/process.ts:22-40 | an empty command or a missing execCapture fails with nothing called; otherwise execCapture is called and its pending output is the result's data |
| ProcessHandlers.KillHandler | src/commands/handlers/process.ts:42-53 | a focused window is closed; anything else fails with nothing called |
| ProcessHandlers.ReloadHandler | src/commands/handlers/process.ts:55-65 | the reload callback is called once, or the handler fails when there is none |
| ProcessHandlers.InspectHandler | src/commands/handlers/inspect.ts:3-9 | the inspector is toggled when the callback exists, and the handler succeeds either way |
| HandlerContext.Context.constructor | src/commands/context.ts:5-10 | a context over the given tree, root, focused container and adapter, with no calls logged |
| HandlerContext.Arg | src/commands/types.ts:12 | an argument exists exactly when its index is below the number of arguments |
| HandlerContext.Relayout | src/commands/handlers/core.ts:506-507 | reflow recomputes the rects below the container, then one moveResize per tiled window below it is logged with its new rect |
| HandlerContext.SetLayoutAndRelayout | src/commands/handlers/core.ts:504-507 | the layout is set, then reflow and layout from the same container |
| Handlers.InvokeFocus | src/commands/handlers/core.ts:247-279 | the focus handler's effect on the world the engine hands it |
| Handlers.InvokeMove | src/commands/handlers/core.ts:281-400 | the move handler's effect on the world |
| Handlers.InvokeResize | src/commands/handlers/core.ts:403-493 | the resize handler's effect on the world |
| Handlers.InvokeLayout | src/commands/handlers/core.ts:513-542 | the layout handler's effect on the world |
| Handlers.InvokeMode | src/commands/handlers/core.ts:225-245 | the mode handler's effect on the world |
| Handlers.InvokeSplit | src/commands/handlers/core.ts:495-511 | the split handler's effect on the world |
| Handlers.InvokeAlternatingMode | src/commands/handlers/core.ts:544-554 | the alternating-mode handler's effect on the world |
| Handlers.InvokeRetile | src/commands/handlers/core.ts:556-569 | the retile handler's effect on the world |
| Handlers.InvokeWorkspace | src/commands/handlers/workspace.ts:52-84 | the workspace handler's effect on the world |
| Handlers.InvokeMark | src/commands/handlers/workspace.ts:86-102 | the mark handler's effect on the world |
| Handlers.InvokeUnmark | src/commands/handlers/workspace.ts:104-120 | the unmark handler's effect on the world |
| Handlers.InvokeFloating | src/commands/handlers/workspace.ts:122-153 | the floating handler's effect on the world |
| Handlers.InvokeFullscreen | src/commands/handlers/workspace.ts:155-177 | the fullscreen handler's effect on the world |
| Handlers.InvokeExec | src/commands/handlers/process.ts:9-20 | the exec handler's effect on the world |
| Handlers.InvokeExecCapture | src/commands/handlers/process.ts:22-40 | the exec-capture handler's effect on the world |
| Handlers.InvokeKill | src/commands/handlers/process.ts:42-53 | the kill handler's effect on the world |
| Handlers.InvokeReload | src/commands/handlers/process.ts:55-65 | the reload handler's effect on the world |
| Handlers.InvokeInspect | src/commands/handlers/inspect.ts:3-9 | the inspect handler's effect on the world |
| Engine.Alias | src/commands/index.ts:24-27 | the alias has the given action word and the same execute function |
| Engine.UnknownExecuted | src/commands/engine.ts:12-18 | an action without a handler fails and changes nothing |
| Engine.Dispatch | src/commands/engine.ts:20 | the registered handler's execute runs on the command and the context |
| Engine.CommandEngine.constructor | src/commands/index.ts:29 | a new engine has no handlers |
| Engine.CommandEngine.Register | src/commands/engine.ts:7-9 | the action now maps to the handler, replacing any earlier one, and every other action keeps its handler |
| Engine.CommandEngine.Execute | src/commands/engine.ts:11-21 | an unknown action fails with nothing changed; a known one runs its handler on the context |
| Engine.CommandEngine.ExecuteBatch | src/commands/engine.ts:23-25 | every command runs, in order, on the one context, each from the world the earlier ones left, whatever they returned |
| Engine.CommandEngine.ExecuteNext | src/commands/engine.ts:24 | one turn of the map runs the next command on the world the earlier ones left |
| Engine.BatchNext | src/commands/engine.ts:24 | one more executed command extends a batch |
| Engine.RegisteredKeys | src/commands/engine.ts:7-9 | registering a list adds exactly its actions |
| Engine.RegisteredLookup | src/commands/engine.ts:7-9 | with distinct actions each maps to its own entry's handler |
| Engine.DefaultActionsDistinct | src/commands/index.ts:31-53 | no two default handlers share an action |
| Engine.DefaultAliases | src/commands/index.ts:37-41 | `split`, `splitv` and `splith` all run the split handler |
| Engine.DefaultTable | src/commands/index.ts:31-53 | the defaults give 21 actions, each mapped to its own handler |
| Engine.RegisterDefaultHandlers | src/commands/index.ts:31-53 | the 21 register calls in order, giving that table |
| Engine.FindFocusedContainer | src/commands/index.ts:55-68 | the first focused container of the pre-order from the given one, or none when nothing there is focused |
| Service.ServedShape | src/commands/service.ts:39-41 | one result per command segment; none, with the world unchanged, exactly when the string is only white space and `;` |
| Service.CommandService.constructor | src/commands/service.ts:10-23 | the service holds the given dependencies, with no calls made |
| Service.CommandService.RunBatch | src/commands/service.ts:33-53 | the parsed commands run as one batch from the given focused container, their calls appended to the adapter's |
| Service.CommandService.RunOn | src/commands/service.ts:41-52 | the engine's batch on a context built from the dependencies |
| Service.CommandService.ContextWorld | src/commands/service.ts:41-52 | a context built from the dependencies sees the service's tree, settings and callbacks |
| Service.CommandService.AfterExecute | src/commands/service.ts:63 | the callback runs once when it is given |
| Service.CommandService.RunBatchThenNotify | src/commands/service.ts:62-63 | the batch, then the callback |
| Service.CommandService.FocusedOf | src/commands/service.ts:31 | the focused container findFocusedContainer gives, a container of the tree |
| Service.CommandService.Execute | src/commands/service.ts:56-65 | without a root the single failure with nothing run and no callback; otherwise the batch from the focused container, then the callback once |
| Service.CommandService.ExecuteForTarget | src/commands/service.ts:66-70 | the batch with the target as focused container (without a root, the single failure), and the callback once either way |
| Tessera.TreeReplyOf | src/service/tessera.ts:28 | null exactly without a root; otherwise the root's JSON, which exists exactly when every container below renders |
| Tessera.Ping | src/service/tessera.ts:29 | never null or undefined: the host's answer when it gives one, else `{ ok: true }` |
| Tessera.ConfigCall | src/service/tessera.ts:32-37 | a truthy parameter is applied to the live settings, and the answer is a copy of them as they then are |
| Tessera.ConfiguredIdempotent | src/service/tessera.ts:32-37 | sending the same parameters twice is sending them once |
| Tessera.ConfiguredNeedsObject | src/service/tessera.ts:32-37 | only an object changes the settings, and only the two minimum sizes |

## Left out

- GNOME Shell, Mutter and GLib: every compositor call goes through the adapter and is modelled as a `Call` in a log. The callbacks `reloadConfig`, `switchMode`, `toggleInspect`, `dumpDebug` and `dumpTree` are modelled the same way. Their effects outside the tree are not modelled.
- Logging: the logger callback and every log message are not modelled.
- The dump handler: `src/commands/index.ts` registers it, but `src/commands/handlers/process.ts` does not define it. It is registered under `dump`, and its result is a parameter of the engine (`dump`).
- `normalizeTree` (called at `src/commands/handlers/core.ts:315` and `383`) is not defined in `src/tree/reflow.ts`. The model treats it as leaving the tree unchanged.
- `clearModes` (called at `src/bindings/reload.ts:12`) is not defined in `src/bindings/manager.ts`. `BindingManagers.BindingManager.ClearModes` empties the mode table and the active mode.
- Numbers: the source's doubles are exact reals (proportions, shares) or integers (pixels). NaN is `None`. Infinity is not a value of the model; the one place the source produces it is under "## Findings".
- `Text.ParseFloat` reads decimal literals only. `parseFloat("Infinity")` is not modelled.
- Tree.Tree.NextId: `root.nextId()` (called at `src/tree/tree-builder.ts:28`) is defined neither on the root container nor on `Container`. The model assumes a counter that the builder sets to the root's id 1 and that goes up by one per call, so the first `nextId()` returns 2.
- Text.Number reads decimal text only. JavaScript's `Number` also accepts `0x`, `0b` and `0o` literals and `Infinity`; those forms are not modelled. `Resolve.ExtractPidSpec` (`src/ipc/resolve.ts:9`) reads a pid through it.
- `Text.ToLowerAscii` lower-cases ASCII letters only. JavaScript's full Unicode case mapping is not modelled.
- Service.Served, Service.ServedShape, Service.CommandService.RunBatch, and through it Service.CommandService.Execute and Service.CommandService.ExecuteForTarget, parse with the corrected separator `WhitespaceSeparator` (white space only), not the separator written at `src/commands/parser.ts:18`. With the separator as written every unquoted command parses to an empty action and fails with "Unknown command: "; see "## Findings".
- Service.CommandService.RunBatch requires a root: without one, `Execute` and `ExecuteForTarget` answer "Root container is not ready" themselves, as `executeBatch` would.
- Service.CommandService.ExecuteForTarget requires the target to be a container of the tree. A container from another tree is not modelled.
- Service.CommandService.FocusedOf is findFocusedContainer. A custom `deps.getFocused` (`src/commands/service.ts:31`) is not modelled.
- The command service's `getConfig()` is the one shared `Config.Config` object, and `getRoot()` is the service's `root` field.
- Window minimum sizes (`get_min_size`) are a map from window handle to size, given to the service.
- Tessera: `version` and `debug` return whatever the host gives, so they are not modelled. `execute` is `Service.CommandService.Execute`.
- Loading the settings file (GLib file I/O) is not modelled.
- Encoding a response with `JSON.stringify` is not modelled. `Codec` models request decoding only.
- Tree.Tree.AddChild requires that the parent is not a window and is not inside the child's subtree. The source does not check either, so a call that breaks them (a child under a window, a cycle) is not modelled.
- Tree.Tree.ToJson states the root's id and kind and the number of children, with ids mirrored in pre-order by `Tree.Tree.ToJsonMirrors`. The other JSON fields are built but not stated.
- Tree.Tree.ToJson fails (None) where the source throws: a workspace whose floating list holds a raw window handle, as stored by the floating handler (`src/commands/handlers/workspace.ts:145-147`), cannot render it. `Tree.Tree.ToJsonFails` states when this happens. No corrected rendering is modelled, because the source gives no intended JSON for a handle.
- Splice.ReplaceChildAt clears the parent of the container that loses its slot. The source leaves a stale parent pointer there, which the `addChild` that follows always overwrites.
- MoveHandlers.MoveDirectionHandler has no "Focused container not in parent" branch (`src/commands/handlers/core.ts:374-376`). A container with a parent is always in its parent's child list, so the branch cannot be reached.
- TreeBuilder.Build takes no options and builds one workspace per output, as `src/tree/tree-builder.ts:23-46` does. The unit test at `tests/unit/tree-builder.test.ts:9-24` passes `workspaceCount: 3` and `activeWorkspaceIndex: 1` and expects three workspaces per output; the code ignores that argument, and the model follows the code.
- Concurrency: the IPC server, its socket and its event loop are not modelled. Signal connections are modelled only by what they register.

## Findings

| source | as written | input that shows it | evidently intended | confidence | as-written member | corrected member |
|---|---|---|---|---|---|---|
| src/commands/parser.ts:18 | the separator regular expression is an empty alternative or `\s`; the empty alternative matches at every character, and every character outside quotes ends a token | `focus left` parses to one command with an empty action and no arguments | split on white space only (`/\s/`) | not executed | Parser.SourceParsesNothing | Parser.IntendedParsesFocusLeft |
| src/window-insertion.ts:18 | `getLayoutStrategy(split)` looks up a strategy by the split object instead of by its layout, so the fallback strategy, which has no onWindowAdded, is always used | an Alternating split in focused mode, with the focused window inside it: the new window is appended instead of wrapped | `getLayoutStrategy(split.layout)` | not executed | Insertion.AsWrittenMissesWrap | Insertion.WrapPlanIff |
| src/commands/handlers/core.ts:484-486 | `nextShare * siblingsProportion / (1 - nextShare)` divides by zero when the clamped size is the whole parent, and Infinity is stored as the proportion | two containers in a parent 300 pixels wide, minimum tile width 300, `resize grow width 10 px` on the first | keep the proportion finite: at a share of exactly 1 the current proportion is kept | not executed | ResizeHandler.ResizeToFullShare | ResizeHandler.NewProportionMeetsShare |
