/** The containers of the tree (the files under src/tree): their kinds, layouts, rects and
    kind-specific fields, and the JSON form they print. */
module Containers {
  import opened Wrappers

  /** Identity of a container object in the arena. */
  type Ref = nat
  /** Opaque handle of the compositor window a Window container wraps. */
  type Handle = nat

  datatype Kind = Root | Output | Workspace | Split | Window

  /** `Layout` of src/tree/types.ts plus `Alternating`, which the layout code uses. */
  datatype Layout = SplitH | SplitV | Stacking | Tabbed | Alternating

  datatype Rect = Rect(x: int, y: int, width: int, height: int)

  const ZeroRect := Rect(0, 0, 0, 0)

  /** An entry of a workspace's floating list. The source stores container objects
      (move to workspace) and raw window handles (the floating handler) in the same list. */
  datatype FloatEntry = ContainerEntry(ref: Ref) | HandleEntry(handle: Handle)

  /** The kind-specific fields of each container class. */
  datatype Extra =
    | RootData
    | OutputData(monitorIndex: int, workArea: Rect)
    | WorkspaceData(name: string, number: int, visible: bool, urgent: bool,
                    lastFocusedWindowId: Option<int>, floatingWindows: seq<FloatEntry>)
    | SplitData
    | WindowData(handle: Handle, windowId: int, appId: string, title: string,
                 floating: bool, fullscreen: bool)

  /** The fields of `Container` other than the parent and child links, which the arena
      keeps in maps of their own. `marks` is a JavaScript Set: insertion-ordered, no
      duplicates. */
  datatype Node = Node(id: int, layout: Layout, rect: Rect, focused: bool,
                       proportion: real, marks: seq<string>, extra: Extra)
  {
    function Kind(): Kind {
      match extra
      case RootData => Root
      case OutputData(_, _) => Output
      case WorkspaceData(_, _, _, _, _, _) => Workspace
      case SplitData => Split
      case WindowData(_, _, _, _, _, _) => Window
    }

    predicate IsWindow() { extra.WindowData? }

    /** A child that takes part in tiling: anything but a floating window
        (layoutChildrenFor, src/layout/strategy.ts:51-58). */
    predicate IsTiled() { !(extra.WindowData? && extra.floating) }
  }

  /** The fields the base constructor fixes (src/tree/container.ts:18-28): layout SplitH,
      the zero rect, unfocused, proportion 1 and no marks. */
  predicate HasDefaults(n: Node) {
    n.layout == SplitH && n.rect == ZeroRect && !n.focused && n.proportion == 1.0 && n.marks == []
  }

  function BaseNode(id: int, extra: Extra): (n: Node)
    ensures n.id == id && n.extra == extra && HasDefaults(n)
  {
    Node(id, SplitH, ZeroRect, false, 1.0, [], extra)
  }

  /** `new RootContainer(id)` (src/tree/root-container.ts:5-7). */
  function RootNode(id: int): (n: Node)
    ensures n.id == id && n.Kind() == Root && HasDefaults(n)
  {
    BaseNode(id, RootData)
  }

  /** `new OutputContainer(id, monitorIndex, workArea)` (src/tree/output-container.ts:13-17):
      the work area is stored, while `rect` keeps its zero default. */
  function OutputNode(id: int, monitorIndex: int, workArea: Rect): (n: Node)
    ensures n.id == id && n.Kind() == Output && HasDefaults(n)
    ensures n.extra.monitorIndex == monitorIndex && n.extra.workArea == workArea
  {
    BaseNode(id, OutputData(monitorIndex, workArea))
  }

  /** `new WorkspaceContainer(id, name, number, visible)`
      (src/tree/workspace-container.ts:20-27): not urgent, empty floating list. */
  function WorkspaceNode(id: int, name: string, number: int, visible: bool): (n: Node)
    ensures n.id == id && n.Kind() == Workspace && HasDefaults(n)
    ensures n.extra.name == name && n.extra.number == number && n.extra.visible == visible
    ensures !n.extra.urgent && n.extra.floatingWindows == [] && n.extra.lastFocusedWindowId.None?
  {
    BaseNode(id, WorkspaceData(name, number, visible, false, None, []))
  }

  /** `new SplitContainer(id, layout = SplitH)` (src/tree/split-container.ts:4-7). */
  function SplitNode(id: int, layout: Layout := SplitH): (n: Node)
    ensures n.id == id && n.Kind() == Split && n.layout == layout
    ensures n.rect == ZeroRect && !n.focused && n.proportion == 1.0 && n.marks == []
  {
    BaseNode(id, SplitData).(layout := layout)
  }

  /** `new WindowContainer(id, window, windowId, appId, title)`
      (src/tree/window-container.ts:27-33): neither floating nor fullscreen, and the
      window id is kept apart from the container id. */
  function WindowNode(id: int, handle: Handle, windowId: int, appId: string, title: string): (n: Node)
    ensures n.id == id && n.Kind() == Window && HasDefaults(n)
    ensures n.extra.handle == handle && n.extra.windowId == windowId
    ensures n.extra.appId == appId && n.extra.title == title
    ensures !n.extra.floating && !n.extra.fullscreen
  {
    BaseNode(id, WindowData(handle, windowId, appId, title, false, false))
  }


  function Toggled(l: Layout): (r: Layout)
    ensures r == SplitV <==> l == SplitH
    ensures r != SplitV ==> r == SplitH
  {
    if l == SplitH then SplitV else SplitH
  }

  /** Toggling twice restores SplitH and SplitV. */
  lemma ToggleTwice(l: Layout)
    requires l == SplitH || l == SplitV
    ensures Toggled(Toggled(l)) == l
  {
  }

  function HasMark(mark: string): Node -> bool {
    (n: Node) => mark in n.marks
  }

  predicate IsFocusedNode(n: Node) {
    n.focused
  }

  predicate IsWindowNode(n: Node) {
    n.IsWindow()
  }

  predicate IsOutputFor(n: Node, monitorIndex: int) {
    n.extra.OutputData? && n.extra.monitorIndex == monitorIndex
  }

  /** The JSON value toJSON builds for a container. */
  datatype Json =
    Container(id: int, kind: Kind, layout: Layout, rect: Rect, focused: bool,
              marks: seq<string>, proportion: real, extra: JsonExtra, children: seq<Json>)

  /** The subclass fields toJSON adds, with a workspace's floating list already rendered. */
  function ExtraJson(x: Extra, floating: seq<Json>): JsonExtra {
    match x
    case RootData => NoExtra
    case SplitData => NoExtra
    case OutputData(mi, wa) => OutputJson(mi, wa)
    case WorkspaceData(name, number, visible, urgent, _, _) => WorkspaceJson(name, number, visible, urgent, floating)
    case WindowData(_, wid, app, title, fl, fs) => WindowJson(wid, app, title, fl, fs)
  }

  datatype JsonExtra =
    | NoExtra
    | OutputJson(monitorIndex: int, workArea: Rect)
    | WorkspaceJson(name: string, number: int, visible: bool, urgent: bool, floatingWindows: seq<Json>)
    | WindowJson(windowId: int, appId: string, title: string, floating: bool, fullscreen: bool)
}
