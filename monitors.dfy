/** The monitor list the tree is built from (src/monitors.ts): one entry per monitor with its
    work area, and the primary monitor's area moved below the top panel when the compositor
    reports it from y = 0. */
module Monitors {
  import opened Wrappers
  import opened Containers
  import opened Strategy

  datatype MonitorInfo = MonitorInfo(index: nat, workArea: Rect)

  /** The layout manager: how many monitors it lists, its work-area getter and the
      optional primary index. */
  datatype LayoutManager = LayoutManager(monitors: nat, workAreaFor: nat -> Rect, primaryIndex: Option<int>)

  /** The display: its monitor count and its optional work-area getter. */
  datatype Display = Display(monitorCount: nat, workAreaFor: Option<nat -> Rect>)

  /** Indices `0..count-1` with the work area `area` reports for each. */
  function Infos(count: nat, area: nat -> Rect): (infos: seq<MonitorInfo>)
    ensures |infos| == count
    ensures forall i :: 0 <= i < count ==> infos[i] == MonitorInfo(i, area(i))
  {
    seq(count, i requires 0 <= i < count => MonitorInfo(i, area(i)))
  }

  /** The list before the panel correction (src/monitors.ts:33-50): the layout manager's
      monitors when it lists any, else the display's count with the display's getter, or
      the layout manager's getter when the display has none. */
  function RawInfos(lm: LayoutManager, display: Display): (infos: seq<MonitorInfo>)
    ensures lm.monitors > 0 ==> infos == Infos(lm.monitors, lm.workAreaFor)
    ensures lm.monitors == 0 ==>
              infos == Infos(display.monitorCount, display.workAreaFor.GetOr(lm.workAreaFor))
  {
    if lm.monitors > 0 then Infos(lm.monitors, lm.workAreaFor)
    else
      var area := if display.workAreaFor.Some? then display.workAreaFor.value else lm.workAreaFor;
      Infos(display.monitorCount, area)
  }

  /** One entry after the panel correction (src/monitors.ts:59-69). */
  function Corrected(info: MonitorInfo, primary: int, panelHeight: int): (r: MonitorInfo)
    ensures info.index != primary || info.workArea.y != 0 ==> r == info
    ensures info.index == primary && info.workArea.y == 0 ==>
              r == MonitorInfo(info.index, Rect(info.workArea.x, panelHeight, info.workArea.width,
                                                info.workArea.height - panelHeight))
  {
    if info.index != primary || info.workArea.y != 0 then info
    else info.(workArea := Rect(info.workArea.x, panelHeight, info.workArea.width, info.workArea.height - panelHeight))
  }

  /** buildMonitorInfos (src/monitors.ts:28-71); `topPanel` is the panel's height, if there
      is a panel. */
  function BuildMonitorInfos(lm: LayoutManager, display: Display, topPanel: Option<real>): (infos: seq<MonitorInfo>)
    ensures |infos| == |RawInfos(lm, display)|
  {
    var raw := RawInfos(lm, display);
    var panelHeight := if topPanel.Some? then Round(topPanel.value) else 0;
    if panelHeight <= 0 then raw
    else
      var primary := lm.primaryIndex.GetOr(0);
      seq(|raw|, i requires 0 <= i < |raw| => Corrected(raw[i], primary, panelHeight))
  }

  /** The entries are the monitors `0..n-1` in order. Without a panel of positive rounded
      height nothing is corrected; otherwise only the primary monitor (0 by default) whose
      area starts at y = 0 moves: its top becomes the panel height and its height shrinks by
      as much, while x and width stay. */
  lemma BuildMonitorInfosSpec(lm: LayoutManager, display: Display, topPanel: Option<real>)
    ensures var infos := BuildMonitorInfos(lm, display, topPanel);
            var raw := RawInfos(lm, display);
            var h := if topPanel.Some? then Round(topPanel.value) else 0;
            var primary := lm.primaryIndex.GetOr(0);
            && |infos| == (if lm.monitors > 0 then lm.monitors else display.monitorCount)
            && (forall i :: 0 <= i < |infos| ==> infos[i].index == i)
            && (h <= 0 ==> infos == raw)
            && (forall i :: 0 <= i < |infos| && (i != primary || raw[i].workArea.y != 0) ==> infos[i] == raw[i])
            && (forall i :: 0 <= i < |infos| && h > 0 && i == primary && raw[i].workArea.y == 0 ==>
                  && infos[i].workArea.y == h
                  && infos[i].workArea.height == raw[i].workArea.height - h
                  && infos[i].workArea.x == raw[i].workArea.x
                  && infos[i].workArea.width == raw[i].workArea.width)
  {
  }

  /** An illustration on one input of the general lemmas above: a panel of height 32.4
      moves a primary area at (0, 0) of 1920 x 1080 to y = 32 with height 1048; the other
      monitors keep theirs. */
  lemma PanelExample(area: nat -> Rect)
    requires area(0) == Rect(0, 0, 1920, 1080) && area(1) == Rect(1920, 0, 1280, 1024)
    ensures BuildMonitorInfos(LayoutManager(2, area, None), Display(0, None), Some(32.4)) ==
              [MonitorInfo(0, Rect(0, 32, 1920, 1048)), MonitorInfo(1, Rect(1920, 0, 1280, 1024))]
  {
    assert Round(32.4) == 32;
  }
}
