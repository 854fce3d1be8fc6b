/** Key bindings (src/bindings/mode.ts) and the built-in binding modes
    (src/bindings/defaults.ts). */
module Bindings {
  import opened Wrappers
  import opened Text

  /** Binding: the accelerators that trigger it and the command they run. */
  datatype Binding = Binding(keys: seq<string>, command: string, release: Option<bool>)

  datatype BindingMode = BindingMode(name: string, bindings: seq<Binding>)

  function Bind(key: string, command: string): Binding {
    Binding([key], command, None)
  }

  /** The two bindings of workspace `i`: switch to it, and move the focused container there. */
  function WorkspacePair(i: nat): seq<Binding> {
    var name := NatToString(i);
    [Bind("<Super>" + name, "workspace " + name), Bind("<Super><Shift>" + name, "move container to workspace " + name)]
  }

  /** The pairs of workspaces `1..n`, in order. */
  function PairsUpTo(n: nat): (bs: seq<Binding>)
    ensures |bs| == 2 * n
  {
    if n == 0 then [] else PairsUpTo(n - 1) + WorkspacePair(n)
  }

  /** What workspaceBindings returns: the pairs of workspaces 1 to 9, then Super+0 for
      workspace 10 and its move. */
  function WorkspaceBindingList(): (bs: seq<Binding>) {
    PairsUpTo(9) + [Bind("<Super>0", "workspace 10"), Bind("<Super><Shift>0", "move container to workspace 10")]
  }

  /** workspaceBindings (src/bindings/defaults.ts:3-19). */
  method WorkspaceBindings() returns (bindings: seq<Binding>)
    ensures bindings == WorkspaceBindingList()
  {
    bindings := [];
    var index := 1;
    while index <= 9
      invariant 1 <= index <= 10
      invariant bindings == PairsUpTo(index - 1)
    {
      var name := NatToString(index);
      bindings := bindings + [Bind("<Super>" + name, "workspace " + name)];
      bindings := bindings + [Bind("<Super><Shift>" + name, "move container to workspace " + name)];
      index := index + 1;
    }
    bindings := bindings + [Bind("<Super>0", "workspace 10")];
    bindings := bindings + [Bind("<Super><Shift>0", "move container to workspace 10")];
  }

  /** Entries `2(i-1)` and `2i-1` of the first `n` pairs are workspace `i`'s. */
  lemma {:induction false} PairsUpToAt(n: nat, i: nat)
    requires 1 <= i <= n
    ensures PairsUpTo(n)[2 * (i - 1)] == Bind("<Super>" + NatToString(i), "workspace " + NatToString(i))
    ensures PairsUpTo(n)[2 * i - 1] ==
              Bind("<Super><Shift>" + NatToString(i), "move container to workspace " + NatToString(i))
  {
    var p, q := PairsUpTo(n - 1), WorkspacePair(n);
    assert PairsUpTo(n) == p + q;
    if i < n {
      PairsUpToAt(n - 1, i);
      assert PairsUpTo(n)[2 * (i - 1)] == p[2 * (i - 1)] && PairsUpTo(n)[2 * i - 1] == p[2 * i - 1];
    } else {
      assert PairsUpTo(n)[2 * (i - 1)] == q[0] && PairsUpTo(n)[2 * i - 1] == q[1];
    }
  }

  /** Every binding of the first `n` pairs has exactly one key. */
  lemma {:induction false} PairsOneKey(n: nat)
    ensures forall k :: 0 <= k < |PairsUpTo(n)| ==> |PairsUpTo(n)[k].keys| == 1
  {
    if n > 0 {
      PairsOneKey(n - 1);
    }
  }

  /** 20 bindings: for `i` from 1 to 9, "workspace i" then "move container to workspace i",
      then the same two for workspace 10 on Super+0; each with one key. */
  lemma WorkspaceBindingsShape()
    ensures var bs := WorkspaceBindingList();
            && |bs| == 20
            && (forall i :: 1 <= i <= 9 ==>
                  && bs[2 * (i - 1)] == Bind("<Super>" + NatToString(i), "workspace " + NatToString(i))
                  && bs[2 * i - 1] == Bind("<Super><Shift>" + NatToString(i), "move container to workspace " + NatToString(i)))
            && bs[18] == Bind("<Super>0", "workspace 10")
            && bs[19] == Bind("<Super><Shift>0", "move container to workspace 10")
            && forall k :: 0 <= k < |bs| ==> |bs[k].keys| == 1
  {
    var bs := WorkspaceBindingList();
    forall i | 1 <= i <= 9
      ensures bs[2 * (i - 1)] == Bind("<Super>" + NatToString(i), "workspace " + NatToString(i))
      ensures bs[2 * i - 1] == Bind("<Super><Shift>" + NatToString(i), "move container to workspace " + NatToString(i))
    {
      PairsUpToAt(9, i);
    }
    PairsOneKey(9);
  }

  /** The 18 fixed bindings of the default mode (src/bindings/defaults.ts:24-42). */
  function DefaultFixed(): (bs: seq<Binding>) {
    [ Bind("<Super>h", "focus left"), Bind("<Super>j", "focus down"),
      Bind("<Super>k", "focus up"), Bind("<Super>l", "focus right"),
      Bind("<Super><Shift>h", "move left"), Bind("<Super><Shift>j", "move down"),
      Bind("<Super><Shift>k", "move up"), Bind("<Super><Shift>l", "move right"),
      Bind("<Super>b", "split horizontal"), Bind("<Super>v", "split vertical"),
      Bind("<Super>e", "layout toggle split"), Bind("<Super>f", "fullscreen toggle"),
      Bind("<Super><Shift>q", "kill"), Bind("<Super><Shift>r", "reload"),
      Bind("<Super><Shift>t", "retile"), Bind("<Super><Shift>d", "dump debug"),
      Bind("<Super><Shift>i", "dump tree"), Bind("<Super>r", "mode \"resize\"") ]
  }

  /** The resize mode's bindings (src/bindings/defaults.ts:46-54). */
  function ResizeBindings(): (bs: seq<Binding>) {
    [ Bind("h", "resize shrink width 10 px"), Bind("l", "resize grow width 10 px"),
      Bind("k", "resize shrink height 10 px"), Bind("j", "resize grow height 10 px"),
      Bind("Escape", "mode \"default\"") ]
  }

  /** buildDefaultBindingModes (src/bindings/defaults.ts:21-56). */
  function BuildDefaultBindingModes(): (modes: seq<BindingMode>) {
    [BindingMode("default", DefaultFixed() + WorkspaceBindingList()), BindingMode("resize", ResizeBindings())]
  }

  /** Two modes, "default" then "resize"; the default mode is its 18 fixed bindings then the
      20 workspace bindings; every binding has one key; and Escape in resize mode goes back
      to the default mode. */
  lemma DefaultModesShape()
    ensures var modes := BuildDefaultBindingModes();
            && |modes| == 2 && modes[0].name == "default" && modes[1].name == "resize"
            && |modes[0].bindings| == 38
            && modes[0].bindings[..18] == DefaultFixed() && modes[0].bindings[18..] == WorkspaceBindingList()
            && (forall m, k :: 0 <= m < 2 && 0 <= k < |modes[m].bindings| ==> |modes[m].bindings[k].keys| == 1)
            && Bind("Escape", "mode \"default\"") in modes[1].bindings
  {
    var modes := BuildDefaultBindingModes();
    WorkspaceBindingsShape();
    var d := modes[0].bindings;
    assert d[..18] == DefaultFixed();
    assert d[18..] == WorkspaceBindingList();
    forall k | 0 <= k < |d| ensures |d[k].keys| == 1 {
      if k >= 18 {
        assert d[k] == WorkspaceBindingList()[k - 18];
      }
    }
    assert ResizeBindings()[4] == Bind("Escape", "mode \"default\"");
  }
}
