/** The binding-mode state machine (src/bindings/manager.ts) and the reload sequence
    (src/bindings/reload.ts). The display is abstracted: `grab_accelerator` is the function
    `grab` from key to action id (0 when the grab fails), `connect` returns `signal`, and the
    calls made on the display, together with the queued conflict notice, are recorded in
    order in `log`. */
module BindingManagers {
  import opened Wrappers
  import opened Seqs
  import opened Text
  import opened Bindings

  datatype DisplayCall =
    | Grab(key: string)
    /** `ungrab_accelerator` for each action of the set; the order of the calls is not
        recorded. */
    | UngrabAll(actions: set<int>)
    | Connect
    | Disconnect(id: int)
    | Notify(message: string)

  /** BindingEntry: the binding an action id runs and the key that was grabbed. */
  datatype Entry = Entry(binding: Binding, key: string)

  /** One key of one binding, in the order registerMode visits them. */
  datatype Slot = Slot(binding: Binding, key: string)

  function KeySlots(b: Binding): (ss: seq<Slot>)
    ensures |ss| == |b.keys| && forall k :: 0 <= k < |ss| ==> ss[k] == Slot(b, b.keys[k])
  {
    seq(|b.keys|, k requires 0 <= k < |b.keys| => Slot(b, b.keys[k]))
  }

  /** Every key of every binding, bindings in order, then keys in order. */
  function Slots(bs: seq<Binding>): seq<Slot> {
    if bs == [] then [] else Slots(bs[..|bs| - 1]) + KeySlots(bs[|bs| - 1])
  }

  /** The entries after grabbing the keys of `ss` in order into `am`; a later grab of the
      same action id overwrites. */
  function Registered(am: map<int, Entry>, ss: seq<Slot>, grab: string -> int): map<int, Entry> {
    if ss == [] then am
    else
      var m := Registered(am, ss[..|ss| - 1], grab);
      var s := ss[|ss| - 1];
      if grab(s.key) == 0 then m else m[grab(s.key) := Entry(s.binding, s.key)]
  }

  /** The keys whose grab failed, in order. */
  function Failures(ss: seq<Slot>, grab: string -> int): (f: seq<string>)
    ensures |f| <= |ss|
  {
    if ss == [] then []
    else Failures(ss[..|ss| - 1], grab) + (if grab(ss[|ss| - 1].key) == 0 then [ss[|ss| - 1].key] else [])
  }

  lemma SlotsNext(bs: seq<Binding>, i: nat)
    requires i < |bs|
    ensures Slots(bs[..i + 1]) == Slots(bs[..i]) + KeySlots(bs[i])
  {
    assert bs[..i + 1][..i] == bs[..i];
  }

  /** One more slot: its grab is appended, and it is recorded or counted as a failure. */
  lemma SlotStep(am: map<int, Entry>, ss: seq<Slot>, s: Slot, grab: string -> int)
    ensures var next := ss + [s];
            && Registered(am, next, grab) ==
                 (if grab(s.key) == 0 then Registered(am, ss, grab) else Registered(am, ss, grab)[grab(s.key) := Entry(s.binding, s.key)])
            && Failures(next, grab) == Failures(ss, grab) + (if grab(s.key) == 0 then [s.key] else [])
            && GrabCalls(next) == GrabCalls(ss) + [Grab(s.key)]
  {
    assert (ss + [s])[..|ss|] == ss;
  }

  function GrabCalls(ss: seq<Slot>): (cs: seq<DisplayCall>)
    ensures |cs| == |ss| && forall k :: 0 <= k < |ss| ==> cs[k] == Grab(ss[k].key)
  {
    seq(|ss|, k requires 0 <= k < |ss| => Grab(ss[k].key))
  }

  /** The conflict notice (src/bindings/manager.ts:157-161): up to six keys, then how many
      more there are. */
  function Summary(failures: seq<string>): string {
    if |failures| > 6 then Join(failures[..6], ", ") + " (+" + NatToString(|failures| - 6) + " more)"
    else Join(failures, ", ")
  }

  /** The display calls of registerMode over `ss`: one grab per key, then the notice when a
      grab failed. */
  function RegisterCalls(ss: seq<Slot>, grab: string -> int): seq<DisplayCall> {
    var f := Failures(ss, grab);
    GrabCalls(ss) + (if f == [] then [] else [Notify("Keybinding conflicts: " + Summary(f))])
  }

  /** A key maps to an entry exactly when its grab succeeded, and each successful grab's
      action id is then taken by some slot of the list; with ids that differ per key the
      entry of an id is the last slot holding that key. */
  lemma {:induction false} RegisteredEntries(ss: seq<Slot>, grab: string -> int)
    ensures forall a :: a in Registered(map[], ss, grab) ==>
              a != 0 && exists k :: 0 <= k < |ss| && grab(ss[k].key) == a && Registered(map[], ss, grab)[a] == Entry(ss[k].binding, ss[k].key)
    ensures forall k :: 0 <= k < |ss| && grab(ss[k].key) != 0 ==> grab(ss[k].key) in Registered(map[], ss, grab)
  {
    if ss != [] {
      var d := ss[..|ss| - 1];
      RegisteredEntries(d, grab);
      assert forall k :: 0 <= k < |d| ==> ss[k] == d[k];
    }
  }

  /** The failures are exactly the keys whose grab returned 0, and their number plus the
      number of successful grabs is the number of keys. */
  lemma {:induction false} FailuresSpec(ss: seq<Slot>, grab: string -> int)
    ensures forall x :: x in Failures(ss, grab) <==> exists k :: 0 <= k < |ss| && ss[k].key == x && grab(x) == 0
  {
    if ss != [] {
      var d := ss[..|ss| - 1];
      FailuresSpec(d, grab);
      assert forall k :: 0 <= k < |d| ==> ss[k] == d[k];
    }
  }

  /** The notice names all failures when there are at most six, else the first six and the
      count of the rest. */
  lemma SummaryShape(failures: seq<string>)
    ensures |failures| <= 6 ==> Summary(failures) == Join(failures, ", ")
    ensures |failures| > 6 ==>
              var head := Join(failures[..6], ", ");
              |Summary(failures)| > |head| && Summary(failures)[..|head|] == head
              && Summary(failures)[|head|..] == " (+" + NatToString(|failures| - 6) + " more)"
  {
  }

  class BindingManager {
    var modes: map<string, BindingMode>
    var activeMode: Option<string>
    var enabled: bool
    var activeBindings: map<int, Entry>
    var signalId: Option<int>
    var log: seq<DisplayCall>
    const grab: string -> int
    const signal: int

    /** The display is connected exactly while enabled, and nothing is grabbed while
        disabled. */
    ghost predicate Valid()
      reads this
    {
      (enabled <==> signalId.Some?) && (!enabled ==> activeBindings == map[])
    }

    /** constructor (src/bindings/manager.ts:41-53). */
    constructor (grab: string -> int, signal: int)
      ensures Valid()
      ensures modes == map[] && activeMode.None? && !enabled && activeBindings == map[] && signalId.None? && log == []
      ensures this.grab == grab && this.signal == signal
    {
      this.grab, this.signal := grab, signal;
      modes, activeMode, enabled, activeBindings, signalId, log := map[], None, false, map[], None, [];
    }

    /** JavaScript truthiness of the active mode name. */
    predicate HasActive()
      reads this`activeMode
    {
      activeMode.Some? && activeMode.value != ""
    }

    /** addMode (src/bindings/manager.ts:55-60): stores the mode under its name, replacing any
        earlier one, and makes it active when no mode is. */
    method AddMode(mode: BindingMode)
      requires Valid()
      modifies this`modes, this`activeMode
      ensures Valid()
      ensures modes == old(modes)[mode.name := mode]
      ensures activeMode == if old(HasActive()) then old(activeMode) else Some(mode.name)
    {
      modes := modes[mode.name := mode];
      if !HasActive() {
        activeMode := Some(mode.name);
      }
    }

    /** clearModes, which src/bindings/manager.ts does not define: the mode table is emptied
        and no mode is active. */
    method ClearModes()
      requires Valid()
      modifies this`modes, this`activeMode
      ensures Valid()
      ensures modes == map[] && activeMode.None?
    {
      modes, activeMode := map[], None;
    }

    /** The keys of the active mode, when a mode is active and known. */
    function ActiveSlots(): seq<Slot>
      reads this`activeMode, this`modes
    {
      if HasActive() && activeMode.value in modes then Slots(modes[activeMode.value].bindings) else []
    }

    /** enable (src/bindings/manager.ts:66-76): a no-op when enabled; otherwise connects the
        activation signal and grabs the keys of the active mode. */
    method Enable()
      requires Valid()
      modifies this`enabled, this`signalId, this`activeBindings, this`log
      ensures Valid() && enabled && modes == old(modes) && activeMode == old(activeMode)
      ensures old(enabled) ==> unchanged(this)
      ensures !old(enabled) ==>
                var ss := ActiveSlots();
                && signalId == Some(signal)
                && activeBindings == Registered(map[], ss, grab)
                && log == old(log) + [Connect] + RegisterCalls(ss, grab)
    {
      if enabled {
        return;
      }
      enabled := true;
      ConnectSignals();
      RegisterActive();
    }

    /** The grabs of enable (src/bindings/manager.ts:73-75): the active mode's keys, if a
        mode is active. */
    method RegisterActive()
      modifies this`activeBindings, this`log
      ensures activeBindings == Registered(old(activeBindings), ActiveSlots(), grab)
      ensures log == old(log) + RegisterCalls(ActiveSlots(), grab)
    {
      if HasActive() {
        RegisterMode(activeMode.value);
      } else {
        assert RegisterCalls([], grab) == [] && Registered(activeBindings, [], grab) == activeBindings;
        assert log + [] == log;
      }
    }

    /** disable (src/bindings/manager.ts:78-89): a no-op when disabled; otherwise releases
        every grabbed key and disconnects the signal. */
    method Disable()
      requires Valid()
      modifies this`enabled, this`signalId, this`activeBindings, this`log
      ensures Valid() && !enabled && activeBindings == map[] && signalId.None?
      ensures !old(enabled) ==> unchanged(this)
      ensures old(enabled) ==> log == old(log) + [UngrabAll(old(activeBindings).Keys), Disconnect(old(signalId).value)]
    {
      if !enabled {
        return;
      }
      enabled := false;
      UnregisterAll();
      if signalId.Some? {
        log := log + [Disconnect(signalId.value)];
        signalId := None;
      }
    }

    /** switchMode (src/bindings/manager.ts:91-105): an unknown name changes nothing and
        answers false; a known one becomes active, and while enabled the grabbed keys are
        released before the new mode's keys are grabbed. */
    method SwitchMode(name: string) returns (ok: bool)
      requires Valid()
      modifies this`activeMode, this`activeBindings, this`log
      ensures Valid()
      ensures ok <==> name in old(modes)
      ensures !ok ==> unchanged(this)
      ensures ok ==> activeMode == Some(name)
      ensures ok && !enabled ==> activeBindings == old(activeBindings) && log == old(log)
      ensures ok && enabled ==>
                var ss := Slots(modes[name].bindings);
                && activeBindings == Registered(map[], ss, grab)
                && log == old(log) + [UngrabAll(old(activeBindings).Keys)] + RegisterCalls(ss, grab)
    {
      if name !in modes {
        return false;
      }
      activeMode := Some(name);
      if !enabled {
        return true;
      }
      UnregisterAll();
      RegisterMode(name);
      return true;
    }

    /** connectSignals (src/bindings/manager.ts:107-129), without the callback's body, which
        is OnAccelerator. */
    method ConnectSignals()
      modifies this`signalId, this`log
      ensures old(signalId).Some? ==> unchanged(this)
      ensures old(signalId).None? ==> signalId == Some(signal) && log == old(log) + [Connect]
    {
      if signalId.Some? {
        return;
      }
      signalId := Some(signal);
      log := log + [Connect];
    }

    /** The accelerator-activated callback (src/bindings/manager.ts:114-127): the command of
        the binding the action id belongs to, if any, for executeCommand to run. */
    function OnAccelerator(action: int): (command: Option<string>)
      reads this
      ensures command.Some? <==> action in activeBindings
      ensures command.Some? ==> command.value == activeBindings[action].binding.command
    {
      if action in activeBindings then Some(activeBindings[action].binding.command) else None
    }

    /** registerMode (src/bindings/manager.ts:131-163): grabs each key of each binding in
        order, records an entry per successful grab, and queues one notice naming the
        failures. A name without a mode does nothing. */
    method RegisterMode(name: string)
      modifies this`activeBindings, this`log
      ensures name !in modes ==> unchanged(this)
      ensures name in modes ==>
                var ss := Slots(modes[name].bindings);
                && activeBindings == Registered(old(activeBindings), ss, grab)
                && log == old(log) + RegisterCalls(ss, grab)
    {
      if name !in modes {
        return;
      }
      var bindings := modes[name].bindings;
      var am := activeBindings;
      var failures: seq<string> := [];
      var calls: seq<DisplayCall> := [];
      for i := 0 to |bindings|
        invariant am == Registered(activeBindings, Slots(bindings[..i]), grab)
        invariant unchanged(this)
        invariant failures == Failures(Slots(bindings[..i]), grab)
        invariant calls == GrabCalls(Slots(bindings[..i]))
      {
        SlotsNext(bindings, i);
        am, failures, calls := GrabKeys(bindings[i], am, failures, calls, Slots(bindings[..i]));
      }
      assert bindings[..|bindings|] == bindings;
      ghost var ss := Slots(bindings);
      assert am == Registered(old(activeBindings), ss, grab) && failures == Failures(ss, grab);
      if |failures| > 0 {
        calls := calls + [Notify("Keybinding conflicts: " + Summary(failures))];
      }
      assert calls == RegisterCalls(ss, grab);
      activeBindings := am;
      log := log + calls;
    }

    /** The inner loop of registerMode: the keys of one binding. */
    method GrabKeys(b: Binding, am0: map<int, Entry>, failures0: seq<string>, calls0: seq<DisplayCall>,
                    ghost done: seq<Slot>)
      returns (am: map<int, Entry>, failures: seq<string>, calls: seq<DisplayCall>)
      requires am0 == Registered(activeBindings, done, grab)
      requires failures0 == Failures(done, grab) && calls0 == GrabCalls(done)
      ensures am == Registered(activeBindings, done + KeySlots(b), grab)
      ensures failures == Failures(done + KeySlots(b), grab) && calls == GrabCalls(done + KeySlots(b))
    {
      am, failures, calls := am0, failures0, calls0;
      var ks := KeySlots(b);
      assert done + ks[..0] == done;
      for k := 0 to |b.keys|
        invariant am == Registered(activeBindings, done + ks[..k], grab)
        invariant failures == Failures(done + ks[..k], grab) && calls == GrabCalls(done + ks[..k])
      {
        var key := b.keys[k];
        var action := grab(key);
        TakeNext(ks, k);
        AppendAssoc(done, ks[..k], [ks[k]]);
        SlotStep(activeBindings, done + ks[..k], Slot(b, key), grab);
        calls := calls + [Grab(key)];
        if action == 0 {
          failures := failures + [key];
          continue;
        }
        am := am[action := Entry(b, key)];
      }
      assert ks[..|b.keys|] == ks;
    }

    /** unregisterAll (src/bindings/manager.ts:165-171). */
    method UnregisterAll()
      modifies this`activeBindings, this`log
      ensures activeBindings == map[] && log == old(log) + [UngrabAll(old(activeBindings).Keys)]
    {
      log := log + [UngrabAll(activeBindings.Keys)];
      activeBindings := map[];
    }
  }

  /** The modes the reload installs: the configured ones, or the built-in two when the
      configuration has none. */
  function ReloadModes(configModes: Option<seq<BindingMode>>): seq<BindingMode> {
    if configModes.Some? then configModes.value else BuildDefaultBindingModes()
  }

  /** The mode table after adding `ms` in order to an empty one: the last mode of each name
      wins. */
  function ModeTable(ms: seq<BindingMode>): (t: map<string, BindingMode>)
    ensures forall m :: m in ms ==> m.name in t
    ensures forall n :: n in t ==> t[n] in ms && t[n].name == n
  {
    if ms == [] then map[]
    else ModeTable(ms[..|ms| - 1])[ms[|ms| - 1].name := ms[|ms| - 1]]
  }

  /** The active mode after adding `ms` in order with none active: the first name that is not
      empty, or the last one added when every name is empty. */
  function FirstActive(ms: seq<BindingMode>): Option<string> {
    if ms == [] then None
    else
      var before := FirstActive(ms[..|ms| - 1]);
      if before.Some? && before.value != "" then before else Some(ms[|ms| - 1].name)
  }

  /** The addMode calls of the reload, in order, on a disabled manager with no modes. */
  method AddModes(manager: BindingManager, ms: seq<BindingMode>)
    requires manager.Valid() && !manager.enabled && manager.modes == map[] && manager.activeMode.None?
    modifies manager`modes, manager`activeMode
    ensures manager.Valid() && !manager.enabled
    ensures manager.modes == ModeTable(ms) && manager.activeMode == FirstActive(ms)
  {
    for i := 0 to |ms|
      invariant manager.Valid() && !manager.enabled
      invariant manager.modes == ModeTable(ms[..i]) && manager.activeMode == FirstActive(ms[..i])
    {
      assert ms[..i + 1][..i] == ms[..i];
      manager.AddMode(ms[i]);
    }
    assert ms[..|ms|] == ms;
  }

  /** The mode active after a reload: "default" when the modes define it, else the first
      mode added. */
  function ReloadedActive(ms: seq<BindingMode>): Option<string> {
    if "default" in ModeTable(ms) then Some("default") else FirstActive(ms)
  }

  /** What disabling a manager in the given state logs. */
  function DisableLog(enabled: bool, bound: map<int, Entry>, signalId: Option<int>): seq<DisplayCall> {
    if enabled && signalId.Some? then [UngrabAll(bound.Keys), Disconnect(signalId.value)] else []
  }

  /** reloadBindings (src/bindings/reload.ts:6-23): disable, clearModes, addMode for each
      mode in order, switchMode("default"), then enable exactly when a mode was active
      before. */
  method ReloadBindings(manager: BindingManager, configModes: Option<seq<BindingMode>>)
    requires manager.Valid()
    modifies manager
    ensures manager.Valid()
    ensures var ms := ReloadModes(configModes);
            && manager.modes == ModeTable(ms)
            && manager.activeMode == ReloadedActive(ms)
            && manager.enabled == old(manager.activeMode).Some?
            && (old(manager.activeMode).None? ==> manager.activeBindings == map[])
    ensures var ss := manager.ActiveSlots();
            && (old(manager.activeMode).Some? ==> manager.activeBindings == Registered(map[], ss, manager.grab))
            && manager.log ==
                 if old(manager.activeMode).Some? then
                   old(manager.log) + DisableLog(old(manager.enabled), old(manager.activeBindings), old(manager.signalId))
                   + [Connect] + RegisterCalls(ss, manager.grab)
                 else old(manager.log) + DisableLog(old(manager.enabled), old(manager.activeBindings), old(manager.signalId))
  {
    var ms := ReloadModes(configModes);
    var wasEnabled := manager.activeMode.Some?;
    Reinstall(manager, ms);
    if wasEnabled {
      manager.Enable();
    }
  }

  /** The reload up to the final enable: disable, clearModes, the addMode calls and
      switchMode("default"). */
  method Reinstall(manager: BindingManager, ms: seq<BindingMode>)
    requires manager.Valid()
    modifies manager
    ensures manager.Valid() && !manager.enabled && manager.activeBindings == map[]
    ensures manager.modes == ModeTable(ms)
    ensures manager.activeMode == ReloadedActive(ms)
    ensures manager.log == old(manager.log)
                           + DisableLog(old(manager.enabled), old(manager.activeBindings), old(manager.signalId))
  {
    manager.Disable();
    manager.ClearModes();
    AddModes(manager, ms);
    var _ := manager.SwitchMode("default");
  }
}
