/** Choosing the socket of the newest running instance (src/ipc/resolve.ts): socket paths end
    in `tessera.sock.<pid>`, and the path with the greatest pid wins. */
module Resolve {
  import opened Wrappers
  import opened Text

  const SocketPrefix: string := "tessera.sock."

  /** extractPid (src/ipc/resolve.ts:3-11): the text after the last occurrence of the prefix,
      read with `Number`; nothing when the prefix is missing or the text is no number. */
  function ExtractPid(path: string): (pid: Option<real>)
  {
    PidAt(path, LastIndexOf(path, SocketPrefix))
  }

  /** The number after the prefix found at `index`; nothing for -1. */
  function PidAt(path: string, index: int): Option<real>
    requires index == -1 || OccursAt(path, SocketPrefix, index)
  {
    if index == -1 then None else Number(path[index + |SocketPrefix|..])
  }

  /** Without the prefix there is no pid; otherwise the pid is the number after its last
      occurrence, so in `a/tessera.sock.1/tessera.sock.7` it is 7. */
  lemma ExtractPidSpec(path: string, i: int)
    ensures (forall j :: !OccursAt(path, SocketPrefix, j)) ==> ExtractPid(path).None?
    ensures OccursAt(path, SocketPrefix, i) && (forall j :: i < j ==> !OccursAt(path, SocketPrefix, j)) ==>
              ExtractPid(path) == Number(path[i + |SocketPrefix|..])
  {
    var k := LastIndexOf(path, SocketPrefix);
    if OccursAt(path, SocketPrefix, i) && (forall j :: i < j ==> !OccursAt(path, SocketPrefix, j)) {
      assert k == i;
      assert ExtractPid(path) == PidAt(path, i);
    }
  }

  /** The pids of the paths, in order. */
  function Pids(c: seq<string>): (ps: seq<Option<real>>)
    ensures |ps| == |c| && forall k :: 0 <= k < |c| ==> ps[k] == ExtractPid(c[k])
  {
    seq(|c|, k requires 0 <= k < |c| => ExtractPid(c[k]))
  }

  /** A pid greater than `x`. */
  predicate Beats(p: Option<real>, x: real) {
    p.Some? && p.value > x
  }

  /** A pid of at least `x`. */
  predicate Reaches(p: Option<real>, x: real) {
    p.Some? && p.value >= x
  }

  /** Pid `i` is above -1, strictly above every earlier pid and at least every later one. */
  predicate Winner(ps: seq<Option<real>>, i: nat)
    requires i < |ps|
  {
    && Beats(ps[i], -1.0)
    && (forall k :: 0 <= k < i ==> !Reaches(ps[k], ps[i].value))
    && (forall k :: i < k < |ps| ==> !Beats(ps[k], ps[i].value))
  }

  /** The state of the search after the pids `ps`: the index of the best one so far and its
      value, starting from none and -1. */
  function Scan(ps: seq<Option<real>>): (r: (Option<nat>, real))
    ensures r.0.Some? ==> r.0.value < |ps| && ps[r.0.value] == Some(r.1)
    ensures r.0.None? ==> r.1 == -1.0
  {
    if ps == [] then (None, -1.0)
    else
      var prev := Scan(ps[..|ps| - 1]);
      var p := ps[|ps| - 1];
      if p.Some? && p.value > prev.1 then (Some(|ps| - 1), p.value) else prev
  }

  /** The search keeps the best pid, the earliest on ties: it finds nothing exactly when no
      pid is above -1, and otherwise the winner. */
  lemma {:induction false} ScanWinner(ps: seq<Option<real>>)
    ensures Scan(ps).0.None? <==> forall k :: 0 <= k < |ps| ==> !Beats(ps[k], -1.0)
    ensures Scan(ps).0.Some? ==> Winner(ps, Scan(ps).0.value)
    ensures forall k :: 0 <= k < |ps| ==> !Beats(ps[k], Scan(ps).1)
  {
    if ps != [] {
      var d := ps[..|ps| - 1];
      ScanWinner(d);
      assert forall k :: 0 <= k < |d| ==> ps[k] == d[k];
    }
  }

  /** resolveSocketPath (src/ipc/resolve.ts:13-30): the path with the greatest pid, the
      earliest on ties; nothing when no path has a pid above -1 (the start value). */
  method ResolveSocketPath(candidates: seq<string>) returns (best: Option<string>)
    ensures var ps := Pids(candidates);
            && (best.None? <==> forall k :: 0 <= k < |ps| ==> !Beats(ps[k], -1.0))
            && (best.Some? ==> exists i :: 0 <= i < |ps| && candidates[i] == best.value && Winner(ps, i))
  {
    ghost var ps := Pids(candidates);
    var bestPid := -1.0;
    best := None;
    ghost var at: Option<nat> := None;
    for j := 0 to |candidates|
      invariant (at, bestPid) == Scan(ps[..j])
      invariant best == if at.None? then None else Some(candidates[at.value])
    {
      ScanStep(ps, j);
      var pid := ExtractPid(candidates[j]);
      assert pid == ps[j];
      if pid.None? {
        continue;
      }
      if pid.value > bestPid {
        bestPid := pid.value;
        best := Some(candidates[j]);
        at := Some(j);
      }
    }
    assert ps[..|ps|] == ps;
    ScanWinner(ps);
  }

  /** One more pid: it takes over when it beats the best so far. */
  lemma ScanStep(ps: seq<Option<real>>, j: nat)
    requires j < |ps|
    ensures var prev := Scan(ps[..j]);
            Scan(ps[..j + 1]) == if ps[j].Some? && ps[j].value > prev.1 then (Some(j), ps[j].value) else prev
  {
    assert ps[..j + 1][..j] == ps[..j];
  }

  /** At most one path wins, so the result is determined by the list. */
  lemma WinnerUnique(ps: seq<Option<real>>, i: nat, j: nat)
    requires i < |ps| && j < |ps|
    requires Winner(ps, i) && Winner(ps, j)
    ensures i == j
  {
  }
}
