/** In-place edits of a child list that the handlers and the insertion code make by writing
    `children[index]` or `splice(index, 1, other)` directly, rather than through addChild
    and removeChild: putting a fresh container in another's slot, and two windows trading
    slots. */
module Splice {
  import opened Wrappers
  import opened Seqs
  import opened Containers
  import opened Arena
  import opened Tree

  lemma ReplaceNoDup<T>(s: seq<T>, i: nat, x: T)
    requires NoDup(s) && i < |s| && x !in s
    ensures NoDup(s[i := x])
  {
  }

  lemma SwapNoDup<T>(s: seq<T>, i: nat, j: nat)
    requires NoDup(s) && i < |s| && j < |s|
    ensures NoDup(s[i := s[j]][j := s[i]])
  {
    var r := s[i := s[j]][j := s[i]];
    forall k1, k2 | 0 <= k1 < k2 < |r| ensures r[k1] != r[k2] {
      var m1 := if k1 == j then i else if k1 == i then j else k1;
      var m2 := if k2 == j then i else if k2 == i then j else k2;
      assert r[k1] == s[m1] && r[k2] == s[m2] && m1 != m2;
    }
  }

  /** A child of `p` sits at its one index there and in no other list. */
  lemma SlotUnique(ch: map<Ref, seq<Ref>>, pa: map<Ref, Option<Ref>>, p: Ref, i: nat)
    requires DownLinks(ch, pa) && ListsNoDup(ch) && p in ch && i < |ch[p]|
    ensures forall r, k {:trigger ch[r][k]} :: r in ch && 0 <= k < |ch[r]| && ch[r][k] == ch[p][i] ==> r == p && k == i
  {
    forall r, k | r in ch && 0 <= k < |ch[r]| && ch[r][k] == ch[p][i] ensures r == p && k == i {
      assert pa[ch[r][k]] == Some(r);
      assert NoDup(ch[p]);
    }
  }

  /** A parentless container is in no child list. */
  lemma NotListed(ch: map<Ref, seq<Ref>>, pa: map<Ref, Option<Ref>>, s: Ref)
    requires DownLinks(ch, pa) && s in pa && pa[s] == None
    ensures forall r, k {:trigger ch[r][k]} :: r in ch && 0 <= k < |ch[r]| ==> ch[r][k] != s
  {
  }

  /** Writing a fresh, parentless and childless container `s` into slot `i` of `p` keeps the
      links consistent; the container that was there loses its parent. */
  lemma ReplaceLinked(ch: map<Ref, seq<Ref>>, pa: map<Ref, Option<Ref>>, de: map<Ref, nat>, bd: nat,
                      p: Ref, i: nat, s: Ref)
    requires LinkedMaps(ch, pa, de, bd) && p in ch && i < |ch[p]| && s in ch && ch[s] == [] && pa[s] == None
    ensures var row: seq<Ref> := ch[p][i := s];
            LinkedMaps(ch[p := row], pa[ch[p][i] := None][s := Some(p)], de[s := de[p] + 1], bd + 1)
  {
    var c := ch[p][i];
    var row: seq<Ref> := ch[p][i := s];
    var ch', pa', de' := ch[p := row], pa[c := None][s := Some(p)], de[s := de[p] + 1];
    SlotUnique(ch, pa, p, i);
    NotListed(ch, pa, s);
    assert p != s && c != s;
    forall q, k | q in ch' && 0 <= k < |ch'[q]| ensures ch'[q][k] in pa' && pa'[ch'[q][k]] == Some(q) {
      if q != p || k != i {
        var e := ch[q][k];
        assert ch'[q][k] == e && pa[e] == Some(q) && e != s && e != c;
      }
    }
    forall e | e in pa' && pa'[e].Some? ensures pa'[e].value in ch' && e in ch'[pa'[e].value] {
      if e != s {
        assert e != c;
        var v := pa[e].value;
        assert e in ch[v];
        var k :| 0 <= k < |ch[v]| && ch[v][k] == e;
        assert ch'[v][k] == e;
      } else {
        assert ch'[p][i] == s;
      }
    }
    ReplaceNoDup(ch[p], i, s);
    forall e | e in pa' && pa'[e].Some? ensures e in de' && pa'[e].value in de' && de'[e] == de'[pa'[e].value] + 1 {
      if e != s {
        var v := pa[e].value;
        assert e in ch[v];
        assert v != s;
      }
    }
  }

  /** The child lists after `a` (slot `i` of `p`) and `b` (slot `j` of `q`) trade places. */
  function Swapped(ch: map<Ref, seq<Ref>>, p: Ref, i: nat, q: Ref, j: nat): map<Ref, seq<Ref>>
    requires p in ch && q in ch && i < |ch[p]| && j < |ch[q]|
  {
    var a, b := ch[p][i], ch[q][j];
    var row1: seq<Ref> := ch[p][i := b];
    var ch1 := ch[p := row1];
    var row2: seq<Ref> := ch1[q][j := a];
    ch1[q := row2]
  }

  /** Where each slot of the swapped lists comes from. */
  lemma SwappedAt(ch: map<Ref, seq<Ref>>, p: Ref, i: nat, q: Ref, j: nat)
    requires p in ch && q in ch && i < |ch[p]| && j < |ch[q]| && (p == q ==> i != j)
    ensures var ch2 := Swapped(ch, p, i, q, j);
            && ch2.Keys == ch.Keys
            && (forall r :: r in ch ==> |ch2[r]| == |ch[r]|)
            && ch2[q][j] == ch[p][i] && ch2[p][i] == ch[q][j]
            && forall r, k {:trigger ch2[r][k]} :: r in ch && 0 <= k < |ch[r]| && !(r == p && k == i) && !(r == q && k == j)
                 ==> ch2[r][k] == ch[r][k]
  {
  }

  ghost predicate SwapPre(ch: map<Ref, seq<Ref>>, pa: map<Ref, Option<Ref>>, de: map<Ref, nat>, bd: nat,
                          p: Ref, i: nat, q: Ref, j: nat) {
    LinkedMaps(ch, pa, de, bd) && p in ch && q in ch && i < |ch[p]| && j < |ch[q]|
    && ch[p][i] != ch[q][j] && ch[ch[p][i]] == [] && ch[ch[q][j]] == []
  }

  lemma SwapDown(ch: map<Ref, seq<Ref>>, pa: map<Ref, Option<Ref>>, de: map<Ref, nat>, bd: nat,
                 p: Ref, i: nat, q: Ref, j: nat)
    requires SwapPre(ch, pa, de, bd, p, i, q, j)
    ensures DownLinks(Swapped(ch, p, i, q, j), pa[ch[p][i] := Some(q)][ch[q][j] := Some(p)])
  {
    var a, b := ch[p][i], ch[q][j];
    var ch2, pa' := Swapped(ch, p, i, q, j), pa[a := Some(q)][b := Some(p)];
    SwappedAt(ch, p, i, q, j);
    SlotUnique(ch, pa, p, i);
    SlotUnique(ch, pa, q, j);
    forall r, k | r in ch2 && 0 <= k < |ch2[r]| ensures ch2[r][k] in pa' && pa'[ch2[r][k]] == Some(r) {
      if !(r == q && k == j) && !(r == p && k == i) {
        var e := ch[r][k];
        assert ch2[r][k] == e && pa[e] == Some(r) && e != a && e != b;
      }
    }
  }

  lemma SwapUp(ch: map<Ref, seq<Ref>>, pa: map<Ref, Option<Ref>>, de: map<Ref, nat>, bd: nat,
               p: Ref, i: nat, q: Ref, j: nat)
    requires SwapPre(ch, pa, de, bd, p, i, q, j)
    ensures UpLinks(Swapped(ch, p, i, q, j), pa[ch[p][i] := Some(q)][ch[q][j] := Some(p)])
  {
    var a, b := ch[p][i], ch[q][j];
    var ch2, pa' := Swapped(ch, p, i, q, j), pa[a := Some(q)][b := Some(p)];
    SwappedAt(ch, p, i, q, j);
    forall e | e in pa' && pa'[e].Some? ensures pa'[e].value in ch2 && e in ch2[pa'[e].value] {
      if e == a {
        assert ch2[q][j] == a;
      } else if e == b {
        assert ch2[p][i] == b;
      } else {
        var v := pa[e].value;
        assert e in ch[v];
        var k :| 0 <= k < |ch[v]| && ch[v][k] == e;
        assert ch2[v][k] == e;
      }
    }
  }

  lemma SwapNoDups(ch: map<Ref, seq<Ref>>, pa: map<Ref, Option<Ref>>, de: map<Ref, nat>, bd: nat,
                   p: Ref, i: nat, q: Ref, j: nat)
    requires SwapPre(ch, pa, de, bd, p, i, q, j)
    ensures ListsNoDup(Swapped(ch, p, i, q, j))
  {
    var a, b := ch[p][i], ch[q][j];
    var ch2 := Swapped(ch, p, i, q, j);
    SlotUnique(ch, pa, p, i);
    SlotUnique(ch, pa, q, j);
    forall r | r in ch2 ensures NoDup(ch2[r]) {
      assert NoDup(ch[r]);
      if r == p && r == q {
        SwapNoDup(ch[p], i, j);
        assert ch2[p] == ch[p][i := ch[p][j]][j := ch[p][i]];
      } else if r == p {
        assert b !in ch[p];
        ReplaceNoDup(ch[p], i, b);
      } else if r == q {
        assert a !in ch[q];
        ReplaceNoDup(ch[q], j, a);
      }
    }
  }

  lemma SwapDepth(ch: map<Ref, seq<Ref>>, pa: map<Ref, Option<Ref>>, de: map<Ref, nat>, bd: nat,
                  p: Ref, i: nat, q: Ref, j: nat)
    requires SwapPre(ch, pa, de, bd, p, i, q, j)
    ensures var a, b := ch[p][i], ch[q][j];
            DepthSteps(pa[a := Some(q)][b := Some(p)], de[a := de[q] + 1][b := de[p] + 1])
            && DepthBounded(de[a := de[q] + 1][b := de[p] + 1], bd)
  {
    var a, b := ch[p][i], ch[q][j];
    var pa', de' := pa[a := Some(q)][b := Some(p)], de[a := de[q] + 1][b := de[p] + 1];
    assert pa[a] == Some(p) && pa[b] == Some(q);
    forall e | e in pa' && pa'[e].Some? ensures e in de' && pa'[e].value in de' && de'[e] == de'[pa'[e].value] + 1 {
      if e != a && e != b {
        var v := pa[e].value;
        assert e in ch[v];
        assert v != a && v != b;
      }
    }
  }

  /** Two windows `a` (slot `i` of `p`) and `b` (slot `j` of `q`) trading places keeps the
      arena invariant, whether or not they share a parent. */
  lemma SwapShaped(nodes: map<Ref, Node>, ch: map<Ref, seq<Ref>>, pa: map<Ref, Option<Ref>>, de: map<Ref, nat>,
                   bd: nat, next: Ref, p: Ref, i: nat, q: Ref, j: nat,
                   ch2: map<Ref, seq<Ref>>, pa2: map<Ref, Option<Ref>>, de2: map<Ref, nat>)
    requires Shaped(nodes, ch, pa, de, bd, next) && p in ch && q in ch && i < |ch[p]| && j < |ch[q]|
    requires ch[p][i] != ch[q][j] && nodes[ch[p][i]].IsWindow() && nodes[ch[q][j]].IsWindow()
    requires ch2 == Swapped(ch, p, i, q, j)
    requires pa2 == pa[ch[p][i] := Some(q)][ch[q][j] := Some(p)]
    requires de2 == de[ch[p][i] := de[q] + 1][ch[q][j] := de[p] + 1]
    ensures Shaped(nodes, ch2, pa2, de2, bd, next)
  {
    var a, b := ch[p][i], ch[q][j];
    assert pa[a] == Some(p) && pa[b] == Some(q);
    SwapDown(ch, pa, de, bd, p, i, q, j);
    SwapUp(ch, pa, de, bd, p, i, q, j);
    SwapNoDups(ch, pa, de, bd, p, i, q, j);
    SwapDepth(ch, pa, de, bd, p, i, q, j);
    SwappedAt(ch, p, i, q, j);
    forall r | r in nodes && nodes[r].IsWindow() ensures r in ch2 && ch2[r] == [] {
      assert ch[r] == [];
      assert r != p && r != q;
    }
  }

  /** As ReplaceLinked, with the window-leaf rule: `p` has children, so it is no window. */
  lemma ReplaceShaped(nodes: map<Ref, Node>, ch: map<Ref, seq<Ref>>, pa: map<Ref, Option<Ref>>, de: map<Ref, nat>,
                      bd: nat, next: Ref, p: Ref, i: nat, s: Ref,
                      ch2: map<Ref, seq<Ref>>, pa2: map<Ref, Option<Ref>>, de2: map<Ref, nat>)
    requires Shaped(nodes, ch, pa, de, bd, next) && p in ch && i < |ch[p]| && s in ch && ch[s] == [] && pa[s] == None
    requires var row: seq<Ref> := ch[p][i := s]; ch2 == ch[p := row]
    requires pa2 == pa[ch[p][i] := None][s := Some(p)] && de2 == de[s := de[p] + 1]
    ensures Shaped(nodes, ch2, pa2, de2, bd + 1, next)
  {
    ReplaceLinked(ch, pa, de, bd, p, i, s);
  }

  /** `targetParent.children[index] = newSplit; newSplit.parent = targetParent`
      (src/window-insertion.ts:59-60), for a fresh split `s`. The container that held the
      slot is left without a parent here; the source leaves its stale parent pointer, which
      the next addChild overwrites without effect on any list. */
  method ReplaceChildAt(t: Tree, p: Ref, i: nat, s: Ref)
    requires t.Valid() && p in t.nodes && i < |t.children[p]| && s in t.nodes
    requires t.children[s] == [] && t.parent[s] == None
    modifies t`children, t`parent, t`depth, t`bound
    ensures t.Valid() && unchanged(t`nodes, t`nextRef, t`idCounter)
    ensures var row: seq<Ref> := old(t.children[p])[i := s]; t.children == old(t.children)[p := row]
    ensures t.parent == old(t.parent)[old(t.children[p][i]) := None][s := Some(p)]
    ensures t.depth == old(t.depth)[s := old(t.depth[p]) + 1]
  {
    var c := t.children[p][i];
    var row: seq<Ref> := t.children[p][i := s];
    var ch2, pa2, de2 := t.children[p := row], t.parent[c := None][s := Some(p)], t.depth[s := t.depth[p] + 1];
    ReplaceShaped(t.nodes, t.children, t.parent, t.depth, t.bound, t.nextRef, p, i, s, ch2, pa2, de2);
    t.children, t.parent, t.depth, t.bound := ch2, pa2, de2, t.bound + 1;
  }

  /** The exchange of the move handler (src/commands/handlers/core.ts:378-381): `a`, at
      index `i` of `p`, and `b`, at index `j` of `q`, trade slots and parents. */
  method SwapWindows(t: Tree, p: Ref, i: nat, q: Ref, j: nat)
    requires t.Valid() && p in t.nodes && q in t.nodes && i < |t.children[p]| && j < |t.children[q]|
    requires t.children[p][i] != t.children[q][j]
    requires t.nodes[t.children[p][i]].IsWindow() && t.nodes[t.children[q][j]].IsWindow()
    modifies t`children, t`parent, t`depth
    ensures t.Valid()
    ensures t.children == Swapped(old(t.children), p, i, q, j)
    ensures t.parent == old(t.parent)[old(t.children[p][i]) := Some(q)][old(t.children[q][j]) := Some(p)]
  {
    var a, b := t.children[p][i], t.children[q][j];
    var ch2, pa2, de2 := Swapped(t.children, p, i, q, j), t.parent[a := Some(q)][b := Some(p)],
                         t.depth[a := t.depth[q] + 1][b := t.depth[p] + 1];
    SwapShaped(t.nodes, t.children, t.parent, t.depth, t.bound, t.nextRef, p, i, q, j, ch2, pa2, de2);
    t.children, t.parent, t.depth := ch2, pa2, de2;
  }
}
