/** The link invariant of the container arena, stated over plain maps so that its proofs
    stay small: parent and child links agree, child lists have no duplicates, depths grow
    by one along every link (so there are no cycles), and windows are leaves. */
module Arena {
  import opened Wrappers
  import opened Seqs
  import opened Containers

  ghost predicate DownLinks(ch: map<Ref, seq<Ref>>, pa: map<Ref, Option<Ref>>) {
    forall p, i :: p in ch && 0 <= i < |ch[p]| ==> ch[p][i] in pa && pa[ch[p][i]] == Some(p)
  }

  ghost predicate UpLinks(ch: map<Ref, seq<Ref>>, pa: map<Ref, Option<Ref>>) {
    forall c :: c in pa && pa[c].Some? ==> pa[c].value in ch && c in ch[pa[c].value]
  }

  ghost predicate ListsNoDup(ch: map<Ref, seq<Ref>>) {
    forall p :: p in ch ==> NoDup(ch[p])
  }

  ghost predicate DepthSteps(pa: map<Ref, Option<Ref>>, de: map<Ref, nat>) {
    forall c :: c in pa && pa[c].Some? ==> c in de && pa[c].value in de && de[c] == de[pa[c].value] + 1
  }

  ghost predicate DepthBounded(de: map<Ref, nat>, bd: nat) {
    forall r :: r in de ==> de[r] < bd
  }

  ghost predicate LinkedMaps(ch: map<Ref, seq<Ref>>, pa: map<Ref, Option<Ref>>, de: map<Ref, nat>, bd: nat) {
    ch.Keys == pa.Keys && pa.Keys == de.Keys
    && DownLinks(ch, pa) && UpLinks(ch, pa) && ListsNoDup(ch)
    && DepthSteps(pa, de) && DepthBounded(de, bd)
  }

  /** `y` is `a` or lies below it, following parent links upwards. */
  ghost predicate Below(pa: map<Ref, Option<Ref>>, de: map<Ref, nat>, y: Ref, a: Ref)
    requires DepthSteps(pa, de) && pa.Keys == de.Keys && y in pa
    decreases de[y]
  {
    y == a || (pa[y].Some? && Below(pa, de, pa[y].value, a))
  }

  /** Clearing the parent link of `a` does not change what lies below `a`. */
  lemma {:induction false} BelowAfterCut(pa: map<Ref, Option<Ref>>, de: map<Ref, nat>, a: Ref, y: Ref)
    requires DepthSteps(pa, de) && pa.Keys == de.Keys && y in pa && a in pa
    ensures DepthSteps(pa[a := None], de)
    ensures Below(pa[a := None], de, y, a) == Below(pa, de, y, a)
    decreases de[y]
  {
    if y != a && pa[y].Some? {
      BelowAfterCut(pa, de, a, pa[y].value);
    }
  }

  lemma {:induction false} BelowDeeper(pa: map<Ref, Option<Ref>>, de: map<Ref, nat>, y: Ref, a: Ref)
    requires DepthSteps(pa, de) && pa.Keys == de.Keys && y in pa && a in pa && Below(pa, de, y, a)
    ensures de[y] >= de[a]
    ensures y != a ==> de[y] > de[a]
    decreases de[y]
  {
    if y != a {
      BelowDeeper(pa, de, pa[y].value, a);
    }
  }

  /** Lying below is transitive. */
  lemma {:induction false} BelowTrans(pa: map<Ref, Option<Ref>>, de: map<Ref, nat>, y: Ref, b: Ref, a: Ref)
    requires DepthSteps(pa, de) && pa.Keys == de.Keys && y in pa && b in pa
    requires Below(pa, de, y, b) && Below(pa, de, b, a)
    ensures Below(pa, de, y, a)
    decreases de[y]
  {
    if y != b {
      BelowTrans(pa, de, pa[y].value, b, a);
    }
  }

  /** The containers at or below `x`. */
  ghost function Subtree(pa: map<Ref, Option<Ref>>, de: map<Ref, nat>, x: Ref): set<Ref>
    requires DepthSteps(pa, de) && pa.Keys == de.Keys
  {
    set y | y in pa && Below(pa, de, y, x)
  }

  /** The containers at or below one of the first `n` members of `cs`. */
  ghost function SubtreesOf(pa: map<Ref, Option<Ref>>, de: map<Ref, nat>, cs: seq<Ref>, n: nat): set<Ref>
    requires DepthSteps(pa, de) && pa.Keys == de.Keys && n <= |cs|
  {
    set y, j | y in pa && 0 <= j < n && Below(pa, de, y, cs[j]) :: y
  }

  lemma SubtreesOfNext(pa: map<Ref, Option<Ref>>, de: map<Ref, nat>, cs: seq<Ref>, n: nat)
    requires DepthSteps(pa, de) && pa.Keys == de.Keys && n < |cs|
    ensures SubtreesOf(pa, de, cs, n + 1) == SubtreesOf(pa, de, cs, n) + Subtree(pa, de, cs[n])
  {
    var l, r := SubtreesOf(pa, de, cs, n + 1), SubtreesOf(pa, de, cs, n) + Subtree(pa, de, cs[n]);
    forall y | y in r ensures y in l {
      if y !in Subtree(pa, de, cs[n]) {
        var j :| 0 <= j < n && Below(pa, de, y, cs[j]);
      }
    }
  }

  /** A node strictly below `x` lies below one of `x`'s children. */
  lemma {:induction false} BelowChild(pa: map<Ref, Option<Ref>>, de: map<Ref, nat>, y: Ref, x: Ref) returns (c: Ref)
    requires DepthSteps(pa, de) && pa.Keys == de.Keys && y in pa && Below(pa, de, y, x) && y != x
    ensures c in pa && pa[c] == Some(x) && Below(pa, de, y, c)
    decreases de[y]
  {
    var p := pa[y].value;
    if p == x {
      c := y;
    } else {
      c := BelowChild(pa, de, p, x);
    }
  }

  /** The subtree of `x` is `x` together with the subtrees of its children. */
  lemma SubtreeSplit(ch: map<Ref, seq<Ref>>, pa: map<Ref, Option<Ref>>, de: map<Ref, nat>, bd: nat, x: Ref)
    requires LinkedMaps(ch, pa, de, bd) && x in ch
    ensures Subtree(pa, de, x) == {x} + SubtreesOf(pa, de, ch[x], |ch[x]|)
  {
    var l, r := Subtree(pa, de, x), {x} + SubtreesOf(pa, de, ch[x], |ch[x]|);
    forall y | y in l && y != x ensures y in r {
      var c := BelowChild(pa, de, y, x);
      var j :| 0 <= j < |ch[x]| && ch[x][j] == c;
    }
    forall y | y in r ensures y in l {
      if y != x {
        var j :| 0 <= j < |ch[x]| && Below(pa, de, y, ch[x][j]);
        var c := ch[x][j];
        assert Below(pa, de, c, x);
        BelowTrans(pa, de, y, c, x);
      }
    }
  }

  /** Nothing but `c` itself lies below a container without children. */
  lemma {:induction false} BelowChildless(ch: map<Ref, seq<Ref>>, pa: map<Ref, Option<Ref>>, de: map<Ref, nat>,
                                          bd: nat, y: Ref, c: Ref)
    requires LinkedMaps(ch, pa, de, bd) && c in ch && ch[c] == [] && y in pa
    ensures Below(pa, de, y, c) <==> y == c
    decreases de[y]
  {
    if y != c && pa[y].Some? {
      var q := pa[y].value;
      BelowChildless(ch, pa, de, bd, q, c);
    }
  }

  /** A fresh, parentless node with no children keeps the links consistent. */
  lemma FreshLinked(ch: map<Ref, seq<Ref>>, pa: map<Ref, Option<Ref>>, de: map<Ref, nat>, bd: nat, r: Ref)
    requires LinkedMaps(ch, pa, de, bd) && r !in ch
    ensures LinkedMaps(ch[r := []], pa[r := None], de[r := 0], if bd == 0 then 1 else bd)
  {
    var ch', pa' := ch[r := []], pa[r := None];
    forall q, i | q in ch' && 0 <= i < |ch'[q]| ensures ch'[q][i] in pa' && pa'[ch'[q][i]] == Some(q) {
      assert q != r;
      var e := ch[q][i];
      assert e in pa && pa[e] == Some(q);
    }
    forall e | e in pa' && pa'[e].Some? ensures pa'[e].value in ch' && e in ch'[pa'[e].value] {
      assert e != r;
      var q := pa[e].value;
      assert q in ch && e in ch[q];
      assert q != r;
    }
  }

  /** A fresh parentless, childless container at the allocation mark keeps the invariant. */
  lemma FreshShaped(nodes: map<Ref, Node>, ch: map<Ref, seq<Ref>>, pa: map<Ref, Option<Ref>>,
                    de: map<Ref, nat>, bd: nat, next: Ref, n: Node) returns (de': map<Ref, nat>, bd': nat)
    requires Shaped(nodes, ch, pa, de, bd, next)
    ensures Shaped(nodes[next := n], ch[next := []], pa[next := None], de', bd', next + 1)
  {
    FreshLinked(ch, pa, de, bd, next);
    de', bd' := de[next := 0], if bd == 0 then 1 else bd;
  }

  /** removeChild keeps the links consistent. */
  lemma CutLinked(ch: map<Ref, seq<Ref>>, pa: map<Ref, Option<Ref>>, de: map<Ref, nat>, bd: nat, p: Ref, c: Ref)
    requires LinkedMaps(ch, pa, de, bd) && p in ch && c in ch[p]
    ensures LinkedMaps(ch[p := RemoveFirst(ch[p], c)], pa[c := None], de, bd)
  {
    CutDown(ch, pa, p, c);
    CutUp(ch, pa, p, c);
    CutNoDup(ch, p, c);
    CutDepth(pa, de, c);
  }

  lemma CutDown(ch: map<Ref, seq<Ref>>, pa: map<Ref, Option<Ref>>, p: Ref, c: Ref)
    requires DownLinks(ch, pa) && ListsNoDup(ch) && p in ch && c in ch[p]
    ensures DownLinks(ch[p := RemoveFirst(ch[p], c)], pa[c := None])
  {
    var r := RemoveFirst(ch[p], c);
    RemoveFirstNoDup(ch[p], c);
    var ch', pa' := ch[p := r], pa[c := None];
    forall q, i | q in ch' && 0 <= i < |ch'[q]| ensures ch'[q][i] in pa' && pa'[ch'[q][i]] == Some(q) {
      var e := ch'[q][i];
      if q == p {
        RemoveFirstMembers(ch[p], c, e);
        var j :| 0 <= j < |ch[p]| && ch[p][j] == e;
        assert pa[e] == Some(p);
      } else {
        assert e == ch[q][i];
        assert pa[e] == Some(q);
      }
    }
  }

  lemma CutUp(ch: map<Ref, seq<Ref>>, pa: map<Ref, Option<Ref>>, p: Ref, c: Ref)
    requires UpLinks(ch, pa) && p in ch
    ensures UpLinks(ch[p := RemoveFirst(ch[p], c)], pa[c := None])
  {
    var ch', pa' := ch[p := RemoveFirst(ch[p], c)], pa[c := None];
    forall e | e in pa' && pa'[e].Some? ensures pa'[e].value in ch' && e in ch'[pa'[e].value] {
      var q := pa[e].value;
      assert e != c && e in ch[q];
      if q == p {
        RemoveFirstMembers(ch[p], c, e);
      }
    }
  }

  lemma CutNoDup(ch: map<Ref, seq<Ref>>, p: Ref, c: Ref)
    requires ListsNoDup(ch) && p in ch
    ensures ListsNoDup(ch[p := RemoveFirst(ch[p], c)])
  {
    RemoveFirstNoDup(ch[p], c);
  }

  lemma CutDepth(pa: map<Ref, Option<Ref>>, de: map<Ref, nat>, c: Ref)
    requires DepthSteps(pa, de)
    ensures DepthSteps(pa[c := None], de)
  {
  }

  /** The depths after the subtree `sub` of `c` is hung below `p`. */
  ghost function Shifted(de: map<Ref, nat>, sub: set<Ref>, c: Ref, p: Ref): map<Ref, nat>
    requires c in de && p in de && forall y :: y in sub && y in de ==> de[y] >= de[c]
  {
    map y | y in de :: if y in sub then de[y] - de[c] + de[p] + 1 else de[y]
  }

  /** Appending a parentless `c` under `p`, where `p` is not below `c`, keeps the links
      consistent once the depths of `c`'s subtree are shifted. */
  lemma AttachLinked(ch: map<Ref, seq<Ref>>, pa: map<Ref, Option<Ref>>, de: map<Ref, nat>, bd: nat,
                     p: Ref, c: Ref, sub: set<Ref>)
    requires LinkedMaps(ch, pa, de, bd) && p in ch && c in ch && pa[c] == None
    requires sub == set y | y in pa && Below(pa, de, y, c)
    requires !Below(pa, de, p, c)
    ensures forall y :: y in sub ==> de[y] >= de[c]
    ensures c !in ch[p]
    ensures LinkedMaps(ch[p := ch[p] + [c]], pa[c := Some(p)], Shifted(de, sub, c, p), bd + de[p] + 1)
  {
    forall y | y in sub ensures de[y] >= de[c] { BelowDeeper(pa, de, y, c); }
    var ch', pa' := ch[p := ch[p] + [c]], pa[c := Some(p)];
    var de' := Shifted(de, sub, c, p);
    assert c !in ch[p] by {
      forall i | 0 <= i < |ch[p]| ensures ch[p][i] != c {
        assert pa[ch[p][i]] == Some(p);
      }
    }
    forall q, i | q in ch' && 0 <= i < |ch'[q]| ensures ch'[q][i] in pa' && pa'[ch'[q][i]] == Some(q) {
      if q == p && i == |ch[p]| {
      } else {
        var e := ch[q][i];
        assert ch'[q][i] == e;
        assert pa[e] == Some(q);
      }
    }
    forall e | e in pa' && pa'[e].Some? ensures pa'[e].value in ch' && e in ch'[pa'[e].value] {
      if e != c {
        assert e in ch[pa[e].value];
      }
    }
    forall q | q in ch' ensures NoDup(ch'[q]) {
      if q == p {
        assert NoDup(ch[p]);
      }
    }
    forall e | e in pa' && pa'[e].Some? ensures e in de' && pa'[e].value in de' && de'[e] == de'[pa'[e].value] + 1 {
      var q := pa'[e].value;
      if e == c {
        assert c in sub;
        assert p !in sub;
      } else {
        assert pa[e] == Some(q);
        if e in sub {
          assert Below(pa, de, q, c);
        } else {
          assert !Below(pa, de, q, c);
        }
      }
    }
  }

  /** Windows have no children. */
  ghost predicate WindowsAreLeaves(nodes: map<Ref, Node>, ch: map<Ref, seq<Ref>>) {
    forall r :: r in nodes && nodes[r].IsWindow() ==> r in ch && ch[r] == []
  }

  /** The whole arena invariant over plain maps. */
  ghost predicate Shaped(nodes: map<Ref, Node>, ch: map<Ref, seq<Ref>>, pa: map<Ref, Option<Ref>>,
                         de: map<Ref, nat>, bd: nat, next: Ref) {
    LinkedMaps(ch, pa, de, bd) && nodes.Keys == ch.Keys
    && (forall r :: r in nodes ==> r < next)
    && WindowsAreLeaves(nodes, ch)
  }

  /** The depth map that goes with appending a parentless `c` under `p`. */
  lemma AttachShaped(nodes: map<Ref, Node>, ch: map<Ref, seq<Ref>>, pa: map<Ref, Option<Ref>>,
                     de: map<Ref, nat>, bd: nat, next: Ref, p: Ref, c: Ref) returns (de': map<Ref, nat>)
    requires Shaped(nodes, ch, pa, de, bd, next) && p in ch && c in ch && pa[c] == None
    requires !nodes[p].IsWindow()
    requires !Below(pa, de, p, c)
    ensures Shaped(nodes, ch[p := ch[p] + [c]], pa[c := Some(p)], de', bd + de[p] + 1, next)
  {
    var sub := set y | y in pa && Below(pa, de, y, c);
    AttachLinked(ch, pa, de, bd, p, c, sub);
    de' := Shifted(de, sub, c, p);
  }

  /** Depth-first pre-order of the proper descendants of `x`: each child, then its own
      descendants, in list order (walkContainers, src/ipc/debug.ts:82-90). */
  ghost function Walk(ch: map<Ref, seq<Ref>>, pa: map<Ref, Option<Ref>>, de: map<Ref, nat>, bd: nat, x: Ref): seq<Ref>
    requires LinkedMaps(ch, pa, de, bd) && x in ch
    decreases bd - de[x], 1, 0
  {
    WalkFrom(ch, pa, de, bd, x, 0)
  }

  ghost function WalkFrom(ch: map<Ref, seq<Ref>>, pa: map<Ref, Option<Ref>>, de: map<Ref, nat>, bd: nat,
                          x: Ref, i: nat): seq<Ref>
    requires LinkedMaps(ch, pa, de, bd) && x in ch && i <= |ch[x]|
    decreases bd - de[x], 0, |ch[x]| - i
  {
    if i == |ch[x]| then []
    else
      var c := ch[x][i];
      assert pa[c] == Some(x);
      [c] + Walk(ch, pa, de, bd, c) + WalkFrom(ch, pa, de, bd, x, i + 1)
  }

  /** `x` followed by its proper descendants in depth-first pre-order. */
  ghost function PreOrder(ch: map<Ref, seq<Ref>>, pa: map<Ref, Option<Ref>>, de: map<Ref, nat>, bd: nat, x: Ref): seq<Ref>
    requires LinkedMaps(ch, pa, de, bd) && x in ch
  {
    [x] + Walk(ch, pa, de, bd, x)
  }

  /** The `i`-th child of `x` is a linked container one level deeper, and the walk over
      `x`'s children from `i` starts with that child's subtree. */
  lemma ChildStep(ch: map<Ref, seq<Ref>>, pa: map<Ref, Option<Ref>>, de: map<Ref, nat>, bd: nat, x: Ref, i: nat)
    requires LinkedMaps(ch, pa, de, bd) && x in ch && i < |ch[x]|
    ensures ch[x][i] in ch && de[ch[x][i]] == de[x] + 1
    ensures WalkFrom(ch, pa, de, bd, x, i) == PreOrder(ch, pa, de, bd, ch[x][i]) + WalkFrom(ch, pa, de, bd, x, i + 1)
  {
    assert pa[ch[x][i]] == Some(x);
  }

  /** Everything in `Walk(x)` is a linked container strictly below `x`. */
  lemma {:induction false} WalkBelow(ch: map<Ref, seq<Ref>>, pa: map<Ref, Option<Ref>>, de: map<Ref, nat>, bd: nat, x: Ref)
    requires LinkedMaps(ch, pa, de, bd) && x in ch
    ensures forall y :: y in Walk(ch, pa, de, bd, x) ==> y in ch && y != x && Below(pa, de, y, x)
    decreases bd - de[x], 1
  {
    WalkFromBelow(ch, pa, de, bd, x, 0);
  }

  lemma {:induction false} WalkFromBelow(ch: map<Ref, seq<Ref>>, pa: map<Ref, Option<Ref>>, de: map<Ref, nat>, bd: nat,
                                         x: Ref, i: nat)
    requires LinkedMaps(ch, pa, de, bd) && x in ch && i <= |ch[x]|
    ensures forall y :: y in WalkFrom(ch, pa, de, bd, x, i) ==> y in ch && y != x && Below(pa, de, y, x)
    decreases bd - de[x], 0, |ch[x]| - i
  {
    if i < |ch[x]| {
      var c := ch[x][i];
      ChildStep(ch, pa, de, bd, x, i);
      assert Below(pa, de, c, x);
      WalkBelow(ch, pa, de, bd, c);
      WalkFromBelow(ch, pa, de, bd, x, i + 1);
      forall y | y in Walk(ch, pa, de, bd, c) ensures y in ch && y != x && Below(pa, de, y, x) {
        BelowTrans(pa, de, y, c, x);
        BelowDeeper(pa, de, y, c);
      }
    }
  }
}
