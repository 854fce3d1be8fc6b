/** The layout strategies of src/layout/strategy.ts: which children take part in tiling,
    how a split container divides its rect among them, when a new window should float
    instead of tiling, and the alternating layout's plan for a new window. */
module Strategy {
  import opened Wrappers
  import opened Seqs
  import opened Containers

  function Max(a: int, b: int): int { if a < b then b else a }

  /** `Math.round` on the exact value: the nearest integer, halves rounding up. */
  function Round(v: real): (r: int)
    ensures r as real - 0.5 <= v < r as real + 0.5
  {
    (v + 0.5).Floor
  }

  /** The optional gap settings (`gaps` of OverflowContext, and GapConfig of the reflow). */
  datatype Gaps = Gaps(inner: Option<int>, outer: Option<int>)

  /** The module-level `overflowContext`: minimum tile sizes and the gaps in force. */
  datatype OverflowContext = OverflowContext(minTileWidth: Option<int>, minTileHeight: Option<int>,
                                             gaps: Option<Gaps>)

  function InnerGap(g: Option<Gaps>): int { if g.Some? then g.value.inner.GetOr(0) else 0 }
  function OuterGap(g: Option<Gaps>): int { if g.Some? then g.value.outer.GetOr(0) else 0 }

  /** The children that take part in tiling, in list order: all but floating windows. */
  function LayoutChildren(nodes: map<Ref, Node>, cs: seq<Ref>): (r: seq<Ref>)
    requires forall c :: c in cs ==> c in nodes
    ensures |r| <= |cs|
    ensures forall c :: c in r ==> c in cs && nodes[c].IsTiled()
  {
    if cs == [] then []
    else (if nodes[cs[0]].IsTiled() then [cs[0]] else []) + LayoutChildren(nodes, cs[1..])
  }

  /** Filtering distributes over concatenation, so the relative order of the kept children
      is their order in the child list. */
  lemma {:induction false} LayoutChildrenAppend(nodes: map<Ref, Node>, a: seq<Ref>, b: seq<Ref>)
    requires forall c :: c in a + b ==> c in nodes
    ensures LayoutChildren(nodes, a + b) == LayoutChildren(nodes, a) + LayoutChildren(nodes, b)
  {
    if a != [] {
      assert (a + b)[0] == a[0] && (a + b)[1..] == a[1..] + b;
      LayoutChildrenAppend(nodes, a[1..], b);
    } else {
      assert a + b == b;
    }
  }

  /** A list without duplicates keeps none after filtering. */
  lemma {:induction false} LayoutChildrenNoDup(nodes: map<Ref, Node>, cs: seq<Ref>)
    requires forall c :: c in cs ==> c in nodes
    requires NoDup(cs)
    ensures NoDup(LayoutChildren(nodes, cs))
  {
    if cs != [] {
      assert NoDup(cs[1..]) by {
        forall i, j | 0 <= i < j < |cs[1..]| ensures cs[1..][i] != cs[1..][j] {
          assert cs[1..][i] == cs[i + 1] && cs[1..][j] == cs[j + 1];
        }
      }
      LayoutChildrenNoDup(nodes, cs[1..]);
      var rest := LayoutChildren(nodes, cs[1..]);
      assert cs[0] !in cs[1..] by {
        forall j | 0 <= j < |cs[1..]| ensures cs[1..][j] != cs[0] {
          assert cs[1..][j] == cs[j + 1];
        }
      }
      assert cs[0] !in rest;
    }
  }

  /** The `proportion` of each listed container. */
  function Proportions(nodes: map<Ref, Node>, cs: seq<Ref>): (ps: seq<real>)
    requires forall c :: c in cs ==> c in nodes
    ensures |ps| == |cs|
  {
    seq(|cs|, i requires 0 <= i < |cs| => nodes[cs[i]].proportion)
  }

  // ---- the geometry of a split ----

  function MainStart(r: Rect, horizontal: bool): int { if horizontal then r.x else r.y }
  function MainSize(r: Rect, horizontal: bool): int { if horizontal then r.width else r.height }
  function CrossStart(r: Rect, horizontal: bool): int { if horizontal then r.y else r.x }
  function CrossSize(r: Rect, horizontal: bool): int { if horizontal then r.height else r.width }

  /** The container's rect shrunk by the outer gap on every side, never below zero size. */
  function BaseRect(r: Rect, outer: int): Rect {
    Rect(r.x + outer, r.y + outer, Max(0, r.width - outer * 2), Max(0, r.height - outer * 2))
  }

  /** The tile of one child: `size` along the main axis from `offset`, the whole base
      across it. */
  function Slot(base: Rect, horizontal: bool, offset: int, size: int): (r: Rect)
    ensures MainStart(r, horizontal) == offset && MainSize(r, horizontal) == size
    ensures CrossStart(r, horizontal) == CrossStart(base, horizontal)
    ensures CrossSize(r, horizontal) == CrossSize(base, horizontal)
  {
    if horizontal then Rect(offset, base.y, size, base.height) else Rect(base.x, offset, base.width, size)
  }

  /** The proportion total, or 1 when it is not positive. */
  function SafeTotal(ps: seq<real>): (t: real)
    ensures t > 0.0
  {
    if SumReal(ps) > 0.0 then SumReal(ps) else 1.0
  }

  /** The main-axis length left for tiles once the inner gaps between `k` tiles are taken. */
  function Available(base: Rect, horizontal: bool, k: nat, inner: int): (a: int)
    ensures a >= 0
  {
    Max(0, MainSize(base, horizontal) - inner * (k - 1))
  }

  /** The rounded share of `available` that proportion `p` of `total` earns: within half a
      pixel of the exact share. */
  function Share(p: real, total: real, available: int): (s: int)
    requires total > 0.0
  {
    Round(p / total * available as real)
  }

  /** The main-axis size of each tile: every tile but the last gets its rounded share of
      `available`, the last whatever the others left, so the sizes add up to `available`. */
  function Sizes(ps: seq<real>, available: int): (r: seq<int>)
    requires |ps| > 0
    ensures |r| == |ps| && Sum(r) == available
    ensures forall i :: 0 <= i < |ps| - 1 ==> r[i] == Share(ps[i], SafeTotal(ps), available)
  {
    var k := |ps|;
    var shares := seq(k - 1, i requires 0 <= i < k - 1 => Share(ps[i], SafeTotal(ps), available));
    var r := shares + [available - Sum(shares)];
    assert r[..k - 1] == shares;
    r
  }

  /** Where tile `i` starts along the main axis: each tile starts one inner gap after the
      previous one ends. */
  function TileStart(base: Rect, horizontal: bool, sizes: seq<int>, inner: int, i: nat): int
    requires i <= |sizes|
  {
    if i == 0 then MainStart(base, horizontal)
    else TileStart(base, horizontal, sizes, inner, i - 1) + sizes[i - 1] + inner
  }

  /** Tile `i` starts after the sizes of the tiles before it and `i` inner gaps. */
  lemma {:induction false} TileStartSum(base: Rect, horizontal: bool, sizes: seq<int>, inner: int, i: nat)
    requires i <= |sizes|
    ensures TileStart(base, horizontal, sizes, inner, i) == MainStart(base, horizontal) + Sum(sizes[..i]) + inner * i
  {
    if i > 0 {
      TileStartSum(base, horizontal, sizes, inner, i - 1);
      SumPrefix(sizes, i - 1);
      assert inner * i == inner * (i - 1) + inner;
    }
  }

  /** The tiles from the `i`-th size on, laid out along the main axis of `base`. */
  function TilesFrom(base: Rect, horizontal: bool, sizes: seq<int>, inner: int, i: nat): (rs: seq<Rect>)
    requires i <= |sizes|
    ensures |rs| == |sizes| - i
    decreases |sizes| - i
  {
    if i == |sizes| then []
    else [Slot(base, horizontal, TileStart(base, horizontal, sizes, inner, i), sizes[i])]
         + TilesFrom(base, horizontal, sizes, inner, i + 1)
  }

  lemma {:induction false} TilesFromAt(base: Rect, horizontal: bool, sizes: seq<int>, inner: int, i: nat, j: nat)
    requires i <= j < |sizes|
    ensures TilesFrom(base, horizontal, sizes, inner, i)[j - i]
            == Slot(base, horizontal, TileStart(base, horizontal, sizes, inner, j), sizes[j])
    decreases j - i
  {
    if i < j {
      TilesFromAt(base, horizontal, sizes, inner, i + 1, j);
    }
  }

  /** The rects `computeSplitRects` gives the tiled children whose proportions are `ps`. */
  function SplitRects(rect: Rect, horizontal: bool, ps: seq<real>, gaps: Option<Gaps>): (rs: seq<Rect>)
    ensures |rs| == |ps|
  {
    if |ps| == 0 then []
    else
      var base := BaseRect(rect, OuterGap(gaps));
      TilesFrom(base, horizontal, Sizes(ps, Available(base, horizontal, |ps|, InnerGap(gaps))), InnerGap(gaps), 0)
  }

  /** Tile `i` of a split, spelled out. */
  lemma TileAt(rect: Rect, horizontal: bool, ps: seq<real>, gaps: Option<Gaps>, i: nat)
    requires i < |ps|
    ensures var base := BaseRect(rect, OuterGap(gaps));
            var sizes := Sizes(ps, Available(base, horizontal, |ps|, InnerGap(gaps)));
            SplitRects(rect, horizontal, ps, gaps)[i]
            == Slot(base, horizontal, TileStart(base, horizontal, sizes, InnerGap(gaps), i), sizes[i])
  {
    var base := BaseRect(rect, OuterGap(gaps));
    TilesFromAt(base, horizontal, Sizes(ps, Available(base, horizontal, |ps|, InnerGap(gaps))), InnerGap(gaps), 0, i);
  }

  /** The tiles lie side by side along the main axis: the first at the outer gap, each next
      one an inner gap after the previous one ends. */
  lemma SplitRectsAdjacent(rect: Rect, horizontal: bool, ps: seq<real>, gaps: Option<Gaps>)
    requires |ps| > 0
    ensures var rs := SplitRects(rect, horizontal, ps, gaps);
            MainStart(rs[0], horizontal) == MainStart(rect, horizontal) + OuterGap(gaps)
            && forall i :: 0 <= i < |ps| - 1 ==>
                 MainStart(rs[i + 1], horizontal)
                 == MainStart(rs[i], horizontal) + MainSize(rs[i], horizontal) + InnerGap(gaps)
  {
    TileAt(rect, horizontal, ps, gaps, 0);
    forall i | 0 <= i < |ps| - 1
      ensures var rs := SplitRects(rect, horizontal, ps, gaps);
              MainStart(rs[i + 1], horizontal)
              == MainStart(rs[i], horizontal) + MainSize(rs[i], horizontal) + InnerGap(gaps)
    {
      TileAt(rect, horizontal, ps, gaps, i);
      TileAt(rect, horizontal, ps, gaps, i + 1);
    }
  }

  /** Across the main axis every tile spans the whole base rect. */
  lemma SplitRectsCross(rect: Rect, horizontal: bool, ps: seq<real>, gaps: Option<Gaps>)
    ensures var rs := SplitRects(rect, horizontal, ps, gaps);
            forall i :: 0 <= i < |rs| ==>
              CrossStart(rs[i], horizontal) == CrossStart(rect, horizontal) + OuterGap(gaps)
              && CrossSize(rs[i], horizontal) == Max(0, CrossSize(rect, horizontal) - 2 * OuterGap(gaps))
  {
    forall i | 0 <= i < |ps| ensures
      var rs := SplitRects(rect, horizontal, ps, gaps);
      CrossStart(rs[i], horizontal) == CrossStart(rect, horizontal) + OuterGap(gaps)
      && CrossSize(rs[i], horizontal) == Max(0, CrossSize(rect, horizontal) - 2 * OuterGap(gaps))
    {
      TileAt(rect, horizontal, ps, gaps, i);
    }
  }

  /** Each tile but the last gets its rounded share of the available length, within half a
      pixel of the exact one. */
  lemma SplitRectsShares(rect: Rect, horizontal: bool, ps: seq<real>, gaps: Option<Gaps>)
    requires |ps| > 0
    ensures var rs := SplitRects(rect, horizontal, ps, gaps);
            var available := Available(BaseRect(rect, OuterGap(gaps)), horizontal, |ps|, InnerGap(gaps));
            forall i :: 0 <= i < |ps| - 1 ==>
              MainSize(rs[i], horizontal) == Share(ps[i], SafeTotal(ps), available)
  {
    forall i | 0 <= i < |ps| - 1 {
      TileAt(rect, horizontal, ps, gaps, i);
    }
  }

  /** The tiles' main sizes add up to the available length, so the last one ends exactly
      where the available length and the inner gaps do. */
  lemma SplitRectsEnd(rect: Rect, horizontal: bool, ps: seq<real>, gaps: Option<Gaps>)
    requires |ps| > 0
    ensures var rs := SplitRects(rect, horizontal, ps, gaps);
            var base := BaseRect(rect, OuterGap(gaps));
            var available := Available(base, horizontal, |ps|, InnerGap(gaps));
            MainStart(rs[|ps| - 1], horizontal) + MainSize(rs[|ps| - 1], horizontal)
            == MainStart(base, horizontal) + available + InnerGap(gaps) * (|ps| - 1)
  {
    var k, inner := |ps|, InnerGap(gaps);
    var base := BaseRect(rect, OuterGap(gaps));
    var available := Available(base, horizontal, k, inner);
    var sizes := Sizes(ps, available);
    TileAt(rect, horizontal, ps, gaps, k - 1);
    TileStartSum(base, horizontal, sizes, inner, k - 1);
    SumPrefix(sizes, k - 1);
    assert sizes[..k] == sizes;
  }

  /** When the gaps fit, the tiles exactly fill the base rect along the main axis. */
  lemma SplitRectsFill(rect: Rect, horizontal: bool, ps: seq<real>, gaps: Option<Gaps>)
    requires |ps| > 0
    requires MainSize(BaseRect(rect, OuterGap(gaps)), horizontal) >= InnerGap(gaps) * (|ps| - 1)
    ensures var rs := SplitRects(rect, horizontal, ps, gaps);
            var base := BaseRect(rect, OuterGap(gaps));
            MainStart(rs[|ps| - 1], horizontal) + MainSize(rs[|ps| - 1], horizontal)
            == MainStart(base, horizontal) + MainSize(base, horizontal)
  {
    SplitRectsEnd(rect, horizontal, ps, gaps);
  }

  /** `nodes` with the rect of `c` replaced. */
  function WithRect(nodes: map<Ref, Node>, c: Ref, r: Rect): map<Ref, Node>
    requires c in nodes
  {
    nodes[c := nodes[c].(rect := r)]
  }

  /** `nodes` with the `i`-th listed container's rect set to `rs[i]`, in list order. */
  function Placed(nodes: map<Ref, Node>, cs: seq<Ref>, rs: seq<Rect>): (r: map<Ref, Node>)
    requires |cs| == |rs| && forall c :: c in cs ==> c in nodes
    ensures r.Keys == nodes.Keys
    decreases |cs|
  {
    if cs == [] then nodes
    else
      WithRect(Placed(nodes, cs[..|cs| - 1], rs[..|rs| - 1]), cs[|cs| - 1], rs[|rs| - 1])
  }

  /** Placing changes nothing but rects, and only those of the listed containers. */
  lemma {:induction false} PlacedOnlyRects(nodes: map<Ref, Node>, cs: seq<Ref>, rs: seq<Rect>)
    requires |cs| == |rs| && forall c :: c in cs ==> c in nodes
    ensures var r := Placed(nodes, cs, rs);
            (forall y :: y in nodes ==> r[y] == nodes[y].(rect := r[y].rect))
            && forall y :: y in nodes && y !in cs ==> r[y] == nodes[y]
    decreases |cs|
  {
    if cs != [] {
      PlacedOnlyRects(nodes, cs[..|cs| - 1], rs[..|rs| - 1]);
    }
  }

  /** With no duplicates in the list, each listed container ends up with its own rect. */
  lemma {:induction false} PlacedAt(nodes: map<Ref, Node>, cs: seq<Ref>, rs: seq<Rect>)
    requires |cs| == |rs| && forall c :: c in cs ==> c in nodes
    requires NoDup(cs)
    ensures forall i :: 0 <= i < |cs| ==> Placed(nodes, cs, rs)[cs[i]].rect == rs[i]
    decreases |cs|
  {
    if cs != [] {
      var k := |cs| - 1;
      assert NoDup(cs[..k]);
      PlacedAt(nodes, cs[..k], rs[..k]);
      forall i | 0 <= i < k ensures Placed(nodes, cs, rs)[cs[i]].rect == rs[i] {
        assert cs[i] == cs[..k][i] && rs[i] == rs[..k][i];
      }
    }
  }

  /** Placing one more listed container extends the placement by one map update. */
  lemma PlacedNext(nodes: map<Ref, Node>, cs: seq<Ref>, rs: seq<Rect>, i: nat)
    requires |cs| == |rs| && i < |cs| && forall c :: c in cs ==> c in nodes
    ensures var m := Placed(nodes, cs[..i], rs[..i]);
            cs[i] in m && Placed(nodes, cs[..i + 1], rs[..i + 1]) == WithRect(m, cs[i], rs[i])
  {
    assert cs[..i + 1][..i] == cs[..i] && rs[..i + 1][..i] == rs[..i];
  }

  /** One turn of the loop of `computeSplitRects`: the `i`-th tiled child gets its size (its
      rounded share, or what is left for the last one), `child.rect` is set to its tile, and the
      running total and offset move past it. */
  method PlaceTile(out: map<Ref, Node>, c: Ref, base: Rect, horizontal: bool, inner: int,
                   p: real, safeProportion: real, available: int, last: bool, used: int, offset: int,
                   ghost nodes: map<Ref, Node>, ghost lc: seq<Ref>, ghost sizes: seq<int>,
                   ghost rects: seq<Rect>, ghost i: nat)
    returns (out': map<Ref, Node>, used': int, offset': int)
    requires |lc| == |sizes| == |rects| && i < |lc| && forall c :: c in lc ==> c in nodes
    requires (last <==> i == |lc| - 1) && Sum(sizes) == available && used == Sum(sizes[..i])
    requires safeProportion > 0.0 && (!last ==> sizes[i] == Share(p, safeProportion, available))
    requires offset == TileStart(base, horizontal, sizes, inner, i)
    requires rects[i] == Slot(base, horizontal, offset, sizes[i])
    requires out == Placed(nodes, lc[..i], rects[..i]) && c == lc[i]
    ensures out' == Placed(nodes, lc[..i + 1], rects[..i + 1])
    ensures used' == Sum(sizes[..i + 1])
    ensures offset' == TileStart(base, horizontal, sizes, inner, i + 1)
  {
    SumPrefix(sizes, i);
    var size;
    if last {
      size := available - used;
      assert sizes[..i + 1] == sizes;
    } else {
      size := Share(p, safeProportion, available);
    }
    used' := used + size;
    PlacedNext(nodes, lc, rects, i);
    out' := WithRect(out, c, Slot(base, horizontal, offset, size));
    offset' := offset + size + inner;
  }

  /** The loop of `computeSplitRects`: walks the tiled children `lc` in order, giving each
      its size (its rounded share, or what is left for the last one) and placing it one inner
      gap after the previous tile. `sizes` and `rects` are the sizes and tiles it is meant
      to produce. */
  method PlaceTiles(nodes: map<Ref, Node>, lc: seq<Ref>, base: Rect, horizontal: bool, inner: int,
                    ps: seq<real>, safeProportion: real, available: int,
                    ghost sizes: seq<int>, ghost rects: seq<Rect>)
    returns (out: map<Ref, Node>)
    requires forall c :: c in lc ==> c in nodes
    requires |ps| == |lc| == |sizes| == |rects| && safeProportion > 0.0 && Sum(sizes) == available
    requires forall j {:trigger Share(ps[j], safeProportion, available)} :: 0 <= j < |lc| - 1 ==>
               sizes[j] == Share(ps[j], safeProportion, available)
    requires forall j {:trigger rects[j]} :: 0 <= j < |lc| ==>
               rects[j] == Slot(base, horizontal, TileStart(base, horizontal, sizes, inner, j), sizes[j])
    ensures out == Placed(nodes, lc, rects)
  {
    out := nodes;
    var used := 0;
    var offset := MainStart(base, horizontal);
    var i := 0;
    assert lc[..0] == [] && rects[..0] == [] && sizes[..0] == [];
    while i < |lc|
      invariant 0 <= i <= |lc|
      invariant out == Placed(nodes, lc[..i], rects[..i])
      invariant used == Sum(sizes[..i])
      invariant offset == TileStart(base, horizontal, sizes, inner, i)
    {
      out, used, offset := PlaceTile(out, lc[i], base, horizontal, inner, ps[i], safeProportion, available,
                                     i == |lc| - 1, used, offset, nodes, lc, sizes, rects, i);
      i := i + 1;
    }
    assert lc[..i] == lc && rects[..i] == rects;
  }

  /** computeSplitRects (src/layout/strategy.ts:60-118) on the node map: each tiled child of
      the container gets its tile of `SplitRects`; nothing else changes. */
  method ComputeSplitRects(nodes: map<Ref, Node>, cs: seq<Ref>, rect: Rect, horizontal: bool, gaps: Option<Gaps>)
    returns (out: map<Ref, Node>)
    requires forall c :: c in cs ==> c in nodes
    ensures var lc := LayoutChildren(nodes, cs);
            out == Placed(nodes, lc, SplitRects(rect, horizontal, Proportions(nodes, lc), gaps))
  {
    var lc := LayoutChildren(nodes, cs);
    if |lc| == 0 {
      return nodes;
    }
    var inner, outer := InnerGap(gaps), OuterGap(gaps);
    var base := BaseRect(rect, outer);
    var ps := Proportions(nodes, lc);
    var safeProportion := SafeTotal(ps);
    var available := Available(base, horizontal, |lc|, inner);
    ghost var sizes := Sizes(ps, available);
    ghost var rects := SplitRects(rect, horizontal, ps, gaps);
    forall j | 0 <= j < |lc|
      ensures rects[j] == Slot(base, horizontal, TileStart(base, horizontal, sizes, inner, j), sizes[j])
    {
      TileAt(rect, horizontal, ps, gaps, j);
    }
    out := PlaceTiles(nodes, lc, base, horizontal, inner, ps, safeProportion, available, sizes, rects);
  }

  /** The four strategy records (src/layout/strategy.ts:120-238). The fallback is a SplitV
      record that is not in the lookup table. */
  datatype LayoutStrategy = SplitHStrategy | SplitVStrategy | AlternatingStrategy | FallbackStrategy
  {
    /** The record's `id`. */
    function Id(): Layout {
      match this
      case SplitHStrategy => SplitH
      case SplitVStrategy => SplitV
      case AlternatingStrategy => Alternating
      case FallbackStrategy => SplitV
    }

    /** Whether `computeRects` splits along the x axis. */
    predicate Horizontal() { this == SplitHStrategy || this == AlternatingStrategy }

    /** Whether the record defines `onWindowAdded`. */
    predicate HasWindowAddedHook() { this == AlternatingStrategy }
  }

  /** getLayoutStrategy: the table entry for SplitH, SplitV and Alternating, the fallback
      for any other layout. */
  function GetLayoutStrategy(l: Layout): (s: LayoutStrategy)
    ensures l == SplitH || l == SplitV || l == Alternating ==> s.Id() == l
    ensures s.Id() == l || (s == FallbackStrategy && s.Id() == SplitV)
    ensures s.Horizontal() <==> l == SplitH || l == Alternating
    ensures s.HasWindowAddedHook() <==> l == Alternating
  {
    match l
    case SplitH => SplitHStrategy
    case SplitV => SplitVStrategy
    case Alternating => AlternatingStrategy
    case _ => FallbackStrategy
  }

  /** `total / count < min` in JavaScript numbers, exactly. Dividing by zero gives +Infinity
      for a positive total, NaN for zero and -Infinity for a negative total, so with no
      tiles the comparison holds only for a negative total. */
  predicate LessThanShare(total: int, count: nat, min: int) {
    if count == 0 then total < 0 else total as real / count as real < min as real
  }

  /** With at least one tile, the share is below the minimum exactly when the total is below
      `count` minimum tiles. */
  lemma LessThanShareIff(total: int, count: nat, min: int)
    ensures count > 0 ==> (LessThanShare(total, count, min) <==> total < min * count)
  {
    if count == 0 { return; }
    var c := count as real;
    if total as real / c < min as real {
      assert total as real == total as real / c * c;
    } else {
      assert total as real / c * c >= min as real * c;
      assert total as real == total as real / c * c;
    }
  }

  /** shouldFloatOnAdd: would the work area's length along the split axis, shared by
      `projectedCount` tiles, be shorter than the minimum tile length? */
  function ShouldFloatOnAdd(s: LayoutStrategy, workspaceRect: Rect, projectedCount: nat,
                            minTileWidth: int, minTileHeight: int): (b: bool)
    ensures projectedCount > 0 ==>
      (b <==> if s.Horizontal() then workspaceRect.width < minTileWidth * projectedCount
              else workspaceRect.height < minTileHeight * projectedCount)
    ensures projectedCount == 0 ==>
      (b <==> (if s.Horizontal() then workspaceRect.width else workspaceRect.height) < 0)
  {
    LessThanShareIff(workspaceRect.width, projectedCount, minTileWidth);
    LessThanShareIff(workspaceRect.height, projectedCount, minTileHeight);
    if s.Horizontal() then LessThanShare(workspaceRect.width, projectedCount, minTileWidth)
    else LessThanShare(workspaceRect.height, projectedCount, minTileHeight)
  }

  /** shouldFloatOnRetry: as on add, but the minimum is raised to the length the window
      actually took after tiling (a window that refuses to shrink). */
  function ShouldFloatOnRetry(s: LayoutStrategy, workspaceRect: Rect, tiledCount: nat,
                              minTileWidth: int, minTileHeight: int, actualRect: Rect): (b: bool)
    ensures tiledCount > 0 ==>
      (b <==> if s.Horizontal() then workspaceRect.width < Max(minTileWidth, actualRect.width) * tiledCount
              else workspaceRect.height < Max(minTileHeight, actualRect.height) * tiledCount)
  {
    LessThanShareIff(workspaceRect.width, tiledCount, Max(minTileWidth, actualRect.width));
    LessThanShareIff(workspaceRect.height, tiledCount, Max(minTileHeight, actualRect.height));
    if s.Horizontal() then LessThanShare(workspaceRect.width, tiledCount, Max(minTileWidth, actualRect.width))
    else LessThanShare(workspaceRect.height, tiledCount, Max(minTileHeight, actualRect.height))
  }

  /** A window that would float on add also floats on retry, whatever rect it took. */
  lemma AddImpliesRetry(s: LayoutStrategy, workspaceRect: Rect, count: nat, minTileWidth: int,
                        minTileHeight: int, actualRect: Rect)
    ensures ShouldFloatOnAdd(s, workspaceRect, count, minTileWidth, minTileHeight)
            ==> ShouldFloatOnRetry(s, workspaceRect, count, minTileWidth, minTileHeight, actualRect)
  {
    if count > 0 {
      var w := Max(minTileWidth, actualRect.width);
      var h := Max(minTileHeight, actualRect.height);
      assert minTileWidth * count <= w * count;
      assert minTileHeight * count <= h * count;
    }
  }

  /** On a work area of non-negative size, once `n` windows are too many so are more. */
  lemma FloatOnAddMonotone(s: LayoutStrategy, workspaceRect: Rect, n: nat, m: nat,
                           minTileWidth: int, minTileHeight: int)
    requires 0 < n <= m && workspaceRect.width >= 0 && workspaceRect.height >= 0
    ensures ShouldFloatOnAdd(s, workspaceRect, n, minTileWidth, minTileHeight)
            ==> ShouldFloatOnAdd(s, workspaceRect, m, minTileWidth, minTileHeight)
  {
    if ShouldFloatOnAdd(s, workspaceRect, n, minTileWidth, minTileHeight) {
      if s.Horizontal() {
        assert minTileWidth > 0;
        assert minTileWidth * n <= minTileWidth * m;
      } else {
        assert minTileHeight > 0;
        assert minTileHeight * n <= minTileHeight * m;
      }
    }
  }

  /** Where InsertionContext's `mode` says a new window goes. */
  datatype InsertionMode = FocusedMode | AppendMode | TailMode

  /** InsertionContext without the root, which the hook does not read. */
  datatype InsertionContext = InsertionContext(parent: Ref, focused: Ref, mode: InsertionMode)

  /** InsertionPlan: every field optional. */
  datatype InsertionPlan = InsertionPlan(container: Option<Ref>, wrapTarget: Option<Ref>,
                                         wrapLayout: Option<Layout>)

  /** The alternating strategy's `onWindowAdded` (src/layout/strategy.ts:183-212): in focused
      or tail mode, when the focused window sits in a split, wrap the focused window (or the
      split's last child) in a new split perpendicular to the old one. */
  function OnWindowAdded(nodes: map<Ref, Node>, ch: map<Ref, seq<Ref>>, pa: map<Ref, Option<Ref>>,
                         ctx: InsertionContext): (r: Option<InsertionPlan>)
    requires ctx.focused in pa
    requires pa[ctx.focused].Some? ==> pa[ctx.focused].value in nodes && pa[ctx.focused].value in ch
    ensures r.Some? <==>
      (!ctx.mode.AppendMode? && pa[ctx.focused].Some? && nodes[pa[ctx.focused].value].Kind() == Split
       && (ctx.mode.TailMode? ==> ch[pa[ctx.focused].value] != []))
    ensures r.Some? && ctx.mode.FocusedMode? ==> r.value.wrapTarget == Some(ctx.focused)
    ensures r.Some? && ctx.mode.TailMode? ==>
      var cs := ch[pa[ctx.focused].value]; |cs| > 0 && r.value.wrapTarget == Some(cs[|cs| - 1])
    ensures r.Some? ==>
      var l := nodes[pa[ctx.focused].value].layout;
      && r.value.container == Some(ctx.parent)
      && r.value.wrapLayout == Some(if l == SplitH then SplitV else SplitH)
  {
    if ctx.mode.AppendMode? then None
    else if pa[ctx.focused].None? || nodes[pa[ctx.focused].value].Kind() != Split then None
    else
      var p := pa[ctx.focused].value;
      if ctx.mode.TailMode? && ch[p] == [] then None
      else
        var wrapTarget := if ctx.mode.FocusedMode? then ctx.focused else ch[p][|ch[p]| - 1];
        Some(InsertionPlan(Some(ctx.parent), Some(wrapTarget), Some(Toggled(nodes[p].layout))))
  }
}
