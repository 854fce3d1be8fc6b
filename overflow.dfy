/** The overflow helpers of the window tracker (src/window-tracker-overflow.ts): whether a
    new window would make the tiles of a workspace too small, decided on the layout alone.
    Unlike the strategy records, only SplitH and SplitV can ever float a window here. */
module Overflow {
  import opened Containers
  import Strategy

  /** shouldFloatOnAdd (src/window-tracker-overflow.ts:4-20): SplitH compares the width per
      tile with the minimum width, SplitV the height per tile with the minimum height, and
      every other layout never floats. */
  function ShouldFloatOnAdd(layout: Layout, workspaceRect: Rect, projectedCount: nat,
                            minTileWidth: int, minTileHeight: int): (b: bool)
    ensures layout == SplitH && projectedCount > 0 ==> (b <==> workspaceRect.width < minTileWidth * projectedCount)
    ensures layout == SplitV && projectedCount > 0 ==> (b <==> workspaceRect.height < minTileHeight * projectedCount)
    ensures layout != SplitH && layout != SplitV ==> !b
  {
    Strategy.LessThanShareIff(workspaceRect.width, projectedCount, minTileWidth);
    Strategy.LessThanShareIff(workspaceRect.height, projectedCount, minTileHeight);
    if layout == SplitH then Strategy.LessThanShare(workspaceRect.width, projectedCount, minTileWidth)
    else if layout == SplitV then Strategy.LessThanShare(workspaceRect.height, projectedCount, minTileHeight)
    else false
  }

  /** shouldFloatOnRetry (src/window-tracker-overflow.ts:22-41): as on add, with the minimum
      raised to the length the window actually took. */
  function ShouldFloatOnRetry(layout: Layout, workspaceRect: Rect, tiledCount: nat,
                              minTileWidth: int, minTileHeight: int, actualRect: Rect): (b: bool)
    ensures layout == SplitH && tiledCount > 0 ==>
              (b <==> workspaceRect.width < Strategy.Max(minTileWidth, actualRect.width) * tiledCount)
    ensures layout == SplitV && tiledCount > 0 ==>
              (b <==> workspaceRect.height < Strategy.Max(minTileHeight, actualRect.height) * tiledCount)
    ensures layout != SplitH && layout != SplitV ==> !b
  {
    var minWidth := Strategy.Max(minTileWidth, actualRect.width);
    var minHeight := Strategy.Max(minTileHeight, actualRect.height);
    Strategy.LessThanShareIff(workspaceRect.width, tiledCount, minWidth);
    Strategy.LessThanShareIff(workspaceRect.height, tiledCount, minHeight);
    if layout == SplitH then Strategy.LessThanShare(workspaceRect.width, tiledCount, minWidth)
    else if layout == SplitV then Strategy.LessThanShare(workspaceRect.height, tiledCount, minHeight)
    else false
  }

  /** A window that floats on add also floats on retry at the same count, whatever rect it
      took. */
  lemma AddImpliesRetry(layout: Layout, workspaceRect: Rect, count: nat, minTileWidth: int,
                        minTileHeight: int, actualRect: Rect)
    ensures ShouldFloatOnAdd(layout, workspaceRect, count, minTileWidth, minTileHeight)
            ==> ShouldFloatOnRetry(layout, workspaceRect, count, minTileWidth, minTileHeight, actualRect)
  {
    if count == 0 {
      assert Strategy.Max(minTileWidth, actualRect.width) >= minTileWidth;
    } else {
      var w := Strategy.Max(minTileWidth, actualRect.width);
      var h := Strategy.Max(minTileHeight, actualRect.height);
      assert minTileWidth * count <= w * count;
      assert minTileHeight * count <= h * count;
    }
  }

  /** For SplitH and SplitV these helpers agree with the strategy records of the same layout;
      for Alternating they differ, because its record compares widths while this helper
      never floats. */
  lemma AgreesWithStrategy(layout: Layout, workspaceRect: Rect, count: nat, minTileWidth: int,
                           minTileHeight: int, actualRect: Rect)
    ensures layout == SplitH || layout == SplitV ==>
      && ShouldFloatOnAdd(layout, workspaceRect, count, minTileWidth, minTileHeight)
         == Strategy.ShouldFloatOnAdd(Strategy.GetLayoutStrategy(layout), workspaceRect, count, minTileWidth, minTileHeight)
      && ShouldFloatOnRetry(layout, workspaceRect, count, minTileWidth, minTileHeight, actualRect)
         == Strategy.ShouldFloatOnRetry(Strategy.GetLayoutStrategy(layout), workspaceRect, count, minTileWidth,
                                        minTileHeight, actualRect)
    ensures layout == Alternating && count > 0 && workspaceRect.width < minTileWidth * count ==>
      && !ShouldFloatOnAdd(layout, workspaceRect, count, minTileWidth, minTileHeight)
      && Strategy.ShouldFloatOnAdd(Strategy.GetLayoutStrategy(layout), workspaceRect, count, minTileWidth, minTileHeight)
  {
  }

  /** An illustration only; the general facts are AddImpliesRetry and AgreesWithStrategy.
      The decisions the helpers' tests expect: 600 pixels of height shared by 3 tiles is
      under 240 and floats, 720 is not; a retry at 2 tiles of 500 pixels floats once the
      window took 300 pixels, over the 240 minimum; 500 pixels of width shared by 3 tiles is
      under 300. */
  lemma Examples()
    ensures ShouldFloatOnAdd(SplitV, Rect(0, 0, 1200, 600), 3, 300, 240)
    ensures !ShouldFloatOnAdd(SplitV, Rect(0, 0, 1200, 720), 3, 300, 240)
    ensures ShouldFloatOnRetry(SplitV, Rect(0, 0, 1200, 500), 2, 300, 240, Rect(0, 0, 600, 300))
    ensures !ShouldFloatOnAdd(SplitV, Rect(0, 0, 1200, 500), 2, 300, 240)
    ensures ShouldFloatOnAdd(SplitH, Rect(0, 0, 500, 800), 3, 300, 240)
  {
  }
}
