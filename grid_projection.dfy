/**
 * The height-slice projection of app/grid/DrawerGrid.tsx: the visible items
 * written into a `drawerDepth` by `drawerWidth` occupancy grid, first writer
 * wins, with each written cell tagged as an item's origin ("start") or as
 * covered by it ("span").
 */
module GridProjection {
  import opened Prelude
  import opened Records
  import opened DrawerGrid

  /** A `cellSpans` entry: `false` (nothing written), `"start"` or `"span"`. */
  datatype CellSpan = NoSpan | Start | Span

  /** The item's footprint covers the 0-based cell (row, col). */
  predicate Covers(item: Item, row: int, col: int) {
    item.drawerStartRow - 1 <= row < item.drawerStartRow - 1 + item.itemDepth
    && item.drawerStartColumn - 1 <= col < item.drawerStartColumn - 1 + item.itemWidth
  }

  /** The index of the first item of `items` covering (row, col), or `|items|` when none does. */
  function FirstCover(items: seq<Item>, row: int, col: int): (k: nat)
    ensures k <= |items|
    ensures forall j :: 0 <= j < k ==> !Covers(items[j], row, col)
    ensures k < |items| ==> Covers(items[k], row, col)
  {
    if items == [] then 0
    else if Covers(items[0], row, col) then 0
    else 1 + FirstCover(items[1..], row, col)
  }

  /** The first item of `items`, in list order, that covers (row, col). */
  function CellOwner(items: seq<Item>, row: int, col: int): Option<Item> {
    var k := FirstCover(items, row, col);
    if k < |items| then Some(items[k]) else None
  }

  /** The tag of (row, col): "start" at the owner's origin cell, "span" elsewhere in its footprint. */
  function CellTag(items: seq<Item>, row: int, col: int): CellSpan {
    match CellOwner(items, row, col)
    case None => NoSpan
    case Some(item) =>
      if row == item.drawerStartRow - 1 && col == item.drawerStartColumn - 1 then Start else Span
  }

  /** `"span"` cells produce no rendered grid cell; the other two do. */
  predicate Rendered(tag: CellSpan) {
    tag != Span
  }

  /** The owner is an item of the list covering the cell, and no cell without a covering item has one. */
  lemma CellOwnerCovers(items: seq<Item>, row: int, col: int)
    ensures CellOwner(items, row, col).Some? ==>
              CellOwner(items, row, col).value in items && Covers(CellOwner(items, row, col).value, row, col)
    ensures CellOwner(items, row, col).None? <==> forall x :: x in items ==> !Covers(x, row, col)
  {
    var k := FirstCover(items, row, col);
    if k == |items| {
      forall x | x in items ensures !Covers(x, row, col) {
        var j :| 0 <= j < |items| && items[j] == x;
      }
    }
  }

  /** The first index at which an item covers the cell is determined by the covering property alone. */
  lemma {:induction false} FirstCoverUnique(items: seq<Item>, row: int, col: int, k: nat)
    requires k <= |items|
    requires forall j :: 0 <= j < k ==> !Covers(items[j], row, col)
    requires k < |items| ==> Covers(items[k], row, col)
    ensures FirstCover(items, row, col) == k
  {
    if items != [] && k != 0 {
      FirstCoverUnique(items[1..], row, col, k - 1);
    }
  }

  /** Appending an item changes only the cells no earlier item owns and the new item covers. */
  lemma CellOwnerSnoc(items: seq<Item>, item: Item, row: int, col: int)
    ensures CellOwner(items + [item], row, col)
         == if CellOwner(items, row, col).Some? then CellOwner(items, row, col)
            else if Covers(item, row, col) then Some(item)
            else None
  {
    var s := items + [item];
    var k := FirstCover(items, row, col);
    if k < |items| {
      FirstCoverUnique(s, row, col, k);
    } else if Covers(item, row, col) {
      FirstCoverUnique(s, row, col, |items|);
    } else {
      FirstCoverUnique(s, row, col, |s|);
    }
  }

  /** The tag of a cell after `placed + [item]`, given its state after `placed`. */
  lemma CellTagSnoc(items: seq<Item>, item: Item, row: int, col: int)
    ensures CellTag(items + [item], row, col)
         == if CellOwner(items, row, col).Some? then CellTag(items, row, col)
            else if Covers(item, row, col) then
              (if row == item.drawerStartRow - 1 && col == item.drawerStartColumn - 1 then Start else Span)
            else NoSpan
  {
    CellOwnerSnoc(items, item, row, col);
  }

  /** Offset (row - startRow, col - startCol) of a covered cell comes before offset (r, c) in loop order. */
  predicate Reached(item: Item, r: int, c: int, row: int, col: int) {
    var dr := row - (item.drawerStartRow - 1);
    var dc := col - (item.drawerStartColumn - 1);
    Covers(item, row, col) && (dr < r || (dr == r && dc < c))
  }

  /** The grid cell after the loops of one item have visited the offsets before (r, c). */
  function OwnerSoFar(placed: seq<Item>, item: Item, r: int, c: int, row: int, col: int): Option<Item> {
    if Reached(item, r, c, row, col) then CellOwner(placed + [item], row, col) else CellOwner(placed, row, col)
  }

  function TagSoFar(placed: seq<Item>, item: Item, r: int, c: int, row: int, col: int): CellSpan {
    if Reached(item, r, c, row, col) then CellTag(placed + [item], row, col) else CellTag(placed, row, col)
  }

  /** Every cell of both arrays holds what the items so far put there. */
  ghost predicate Projected(grid: array2<Option<Item>>, cellSpans: array2<CellSpan>, placed: seq<Item>, item: Item, r: int, c: int)
    reads grid, cellSpans
  {
    && grid.Length0 == cellSpans.Length0 && grid.Length1 == cellSpans.Length1
    && forall row, col :: 0 <= row < grid.Length0 && 0 <= col < grid.Length1 ==>
         grid[row, col] == OwnerSoFar(placed, item, r, c, row, col)
         && cellSpans[row, col] == TagSoFar(placed, item, r, c, row, col)
  }

  /** Visiting offset (r, c) adds exactly the cell at that offset to the cells reached. */
  lemma ReachedStep(item: Item, r: int, c: int, row: int, col: int)
    requires 0 <= r < item.itemDepth && 0 <= c < item.itemWidth
    ensures Reached(item, r, c + 1, row, col) <==>
              Reached(item, r, c, row, col)
              || (row == item.drawerStartRow - 1 + r && col == item.drawerStartColumn - 1 + c)
  {
  }

  /** Finishing a row of offsets is starting the next one. */
  lemma ReachedRowEnd(item: Item, r: int, c: int, row: int, col: int)
    requires c >= item.itemWidth
    ensures Reached(item, r, c, row, col) <==> Reached(item, r + 1, 0, row, col)
  {
  }

  /** Once every row of offsets is finished, the reached cells are the footprint. */
  lemma ReachedAll(item: Item, r: int, row: int, col: int)
    requires r >= item.itemDepth
    ensures Reached(item, r, 0, row, col) <==> Covers(item, row, col)
  {
  }

  /**
   * The body of the inner loop at offset (r, c): the cell there, when it lies in
   * the grid and is still empty, gets the item, tagged "start" at offset (0, 0)
   * and "span" elsewhere.
   */
  method PlaceCell(grid: array2<Option<Item>>, cellSpans: array2<CellSpan>, ghost placed: seq<Item>, item: Item, r: int, c: int)
    requires 0 <= r < item.itemDepth && 0 <= c < item.itemWidth
    requires Projected(grid, cellSpans, placed, item, r, c)
    modifies grid, cellSpans
    ensures Projected(grid, cellSpans, placed, item, r, c + 1)
  {
    var row, col := item.drawerStartRow - 1 + r, item.drawerStartColumn - 1 + c;
    forall row', col' ensures Reached(item, r, c + 1, row', col') <==> Reached(item, r, c, row', col') || (row' == row && col' == col) {
      ReachedStep(item, r, c, row', col');
    }
    if 0 <= row < grid.Length0 && 0 <= col < grid.Length1 {
      CellOwnerSnoc(placed, item, row, col);
      CellTagSnoc(placed, item, row, col);
      if grid[row, col] == None {
        grid[row, col] := Some(item);
        cellSpans[row, col] := if r == 0 && c == 0 then Start else Span;
      }
    }
  }

  /**
   * The nested loops that place one item: every in-grid cell of its
   * footprint that is still empty gets the item; cells outside the grid are
   * skipped.
   */
  method PlaceItem(grid: array2<Option<Item>>, cellSpans: array2<CellSpan>, ghost placed: seq<Item>, item: Item)
    requires Projected(grid, cellSpans, placed, item, 0, 0)
    modifies grid, cellSpans
    ensures grid.Length0 == cellSpans.Length0 && grid.Length1 == cellSpans.Length1
    ensures forall row, col :: 0 <= row < grid.Length0 && 0 <= col < grid.Length1 ==>
              grid[row, col] == CellOwner(placed + [item], row, col)
              && cellSpans[row, col] == CellTag(placed + [item], row, col)
  {
    var r := 0;
    while r < item.itemDepth
      invariant 0 <= r && (r <= item.itemDepth || r == 0)
      invariant Projected(grid, cellSpans, placed, item, r, 0)
    {
      var c := 0;
      while c < item.itemWidth
        invariant 0 <= c && (c <= item.itemWidth || c == 0)
        invariant Projected(grid, cellSpans, placed, item, r, c)
      {
        PlaceCell(grid, cellSpans, placed, item, r, c);
        c := c + 1;
      }
      forall row, col ensures Reached(item, r, c, row, col) <==> Reached(item, r + 1, 0, row, col) {
        ReachedRowEnd(item, r, c, row, col);
      }
      r := r + 1;
    }
    forall row, col | 0 <= row < grid.Length0 && 0 <= col < grid.Length1
      ensures grid[row, col] == CellOwner(placed + [item], row, col)
      ensures cellSpans[row, col] == CellTag(placed + [item], row, col)
    {
      ReachedAll(item, r, row, col);
      CellOwnerSnoc(placed, item, row, col);
      CellTagSnoc(placed, item, row, col);
    }
  }

  /**
   * The `grid` and `cellSpans` of one render: a `drawerDepth` by `drawerWidth`
   * grid in which each cell holds the first visible item covering it and its
   * tag.
   */
  method ProjectSlice(drawer: Drawer, items: seq<Item>, level: int)
    returns (grid: array2<Option<Item>>, cellSpans: array2<CellSpan>)
    requires drawer.drawerDepth >= 0 && drawer.drawerWidth >= 0
    ensures fresh(grid) && fresh(cellSpans)
    ensures grid.Length0 == cellSpans.Length0 == drawer.drawerDepth
    ensures grid.Length1 == cellSpans.Length1 == drawer.drawerWidth
    ensures forall row, col :: 0 <= row < drawer.drawerDepth && 0 <= col < drawer.drawerWidth ==>
              grid[row, col] == CellOwner(VisibleItems(items, level), row, col)
              && cellSpans[row, col] == CellTag(VisibleItems(items, level), row, col)
  {
    var visible := VisibleItems(items, level);
    grid := new Option<Item>[drawer.drawerDepth, drawer.drawerWidth]((_, _) => None);
    cellSpans := new CellSpan[drawer.drawerDepth, drawer.drawerWidth]((_, _) => NoSpan);
    var k := 0;
    while k < |visible|
      invariant 0 <= k <= |visible|
      invariant forall row, col :: 0 <= row < grid.Length0 && 0 <= col < grid.Length1 ==>
                  grid[row, col] == CellOwner(visible[..k], row, col)
                  && cellSpans[row, col] == CellTag(visible[..k], row, col)
    {
      PlaceItem(grid, cellSpans, visible[..k], visible[k]);
      assert visible[..k] + [visible[k]] == visible[..k + 1];
      k := k + 1;
    }
    assert visible[..|visible|] == visible;
  }

  /**
   * When the stored items do not overlap, first-writer-wins decides nothing:
   * each cell of the slice belongs to the one visible item covering it.
   */
  lemma OwnerIsTheCoveringItem(items: seq<Item>, level: int, i: nat, row: int, col: int)
    requires NoOverlaps(items)
    requires i < |items| && IsVisible(items[i], level) && Covers(items[i], row, col)
    ensures CellOwner(VisibleItems(items, level), row, col) == Some(items[i])
  {
    var visible := VisibleItems(items, level);
    assert items[i] in visible;
    CellOwnerCovers(visible, row, col);
    var y := CellOwner(visible, row, col).value;
    var j :| 0 <= j < |items| && items[j] == y;
    if y != items[i] {
      assert IsVisible(y, level);
      assert BoxesIntersect(ItemBox(items[i]), ItemBox(y));
      assert false;
    }
  }

  /**
   * Hence, without overlaps, a visible item's origin cell is rendered as its
   * "start" cell and every other cell of its footprint is a hidden "span".
   */
  lemma OriginRenderedOnce(items: seq<Item>, level: int, i: nat, row: int, col: int)
    requires NoOverlaps(items)
    requires i < |items| && IsVisible(items[i], level) && Covers(items[i], row, col)
    ensures var tag := CellTag(VisibleItems(items, level), row, col);
            (tag == Start <==> row == items[i].drawerStartRow - 1 && col == items[i].drawerStartColumn - 1)
            && (Rendered(tag) <==> tag == Start)
  {
    OwnerIsTheCoveringItem(items, level, i, row, col);
  }
}
