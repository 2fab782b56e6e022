/**
 * The pure helpers of the drawer grid (app/grid/DrawerGrid.tsx): which items
 * show at a height level, the min/max form of a drag rectangle, the
 * three-dimensional overlap test `checkHeightIntersection` and the message
 * `validatePosition` builds from it.
 *
 * Coordinates: a selection and the grid are 0-based; a stored item's
 * `drawerStartRow` and `drawerStartColumn` are 1-based; heights are 1-based
 * on both sides.
 */
module DrawerGrid {
  import opened Prelude
  import opened JsText
  import opened Records

  /** A grid cell, 0-based. */
  datatype Cell = Cell(row: int, col: int)

  /** A drag from the cell where the mouse went down to the one it is over now. */
  datatype Selection = Selection(start: Cell, end: Cell)

  /** The inclusive 0-based row and column range of a selection. */
  datatype Rect = Rect(startRow: int, endRow: int, startCol: int, endCol: int)

  function Min(a: int, b: int): int {
    if a <= b then a else b
  }

  function Max(a: int, b: int): int {
    if a <= b then b else a
  }

  /** `getNormalizedSelection`: the rectangle spanned by the two corners of a drag. */
  function GetNormalizedSelection(s: Selection): (r: Rect)
    ensures r.startRow <= r.endRow && r.startCol <= r.endCol
    ensures {r.startRow, r.endRow} == {s.start.row, s.end.row}
    ensures {r.startCol, r.endCol} == {s.start.col, s.end.col}
  {
    Rect(Min(s.start.row, s.end.row), Max(s.start.row, s.end.row),
         Min(s.start.col, s.end.col), Max(s.start.col, s.end.col))
  }

  /** The rectangle does not depend on which corner the drag began from. */
  lemma NormalizedSelectionIgnoresDirection(a: Cell, b: Cell)
    ensures GetNormalizedSelection(Selection(a, b)) == GetNormalizedSelection(Selection(b, a))
    ensures GetNormalizedSelection(Selection(Cell(a.row, b.col), Cell(b.row, a.col)))
         == GetNormalizedSelection(Selection(a, b))
  {
  }

  /** The level range `[startHeight, startHeight + itemHeight - 1]` of an item contains `level`. */
  predicate IsVisible(item: Item, level: int) {
    item.startHeight <= level <= item.startHeight + item.itemHeight - 1
  }

  /** `visibleItems`: the items shown at height level `level`, in list order. */
  function VisibleItems(items: seq<Item>, level: int): (r: seq<Item>)
    ensures IsSubsequence(r, items)
    ensures forall x :: x in r <==> x in items && IsVisible(x, level)
  {
    if items == [] then []
    else
      var rest := VisibleItems(items[1..], level);
      assert forall x :: x in items <==> x == items[0] || x in items[1..];
      if IsVisible(items[0], level) then
        assert ([items[0]] + rest)[1..] == rest;
        [items[0]] + rest
      else rest
  }

  /** The level keeps every visible item as many times as it occurs, and no other item. */
  lemma {:induction false} VisibleItemsCounts(items: seq<Item>, level: int)
    ensures forall x :: multiset(VisibleItems(items, level))[x] == if IsVisible(x, level) then multiset(items)[x] else 0
  {
    if items != [] {
      VisibleItemsCounts(items[1..], level);
      assert items == [items[0]] + items[1..];
      var rest := VisibleItems(items[1..], level);
      assert VisibleItems(items, level) == if IsVisible(items[0], level) then [items[0]] + rest else rest;
    }
  }

  /** `isHighlighted` of a grid cell: there is an item and a non-empty term its name matches. */
  predicate IsHighlighted(cell: Option<Item>, searchTerm: string)
    ensures IsHighlighted(cell, searchTerm) <==>
              && searchTerm != "" && cell.Some?
              && exists i :: OccursAt(ToLower(cell.value.name), ToLower(searchTerm), i)
  {
    if searchTerm != "" && cell.Some? then
      assert MatchesSearch(cell.value.name, searchTerm) == Includes(ToLower(cell.value.name), ToLower(searchTerm));
      MatchesSearch(cell.value.name, searchTerm)
    else false
  }

  /** An axis-aligned box: inclusive 0-based row and column ranges and an inclusive height range. */
  datatype Box = Box(rowLo: int, rowHi: int, colLo: int, colHi: int, heightLo: int, heightHi: int)

  /** The box a stored item occupies, with its 1-based row and column made 0-based. */
  function ItemBox(item: Item): Box {
    Box(item.drawerStartRow - 1, item.drawerStartRow - 1 + item.itemDepth - 1,
        item.drawerStartColumn - 1, item.drawerStartColumn - 1 + item.itemWidth - 1,
        item.startHeight, item.startHeight + item.itemHeight - 1)
  }

  /** The box a candidate with selection rectangle `r`, start level and height would occupy. */
  function CandidateBox(r: Rect, startHeight: int, itemHeight: int): Box {
    Box(r.startRow, r.endRow, r.startCol, r.endCol, startHeight, startHeight + itemHeight - 1)
  }

  /** The unit cell at (row, col, level) lies inside the box. */
  predicate InBox(b: Box, row: int, col: int, level: int) {
    b.rowLo <= row <= b.rowHi && b.colLo <= col <= b.colHi && b.heightLo <= level <= b.heightHi
  }

  /** The row and column ranges of the two boxes overlap. */
  predicate PlanarOverlap(a: Box, b: Box) {
    a.rowLo <= b.rowHi && a.rowHi >= b.rowLo && a.colLo <= b.colHi && a.colHi >= b.colLo
  }

  /** The two boxes overlap in all three dimensions. */
  predicate BoxesIntersect(a: Box, b: Box) {
    PlanarOverlap(a, b) && a.heightLo <= b.heightHi && a.heightHi >= b.heightLo
  }

  /** No two items of the list, at different positions in it, overlap in three dimensions. */
  ghost predicate NoOverlaps(items: seq<Item>) {
    forall i, j :: 0 <= i < |items| && 0 <= j < |items| && i != j ==> !BoxesIntersect(ItemBox(items[i]), ItemBox(items[j]))
  }

  /** Two items make a list without overlaps exactly when their boxes do not intersect. */
  lemma PairApartIff(a: Item, b: Item)
    ensures NoOverlaps([a, b]) <==> !BoxesIntersect(ItemBox(a), ItemBox(b))
  {
    assert [a, b][0] == a && [a, b][1] == b;
  }

  /** An item that overlaps none of the items can be appended without creating an overlap. */
  lemma AppendKeepsApart(items: seq<Item>, added: Item)
    requires NoOverlaps(items)
    requires forall x :: x in items ==> !BoxesIntersect(ItemBox(x), ItemBox(added))
    ensures NoOverlaps(items + [added])
  {
    var after := items + [added];
    forall i, j | 0 <= i < |after| && 0 <= j < |after| && i != j
      ensures !BoxesIntersect(ItemBox(after[i]), ItemBox(after[j]))
    {
      if i < |items| && j < |items| {
        assert after[i] == items[i] && after[j] == items[j];
      } else if i < |items| {
        assert after[i] == items[i] && items[i] in items;
      } else {
        assert after[j] == items[j] && items[j] in items;
      }
    }
  }

  /** An item replaced by one that overlaps none of the others leaves the list without overlaps. */
  lemma ReplaceKeepsApart(items: seq<Item>, k: nat, replacement: Item)
    requires NoOverlaps(items) && k < |items|
    requires forall i :: 0 <= i < |items| && i != k ==> !BoxesIntersect(ItemBox(items[i]), ItemBox(replacement))
    ensures NoOverlaps(items[k := replacement])
  {
    var after := items[k := replacement];
    forall i, j | 0 <= i < |after| && 0 <= j < |after| && i != j
      ensures !BoxesIntersect(ItemBox(after[i]), ItemBox(after[j]))
    {
      if i != k && j != k {
        assert after[i] == items[i] && after[j] == items[j];
      }
    }
  }

  /** Each range of the box holds at least one value. */
  predicate NonEmpty(b: Box) {
    b.rowLo <= b.rowHi && b.colLo <= b.colHi && b.heightLo <= b.heightHi
  }

  /**
   * Two non-empty boxes intersect exactly when some unit cell lies in both.
   * (The interval test alone also reports empty boxes, such as an item of
   * depth 0, as intersecting.)
   */
  lemma BoxesIntersectIffShareCell(a: Box, b: Box)
    requires NonEmpty(a) && NonEmpty(b)
    ensures BoxesIntersect(a, b) <==> exists row, col, level :: InBox(a, row, col, level) && InBox(b, row, col, level)
  {
    if BoxesIntersect(a, b) {
      var row, col, level := Max(a.rowLo, b.rowLo), Max(a.colLo, b.colLo), Max(a.heightLo, b.heightLo);
      assert InBox(a, row, col, level) && InBox(b, row, col, level);
    }
  }

  /** `excludeItemId && item.id === excludeItemId`: an absent id, or id 0, excludes nothing. */
  predicate IsExcluded(item: Item, excludeItemId: Option<int>) {
    excludeItemId.Some? && excludeItemId.value != 0 && item.id == excludeItemId.value
  }

  /** The first filter of `checkHeightIntersection`: the planar overlap test, minus the excluded item. */
  function PotentialIntersects(items: seq<Item>, startRow: int, endRow: int, startCol: int, endCol: int,
                               excludeItemId: Option<int>): seq<Item>
  {
    if items == [] then []
    else
      var item := items[0];
      var itemEndRow := item.drawerStartRow - 1 + item.itemDepth - 1;
      var itemEndCol := item.drawerStartColumn - 1 + item.itemWidth - 1;
      var itemStartRow := item.drawerStartRow - 1;
      var itemStartCol := item.drawerStartColumn - 1;
      var keep := !IsExcluded(item, excludeItemId)
                  && itemStartRow <= endRow && itemEndRow >= startRow
                  && itemStartCol <= endCol && itemEndCol >= startCol;
      (if keep then [item] else [])
        + PotentialIntersects(items[1..], startRow, endRow, startCol, endCol, excludeItemId)
  }

  /** The second filter of `checkHeightIntersection`: the height ranges overlap. */
  function HeightIntersects(items: seq<Item>, startHeight: int, itemHeight: int): seq<Item> {
    if items == [] then []
    else
      var item := items[0];
      var newItemEndHeight := startHeight + itemHeight - 1;
      var existingItemEndHeight := item.startHeight + item.itemHeight - 1;
      var heightOverlap := !(startHeight > existingItemEndHeight || newItemEndHeight < item.startHeight);
      (if heightOverlap then [item] else []) + HeightIntersects(items[1..], startHeight, itemHeight)
  }

  /**
   * The first filter keeps each item, as often as the list holds it, exactly
   * when it is not excluded and its row and column ranges overlap the selection's.
   */
  lemma {:induction false} PotentialIntersectsKeeps(items: seq<Item>, startRow: int, endRow: int, startCol: int, endCol: int,
                                                   excludeItemId: Option<int>)
    ensures var r := PotentialIntersects(items, startRow, endRow, startCol, endCol, excludeItemId);
            forall x :: multiset(r)[x] ==
              if !IsExcluded(x, excludeItemId) && PlanarOverlap(ItemBox(x), Box(startRow, endRow, startCol, endCol, 0, 0))
              then multiset(items)[x] else 0
  {
    if items != [] {
      PotentialIntersectsKeeps(items[1..], startRow, endRow, startCol, endCol, excludeItemId);
      var keep := !IsExcluded(items[0], excludeItemId)
                  && PlanarOverlap(ItemBox(items[0]), Box(startRow, endRow, startCol, endCol, 0, 0));
      assert PotentialIntersects(items, startRow, endRow, startCol, endCol, excludeItemId)
          == (if keep then [items[0]] else []) + PotentialIntersects(items[1..], startRow, endRow, startCol, endCol, excludeItemId);
      assert items == [items[0]] + items[1..];
    }
  }

  /**
   * The second filter keeps each item, as often as the list holds it, exactly
   * when its level range overlaps `[startHeight, startHeight + itemHeight - 1]`.
   */
  lemma {:induction false} HeightIntersectsKeeps(items: seq<Item>, startHeight: int, itemHeight: int)
    ensures var r := HeightIntersects(items, startHeight, itemHeight);
            forall x :: multiset(r)[x] ==
              if x.startHeight <= startHeight + itemHeight - 1 && startHeight <= x.startHeight + x.itemHeight - 1
              then multiset(items)[x] else 0
  {
    if items != [] {
      HeightIntersectsKeeps(items[1..], startHeight, itemHeight);
      assert items == [items[0]] + items[1..];
    }
  }

  /**
   * One pass over the items keeping those, not excluded, whose box intersects
   * `candidate`: the reference the two filters of `checkHeightIntersection` are
   * measured against.
   */
  function Conflicting(items: seq<Item>, candidate: Box, excludeItemId: Option<int>): (r: seq<Item>)
    ensures IsSubsequence(r, items)
    ensures forall x :: x in r <==> x in items && !IsExcluded(x, excludeItemId) && BoxesIntersect(ItemBox(x), candidate)
  {
    if items == [] then []
    else
      var rest := Conflicting(items[1..], candidate, excludeItemId);
      assert forall x :: x in items <==> x == items[0] || x in items[1..];
      if !IsExcluded(items[0], excludeItemId) && BoxesIntersect(ItemBox(items[0]), candidate) then
        assert ([items[0]] + rest)[1..] == rest;
        [items[0]] + rest
      else rest
  }

  /** The reference keeps every conflicting item as many times as it occurs, and no other item. */
  lemma {:induction false} ConflictingCounts(items: seq<Item>, candidate: Box, excludeItemId: Option<int>)
    ensures forall x :: multiset(Conflicting(items, candidate, excludeItemId))[x] ==
              if !IsExcluded(x, excludeItemId) && BoxesIntersect(ItemBox(x), candidate) then multiset(items)[x] else 0
  {
    if items != [] {
      ConflictingCounts(items[1..], candidate, excludeItemId);
      assert items == [items[0]] + items[1..];
      var rest := Conflicting(items[1..], candidate, excludeItemId);
      assert Conflicting(items, candidate, excludeItemId)
          == if !IsExcluded(items[0], excludeItemId) && BoxesIntersect(ItemBox(items[0]), candidate) then [items[0]] + rest else rest;
    }
  }

  /** The two filters together keep what the one-pass reference keeps, in the same order. */
  lemma {:induction false} TwoFiltersAreOne(items: seq<Item>, startRow: int, endRow: int, startCol: int, endCol: int,
                                           startHeight: int, itemHeight: int, excludeItemId: Option<int>)
    ensures HeightIntersects(PotentialIntersects(items, startRow, endRow, startCol, endCol, excludeItemId), startHeight, itemHeight)
         == Conflicting(items, Box(startRow, endRow, startCol, endCol, startHeight, startHeight + itemHeight - 1), excludeItemId)
  {
    if items != [] {
      var rest := PotentialIntersects(items[1..], startRow, endRow, startCol, endCol, excludeItemId);
      TwoFiltersAreOne(items[1..], startRow, endRow, startCol, endCol, startHeight, itemHeight, excludeItemId);
      var p := PotentialIntersects(items, startRow, endRow, startCol, endCol, excludeItemId);
      var box := Box(startRow, endRow, startCol, endCol, startHeight, startHeight + itemHeight - 1);
      var c := Conflicting(items, box, excludeItemId);
      var h := HeightIntersects(p, startHeight, itemHeight);
      if !IsExcluded(items[0], excludeItemId) && PlanarOverlap(ItemBox(items[0]), box) {
        assert p == [items[0]] + rest;
        assert p[0] == items[0] && p[1..] == rest;
        assert h == (if BoxesIntersect(ItemBox(items[0]), box) then [items[0]] else []) + HeightIntersects(rest, startHeight, itemHeight);
      } else {
        assert p == rest;
        assert c == Conflicting(items[1..], box, excludeItemId);
      }
    }
  }

  /**
   * `checkHeightIntersection`: the items, other than the excluded one, whose
   * row, column and height ranges all overlap the candidate's, in list order.
   */
  function CheckHeightIntersection(items: seq<Item>, startRow: int, endRow: int, startCol: int, endCol: int,
                                   startHeight: int, itemHeight: int, excludeItemId: Option<int>): (r: seq<Item>)
    ensures IsSubsequence(r, items)
    ensures forall x :: x in r <==>
              && x in items
              && !IsExcluded(x, excludeItemId)
              && BoxesIntersect(ItemBox(x), Box(startRow, endRow, startCol, endCol, startHeight, startHeight + itemHeight - 1))
    ensures forall x :: multiset(r)[x] ==
              if !IsExcluded(x, excludeItemId)
                 && BoxesIntersect(ItemBox(x), Box(startRow, endRow, startCol, endCol, startHeight, startHeight + itemHeight - 1))
              then multiset(items)[x] else 0
  {
    TwoFiltersAreOne(items, startRow, endRow, startCol, endCol, startHeight, itemHeight, excludeItemId);
    ConflictingCounts(items, Box(startRow, endRow, startCol, endCol, startHeight, startHeight + itemHeight - 1), excludeItemId);
    HeightIntersects(PotentialIntersects(items, startRow, endRow, startCol, endCol, excludeItemId), startHeight, itemHeight)
  }

  /** Items stacked on the same floor space with disjoint height ranges never conflict. */
  lemma StackedItemsDoNotConflict(items: seq<Item>, x: Item, r: Rect, startHeight: int, itemHeight: int,
                                  excludeItemId: Option<int>)
    requires x.startHeight + x.itemHeight - 1 < startHeight || startHeight + itemHeight - 1 < x.startHeight
    ensures x !in CheckHeightIntersection(items, r.startRow, r.endRow, r.startCol, r.endCol, startHeight, itemHeight, excludeItemId)
  {
  }

  /** Id 0 is falsy, so passing it excludes nothing. */
  lemma ZeroIdExcludesNothing(items: seq<Item>, r: Rect, startHeight: int, itemHeight: int)
    ensures CheckHeightIntersection(items, r.startRow, r.endRow, r.startCol, r.endCol, startHeight, itemHeight, Some(0))
         == CheckHeightIntersection(items, r.startRow, r.endRow, r.startCol, r.endCol, startHeight, itemHeight, None)
  {
    TwoFiltersAreOne(items, r.startRow, r.endRow, r.startCol, r.endCol, startHeight, itemHeight, Some(0));
    TwoFiltersAreOne(items, r.startRow, r.endRow, r.startCol, r.endCol, startHeight, itemHeight, None);
    ConflictingIgnoresZero(items, CandidateBox(r, startHeight, itemHeight));
  }

  lemma {:induction false} ConflictingIgnoresZero(items: seq<Item>, candidate: Box)
    ensures Conflicting(items, candidate, Some(0)) == Conflicting(items, candidate, None)
  {
    if items != [] {
      ConflictingIgnoresZero(items[1..], candidate);
    }
  }

  const IntersectPrefix := "Cannot create item: It would intersect with: "
  const ExceedsDrawerHeight := "Item would exceed drawer height"

  /** `` `"${item.name}"` `` for each item. */
  function QuotedNames(items: seq<Item>): (r: seq<string>)
    ensures |r| == |items|
    ensures forall i :: 0 <= i < |items| ==> r[i] == "\"" + items[i].name + "\""
  {
    if items == [] then [] else ["\"" + items[0].name + "\""] + QuotedNames(items[1..])
  }

  /** The message naming the conflicting items. */
  function IntersectionMessage(conflicts: seq<Item>): string {
    IntersectPrefix + Join(QuotedNames(conflicts), ", ")
  }

  /**
   * `validatePosition(heightLevel, height)` for the drawer's items, the current
   * selection and the id of the item being edited: `None` means valid.
   */
  function ValidatePosition(drawer: Drawer, items: seq<Item>, selection: Option<Selection>, editingId: Option<int>,
                            heightLevel: int, height: int): (v: Option<string>)
    ensures selection.None? ==> v.None?
    ensures v.Some? ==> v.value == ExceedsDrawerHeight || IntersectPrefix <= v.value
    ensures selection.Some? && v.None? ==>
              && heightLevel + height - 1 <= drawer.drawerHeight
              && forall x :: x in items && !IsExcluded(x, editingId) ==>
                   !BoxesIntersect(ItemBox(x), CandidateBox(GetNormalizedSelection(selection.value), heightLevel, height))
  {
    if selection.None? then None
    else
      var r := GetNormalizedSelection(selection.value);
      var conflicts := CheckHeightIntersection(items, r.startRow, r.endRow, r.startCol, r.endCol, heightLevel, height, editingId);
      EmptyIffNoElement(conflicts);
      if |conflicts| > 0 then
        assert (IntersectPrefix + Join(QuotedNames(conflicts), ", "))[..|IntersectPrefix|] == IntersectPrefix;
        Some(IntersectionMessage(conflicts))
      else if heightLevel + height - 1 > drawer.drawerHeight then Some(ExceedsDrawerHeight)
      else None
  }

  /** Some item of the list, other than the excluded one, shares a unit cell with `candidate`. */
  ghost predicate AnyConflict(items: seq<Item>, candidate: Box, editingId: Option<int>) {
    exists x :: x in items && !IsExcluded(x, editingId) && BoxesIntersect(ItemBox(x), candidate)
  }

  /**
   * What `validatePosition` answers, stated by cases in priority order: no
   * selection is valid; any conflict gives the intersection message, which
   * names every conflicting item; otherwise a box whose top is above the
   * drawer gives the height message; otherwise the position is valid.
   */
  lemma ValidatePositionCases(drawer: Drawer, items: seq<Item>, selection: Option<Selection>, editingId: Option<int>,
                              heightLevel: int, height: int)
    ensures selection.None? ==> ValidatePosition(drawer, items, selection, editingId, heightLevel, height).None?
    ensures selection.Some? ==>
              var candidate := CandidateBox(GetNormalizedSelection(selection.value), heightLevel, height);
              var v := ValidatePosition(drawer, items, selection, editingId, heightLevel, height);
              && (AnyConflict(items, candidate, editingId) ==>
                    && v.Some? && IntersectPrefix <= v.value
                    && forall x :: x in items && !IsExcluded(x, editingId) && BoxesIntersect(ItemBox(x), candidate) ==>
                         Includes(v.value, "\"" + x.name + "\""))
              && (!AnyConflict(items, candidate, editingId) ==>
                    (v == Some(ExceedsDrawerHeight) <==> heightLevel + height - 1 > drawer.drawerHeight)
                    && (v.None? <==> heightLevel + height - 1 <= drawer.drawerHeight))
  {
    if selection.Some? {
      var r := GetNormalizedSelection(selection.value);
      var candidate := CandidateBox(r, heightLevel, height);
      var conflicts := CheckHeightIntersection(items, r.startRow, r.endRow, r.startCol, r.endCol, heightLevel, height, editingId);
      if AnyConflict(items, candidate, editingId) {
        var v := IntersectionMessage(conflicts);
        forall x | x in items && !IsExcluded(x, editingId) && BoxesIntersect(ItemBox(x), candidate)
          ensures Includes(v, "\"" + x.name + "\"")
        {
          MessageNamesConflict(conflicts, x);
        }
        assert v[..|IntersectPrefix|] == IntersectPrefix;
      } else {
        EmptyIffNoElement(conflicts);
      }
    }
  }

  /** The intersection message quotes the name of every conflicting item. */
  lemma MessageNamesConflict(conflicts: seq<Item>, x: Item)
    requires x in conflicts
    ensures Includes(IntersectionMessage(conflicts), "\"" + x.name + "\"")
  {
    var v := IntersectionMessage(conflicts);
    var quoted := "\"" + x.name + "\"";
    var k :| 0 <= k < |conflicts| && conflicts[k] == x;
    JoinIncludesPart(QuotedNames(conflicts), ", ", k);
    var joined := Join(QuotedNames(conflicts), ", ");
    var i :| OccursAt(joined, quoted, i);
    assert v == IntersectPrefix + joined;
    assert v[|IntersectPrefix| + i..|IntersectPrefix| + i + |quoted|] == joined[i..i + |quoted|];
    assert OccursAt(v, quoted, |IntersectPrefix| + i);
  }

  /**
   * A stored item, re-selected and re-validated at its own levels while it is
   * the item being edited, is valid whenever its top lies inside the drawer and
   * it overlaps none of the drawer's other items.
   */
  lemma StoredItemRevalidates(drawer: Drawer, items: seq<Item>, item: Item)
    requires item.id != 0 && item.itemWidth >= 1 && item.itemDepth >= 1
    requires item.startHeight + item.itemHeight - 1 <= drawer.drawerHeight
    requires forall x :: x in items && x.id != item.id ==> !BoxesIntersect(ItemBox(x), ItemBox(item))
    ensures ValidatePosition(drawer, items, Some(ClickSelection(item)), Some(item.id), item.startHeight, item.itemHeight).None?
  {
    ClickSelectionRoundTrip(item);
    var r := GetNormalizedSelection(ClickSelection(item));
    assert CandidateBox(r, item.startHeight, item.itemHeight) == ItemBox(item);
    var conflicts := CheckHeightIntersection(items, r.startRow, r.endRow, r.startCol, r.endCol,
                                             item.startHeight, item.itemHeight, Some(item.id));
    EmptyIffNoElement(conflicts);
  }

  /** `handleItemClick`: the selection covering a stored item's footprint. */
  function ClickSelection(item: Item): Selection {
    Selection(Cell(item.drawerStartRow - 1, item.drawerStartColumn - 1),
              Cell(item.drawerStartRow - 1 + item.itemDepth - 1, item.drawerStartColumn - 1 + item.itemWidth - 1))
  }

  /** The 1-based position `handleCreateItem` passes for a selection rectangle. */
  function CreateRow(r: Rect): int {
    r.startRow + 1
  }

  function CreateColumn(r: Rect): int {
    r.startCol + 1
  }

  /** The width and depth `handleCreateItem` passes for a selection rectangle. */
  function CreateWidth(r: Rect): int {
    r.endCol - r.startCol + 1
  }

  function CreateDepth(r: Rect): int {
    r.endRow - r.startRow + 1
  }

  /**
   * Clicking a stored item and converting its selection back the way
   * `handleCreateItem` does gives the item's stored start, width and depth.
   */
  lemma ClickSelectionRoundTrip(item: Item)
    requires item.itemWidth >= 1 && item.itemDepth >= 1
    ensures var r := GetNormalizedSelection(ClickSelection(item));
            && CreateRow(r) == item.drawerStartRow && CreateColumn(r) == item.drawerStartColumn
            && CreateWidth(r) == item.itemWidth && CreateDepth(r) == item.itemDepth
  {
  }

  /**
   * The other direction: a rectangle stored through `handleCreateItem` and then
   * clicked gives back the same rectangle.
   */
  lemma CreatedRectRoundTrip(r: Rect, item: Item)
    requires r.startRow <= r.endRow && r.startCol <= r.endCol
    requires item.drawerStartRow == CreateRow(r) && item.drawerStartColumn == CreateColumn(r)
    requires item.itemWidth == CreateWidth(r) && item.itemDepth == CreateDepth(r)
    ensures GetNormalizedSelection(ClickSelection(item)) == r
  {
  }
}
