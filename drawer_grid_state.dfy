/**
 * The state of one `DrawerGrid` component (app/grid/DrawerGrid.tsx) and its
 * event handlers: dragging out a selection, picking the height range, creating
 * an item from the selection, editing a clicked item, the keyboard shortcuts
 * and the delete button.  The server actions run against an `Actions.Store`.
 */
module DrawerGridState {
  import opened Prelude
  import opened JsText
  import opened JsNumber
  import opened Records
  import opened Actions
  import opened DrawerGrid

  /** The copy of a clicked item kept while it is being edited; its name follows the in-cell input. */
  datatype EditingItem = EditingItem(
    id: int,
    name: string,
    drawerStartRow: int,
    drawerStartColumn: int,
    itemWidth: int,
    itemDepth: int,
    itemHeight: int,
    startHeight: int,
    icon: Option<string>,
    color: Option<string>)

  /** The values of the component's state variables at one moment. */
  datatype Fields = Fields(
    isDragging: bool,
    selection: Option<Selection>,
    newItemName: string,
    newItemHeight: int,
    currentHeightLevel: int,
    editingItem: Option<EditingItem>,
    error: string,
    icon: Option<string>,
    color: Option<string>)

  /** The arguments of one `addItem` call. */
  datatype AddItemCall = AddItemCall(form: FormData, position: Option<ItemPosition>, size: Option<ItemSize>)

  /** `v ?? ""` (and `v || ""`, which agrees with it on strings). */
  function OrEmpty(v: Option<string>): string {
    if v.Some? then v.value else ""
  }

  /** The form `handleCreateItem` submits. */
  function CreateForm(name: string, drawerId: int, level: int, icon: Option<string>, color: Option<string>): FormData {
    map["name" := Trim(name), "drawerId" := IntToString(drawerId), "startHeight" := IntToString(level),
        "icon" := OrEmpty(icon), "color" := OrEmpty(color)]
  }

  /** The `addItem` call of `handleCreateItem`: the selection made 1-based, with its width and depth. */
  function CreateCall(drawerId: int, name: string, level: int, height: int, icon: Option<string>, color: Option<string>,
                      selection: Selection): AddItemCall
  {
    var r := GetNormalizedSelection(selection);
    AddItemCall(CreateForm(name, drawerId, level, icon, color),
                Some(ItemPosition(Some(CreateRow(r)), Some(CreateColumn(r)))),
                Some(ItemSize(Some(CreateWidth(r)), Some(CreateDepth(r)), Some(height))))
  }

  /** The form `handleUpdateItem` submits. */
  function UpdateForm(name: string, level: int, height: int, icon: Option<string>, color: Option<string>): FormData {
    map["name" := Trim(name), "startHeight" := IntToString(level), "itemHeight" := IntToString(height),
        "icon" := OrEmpty(icon), "color" := OrEmpty(color)]
  }

  /** The copy `handleItemClick` keeps of a clicked item. */
  function EditingOf(item: Item): EditingItem {
    EditingItem(item.id, item.name, item.drawerStartRow, item.drawerStartColumn, item.itemWidth, item.itemDepth,
                item.itemHeight, item.startHeight, item.icon, item.color)
  }

  /** The record `addItem` builds from the form `handleCreateItem` submits. */
  lemma CreateFormRecord(drawerId: int, name: string, level: int, icon: Option<string>, color: Option<string>,
                         position: Option<ItemPosition>, size: Option<ItemSize>)
    requires Trim(name) != "" && drawerId != 0
    ensures AddItemData(CreateForm(name, drawerId, level, icon, color), position, size) == Ok(ItemData(
              Trim(name), drawerId,
              OrDefault(if position.Some? then position.value.row else None),
              OrDefault(if position.Some? then position.value.col else None),
              OrDefault(if size.Some? then size.value.width else None),
              OrDefault(if size.Some? then size.value.depth else None),
              OrDefault(if size.Some? then size.value.height else None),
              if level != 0 then level else 1, StoredText(icon), StoredText(color)))
  {
    var form := CreateForm(name, drawerId, level, icon, color);
    assert Get(form, "name") == Some(Trim(name));
    assert Get(form, "drawerId") == Some(IntToString(drawerId));
    assert Get(form, "startHeight") == Some(IntToString(level));
    assert Get(form, "icon") == Some(OrEmpty(icon));
    assert Get(form, "color") == Some(OrEmpty(color));
    ToNumberOfToString(drawerId);
    ToNumberOfToString(level);
    AddItemRecord(form, position, size, Trim(name), drawerId);
  }

  /**
   * What `handleCreateItem` stores: for a non-blank name and a drawer with a
   * non-zero id the call is accepted, the record keeps the trimmed name, the
   * drawer and the non-empty icon and colour, and its box is the box that was
   * validated exactly when the start level is not 0 (level 0 is stored as 1).
   */
  lemma CreatedItemIsValidatedBox(id: int, drawerId: int, name: string, level: int, height: int,
                                  icon: Option<string>, color: Option<string>, selection: Selection)
    requires Trim(name) != "" && drawerId != 0
    ensures var call := CreateCall(drawerId, name, level, height, icon, color, selection);
            var data := AddItemData(call.form, call.position, call.size);
            && data.Ok?
            && data.value.name == Trim(name) && data.value.drawerId == drawerId
            && data.value.icon == StoredText(icon) && data.value.color == StoredText(color)
            && (ItemBox(NewItem(id, data.value)) == CandidateBox(GetNormalizedSelection(selection), level, height) <==> level != 0)
  {
    var call := CreateCall(drawerId, name, level, height, icon, color, selection);
    var r := GetNormalizedSelection(selection);
    CreateFormRecord(drawerId, name, level, icon, color, call.position, call.size);
    var data := AddItemData(call.form, call.position, call.size).value;
    assert && data.drawerStartRow == CreateRow(r) && data.drawerStartColumn == CreateColumn(r)
           && data.itemWidth == CreateWidth(r) && data.itemDepth == CreateDepth(r) && data.itemHeight == height
           && data.startHeight == (if level != 0 then level else 1);
    CreatedBox(id, data, r, level, height);
  }

  /** A record placed and sized from a selection rectangle occupies that rectangle; level 0 becomes 1. */
  lemma CreatedBox(id: int, data: ItemData, r: Rect, level: int, height: int)
    requires && data.drawerStartRow == CreateRow(r) && data.drawerStartColumn == CreateColumn(r)
             && data.itemWidth == CreateWidth(r) && data.itemDepth == CreateDepth(r) && data.itemHeight == height
    requires data.startHeight == (if level != 0 then level else 1)
    ensures ItemBox(NewItem(id, data)) == CandidateBox(r, level, height) <==> level != 0
  {
  }

  /**
   * What `handleUpdateItem` stores: the trimmed name, the current levels and the
   * non-empty icon and colour, for every non-blank name.
   */
  lemma UpdateFormAccepted(name: string, level: int, height: int, icon: Option<string>, color: Option<string>)
    requires Trim(name) != ""
    ensures UpdateItemChanges(UpdateForm(name, level, height, icon, color))
         == Ok(ItemChanges(Trim(name), level, height, StoredText(icon), StoredText(color)))
  {
    var form := UpdateForm(name, level, height, icon, color);
    assert Get(form, "name") == Some(Trim(name));
    assert Get(form, "startHeight") == Some(IntToString(level));
    assert Get(form, "itemHeight") == Some(IntToString(height));
    assert Get(form, "icon") == Some(OrEmpty(icon));
    assert Get(form, "color") == Some(OrEmpty(color));
    ToNumberOfToString(level);
    ToNumberOfToString(height);
  }

  /**
   * A create that passes validation at a non-zero level keeps the drawer's
   * items apart: appending the stored record to items that did not overlap
   * gives items that still do not overlap.
   */
  lemma CreateKeepsItemsApart(drawer: Drawer, items: seq<Item>, id: int, name: string, level: int, height: int,
                              icon: Option<string>, color: Option<string>, selection: Selection)
    requires NoOverlaps(items)
    requires Trim(name) != "" && drawer.id != 0 && level != 0
    requires ValidatePosition(drawer, items, Some(selection), None, level, height).None?
    ensures var call := CreateCall(drawer.id, name, level, height, icon, color, selection);
            var data := AddItemData(call.form, call.position, call.size);
            data.Ok? && NoOverlaps(items + [NewItem(id, data.value)])
  {
    var call := CreateCall(drawer.id, name, level, height, icon, color, selection);
    CreatedItemIsValidatedBox(id, drawer.id, name, level, height, icon, color, selection);
    var stored := NewItem(id, AddItemData(call.form, call.position, call.size).value);
    assert forall x :: x in items ==> !IsExcluded(x, None);
    AppendKeepsApart(items, stored);
  }

  /**
   * At level 0 the same create can break that.  A selection made at level 0
   * with height 1 over the footprint of an item on level 1 (exactly one level
   * tall) validates, since level 0 lies below that item, but the record is
   * stored on level 1 and overlaps it.  For instance, in a 4 by 4 by 4 drawer,
   * a one-cell selection of the first cell over a 1 by 1 item on level 1.
   */
  lemma LevelZeroCreateOverlaps(drawer: Drawer, x: Item, id: int, name: string, icon: Option<string>,
                                color: Option<string>, selection: Selection)
    requires Trim(name) != "" && drawer.id != 0 && drawer.drawerHeight >= 0
    requires ItemBox(x) == CandidateBox(GetNormalizedSelection(selection), 1, 1)
    ensures var call := CreateCall(drawer.id, name, 0, 1, icon, color, selection);
            var data := AddItemData(call.form, call.position, call.size);
            && ValidatePosition(drawer, [x], Some(selection), None, 0, 1).None?
            && data.Ok? && BoxesIntersect(ItemBox(NewItem(id, data.value)), ItemBox(x))
            && !NoOverlaps([x, NewItem(id, data.value)])
  {
    LevelZeroSelectionValidates(drawer, x, selection);
    LevelZeroCreateStoresOnLevelOne(drawer.id, x, id, name, icon, color, selection);
  }

  /** A level-0 selection one level tall over an item that fills level 1 of it validates. */
  lemma LevelZeroSelectionValidates(drawer: Drawer, x: Item, selection: Selection)
    requires drawer.drawerHeight >= 0
    requires ItemBox(x) == CandidateBox(GetNormalizedSelection(selection), 1, 1)
    ensures ValidatePosition(drawer, [x], Some(selection), None, 0, 1).None?
  {
    assert !BoxesIntersect(ItemBox(x), CandidateBox(GetNormalizedSelection(selection), 0, 1));
    ValidatePositionCases(drawer, [x], Some(selection), None, 0, 1);
  }

  /** The record a level-0 create stores over such an item lands on level 1, inside it. */
  lemma LevelZeroCreateStoresOnLevelOne(drawerId: int, x: Item, id: int, name: string, icon: Option<string>,
                                        color: Option<string>, selection: Selection)
    requires Trim(name) != "" && drawerId != 0
    requires ItemBox(x) == CandidateBox(GetNormalizedSelection(selection), 1, 1)
    ensures var call := CreateCall(drawerId, name, 0, 1, icon, color, selection);
            var data := AddItemData(call.form, call.position, call.size);
            && data.Ok? && BoxesIntersect(ItemBox(NewItem(id, data.value)), ItemBox(x))
            && !NoOverlaps([x, NewItem(id, data.value)])
  {
    var call := CreateCall(drawerId, name, 0, 1, icon, color, selection);
    CreateFormRecord(drawerId, name, 0, icon, color, call.position, call.size);
    var stored := NewItem(id, AddItemData(call.form, call.position, call.size).value);
    assert ItemBox(stored) == ItemBox(x);
    PairApartIff(x, stored);
  }

  /**
   * An update that passes validation while the selection is still the clicked
   * item's footprint keeps the drawer's items apart: writing the new levels
   * into that item, among items with distinct ids that did not overlap, gives
   * items that still do not overlap.
   */
  lemma UpdateKeepsItemsApart(drawer: Drawer, items: seq<Item>, k: nat, name: string, level: int, height: int,
                              icon: Option<string>, color: Option<string>)
    requires NoOverlaps(items)
    requires forall i, j :: 0 <= i < |items| && 0 <= j < |items| && items[i].id == items[j].id ==> i == j
    requires k < |items| && items[k].id != 0 && items[k].itemWidth >= 1 && items[k].itemDepth >= 1
    requires Trim(name) != ""
    requires ValidatePosition(drawer, items, Some(ClickSelection(items[k])), Some(items[k].id), level, height).None?
    ensures var changes := UpdateItemChanges(UpdateForm(name, level, height, icon, color));
            changes.Ok? && NoOverlaps(items[k := ApplyChanges(items[k], changes.value)])
  {
    UpdateFormAccepted(name, level, height, icon, color);
    var updated := ApplyChanges(items[k], ItemChanges(Trim(name), level, height, StoredText(icon), StoredText(color)));
    ValidatedOthersApart(drawer, items, k, level, height);
    EditedBox(items[k], updated);
    ReplaceKeepsApart(items, k, updated);
  }

  /** The edited item with new levels occupies the clicked footprint at those levels. */
  lemma EditedBox(e: Item, updated: Item)
    requires e.itemWidth >= 1 && e.itemDepth >= 1
    requires && updated.drawerStartRow == e.drawerStartRow && updated.drawerStartColumn == e.drawerStartColumn
             && updated.itemWidth == e.itemWidth && updated.itemDepth == e.itemDepth
    ensures ItemBox(updated) == CandidateBox(GetNormalizedSelection(ClickSelection(e)), updated.startHeight, updated.itemHeight)
  {
    ClickSelectionRoundTrip(e);
  }

  /** With distinct ids, a validated edit of item `k` overlaps none of the other items. */
  lemma ValidatedOthersApart(drawer: Drawer, items: seq<Item>, k: nat, level: int, height: int)
    requires forall i, j :: 0 <= i < |items| && 0 <= j < |items| && items[i].id == items[j].id ==> i == j
    requires k < |items| && items[k].id != 0
    requires ValidatePosition(drawer, items, Some(ClickSelection(items[k])), Some(items[k].id), level, height).None?
    ensures forall i :: 0 <= i < |items| && i != k ==>
              !BoxesIntersect(ItemBox(items[i]), CandidateBox(GetNormalizedSelection(ClickSelection(items[k])), level, height))
  {
    forall i | 0 <= i < |items| && i != k
      ensures !BoxesIntersect(ItemBox(items[i]), CandidateBox(GetNormalizedSelection(ClickSelection(items[k])), level, height))
    {
      assert items[i] in items && !IsExcluded(items[i], Some(items[k].id));
    }
  }

  /**
   * The selection can move while an item is edited (a drag on an empty cell
   * keeps the edit), but `updateItem` never moves the item, so the rectangle
   * that was validated is not where the item stays.  Take an edited item `e`
   * with a second item `x` standing right on top of it, on the same
   * footprint, and a selection dragged off that footprint: growing `e` by one
   * level validates, and `e` written back in place overlaps `x`.  For
   * instance, 1 by 1 items on levels 1 and 2 of the first cell, with the
   * selection dragged to another cell.
   */
  lemma MovedSelectionUpdateOverlaps(drawer: Drawer, e: Item, x: Item, selection: Selection, name: string,
                                     icon: Option<string>, color: Option<string>)
    requires e.id != 0 && x.id != e.id
    requires e.itemWidth >= 1 && e.itemDepth >= 1 && e.itemHeight >= 1 && x.itemHeight >= 1
    requires && x.drawerStartRow == e.drawerStartRow && x.drawerStartColumn == e.drawerStartColumn
             && x.itemWidth == e.itemWidth && x.itemDepth == e.itemDepth
    requires x.startHeight == e.startHeight + e.itemHeight
    requires !PlanarOverlap(ItemBox(x), CandidateBox(GetNormalizedSelection(selection), 0, 0))
    requires e.startHeight + e.itemHeight <= drawer.drawerHeight
    requires Trim(name) != ""
    ensures var changes := UpdateItemChanges(UpdateForm(name, e.startHeight, e.itemHeight + 1, icon, color));
            && NoOverlaps([e, x])
            && ValidatePosition(drawer, [e, x], Some(selection), Some(e.id), e.startHeight, e.itemHeight + 1).None?
            && changes.Ok? && !NoOverlaps([ApplyChanges(e, changes.value), x])
  {
    StackedUpdateOverlaps(e, x, name, icon, color);
    MovedSelectionValidates(drawer, e, x, selection, e.startHeight, e.itemHeight + 1);
  }

  /** Growing the lower of two stacked items by one level makes it reach into the upper one. */
  lemma StackedUpdateOverlaps(e: Item, x: Item, name: string, icon: Option<string>, color: Option<string>)
    requires e.itemWidth >= 1 && e.itemDepth >= 1 && e.itemHeight >= 1 && x.itemHeight >= 1
    requires && x.drawerStartRow == e.drawerStartRow && x.drawerStartColumn == e.drawerStartColumn
             && x.itemWidth == e.itemWidth && x.itemDepth == e.itemDepth
    requires x.startHeight == e.startHeight + e.itemHeight
    requires Trim(name) != ""
    ensures var changes := UpdateItemChanges(UpdateForm(name, e.startHeight, e.itemHeight + 1, icon, color));
            && NoOverlaps([e, x])
            && changes.Ok? && !NoOverlaps([ApplyChanges(e, changes.value), x])
  {
    PairApartIff(e, x);
    UpdateFormAccepted(name, e.startHeight, e.itemHeight + 1, icon, color);
    var updated := ApplyChanges(e, ItemChanges(Trim(name), e.startHeight, e.itemHeight + 1, StoredText(icon), StoredText(color)));
    assert BoxesIntersect(ItemBox(updated), ItemBox(x));
    PairApartIff(updated, x);
  }

  /** With the edited item excluded, a selection clear of the other item, whose top fits the drawer, validates. */
  lemma MovedSelectionValidates(drawer: Drawer, e: Item, x: Item, selection: Selection, level: int, height: int)
    requires e.id != 0 && x.id != e.id
    requires !PlanarOverlap(ItemBox(x), CandidateBox(GetNormalizedSelection(selection), 0, 0))
    requires level + height - 1 <= drawer.drawerHeight
    ensures ValidatePosition(drawer, [e, x], Some(selection), Some(e.id), level, height).None?
  {
    assert !BoxesIntersect(ItemBox(x), CandidateBox(GetNormalizedSelection(selection), level, height));
    ValidatePositionCases(drawer, [e, x], Some(selection), Some(e.id), level, height);
  }

  class GridState {
    const drawer: Drawer
    const items: seq<Item>
    const searchTerm: string
    var isDragging: bool
    var selection: Option<Selection>
    var newItemName: string
    var newItemHeight: int
    var currentHeightLevel: int
    var editingItem: Option<EditingItem>
    var error: string
    var icon: Option<string>
    var color: Option<string>

    /** The component as first rendered for a drawer, its items and the search term. */
    constructor (drawer: Drawer, items: seq<Item>, searchTerm: string)
      ensures this.drawer == drawer && this.items == items && this.searchTerm == searchTerm
      ensures State() == Fields(false, None, "", 1, 1, None, "", None, None)
    {
      this.drawer, this.items, this.searchTerm := drawer, items, searchTerm;
      isDragging, selection, newItemName, newItemHeight, currentHeightLevel := false, None, "", 1, 1;
      editingItem, error, icon, color := None, "", None, None;
    }

    function State(): Fields
      reads this
    {
      Fields(isDragging, selection, newItemName, newItemHeight, currentHeightLevel, editingItem, error, icon, color)
    }

    function EditingId(): Option<int>
      reads this
    {
      if editingItem.Some? then Some(editingItem.value.id) else None
    }

    /** `validatePosition(heightLevel, height)` in the current state. */
    function Validate(heightLevel: int, height: int): Option<string>
      reads this
    {
      ValidatePosition(drawer, items, selection, EditingId(), heightLevel, height)
    }

    /** The items drawn at the current level. */
    function Visible(): seq<Item>
      reads this
    {
      VisibleItems(items, currentHeightLevel)
    }

    /** `handleMouseDown` (on an empty cell): a one-cell selection there, with a fresh name. */
    method MouseDown(row: int, col: int)
      modifies this
      ensures State() == old(State()).(isDragging := true, selection := Some(Selection(Cell(row, col), Cell(row, col))),
                                       newItemName := "")
    {
      isDragging := true;
      selection := Some(Selection(Cell(row, col), Cell(row, col)));
      newItemName := "";
    }

    /** `handleMouseMove`: while dragging, the selection's moving corner follows the mouse. */
    method MouseMove(row: int, col: int)
      modifies this
      ensures old(isDragging) && old(selection).Some? ==>
                State() == old(State()).(selection := Some(old(selection).value.(end := Cell(row, col))))
      ensures !(old(isDragging) && old(selection).Some?) ==> State() == old(State())
    {
      if !isDragging {
        return;
      }
      if selection.Some? {
        selection := Some(selection.value.(end := Cell(row, col)));
      }
    }

    /** `handleMouseUp`: dragging ends; the selection stays. */
    method MouseUp()
      modifies this
      ensures State() == old(State()).(isDragging := false)
    {
      isDragging := false;
    }

    /** `handleHeightChange`: the new height is taken, and the error shows what validating it says. */
    method HeightChange(newHeight: int)
      modifies this
      ensures State() == old(State()).(error := OrEmpty(old(Validate(currentHeightLevel, newHeight))),
                                       newItemHeight := newHeight)
    {
      var validationError := Validate(currentHeightLevel, newHeight);
      error := OrEmpty(validationError);
      newItemHeight := newHeight;
    }

    /** `handleStartHeightChange`: the new start level is taken, and the error shows what validating it says. */
    method StartHeightChange(newStartHeight: int)
      modifies this
      ensures State() == old(State()).(error := OrEmpty(old(Validate(newStartHeight, newItemHeight))),
                                       currentHeightLevel := newStartHeight)
    {
      var validationError := Validate(newStartHeight, newItemHeight);
      error := OrEmpty(validationError);
      currentHeightLevel := newStartHeight;
    }

    /** The side panel's name input. */
    method EditName(text: string)
      modifies this
      ensures State() == old(State()).(newItemName := text)
    {
      newItemName := text;
    }

    /** The in-cell rename input of the item being edited. */
    method EditEditingName(text: string)
      modifies this
      ensures old(editingItem).Some? ==> State() == old(State()).(editingItem := Some(old(editingItem).value.(name := text)))
      ensures old(editingItem).None? ==> State() == old(State()).(newItemName := text)
    {
      if editingItem.Some? {
        editingItem := Some(editingItem.value.(name := text));
      } else {
        newItemName := text;
      }
    }

    twostate predicate StoreUnchanged(store: Store)
      reads store
    {
      && store.drawers == old(store.drawers) && store.items == old(store.items)
      && store.nextDrawerId == old(store.nextDrawerId) && store.nextItemId == old(store.nextItemId)
    }

    /** `handleCreateItem` goes ahead: there is a selection and the name is not blank. */
    predicate CanCreate()
      reads this
    {
      selection.Some? && Trim(newItemName) != ""
    }

    /** The `addItem` call `handleCreateItem` makes in the current state. */
    function CurrentCreateCall(): AddItemCall
      requires selection.Some?
      reads this
    {
      CreateCall(drawer.id, newItemName, currentHeightLevel, newItemHeight, icon, color, selection.value)
    }

    /**
     * The effect of `handleCreateItem`: nothing without a selection and a
     * non-blank name; the validation message when the position is invalid;
     * the thrown message when `addItem` fails; otherwise the item is stored
     * and the selection, name, height, icon, colour and error are reset.
     */
    twostate predicate CreateEffect(store: Store)
      reads this, store
    {
      && (!old(CanCreate()) ==> State() == old(State()) && StoreUnchanged(store))
      && (old(CanCreate()) ==> CreateInvalid(store) && CreateValid(store))
    }

    /** The position does not validate: its message becomes the error. */
    twostate predicate CreateInvalid(store: Store)
      reads this, store
    {
      var v := old(Validate(currentHeightLevel, newItemHeight));
      v.Some? ==> State() == old(State()).(error := v.value) && StoreUnchanged(store)
    }

    /** The position validates: the outcome of the `addItem` call. */
    twostate predicate CreateValid(store: Store)
      reads this, store
    {
      old(Validate(currentHeightLevel, newItemHeight)).None? && old(selection).Some? ==>
        && CreateRejected(store, old(CurrentCreateCall()))
        && CreateFailed(store, old(CurrentCreateCall()))
        && CreateStored(store, old(CurrentCreateCall()))
    }

    /** `addItem` rejected the form: its message becomes the error. */
    twostate predicate CreateRejected(store: Store, call: AddItemCall)
      reads this, store
    {
      var data := AddItemData(call.form, call.position, call.size);
      data.Err? ==> State() == old(State()).(error := data.message) && StoreUnchanged(store)
    }

    /** The form names no stored drawer: the store's failure becomes the error. */
    twostate predicate CreateFailed(store: Store, call: AddItemCall)
      reads this, store
    {
      var data := AddItemData(call.form, call.position, call.size);
      data.Ok? && data.value.drawerId !in old(store.drawers) ==>
        State() == old(State()).(error := FailedToAddItem) && StoreUnchanged(store)
    }

    /** The item is stored under the next id and the selection, name, height, icon, colour and error are reset. */
    twostate predicate CreateStored(store: Store, call: AddItemCall)
      reads this, store
    {
      var data := AddItemData(call.form, call.position, call.size);
      data.Ok? && data.value.drawerId in old(store.drawers) ==>
        && State() == old(State()).(selection := None, newItemName := "", newItemHeight := 1, icon := None,
                                    color := None, error := "")
        && store.items == old(store.items)[old(store.nextItemId) := NewItem(old(store.nextItemId), data.value)]
        && store.nextItemId == old(store.nextItemId) + 1
        && store.drawers == old(store.drawers) && store.nextDrawerId == old(store.nextDrawerId)
    }

    /** `handleCreateItem`. */
    method CreateItem(store: Store)
      requires store.Valid()
      modifies this, store
      ensures store.Valid()
      ensures CreateEffect(store)
    {
      if selection.None? || Trim(newItemName) == "" {
        return;
      }
      CreateSelected(store);
    }

    /** `handleCreateItem` past its guard: validation, then the `addItem` call. */
    method CreateSelected(store: Store)
      requires store.Valid() && CanCreate()
      modifies this, store
      ensures store.Valid()
      ensures CreateInvalid(store) && CreateValid(store)
    {
      var validationError := Validate(currentHeightLevel, newItemHeight);
      if validationError.Some? {
        ReportError(validationError.value);
      } else {
        var call := CurrentCreateCall();
        SendCreate(store, call);
      }
    }

    /** A validation message is shown and nothing else changes. */
    method ReportError(message: string)
      modifies this
      ensures State() == old(State()).(error := message)
    {
      error := message;
    }

    /** The `try` block of `handleCreateItem`: the `addItem` call and what follows it. */
    method SendCreate(store: Store, call: AddItemCall)
      requires store.Valid()
      modifies this, store
      ensures store.Valid()
      ensures CreateRejected(store, call)
      ensures CreateFailed(store, call)
      ensures CreateStored(store, call)
    {
      var outcome := store.AddItem(call.form, call.position, call.size);
      if outcome.Done? {
        ResetAfterCreate();
      } else {
        error := outcome.message;
      }
    }

    /** The resets after a successful `addItem`: selection, name, height, icon, colour and error. */
    method ResetAfterCreate()
      modifies this
      ensures State() == old(State()).(selection := None, newItemName := "", newItemHeight := 1, icon := None,
                                       color := None, error := "")
    {
      selection := None;
      newItemName := "";
      newItemHeight := 1;
      icon := None;
      color := None;
      error := "";
    }

    /**
     * `handleItemClick`: the clicked item becomes the one being edited, the
     * selection covers its footprint and the height fields show its levels.
     * When it overlaps none of the other items and fits the drawer, that
     * selection validates.
     */
    method ItemClick(item: Item)
      modifies this
      ensures State() == old(State()).(selection := Some(ClickSelection(item)), newItemName := item.name,
                                       newItemHeight := item.itemHeight, currentHeightLevel := item.startHeight,
                                       icon := item.icon, color := item.color, editingItem := Some(EditingOf(item)))
      ensures && item.id != 0 && item.itemWidth >= 1 && item.itemDepth >= 1
              && item.startHeight + item.itemHeight - 1 <= drawer.drawerHeight
              && (forall x :: x in items && x.id != item.id ==> !BoxesIntersect(ItemBox(x), ItemBox(item)))
              ==> Validate(currentHeightLevel, newItemHeight).None?
    {
      selection := Some(ClickSelection(item));
      newItemName := item.name;
      newItemHeight := item.itemHeight;
      currentHeightLevel := item.startHeight;
      icon := item.icon;
      color := item.color;
      editingItem := Some(EditingOf(item));
      if && item.id != 0 && item.itemWidth >= 1 && item.itemDepth >= 1
         && item.startHeight + item.itemHeight - 1 <= drawer.drawerHeight
         && (forall x :: x in items && x.id != item.id ==> !BoxesIntersect(ItemBox(x), ItemBox(item)))
      {
        StoredItemRevalidates(drawer, items, item);
        assert Validate(currentHeightLevel, newItemHeight)
            == ValidatePosition(drawer, items, Some(ClickSelection(item)), Some(item.id), item.startHeight, item.itemHeight);
      }
    }

    /** `handleUpdateItem` goes ahead: an item is being edited and its name is not blank. */
    predicate CanUpdate()
      reads this
    {
      editingItem.Some? && Trim(editingItem.value.name) != ""
    }

    /**
     * The effect of `handleUpdateItem`: nothing unless an item is being edited
     * under a non-blank name; the validation message when the position is
     * invalid; otherwise the outcome of writing the trimmed name, the current
     * levels, the icon and the colour to the edited item.
     */
    twostate predicate UpdateEffect(store: Store)
      reads this, store
    {
      && (!old(CanUpdate()) ==> State() == old(State()) && StoreUnchanged(store))
      && (old(CanUpdate()) ==> UpdateInvalid(store) && UpdateValid(store))
    }

    /** The position does not validate: its message becomes the error. */
    twostate predicate UpdateInvalid(store: Store)
      reads this, store
    {
      var v := old(Validate(currentHeightLevel, newItemHeight));
      v.Some? ==> State() == old(State()).(error := v.value) && StoreUnchanged(store)
    }

    /** The position validates: the outcome of writing the changes to the edited item. */
    twostate predicate UpdateValid(store: Store)
      reads this, store
    {
      old(Validate(currentHeightLevel, newItemHeight)).None? && old(editingItem).Some? ==>
        var changes := ItemChanges(old(Trim(editingItem.value.name)), old(currentHeightLevel), old(newItemHeight),
                                   old(StoredText(icon)), old(StoredText(color)));
        && UpdateMissing(store, old(editingItem.value.id))
        && UpdateStored(store, old(editingItem.value.id), changes)
    }

    /** The edited item is no longer stored: the store's failure becomes the error. */
    twostate predicate UpdateMissing(store: Store, id: int)
      reads this, store
    {
      id !in old(store.items) ==> State() == old(State()).(error := RecordToUpdateNotFound) && StoreUnchanged(store)
    }

    /** The changes are written to the stored item and editing ends. */
    twostate predicate UpdateStored(store: Store, id: int, changes: ItemChanges)
      reads this, store
    {
      id in old(store.items) ==>
        && State() == old(State()).(editingItem := None, selection := None, icon := None, color := None, error := "")
        && store.items == old(store.items)[id := ApplyChanges(old(store.items)[id], changes)]
        && store.drawers == old(store.drawers)
        && store.nextItemId == old(store.nextItemId) && store.nextDrawerId == old(store.nextDrawerId)
    }

    /** `handleUpdateItem`. */
    method UpdateItem(store: Store)
      requires store.Valid()
      modifies this, store
      ensures store.Valid()
      ensures UpdateEffect(store)
    {
      if editingItem.None? || Trim(editingItem.value.name) == "" {
        return;
      }
      UpdateEditing(store);
    }

    /** `handleUpdateItem` past its guard: validation, then the `updateItem` call. */
    method UpdateEditing(store: Store)
      requires store.Valid() && CanUpdate()
      modifies this, store
      ensures store.Valid()
      ensures UpdateInvalid(store) && UpdateValid(store)
    {
      var validationError := Validate(currentHeightLevel, newItemHeight);
      if validationError.Some? {
        ReportError(validationError.value);
      } else {
        var name := editingItem.value.name;
        UpdateFormAccepted(name, currentHeightLevel, newItemHeight, icon, color);
        SendUpdate(store, editingItem.value.id, UpdateForm(name, currentHeightLevel, newItemHeight, icon, color),
                   ItemChanges(Trim(name), currentHeightLevel, newItemHeight, StoredText(icon), StoredText(color)));
      }
    }

    /** The `try` block of `handleUpdateItem`: the `updateItem` call with a form it accepts, and what follows it. */
    method SendUpdate(store: Store, id: int, form: FormData, changes: ItemChanges)
      requires store.Valid()
      requires UpdateItemChanges(form) == Ok(changes)
      modifies this, store
      ensures store.Valid()
      ensures UpdateMissing(store, id)
      ensures UpdateStored(store, id, changes)
    {
      var outcome := store.UpdateItem(id, form);
      if outcome.Done? {
        editingItem := None;
        selection := None;
        icon := None;
        color := None;
        error := "";
      } else {
        error := outcome.message;
      }
    }

    /** The side panel's form submit: update while editing, create otherwise. */
    method Submit(store: Store)
      requires store.Valid()
      modifies this, store
      ensures store.Valid()
      ensures old(editingItem).Some? ==> UpdateEffect(store)
      ensures old(editingItem).None? ==> CreateEffect(store)
    {
      if editingItem.Some? {
        UpdateItem(store);
      } else {
        CreateItem(store);
      }
    }

    /** `handleKeyDown`: Enter submits, Escape drops the selection, the name and the edit; other keys do nothing. */
    method KeyDown(key: string, store: Store)
      requires store.Valid()
      modifies this, store
      ensures store.Valid()
      ensures key == "Enter" && old(editingItem).Some? ==> UpdateEffect(store)
      ensures key == "Enter" && old(editingItem).None? ==> CreateEffect(store)
      ensures key == "Escape" ==>
                State() == old(State()).(selection := None, newItemName := "", editingItem := None) && StoreUnchanged(store)
      ensures key != "Enter" && key != "Escape" ==> State() == old(State()) && StoreUnchanged(store)
    {
      if key == "Enter" {
        Submit(store);
      } else if key == "Escape" {
        selection := None;
        newItemName := "";
        editingItem := None;
      }
    }

    /**
     * The delete button of a drawn item: the item is deleted, and when it was
     * the one being edited the edit, selection, icon, colour and error are
     * cleared.  When the deletion throws, nothing else happens.
     */
    method DeleteClick(item: Item, store: Store) returns (outcome: Outcome)
      requires store.Valid()
      modifies this, store
      ensures store.Valid()
      ensures store.drawers == old(store.drawers)
      ensures item.id !in old(store.items) ==> outcome.Thrown? && State() == old(State()) && StoreUnchanged(store)
      ensures item.id in old(store.items) ==> outcome == Done && store.items == old(store.items) - {item.id}
      ensures outcome == Done && old(EditingId()) == Some(item.id) ==>
                State() == old(State()).(editingItem := None, selection := None, icon := None, color := None, error := "")
      ensures outcome == Done && old(EditingId()) != Some(item.id) ==> State() == old(State())
    {
      outcome := store.DeleteItem(item.id);
      if outcome.Done? && EditingId() == Some(item.id) {
        editingItem := None;
        selection := None;
        icon := None;
        color := None;
        error := "";
      }
    }
  }
}
