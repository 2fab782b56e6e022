/**
 * The server actions of app/actions.ts: reading a submitted form, checking
 * the required fields, building the record to store, and the store itself
 * (the database behind it is abstracted as two maps keyed by id).
 */
module Actions {
  import opened Prelude
  import opened JsText
  import opened JsNumber
  import opened Records

  /** A submitted `FormData`: each field name with its text value. */
  type FormData = map<string, string>

  /** `formData.get(key)`: the field's text, or `null`. */
  function Get(form: FormData, key: string): (v: Option<string>)
    ensures v.Some? <==> key in form
    ensures v.Some? ==> v.value == form[key]
  {
    if key in form then Some(form[key]) else None
  }

  /** `!value` for a text read from the form: it is `null` or empty. */
  predicate MissingText(v: Option<string>) {
    v.None? || v.value == ""
  }

  /** The optional `position` argument of `addItem`; each coordinate may be absent. */
  datatype ItemPosition = ItemPosition(row: Option<int>, col: Option<int>)

  /** The optional `size` argument of `addItem`; each extent may be absent. */
  datatype ItemSize = ItemSize(width: Option<int>, depth: Option<int>, height: Option<int>)

  /** The record `addItem` hands to the store. */
  datatype ItemData = ItemData(
    name: string,
    drawerId: int,
    drawerStartRow: int,
    drawerStartColumn: int,
    itemWidth: int,
    itemDepth: int,
    itemHeight: int,
    startHeight: int,
    icon: Option<string>,
    color: Option<string>)

  /** The fields `updateItem` writes. */
  datatype ItemChanges = ItemChanges(
    name: string,
    startHeight: int,
    itemHeight: int,
    icon: Option<string>,
    color: Option<string>)

  /** The record `addDrawer` hands to the store. */
  datatype DrawerData = DrawerData(name: string, drawerWidth: int, drawerDepth: int, drawerHeight: int)

  /** A value, or the message of the `Error` that was thrown instead. */
  datatype Result<T> = Ok(value: T) | Err(message: string)

  /** What a call that returns nothing ends with: normally, or by throwing an `Error`. */
  datatype Outcome = Done | Thrown(message: string)

  const NameAndDrawerRequired := "Name and drawer are required"
  const FailedToAddItem := "Failed to add item"
  const NameRequired := "Name is required"
  const InvalidStartHeight := "Invalid start height"
  const InvalidItemHeight := "Invalid item height"
  /** Stands for the message of the error the database raises when the id to update is absent. */
  const RecordToUpdateNotFound := "Record to update not found."
  const FailedToDeleteItem := "Failed to delete item"
  const DrawerFieldsRequired := "Name, width, depth and height are required"

  /** The form fields `addItem` reads; nothing else in the form matters to it. */
  const AddItemFields: set<string> := {"name", "drawerId", "startHeight", "icon", "color"}

  /** `v ?? 1`. */
  function OrDefault(v: Option<int>): int {
    if v.Some? then v.value else 1
  }

  /** The stored `icon`/`color`: the submitted text when it is a non-empty string, otherwise `null`. */
  function StoredText(v: Option<string>): Option<string> {
    if v.Some? && v.value != "" then v else None
  }

  /** Validation and record construction of `addItem`. */
  function AddItemData(form: FormData, position: Option<ItemPosition>, size: Option<ItemSize>): (r: Result<ItemData>)
    ensures r.Err? ==> r.message == NameAndDrawerRequired
    ensures r.Ok? ==> && Get(form, "name") == Some(r.value.name) && r.value.name != ""
                      && ToNumber(Get(form, "drawerId")) == Int(r.value.drawerId) && r.value.drawerId != 0
                      && r.value.startHeight != 0
  {
    var name := Get(form, "name");
    var drawerId := ToNumber(Get(form, "drawerId"));
    if MissingText(name) || !Truthy(drawerId) then
      Err(NameAndDrawerRequired)
    else
      Ok(ItemData(
        name.value,
        drawerId.value,
        OrDefault(if position.Some? then position.value.row else None),
        OrDefault(if position.Some? then position.value.col else None),
        OrDefault(if size.Some? then size.value.width else None),
        OrDefault(if size.Some? then size.value.depth else None),
        OrDefault(if size.Some? then size.value.height else None),
        OrOne(ToNumber(Get(form, "startHeight"))),
        StoredText(Get(form, "icon")),
        StoredText(Get(form, "color"))))
  }

  /** Validation and record construction of `updateItem`. */
  function UpdateItemChanges(form: FormData): (r: Result<ItemChanges>)
    ensures r.Err? ==> r.message == NameRequired || r.message == InvalidStartHeight || r.message == InvalidItemHeight
    ensures r.Ok? ==> Get(form, "name") == Some(r.value.name) && r.value.name != ""
  {
    var name := Get(form, "name");
    var startHeight := ToNumber(Get(form, "startHeight"));
    var itemHeight := ToNumber(Get(form, "itemHeight"));
    if MissingText(name) then Err(NameRequired)
    else if startHeight.NaN? then Err(InvalidStartHeight)
    else if itemHeight.NaN? then Err(InvalidItemHeight)
    else Ok(ItemChanges(name.value, startHeight.value, itemHeight.value,
                        StoredText(Get(form, "icon")), StoredText(Get(form, "color"))))
  }

  /** Validation and record construction of `addDrawer`. */
  function AddDrawerData(form: FormData): (r: Result<DrawerData>)
    ensures r.Err? ==> r.message == DrawerFieldsRequired
    ensures r.Ok? ==> && Get(form, "name") == Some(r.value.name) && r.value.name != ""
                      && r.value.drawerWidth != 0 && r.value.drawerDepth != 0 && r.value.drawerHeight != 0
  {
    var name := Get(form, "name");
    var width := ToNumber(Get(form, "width"));
    var depth := ToNumber(Get(form, "depth"));
    var height := ToNumber(Get(form, "height"));
    if MissingText(name) || !Truthy(width) || !Truthy(depth) || !Truthy(height) then
      Err(DrawerFieldsRequired)
    else
      Ok(DrawerData(name.value, width.value, depth.value, height.value))
  }

  /** The stored row created from `data` under the id the store assigns. */
  function NewItem(id: int, data: ItemData): Item {
    Item(id, data.name, data.drawerId, data.drawerStartRow, data.drawerStartColumn,
         data.itemWidth, data.itemDepth, data.itemHeight, data.startHeight, data.icon, data.color)
  }

  /** The stored row after `updateItem` wrote `changes` into it. */
  function ApplyChanges(item: Item, changes: ItemChanges): Item {
    item.(name := changes.name, startHeight := changes.startHeight, itemHeight := changes.itemHeight,
          icon := changes.icon, color := changes.color)
  }

  /** `addItem` throws exactly when the name is missing or empty or the drawer id is 0 or NaN. */
  lemma AddItemRejects(form: FormData, position: Option<ItemPosition>, size: Option<ItemSize>)
    ensures AddItemData(form, position, size).Err?
            <==> MissingText(Get(form, "name")) || !Truthy(ToNumber(Get(form, "drawerId")))
    ensures AddItemData(form, position, size).Err? ==>
              AddItemData(form, position, size).message == NameAndDrawerRequired
  {
  }

  /**
   * An accepted `addItem` keeps the name and the drawer id, defaults a missing,
   * zero or NaN start height to 1 and every absent coordinate or extent to 1.
   */
  lemma AddItemDefaults(form: FormData, position: Option<ItemPosition>, size: Option<ItemSize>)
    requires AddItemData(form, position, size).Ok?
    ensures var d := AddItemData(form, position, size).value;
      && Get(form, "name") == Some(d.name) && d.name != ""
      && ToNumber(Get(form, "drawerId")) == Int(d.drawerId) && d.drawerId != 0
      && d.startHeight != 0
      && (Truthy(ToNumber(Get(form, "startHeight"))) ==> Int(d.startHeight) == ToNumber(Get(form, "startHeight")))
      && (!Truthy(ToNumber(Get(form, "startHeight"))) ==> d.startHeight == 1)
      && (position.None? ==> d.drawerStartRow == 1 && d.drawerStartColumn == 1)
      && (size.None? ==> d.itemWidth == 1 && d.itemDepth == 1 && d.itemHeight == 1)
      && (position.Some? && position.value.row.Some? ==> d.drawerStartRow == position.value.row.value)
      && (position.Some? && position.value.col.Some? ==> d.drawerStartColumn == position.value.col.value)
      && (size.Some? && size.value.width.Some? ==> d.itemWidth == size.value.width.value)
      && (size.Some? && size.value.depth.Some? ==> d.itemDepth == size.value.depth.value)
      && (size.Some? && size.value.height.Some? ==> d.itemHeight == size.value.height.value)
  {
  }

  /**
   * `addItem` reads only `name`, `drawerId`, `startHeight`, `icon` and `color`
   * from the form: two forms that agree on those give the same record, so
   * geometry fields such as `drawerStartRow` or `itemWidth` in the form are ignored.
   */
  lemma AddItemIgnoresOtherFields(f1: FormData, f2: FormData, position: Option<ItemPosition>, size: Option<ItemSize>)
    requires forall k :: k in AddItemFields ==> Get(f1, k) == Get(f2, k)
    ensures AddItemData(f1, position, size) == AddItemData(f2, position, size)
  {
    assert "name" in AddItemFields && "drawerId" in AddItemFields && "startHeight" in AddItemFields;
    assert "icon" in AddItemFields && "color" in AddItemFields;
  }

  /** The record `addItem` builds from a form whose name and drawer id are known to pass. */
  lemma AddItemRecord(form: FormData, position: Option<ItemPosition>, size: Option<ItemSize>, name: string, drawerId: int)
    requires Get(form, "name") == Some(name) && name != ""
    requires ToNumber(Get(form, "drawerId")) == Int(drawerId) && drawerId != 0
    ensures AddItemData(form, position, size) == Ok(ItemData(
              name, drawerId,
              OrDefault(if position.Some? then position.value.row else None),
              OrDefault(if position.Some? then position.value.col else None),
              OrDefault(if size.Some? then size.value.width else None),
              OrDefault(if size.Some? then size.value.depth else None),
              OrDefault(if size.Some? then size.value.height else None),
              OrOne(ToNumber(Get(form, "startHeight"))),
              StoredText(Get(form, "icon")),
              StoredText(Get(form, "color"))))
  {
  }

  /** An empty or absent icon/color is stored as `null`; any other text verbatim. */
  lemma StoredTextKeepsNonEmpty(v: Option<string>)
    ensures StoredText(v).Some? <==> v.Some? && v.value != ""
    ensures StoredText(v).Some? ==> StoredText(v) == v
  {
  }

  /**
   * `updateItem` throws for an empty name, then for a NaN start height, then
   * for a NaN item height; any other numbers, zero and negative ones included,
   * are accepted.
   */
  lemma UpdateItemRejects(form: FormData)
    ensures var r := UpdateItemChanges(form);
      && (MissingText(Get(form, "name")) ==> r == Err(NameRequired))
      && (!MissingText(Get(form, "name")) && ToNumber(Get(form, "startHeight")).NaN? ==> r == Err(InvalidStartHeight))
      && ((!MissingText(Get(form, "name")) && !ToNumber(Get(form, "startHeight")).NaN?
           && ToNumber(Get(form, "itemHeight")).NaN?) ==> r == Err(InvalidItemHeight))
      && (r.Ok? <==> !MissingText(Get(form, "name")) && ToNumber(Get(form, "startHeight")).Int?
                     && ToNumber(Get(form, "itemHeight")).Int?)
      && (r.Ok? ==> Int(r.value.startHeight) == ToNumber(Get(form, "startHeight"))
                    && Int(r.value.itemHeight) == ToNumber(Get(form, "itemHeight")))
  {
  }

  /** A form without start and item heights is accepted by `updateItem` with both read as 0. */
  lemma UpdateItemAcceptsMissingHeights()
    ensures UpdateItemChanges(map["name" := "Screws"]) == Ok(ItemChanges("Screws", 0, 0, None, None))
  {
  }

  /** `updateItem` leaves the id, the drawer, the position, the width and the depth as they were. */
  lemma ApplyChangesKeepsPlacement(item: Item, changes: ItemChanges)
    ensures var u := ApplyChanges(item, changes);
      && u.id == item.id && u.drawerId == item.drawerId
      && u.drawerStartRow == item.drawerStartRow && u.drawerStartColumn == item.drawerStartColumn
      && u.itemWidth == item.itemWidth && u.itemDepth == item.itemDepth
      && u.name == changes.name && u.startHeight == changes.startHeight && u.itemHeight == changes.itemHeight
      && u.icon == changes.icon && u.color == changes.color
  {
  }

  /** `addDrawer` throws exactly when the name is missing or empty or a dimension is 0 or NaN. */
  lemma AddDrawerRejects(form: FormData)
    ensures AddDrawerData(form).Err? <==>
      MissingText(Get(form, "name")) || !Truthy(ToNumber(Get(form, "width")))
      || !Truthy(ToNumber(Get(form, "depth"))) || !Truthy(ToNumber(Get(form, "height")))
    ensures AddDrawerData(form).Ok? ==>
      var d := AddDrawerData(form).value;
      d.drawerWidth != 0 && d.drawerDepth != 0 && d.drawerHeight != 0
      && ToNumber(Get(form, "width")) == Int(d.drawerWidth)
      && ToNumber(Get(form, "depth")) == Int(d.drawerDepth)
      && ToNumber(Get(form, "height")) == Int(d.drawerHeight)
  {
  }

  /**
   * Any non-empty name with non-zero dimensions sent as their `toString()` is
   * accepted by `addDrawer` unchanged: nothing rejects a negative dimension.
   */
  lemma AddDrawerAcceptsNonZero(name: string, width: int, depth: int, height: int)
    requires name != "" && width != 0 && depth != 0 && height != 0
    ensures AddDrawerData(map["name" := name, "width" := IntToString(width),
                              "depth" := IntToString(depth), "height" := IntToString(height)])
            == Ok(DrawerData(name, width, depth, height))
  {
    var form := map["name" := name, "width" := IntToString(width),
                     "depth" := IntToString(depth), "height" := IntToString(height)];
    assert Get(form, "name") == Some(name);
    assert Get(form, "width") == Some(IntToString(width));
    assert Get(form, "depth") == Some(IntToString(depth));
    assert Get(form, "height") == Some(IntToString(height));
    ToNumberOfToString(width);
    ToNumberOfToString(depth);
    ToNumberOfToString(height);
    AddDrawerAccepts(form, name, width, depth, height);
  }

  /** A form whose name and three dimensions pass is turned into exactly those values. */
  lemma AddDrawerAccepts(form: FormData, name: string, width: int, depth: int, height: int)
    requires Get(form, "name") == Some(name) && name != ""
    requires ToNumber(Get(form, "width")) == Int(width) && width != 0
    requires ToNumber(Get(form, "depth")) == Int(depth) && depth != 0
    requires ToNumber(Get(form, "height")) == Int(height) && height != 0
    ensures AddDrawerData(form) == Ok(DrawerData(name, width, depth, height))
  {
  }

  /**
   * The record store behind the actions.  Ids are assigned in increasing order;
   * an item may only name an existing drawer.
   */
  class Store {
    var drawers: map<int, Drawer>
    var items: map<int, Item>
    var nextDrawerId: int
    var nextItemId: int

    ghost predicate Valid()
      reads this
    {
      && nextDrawerId >= 1 && nextItemId >= 1
      && (forall id :: id in drawers ==> 1 <= id < nextDrawerId && drawers[id].id == id)
      && (forall id :: id in items ==> 1 <= id < nextItemId && items[id].id == id)
    }

    constructor ()
      ensures Valid()
      ensures drawers == map[] && items == map[]
    {
      drawers, items := map[], map[];
      nextDrawerId, nextItemId := 1, 1;
    }

    /** `addItem(formData, position, size)`. */
    method AddItem(form: FormData, position: Option<ItemPosition>, size: Option<ItemSize>) returns (outcome: Outcome)
      requires Valid()
      modifies this
      ensures Valid()
      ensures drawers == old(drawers) && nextDrawerId == old(nextDrawerId)
      ensures AddItemData(form, position, size).Err? ==>
                outcome == Thrown(NameAndDrawerRequired) && items == old(items) && nextItemId == old(nextItemId)
      ensures AddItemData(form, position, size).Ok? && AddItemData(form, position, size).value.drawerId !in old(drawers) ==>
                outcome == Thrown(FailedToAddItem) && items == old(items) && nextItemId == old(nextItemId)
      ensures AddItemData(form, position, size).Ok? && AddItemData(form, position, size).value.drawerId in old(drawers) ==>
                && outcome == Done
                && old(nextItemId) !in old(items)
                && items == old(items)[old(nextItemId) := NewItem(old(nextItemId), AddItemData(form, position, size).value)]
                && nextItemId == old(nextItemId) + 1
    {
      var data := AddItemData(form, position, size);
      if data.Err? {
        return Thrown(data.message);
      }
      outcome := CreateItem(data.value);
    }

    /** `prisma.item.create`: refused when the drawer does not exist, else stored under the next id. */
    method CreateItem(data: ItemData) returns (outcome: Outcome)
      requires Valid()
      modifies this
      ensures Valid()
      ensures drawers == old(drawers) && nextDrawerId == old(nextDrawerId)
      ensures data.drawerId !in old(drawers) ==>
                outcome == Thrown(FailedToAddItem) && items == old(items) && nextItemId == old(nextItemId)
      ensures data.drawerId in old(drawers) ==>
                && outcome == Done
                && old(nextItemId) !in old(items)
                && items == old(items)[old(nextItemId) := NewItem(old(nextItemId), data)]
                && nextItemId == old(nextItemId) + 1
    {
      if data.drawerId !in drawers {
        return Thrown(FailedToAddItem);
      }
      items := items[nextItemId := NewItem(nextItemId, data)];
      nextItemId := nextItemId + 1;
      outcome := Done;
    }

    /** `updateItem(itemId, formData)`. */
    method UpdateItem(itemId: int, form: FormData) returns (outcome: Outcome)
      requires Valid()
      modifies this
      ensures Valid()
      ensures drawers == old(drawers) && nextDrawerId == old(nextDrawerId) && nextItemId == old(nextItemId)
      ensures UpdateItemChanges(form).Err? ==>
                outcome == Thrown(UpdateItemChanges(form).message) && items == old(items)
      ensures UpdateItemChanges(form).Ok? && itemId !in old(items) ==>
                outcome == Thrown(RecordToUpdateNotFound) && items == old(items)
      ensures UpdateItemChanges(form).Ok? && itemId in old(items) ==>
                outcome == Done && items == old(items)[itemId := ApplyChanges(old(items)[itemId], UpdateItemChanges(form).value)]
    {
      var changes := UpdateItemChanges(form);
      if changes.Err? {
        return Thrown(changes.message);
      }
      if itemId !in items {
        return Thrown(RecordToUpdateNotFound);
      }
      items := items[itemId := ApplyChanges(items[itemId], changes.value)];
      outcome := Done;
    }

    /** `deleteItem(itemId)`. */
    method DeleteItem(itemId: int) returns (outcome: Outcome)
      requires Valid()
      modifies this
      ensures Valid()
      ensures drawers == old(drawers) && nextDrawerId == old(nextDrawerId) && nextItemId == old(nextItemId)
      ensures itemId !in old(items) ==> outcome == Thrown(FailedToDeleteItem) && items == old(items)
      ensures itemId in old(items) ==> outcome == Done && items == old(items) - {itemId}
    {
      if itemId !in items {
        return Thrown(FailedToDeleteItem);
      }
      items := items - {itemId};
      outcome := Done;
    }

    /** `addDrawer(formData)`. */
    method AddDrawer(form: FormData) returns (outcome: Outcome)
      requires Valid()
      modifies this
      ensures Valid()
      ensures items == old(items) && nextItemId == old(nextItemId)
      ensures AddDrawerData(form).Err? ==>
                outcome == Thrown(DrawerFieldsRequired) && drawers == old(drawers) && nextDrawerId == old(nextDrawerId)
      ensures AddDrawerData(form).Ok? ==>
                var d := AddDrawerData(form).value;
                && outcome == Done
                && old(nextDrawerId) !in old(drawers)
                && drawers == old(drawers)[old(nextDrawerId) := Drawer(old(nextDrawerId), d.name, d.drawerWidth, d.drawerDepth, d.drawerHeight)]
                && nextDrawerId == old(nextDrawerId) + 1
    {
      var data := AddDrawerData(form);
      if data.Err? {
        return Thrown(data.message);
      }
      CreateDrawer(data.value);
      outcome := Done;
    }

    /** `prisma.drawer.create`: the drawer is stored under the next id. */
    method CreateDrawer(d: DrawerData)
      requires Valid()
      modifies this
      ensures Valid()
      ensures items == old(items) && nextItemId == old(nextItemId)
      ensures old(nextDrawerId) !in old(drawers)
      ensures drawers == old(drawers)[old(nextDrawerId) := Drawer(old(nextDrawerId), d.name, d.drawerWidth, d.drawerDepth, d.drawerHeight)]
      ensures nextDrawerId == old(nextDrawerId) + 1
    {
      var drawer := Drawer(nextDrawerId, d.name, d.drawerWidth, d.drawerDepth, d.drawerHeight);
      assert drawer.id == nextDrawerId;
      drawers := drawers[nextDrawerId := drawer];
      nextDrawerId := nextDrawerId + 1;
    }
  }
}
