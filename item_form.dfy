/**
 * The manual-entry form of app/ItemForm.tsx: a name, a drawer chosen from a
 * list, and a 1-based position and size checked against the drawer's floor
 * before `addItem` is called.
 */
module ItemForm {
  import opened Prelude
  import opened JsNumber
  import opened Records
  import opened Actions

  const PleaseFillInAllFields := "Please fill in all fields"
  const PleaseSelectADrawer := "Please select a drawer"
  const InvalidPositionForItemSize := "Invalid position for item size"

  /** `drawers.find((d) => d.id === id)`: the first drawer with that id. */
  function FindDrawer(drawers: seq<Drawer>, id: int): (r: Option<Drawer>)
    ensures r.None? <==> forall d :: d in drawers ==> d.id != id
    ensures r.Some? ==> exists k :: 0 <= k < |drawers| && drawers[k] == r.value && r.value.id == id
                                    && forall j :: 0 <= j < k ==> drawers[j].id != id
  {
    if drawers == [] then None
    else if drawers[0].id == id then Some(drawers[0])
    else
      var rest := FindDrawer(drawers[1..], id);
      assert forall d :: d in drawers <==> d == drawers[0] || d in drawers[1..];
      if rest.Some? then
        var k :| 0 <= k < |drawers[1..]| && drawers[1..][k] == rest.value && rest.value.id == id
                 && forall j :: 0 <= j < k ==> drawers[1..][j].id != id;
        assert drawers[k + 1] == rest.value && forall j :: 0 <= j < k + 1 ==> drawers[j].id != id;
        rest
      else rest
  }

  /**
   * The bounds check: `1 <= row <= drawerDepth - depth + 1` and
   * `1 <= col <= drawerWidth - width + 1`.  A position passes exactly when the
   * whole footprint lies on the drawer's floor.
   */
  predicate PositionFits(drawer: Drawer, position: Position, size: Extent)
    ensures PositionFits(drawer, position, size) <==>
              && 1 <= position.row && position.row + size.depth - 1 <= drawer.drawerDepth
              && 1 <= position.col && position.col + size.width - 1 <= drawer.drawerWidth
  {
    var maxRow := drawer.drawerDepth - size.depth + 1;
    var maxCol := drawer.drawerWidth - size.width + 1;
    !(position.row < 1 || position.row > maxRow || position.col < 1 || position.col > maxCol)
  }

  /** The form `handleAddItem` submits: name, drawer id, position and size, and no start height, icon or colour. */
  function ManualForm(name: string, drawerId: int, position: Position, size: Extent): FormData {
    map["name" := name, "drawerId" := IntToString(drawerId),
        "drawerStartRow" := IntToString(position.row), "drawerStartColumn" := IntToString(position.col),
        "itemWidth" := IntToString(size.width), "itemDepth" := IntToString(size.depth),
        "itemHeight" := IntToString(size.height)]
  }

  /**
   * `addItem` is called without its position and size arguments, so whatever
   * position and size the form checked, the stored item starts at (1, 1), is
   * 1 by 1 by 1 and sits at level 1, without icon or colour.
   */
  lemma ManualFormStoresDefaults(name: string, drawerId: int, position: Position, size: Extent)
    requires name != "" && drawerId != 0
    ensures AddItemData(ManualForm(name, drawerId, position, size), None, None)
         == Ok(ItemData(name, drawerId, 1, 1, 1, 1, 1, 1, None, None))
  {
    var form := ManualForm(name, drawerId, position, size);
    ManualFormFields(name, drawerId, position, size);
    ManualFormOmits(name, drawerId, position, size);
    ToNumberOfToString(drawerId);
    AddItemRecord(form, None, None, name, drawerId);
  }

  /** What `addItem` reads from the manual form: the name and the drawer id as text. */
  lemma ManualFormFields(name: string, drawerId: int, position: Position, size: Extent)
    ensures var form := ManualForm(name, drawerId, position, size);
      && Get(form, "name") == Some(name)
      && Get(form, "drawerId") == Some(IntToString(drawerId))
  {
  }

  /** The manual form has no start height, icon or colour field. */
  lemma ManualFormOmits(name: string, drawerId: int, position: Position, size: Extent)
    ensures var form := ManualForm(name, drawerId, position, size);
      && Get(form, "startHeight") == None && Get(form, "icon") == None && Get(form, "color") == None
  {
    assert |"startHeight"| == 11 && |"color"| == 5 && "icon"[0] == 'i';
  }

  /** The values of the form's state variables at one moment. */
  datatype Fields = Fields(newItemName: string, selectedDrawerId: Option<int>, position: Position, size: Extent, error: string)

  /** The state after a successful submit, and on first render. */
  const Cleared := Fields("", None, Position(1, 1), Extent(1, 1, 1), "")

  class ItemFormState {
    const drawers: seq<Drawer>
    var newItemName: string
    var selectedDrawerId: Option<int>
    var position: Position
    var size: Extent
    var error: string

    constructor (drawers: seq<Drawer>)
      ensures this.drawers == drawers && State() == Cleared
    {
      this.drawers := drawers;
      newItemName, selectedDrawerId, position, size, error := "", None, Position(1, 1), Extent(1, 1, 1), "";
    }

    function State(): Fields
      reads this
    {
      Fields(newItemName, selectedDrawerId, position, size, error)
    }

    /** `selectedDrawer`. */
    function SelectedDrawer(): Option<Drawer>
      reads this
    {
      if selectedDrawerId.Some? then FindDrawer(drawers, selectedDrawerId.value) else None
    }

    /** Every check of `handleAddItem` passes, so `addItem` is called. */
    predicate Submits()
      reads this
    {
      && newItemName != "" && selectedDrawerId.Some? && SelectedDrawer().Some?
      && PositionFits(SelectedDrawer().value, position, size)
    }

    /** What `addItem` makes of the form `handleAddItem` submits in the current state. */
    function Submitted(): Result<ItemData>
      requires selectedDrawerId.Some?
      reads this
    {
      AddItemData(ManualForm(newItemName, selectedDrawerId.value, position, size), None, None)
    }

    twostate predicate StoreUnchanged(store: Store)
      reads store
    {
      && store.drawers == old(store.drawers) && store.items == old(store.items)
      && store.nextDrawerId == old(store.nextDrawerId) && store.nextItemId == old(store.nextItemId)
    }

    /** The outcome of `addItem` on a submitted form: its error, or the stored item and a cleared form. */
    twostate predicate Added(store: Store, data: Result<ItemData>)
      reads this, store
    {
      && (data.Err? ==> State() == old(State()).(error := data.message) && StoreUnchanged(store))
      && (data.Ok? && data.value.drawerId !in old(store.drawers) ==>
            State() == old(State()).(error := FailedToAddItem) && StoreUnchanged(store))
      && (data.Ok? && data.value.drawerId in old(store.drawers) ==>
            && State() == Cleared
            && store.items == old(store.items)[old(store.nextItemId) := NewItem(old(store.nextItemId), data.value)]
            && store.nextItemId == old(store.nextItemId) + 1
            && store.drawers == old(store.drawers) && store.nextDrawerId == old(store.nextDrawerId))
    }

    /**
     * `handleAddItem`: an empty name or no chosen drawer, an id no drawer has,
     * and a footprint off the drawer's floor each set their message and stop;
     * otherwise the form goes to `addItem`.
     */
    method AddItem(store: Store)
      requires store.Valid()
      modifies this, store
      ensures store.Valid()
      ensures old(newItemName) == "" || old(selectedDrawerId).None? ==>
                State() == old(State()).(error := PleaseFillInAllFields) && StoreUnchanged(store)
      ensures old(newItemName) != "" && old(selectedDrawerId).Some? && old(SelectedDrawer()).None? ==>
                State() == old(State()).(error := PleaseSelectADrawer) && StoreUnchanged(store)
      ensures && old(newItemName) != "" && old(selectedDrawerId).Some? && old(SelectedDrawer()).Some?
              && !old(PositionFits(SelectedDrawer().value, position, size)) ==>
                State() == old(State()).(error := InvalidPositionForItemSize) && StoreUnchanged(store)
      ensures old(Submits()) ==> Added(store, old(Submitted()))
    {
      if newItemName != "" && selectedDrawerId.Some? {
        var selectedDrawer := SelectedDrawer();
        if selectedDrawer.None? {
          error := PleaseSelectADrawer;
          return;
        }
        if !PositionFits(selectedDrawer.value, position, size) {
          error := InvalidPositionForItemSize;
          return;
        }
        var form := ManualForm(newItemName, selectedDrawerId.value, position, size);
        SendAdd(store, form, Submitted());
      } else {
        error := PleaseFillInAllFields;
      }
    }

    /** The `try` block of `handleAddItem`: the `addItem` call and what follows it. */
    method SendAdd(store: Store, form: FormData, data: Result<ItemData>)
      requires store.Valid()
      requires AddItemData(form, None, None) == data
      modifies this, store
      ensures store.Valid()
      ensures Added(store, data)
    {
      var outcome := store.AddItem(form, None, None);
      if outcome.Done? {
        Clear();
      } else {
        error := outcome.message;
      }
    }

    /** The form is reset after a successful add. */
    method Clear()
      modifies this
      ensures State() == Cleared
    {
      newItemName, selectedDrawerId, position, size, error := "", None, Position(1, 1), Extent(1, 1, 1), "";
    }
  }
}
