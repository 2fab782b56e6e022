/**
 * The inline "add item" line of app/AddLineItem.tsx: a name, a 1-based
 * position and a size, bounds-checked and handed to the parent's placeholder
 * callback on Enter or on the add button.
 */
module AddLineItem {
  import opened Prelude
  import opened JsText
  import opened Records

  /** The arguments `onAddPlaceholderItem` receives. */
  datatype PlaceholderCall = PlaceholderCall(
    drawerId: int,
    name: string,
    position: Position,
    size: Extent,
    icon: Option<string>,
    color: Option<string>)

  /**
   * The bounds check of `handleSubmit`: `1 <= row <= drawerHeight - height + 1`
   * and `1 <= col <= drawerWidth - width + 1`.  The row is measured against the
   * drawer's height, not its depth: an accepted column keeps the footprint
   * inside the drawer's width, but an accepted row only fits the height.
   */
  predicate LineFits(drawer: Drawer, position: Position, size: Extent)
    ensures LineFits(drawer, position, size) <==>
              && 1 <= position.row && position.row + size.height - 1 <= drawer.drawerHeight
              && 1 <= position.col && position.col + size.width - 1 <= drawer.drawerWidth
  {
    var maxRow := drawer.drawerHeight - size.height + 1;
    var maxCol := drawer.drawerWidth - size.width + 1;
    !(position.row < 1 || position.row > maxRow || position.col < 1 || position.col > maxCol)
  }

  /**
   * Because the row is checked against the height, a row past the drawer's
   * depth is accepted: in a drawer 2 rows deep and 5 levels tall, row 4 passes.
   */
  lemma RowNotCheckedAgainstDepth()
    ensures var drawer := Drawer(1, "Parts", 3, 2, 5);
            var position := Position(4, 1);
            var size := Extent(1, 1, 1);
            LineFits(drawer, position, size) && position.row + size.depth - 1 > drawer.drawerDepth
  {
  }

  /** The values of the line's state variables at one moment. */
  datatype Fields = Fields(
    isAdding: bool,
    name: string,
    position: Position,
    size: Extent,
    icon: Option<string>,
    color: Option<string>)

  /** The state on first render and after a placeholder was handed over. */
  const Closed := Fields(false, "", Position(1, 1), Extent(1, 1, 1), None, None)

  class AddLineState {
    const drawer: Drawer
    var isAdding: bool
    var name: string
    var position: Position
    var size: Extent
    var icon: Option<string>
    var color: Option<string>

    constructor (drawer: Drawer)
      ensures this.drawer == drawer && State() == Closed
    {
      this.drawer := drawer;
      isAdding, name, position, size, icon, color := false, "", Position(1, 1), Extent(1, 1, 1), None, None;
    }

    function State(): Fields
      reads this
    {
      Fields(isAdding, name, position, size, icon, color)
    }

    /** A click on the line opens the inputs. */
    method Open()
      modifies this
      ensures State() == old(State()).(isAdding := true)
    {
      isAdding := true;
    }

    /**
     * `handleSubmit`, from a key press (`key` is `Some`) or the add button
     * (`None`): any key but Enter, a position off the checked bounds and a
     * blank name each leave everything as it was; otherwise the callback gets
     * the drawer id and the untrimmed name, position, size, icon and colour,
     * and the line closes and clears.
     */
    method Submit(key: Option<string>) returns (call: Option<PlaceholderCall>)
      modifies this
      ensures key.Some? && key.value != "Enter" ==> call.None? && State() == old(State())
      ensures (key.None? || key.value == "Enter") && (!old(LineFits(drawer, position, size)) || Trim(old(name)) == "") ==>
                call.None? && State() == old(State())
      ensures (key.None? || key.value == "Enter") && old(LineFits(drawer, position, size)) && Trim(old(name)) != "" ==>
                && call == Some(PlaceholderCall(drawer.id, old(name), old(position), old(size), old(icon), old(color)))
                && State() == Closed
    {
      call := None;
      if key.Some? && key.value != "Enter" {
        return;
      }
      if !LineFits(drawer, position, size) {
        return;
      }
      if Trim(name) != "" {
        var placeholder := HandOver();
        call := Some(placeholder);
      }
    }

    /** The callback gets the line as entered, and the line closes and clears. */
    method HandOver() returns (call: PlaceholderCall)
      modifies this
      ensures call == PlaceholderCall(drawer.id, old(name), old(position), old(size), old(icon), old(color))
      ensures State() == Closed
    {
      call := PlaceholderCall(drawer.id, name, position, size, icon, color);
      isAdding, name, position, size, icon, color := false, "", Position(1, 1), Extent(1, 1, 1), None, None;
    }
  }
}
