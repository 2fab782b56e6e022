/** The two stored record kinds: a drawer and an item placed in it. */
module Records {
  import opened Prelude

  /** A drawer: a grid of `drawerWidth` columns by `drawerDepth` rows, `drawerHeight` levels tall. */
  datatype Drawer = Drawer(
    id: int,
    name: string,
    drawerWidth: int,
    drawerDepth: int,
    drawerHeight: int)

  /**
   * An item.  `drawerStartRow` and `drawerStartColumn` are 1-based; the item
   * covers `itemDepth` rows, `itemWidth` columns and `itemHeight` height levels
   * from `startHeight` (1-based) upwards.
   */
  datatype Item = Item(
    id: int,
    name: string,
    drawerId: int,
    drawerStartRow: int,
    drawerStartColumn: int,
    itemWidth: int,
    itemDepth: int,
    itemHeight: int,
    startHeight: int,
    icon: Option<string>,
    color: Option<string>)

  /** A 1-based grid position as the manual-entry forms hold it. */
  datatype Position = Position(row: int, col: int)

  /** An item size as the manual-entry forms hold it. */
  datatype Extent = Extent(width: int, depth: int, height: int)
}
