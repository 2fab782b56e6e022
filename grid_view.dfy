/**
 * The grid page of app/grid/GridView.tsx: one entry per drawer with that
 * drawer's items, and the search that keeps or drops whole entries.
 */
module GridView {
  import opened Prelude
  import opened JsText
  import opened Records

  /** One element of `drawerItems`. */
  datatype DrawerEntry = DrawerEntry(drawer: Drawer, items: seq<Item>)

  /** `items.filter((item) => item.drawerId === id)`. */
  function ItemsOf(items: seq<Item>, id: int): (r: seq<Item>)
    ensures IsSubsequence(r, items)
    ensures forall x :: x in r <==> x in items && x.drawerId == id
    ensures forall x :: multiset(r)[x] == if x.drawerId == id then multiset(items)[x] else 0
  {
    if items == [] then []
    else
      var rest := ItemsOf(items[1..], id);
      assert forall x :: x in items <==> x == items[0] || x in items[1..];
      assert items == [items[0]] + items[1..];
      if items[0].drawerId == id then
        assert ([items[0]] + rest)[1..] == rest;
        [items[0]] + rest
      else rest
  }

  /** `drawerItems`: each drawer, in the order given, with exactly its own items. */
  function DrawerItems(drawers: seq<Drawer>, items: seq<Item>): (r: seq<DrawerEntry>)
    ensures |r| == |drawers|
    ensures forall i :: 0 <= i < |r| ==> r[i].drawer == drawers[i] && r[i].items == ItemsOf(items, drawers[i].id)
  {
    if drawers == [] then []
    else [DrawerEntry(drawers[0], ItemsOf(items, drawers[0].id))] + DrawerItems(drawers[1..], items)
  }

  /** `items.some((item) => ...includes(...))`: some item's name contains the term, ignoring case. */
  function AnyNameMatches(items: seq<Item>, searchTerm: string): (b: bool)
    ensures b <==> exists x :: x in items && MatchesSearch(x.name, searchTerm)
  {
    if items == [] then false
    else
      assert forall x :: x in items <==> x == items[0] || x in items[1..];
      MatchesSearch(items[0].name, searchTerm) || AnyNameMatches(items[1..], searchTerm)
  }

  /** The filter's test: an item name or the drawer name contains the term. */
  predicate Kept(e: DrawerEntry, searchTerm: string) {
    AnyNameMatches(e.items, searchTerm) || MatchesSearch(e.drawer.name, searchTerm)
  }

  /** `filteredDrawerItems`: the entries the search keeps, whole and in order. */
  function FilteredDrawerItems(entries: seq<DrawerEntry>, searchTerm: string): (r: seq<DrawerEntry>)
    ensures IsSubsequence(r, entries)
    ensures forall e :: e in r <==> e in entries && Kept(e, searchTerm)
    ensures forall e :: multiset(r)[e] == if Kept(e, searchTerm) then multiset(entries)[e] else 0
  {
    if entries == [] then []
    else
      var rest := FilteredDrawerItems(entries[1..], searchTerm);
      assert forall e :: e in entries <==> e == entries[0] || e in entries[1..];
      assert entries == [entries[0]] + entries[1..];
      if Kept(entries[0], searchTerm) then
        assert ([entries[0]] + rest)[1..] == rest;
        [entries[0]] + rest
      else rest
  }

  /** A kept entry still lists every item of its drawer, matching or not. */
  lemma KeptEntryHasAllItems(drawers: seq<Drawer>, items: seq<Item>, searchTerm: string, e: DrawerEntry)
    requires e in FilteredDrawerItems(DrawerItems(drawers, items), searchTerm)
    ensures e.drawer in drawers && e.items == ItemsOf(items, e.drawer.id)
  {
    var entries := DrawerItems(drawers, items);
    var i :| 0 <= i < |entries| && entries[i] == e;
  }

  /** The empty search keeps every entry. */
  lemma {:induction false} EmptySearchKeepsAll(entries: seq<DrawerEntry>)
    ensures FilteredDrawerItems(entries, "") == entries
  {
    if entries != [] {
      EmptySearchKeepsAll(entries[1..]);
      EmptySearchMatches(entries[0].drawer.name);
      assert [entries[0]] + entries[1..] == entries;
    }
  }
}
