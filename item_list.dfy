/**
 * The list view of app/ItemList.tsx: items that carry their drawer record,
 * filtered by a search term and grouped by drawer id in a dictionary built
 * up one item at a time.
 */
module ItemList {
  import opened Prelude
  import opened JsText
  import opened Records

  /** An item row with its joined drawer record, which may be missing. */
  datatype Listed = Listed(item: Item, owner: Option<Drawer>)

  /** One entry of `groupedItems`: a copy of the drawer record and its items in input order. */
  datatype Group = Group(drawer: Drawer, items: seq<Listed>)

  /** The item's name or its drawer's name contains the term, ignoring case. */
  predicate Included(x: Listed, searchTerm: string)
    requires x.owner.Some?
  {
    MatchesSearch(x.item.name, searchTerm) || MatchesSearch(x.owner.value.name, searchTerm)
  }

  /** `x` has a drawer with id `d` and passes the search. */
  predicate Belongs(x: Listed, searchTerm: string, d: int) {
    x.owner.Some? && x.owner.value.id == d && Included(x, searchTerm)
  }

  /** The items of group `d`, in input order. */
  function InGroup(items: seq<Listed>, searchTerm: string, d: int): (r: seq<Listed>)
    ensures IsSubsequence(r, items)
    ensures forall x :: x in r <==> x in items && Belongs(x, searchTerm, d)
    ensures forall i :: 0 <= i < |r| ==> Belongs(r[i], searchTerm, d)
  {
    if items == [] then []
    else
      var rest := InGroup(items[1..], searchTerm, d);
      assert forall x :: x in items <==> x == items[0] || x in items[1..];
      if Belongs(items[0], searchTerm, d) then
        assert ([items[0]] + rest)[1..] == rest;
        [items[0]] + rest
      else rest
  }

  /** Group `d` keeps every item that belongs to it as many times as it occurs, and no other item. */
  lemma {:induction false} InGroupCounts(items: seq<Listed>, searchTerm: string, d: int)
    ensures forall x :: multiset(InGroup(items, searchTerm, d))[x]
                     == if Belongs(x, searchTerm, d) then multiset(items)[x] else 0
  {
    if items != [] {
      InGroupCounts(items[1..], searchTerm, d);
      assert items == [items[0]] + items[1..];
      var rest := InGroup(items[1..], searchTerm, d);
      assert InGroup(items, searchTerm, d) == if Belongs(items[0], searchTerm, d) then [items[0]] + rest else rest;
    }
  }

  /** Appending an item appends it to its own group and to no other. */
  lemma {:induction false} InGroupSnoc(items: seq<Listed>, x: Listed, searchTerm: string, d: int)
    ensures InGroup(items + [x], searchTerm, d)
         == InGroup(items, searchTerm, d) + (if Belongs(x, searchTerm, d) then [x] else [])
  {
    if items == [] {
      assert [] + [x] == [x];
      assert [x][1..] == [];
    } else {
      assert (items + [x])[1..] == items[1..] + [x];
      InGroupSnoc(items[1..], x, searchTerm, d);
    }
  }

  /** `groups` holds exactly the groups of `items`: one per drawer id with an included item. */
  ghost predicate Grouped(groups: map<int, Group>, items: seq<Listed>, searchTerm: string) {
    && (forall d :: d in groups <==> InGroup(items, searchTerm, d) != [])
    && (forall d :: d in groups ==>
          groups[d] == Group(InGroup(items, searchTerm, d)[0].owner.value, InGroup(items, searchTerm, d)))
  }

  /**
   * The reduce callback: an item with a drawer that passes the search is
   * pushed onto its drawer's group, which is first created from the item's
   * drawer record when missing; any other item leaves the dictionary alone.
   */
  function Reduced(acc: map<int, Group>, x: Listed, searchTerm: string): (r: map<int, Group>)
    ensures forall d :: d in r <==> d in acc || Belongs(x, searchTerm, d)
    ensures forall d :: d in r ==>
              r[d].items == (if d in acc then acc[d].items else []) + (if Belongs(x, searchTerm, d) then [x] else [])
    ensures forall d :: d in r && d in acc ==> r[d].drawer == acc[d].drawer
    ensures forall d :: d in r && d !in acc ==> x.owner == Some(r[d].drawer)
  {
    if x.owner.Some? && Included(x, searchTerm) then
      var id := x.owner.value.id;
      var g := if id in acc then acc[id] else Group(x.owner.value, []);
      acc[id := g.(items := g.items + [x])]
    else acc
  }

  /** The reduce over `items`, from the empty dictionary. */
  function GroupsOf(items: seq<Listed>, searchTerm: string): (r: map<int, Group>)
    ensures forall d :: d in r ==>
              && r[d].drawer.id == d && r[d].items != []
              && forall i :: 0 <= i < |r[d].items| ==> Belongs(r[d].items[i], searchTerm, d)
  {
    if items == [] then map[]
    else Reduced(GroupsOf(items[..|items| - 1], searchTerm), items[|items| - 1], searchTerm)
  }

  /** One step of the reduce keeps the dictionary in step with the items seen so far. */
  lemma GroupedStep(before: map<int, Group>, items: seq<Listed>, x: Listed, searchTerm: string)
    requires Grouped(before, items, searchTerm)
    ensures Grouped(Reduced(before, x, searchTerm), items + [x], searchTerm)
  {
    var after := Reduced(before, x, searchTerm);
    forall d
      ensures d in after <==> InGroup(items + [x], searchTerm, d) != []
      ensures d in after ==>
                after[d] == Group(InGroup(items + [x], searchTerm, d)[0].owner.value,
                                  InGroup(items + [x], searchTerm, d))
    {
      InGroupSnoc(items, x, searchTerm, d);
      if Belongs(x, searchTerm, d) {
        if d !in before {
          assert InGroup(items, searchTerm, d) == [];
          assert [] + [x] == [x];
        }
      }
    }
  }

  /**
   * A group exists exactly for the drawer ids with at least one included
   * item; it copies the drawer record of the first such item and lists those
   * items in input order.
   */
  lemma {:induction false} GroupsOfGrouped(items: seq<Listed>, searchTerm: string)
    ensures Grouped(GroupsOf(items, searchTerm), items, searchTerm)
  {
    if items != [] {
      var prefix, last := items[..|items| - 1], items[|items| - 1];
      assert prefix + [last] == items;
      GroupsOfGrouped(prefix, searchTerm);
      GroupedStep(GroupsOf(prefix, searchTerm), prefix, last, searchTerm);
    }
  }

  /** `groupedItems`: the reduce over `items`, one item at a time. */
  method GroupItems(items: seq<Listed>, searchTerm: string) returns (groups: map<int, Group>)
    ensures groups == GroupsOf(items, searchTerm)
    ensures Grouped(groups, items, searchTerm)
  {
    groups := map[];
    var k := 0;
    while k < |items|
      invariant 0 <= k <= |items|
      invariant groups == GroupsOf(items[..k], searchTerm)
    {
      var item := items[k];
      assert items[..k + 1][..k] == items[..k];
      assert GroupsOf(items[..k + 1], searchTerm) == Reduced(groups, item, searchTerm);
      if item.owner.Some? && Included(item, searchTerm) {
        var id := item.owner.value.id;
        if id !in groups {
          groups := groups[id := Group(item.owner.value, [])];
        }
        groups := groups[id := groups[id].(items := groups[id].items + [item])];
      }
      k := k + 1;
    }
    assert items[..|items|] == items;
    GroupsOfGrouped(items, searchTerm);
  }

  /** With an empty search every item that has a drawer lands in its drawer's group. */
  lemma EmptySearchGroupsAll(items: seq<Listed>, x: Listed)
    requires x in items && x.owner.Some?
    ensures x in InGroup(items, "", x.owner.value.id)
  {
    EmptySearchMatches(x.item.name);
  }
}
